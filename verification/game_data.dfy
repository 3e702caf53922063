/**
 * The constant content (src/data/gameData.ts): five groups of five items,
 * the instruction phrases and the random pick used on both.
 */
module GameData {
  import opened GameTypes

  /** No two items of a group share a name. */
  ghost predicate DistinctNames(items: seq<GameItem>) {
    forall i, j :: 0 <= i < |items| && 0 <= j < |items| && i != j ==> items[i].name != items[j].name
  }

  /** The content table: one group per level, in level order. */
  function SubLOs(): (t: seq<SubLO>)
    ensures |t| == 5
    ensures forall k :: 0 <= k < |t| ==> t[k].id == k + 1
    ensures forall k :: 0 <= k < |t| ==> |t[k].items| == 5
    ensures forall k :: 0 <= k < |t| ==> DistinctNames(t[k].items)
  {
    [BasicObjects(), NatureAndPlay(), PersonalItems(), MixedObjects(), MoreObjects()]
  }

  function BasicObjects(): (g: SubLO)
    ensures g.id == 1 && |g.items| == 5 && DistinctNames(g.items)
  {
    SubLO(1, "Basic Objects", [
      GameItem("House", "House"),
      GameItem("Butterfly", "Bug"),
      GameItem("Flower", "Flower2"),
      GameItem("Fish", "Fish"),
      GameItem("Bird", "Bird")])
  }

  function NatureAndPlay(): (g: SubLO)
    ensures g.id == 2 && |g.items| == 5 && DistinctNames(g.items)
  {
    SubLO(2, "Nature & Play", [
      GameItem("Leaf", "Tree"),
      GameItem("Car", "Truck"),
      GameItem("Dog", "Cat"),
      GameItem("Ball", "CircleDot"),
      GameItem("Tree", "Leaf")])
  }

  function PersonalItems(): (g: SubLO)
    ensures g.id == 3 && |g.items| == 5 && DistinctNames(g.items)
  {
    SubLO(3, "Personal Items", [
      GameItem("Shoes", "Shoe"),
      GameItem("Hat", "Crown"),
      GameItem("Book", "BookOpen"),
      GameItem("Cupcakes", "Cake"),
      GameItem("Shirt", "Shirt")])
  }

  function MixedObjects(): (g: SubLO)
    ensures g.id == 4 && |g.items| == 5 && DistinctNames(g.items)
  {
    SubLO(4, "Mixed Objects", [
      GameItem("Apple", "Grape"),
      GameItem("Clock", "Timer"),
      GameItem("Bike", "Bicycle"),
      GameItem("Camel", "Horse"),
      GameItem("Train", "Truck")])
  }

  function MoreObjects(): (g: SubLO)
    ensures g.id == 5 && |g.items| == 5 && DistinctNames(g.items)
  {
    SubLO(5, "More Objects", [
      GameItem("Grapes", "Apple"),
      GameItem("Chair", "Armchair"),
      GameItem("Truck", "Car"),
      GameItem("Elephant", "GanttChart"),
      GameItem("Doll", "Baby")])
  }

  /** The phrases that open a round's prompt. */
  function Instructions(): (phrases: seq<string>)
    ensures |phrases| == 3
    ensures forall k :: 0 <= k < |phrases| ==> phrases[k] != ""
  {
    ["Find", "Match the", "Put with"]
  }

  /**
   * The index getRandomItem reads: floor(r * n) for a draw r of
   * Math.random, which lies in [0, 1).
   */
  function RandomIndex(r: real, n: nat): (i: int)
    requires 0.0 <= r < 1.0
    ensures n > 0 ==> 0 <= i < n
    ensures n == 0 ==> i == 0
  {
    RandomScaleBelow(r, n);
    (r * n as real).Floor
  }

  lemma RandomScaleBelow(r: real, n: nat)
    requires 0.0 <= r < 1.0
    ensures 0.0 <= r * n as real
    ensures n > 0 ==> r * n as real < n as real
    ensures n == 0 ==> r * n as real == 0.0
  {
  }

  /**
   * Every index of a non-empty array is drawn by some r in [0, 1), so
   * choosing the index directly loses no behaviour of the random pick.
   */
  lemma RandomIndexReachable(n: nat, i: nat)
    requires i < n
    ensures exists r: real :: 0.0 <= r < 1.0 && RandomIndex(r, n) == i
  {
    var r := i as real / n as real;
    assert r * n as real == i as real;
    assert RandomIndex(r, n) == i;
  }

  /**
   * array[Math.floor(Math.random() * array.length)]: an element of the
   * array, or undefined (None) when the array is empty.
   */
  function GetRandomItem<T>(a: seq<T>, r: real): (x: Option<T>)
    requires 0.0 <= r < 1.0
    ensures x.Some? <==> |a| > 0
    ensures x.Some? ==> x.value in a
    ensures x.Some? ==> x.value == a[RandomIndex(r, |a|)]
  {
    if |a| == 0 then None else Some(a[RandomIndex(r, |a|)])
  }

  /** The prompt reads as an instruction phrase, a space, then the target's name. */
  function Prompt(r: real, targetName: string): (p: string)
    requires 0.0 <= r < 1.0
    ensures exists k :: 0 <= k < |Instructions()| && p == Instructions()[k] + " " + targetName
    ensures |p| > |targetName| + 1
    ensures p[|p| - |targetName|..] == targetName
  {
    var p := GetRandomItem(Instructions(), r).value + " " + targetName;
    assert p[|p| - |targetName|..] == targetName;
    p
  }
}
