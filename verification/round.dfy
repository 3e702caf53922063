/**
 * What setupRound computes (src/components/GameBoard.tsx:141-167): the
 * target, two other items of the group, the labels shown for the current
 * variation and the shuffled list of candidates.
 *
 * The two shuffles, sort(() => Math.random() - 0.5), are modelled by the
 * permutation they happen to produce, given as a sequence of indices.
 */
module GameRound {
  import opened GameTypes
  import opened GameData

  /** One object on the board: the item's name and the label it shows. */
  datatype Candidate = Candidate(name: string, display: string)

  /** Variation 1 shows an item's name; 2 and 3 show its similar name. */
  function Label(item: GameItem, v: Variation): (shown: string)
    ensures v == 1 ==> shown == item.name
    ensures v != 1 ==> shown == item.similar
  {
    if v == 1 then item.name else item.similar
  }

  /** Variations 2 and 3 show the same labels; variation 1 the names themselves. */
  lemma LabelByVariation(item: GameItem)
    ensures Label(item, 2) == Label(item, 3) == item.similar
    ensures Label(item, 1) == item.name
  {
  }

  function ToCandidate(item: GameItem, v: Variation): Candidate {
    Candidate(item.name, Label(item, v))
  }

  ghost predicate DistinctCandidateNames(c: seq<Candidate>) {
    forall i, j :: 0 <= i < |c| && 0 <= j < |c| && i != j ==> c[i].name != c[j].name
  }

  /**
   * objects.find(obj => obj.name === name): the first candidate with that
   * name, or undefined (None) when no candidate has it.
   */
  function FindByName(objects: seq<Candidate>, name: string): (r: Option<Candidate>)
    ensures r.Some? <==> exists c :: c in objects && c.name == name
    ensures r.Some? ==> exists i :: 0 <= i < |objects| && objects[i] == r.value && r.value.name == name
                          && forall j :: 0 <= j < i ==> objects[j].name != name
    decreases |objects|
  {
    if |objects| == 0 then None
    else if objects[0].name == name then Some(objects[0])
    else
      var r := FindByName(objects[1..], name);
      assert forall c :: c in objects && c != objects[0] ==> c in objects[1..];
      assert forall i :: 0 <= i < |objects| - 1 ==> objects[1..][i] == objects[i + 1];
      r
  }

  /** p lists every index below n exactly once. */
  ghost predicate IsPermutation(p: seq<nat>, n: nat) {
    && |p| == n
    && (forall i :: 0 <= i < n ==> p[i] < n)
    && (forall i, j :: 0 <= i < n && 0 <= j < n && i != j ==> p[i] != p[j])
    && (forall k :: 0 <= k < n ==> k in p)
  }

  /** The order a shuffle leaves s in: position i receives s[p[i]]. */
  function Permute<T(!new)>(s: seq<T>, p: seq<nat>): (r: seq<T>)
    requires IsPermutation(p, |s|)
    ensures |r| == |s|
    ensures multiset(r) == multiset(s)
    ensures forall x :: x in r <==> x in s
  {
    var r := seq(|s|, i requires 0 <= i < |s| => s[p[i]]);
    PermutedMultiset(s, p, r);
    forall x | x in s ensures x in r {
      assert x in multiset(s);
    }
    r
  }

  /**
   * Reading s through a permutation of its indices keeps every element as
   * often as it occurs: by induction, taking out the last entry of r and the
   * position of s it was read from.
   */
  lemma {:induction false} PermutedMultiset<T>(s: seq<T>, p: seq<nat>, r: seq<T>)
    requires IsPermutation(p, |s|)
    requires |r| == |s|
    requires forall i :: 0 <= i < |r| ==> r[i] == s[p[i]]
    ensures multiset(r) == multiset(s)
    decreases |s|
  {
    if |s| > 0 {
      var n := |s| - 1;
      var j := p[n];
      var s' := s[..j] + s[j + 1..];
      var p' := DropLast(p);
      DropLastPermutation(p);
      forall i | 0 <= i < n ensures r[..n][i] == s'[p'[i]] {
        assert p[i] != j;
      }
      PermutedMultiset(s', p', r[..n]);
      assert r == r[..n] + [s[j]];
      assert s == s[..j] + [s[j]] + s[j + 1..];
    }
  }

  /** A permutation with its last entry taken out, the indices above that entry shifted down. */
  function DropLast(p: seq<nat>): (q: seq<nat>)
    requires IsPermutation(p, |p|) && |p| > 0
    ensures |q| == |p| - 1
    ensures forall i :: 0 <= i < |q| ==> p[i] != p[|p| - 1]
    ensures forall i :: 0 <= i < |q| ==> q[i] == if p[i] < p[|p| - 1] then p[i] else p[i] - 1
  {
    var j := p[|p| - 1];
    seq(|p| - 1, i requires 0 <= i < |p| - 1 => if p[i] < j then p[i] else p[i] - 1)
  }

  lemma DropLastPermutation(p: seq<nat>)
    requires IsPermutation(p, |p|) && |p| > 0
    ensures IsPermutation(DropLast(p), |p| - 1)
  {
    var n, j, q := |p| - 1, p[|p| - 1], DropLast(p);
    forall k | 0 <= k < n ensures k in q {
      var k' := if k < j then k else k + 1;
      assert k' in p;
      var i :| 0 <= i < |p| && p[i] == k';
      assert i != n;
      assert q[i] == k;
    }
  }

  /**
   * items.filter(item => item !== targetItem): the comparison is by
   * object identity, so exactly the target's position is dropped.
   */
  function Without(items: seq<GameItem>, t: nat): (r: seq<GameItem>)
    requires t < |items|
    ensures |r| == |items| - 1
    ensures forall k :: 0 <= k < t ==> r[k] == items[k]
    ensures forall k :: t <= k < |r| ==> r[k] == items[k + 1]
  {
    items[..t] + items[t + 1..]
  }

  /** The position in items of entry i of the shuffled rest of the group. */
  function OtherIndex(t: nat, order: seq<nat>, i: nat): nat
    requires i < |order|
  {
    if order[i] < t then order[i] else order[i] + 1
  }

  lemma ShuffledRestAt(items: seq<GameItem>, t: nat, order: seq<nat>)
    requires t < |items|
    requires IsPermutation(order, |items| - 1)
    ensures forall i :: 0 <= i < |order| ==>
      OtherIndex(t, order, i) < |items| && OtherIndex(t, order, i) != t
      && Permute(Without(items, t), order)[i] == items[OtherIndex(t, order, i)]
  {
    var rest := Without(items, t);
    var shuffled := Permute(rest, order);
    assert forall i :: 0 <= i < |rest| ==> shuffled[i] == rest[order[i]];
  }

  /** x is the item at some position of the group other than t. */
  ghost predicate OtherItemOf(items: seq<GameItem>, t: nat, x: GameItem) {
    exists k :: 0 <= k < |items| && k != t && items[k] == x
  }

  /** The other items: the rest of the group, shuffled, cut to the first two. */
  function OtherItems(items: seq<GameItem>, t: nat, order: seq<nat>): (others: seq<GameItem>)
    requires t < |items|
    requires IsPermutation(order, |items| - 1)
    ensures |others| == Min(2, |items| - 1)
    ensures forall i :: 0 <= i < |others| ==> OtherItemOf(items, t, others[i])
  {
    ShuffledRestAt(items, t, order);
    var picked := Permute(Without(items, t), order)[..Min(2, |items| - 1)];
    forall i | 0 <= i < |picked| ensures OtherItemOf(items, t, picked[i]) {
      assert items[OtherIndex(t, order, i)] == picked[i];
    }
    picked
  }

  /**
   * The candidates of a round: the target first, then the other items,
   * each labelled for the variation, then shuffled for display.
   */
  function RoundCandidates(items: seq<GameItem>, v: Variation, t: nat,
                           otherOrder: seq<nat>, displayOrder: seq<nat>): (c: seq<Candidate>)
    requires t < |items|
    requires IsPermutation(otherOrder, |items| - 1)
    requires IsPermutation(displayOrder, Min(3, |items|))
    ensures |c| == Min(3, |items|)
    ensures ToCandidate(items[t], v) in c
    ensures forall i :: 0 <= i < |c| ==> exists k :: 0 <= k < |items| && c[i] == ToCandidate(items[k], v)
  {
    var others := OtherItems(items, t, otherOrder);
    var listed := [ToCandidate(items[t], v)] + seq(|others|, i requires 0 <= i < |others| => ToCandidate(others[i], v));
    var c := Permute(listed, displayOrder);
    forall i | 0 <= i < |c| ensures exists k :: 0 <= k < |items| && c[i] == ToCandidate(items[k], v) {
      assert c[i] in listed;
      var j :| 0 <= j < |listed| && listed[j] == c[i];
      if j > 0 {
        var k :| 0 <= k < |items| && k != t && others[j - 1] == items[k];
        assert c[i] == ToCandidate(items[k], v);
      } else {
        assert c[i] == ToCandidate(items[t], v);
      }
    }
    c
  }

  /** The position in items of the item behind candidate j. */
  function SourceIndex(t: nat, otherOrder: seq<nat>, displayOrder: seq<nat>, j: nat): nat
    requires j < |displayOrder|
    requires forall i :: 0 <= i < |displayOrder| ==> 0 < displayOrder[i] ==> displayOrder[i] - 1 < |otherOrder|
  {
    var m := displayOrder[j];
    if m == 0 then t else OtherIndex(t, otherOrder, m - 1)
  }

  lemma {:induction false} CandidatesAt(items: seq<GameItem>, v: Variation, t: nat,
                                        otherOrder: seq<nat>, displayOrder: seq<nat>)
    requires t < |items|
    requires IsPermutation(otherOrder, |items| - 1)
    requires IsPermutation(displayOrder, Min(3, |items|))
    ensures forall i :: 0 <= i < |displayOrder| ==> 0 < displayOrder[i] ==> displayOrder[i] - 1 < |otherOrder|
    ensures var c := RoundCandidates(items, v, t, otherOrder, displayOrder);
      forall j :: 0 <= j < |c| ==>
        SourceIndex(t, otherOrder, displayOrder, j) < |items|
        && c[j] == ToCandidate(items[SourceIndex(t, otherOrder, displayOrder, j)], v)
    ensures forall i, j :: 0 <= i < |displayOrder| && 0 <= j < |displayOrder| && i != j ==>
      SourceIndex(t, otherOrder, displayOrder, i) != SourceIndex(t, otherOrder, displayOrder, j)
    ensures forall j :: 0 <= j < |displayOrder| && displayOrder[j] != 0 ==>
      SourceIndex(t, otherOrder, displayOrder, j) != t
  {
    var c := RoundCandidates(items, v, t, otherOrder, displayOrder);
    var others := OtherItems(items, t, otherOrder);
    ShuffledRestAt(items, t, otherOrder);
    var listed := [ToCandidate(items[t], v)] + seq(|others|, i requires 0 <= i < |others| => ToCandidate(others[i], v));
    assert c == Permute(listed, displayOrder);
    forall j | 0 <= j < |c|
      ensures SourceIndex(t, otherOrder, displayOrder, j) < |items|
      ensures c[j] == ToCandidate(items[SourceIndex(t, otherOrder, displayOrder, j)], v)
    {
      assert c[j] == listed[displayOrder[j]];
    }
    forall i, j | 0 <= i < |displayOrder| && 0 <= j < |displayOrder| && i != j
      ensures SourceIndex(t, otherOrder, displayOrder, i) != SourceIndex(t, otherOrder, displayOrder, j)
    {
      var mi, mj := displayOrder[i], displayOrder[j];
      assert mi != mj;
      if mi != 0 && mj != 0 {
        assert otherOrder[mi - 1] != otherOrder[mj - 1];
      }
    }
  }

  /**
   * With distinct item names, a round shows pairwise-distinct names, one of
   * them the target's, and every other candidate names some other item.
   * Groups of at least 3 items give exactly 3 candidates.
   */
  lemma {:induction false} RoundShape(items: seq<GameItem>, v: Variation, t: nat,
                                      otherOrder: seq<nat>, displayOrder: seq<nat>)
    requires t < |items|
    requires IsPermutation(otherOrder, |items| - 1)
    requires IsPermutation(displayOrder, Min(3, |items|))
    requires DistinctNames(items)
    ensures var c := RoundCandidates(items, v, t, otherOrder, displayOrder);
      && (|items| >= 3 ==> |c| == 3)
      && DistinctCandidateNames(c)
      && (exists i :: 0 <= i < |c| && c[i] == ToCandidate(items[t], v)
            && forall j :: 0 <= j < |c| && j != i ==> c[j].name != items[t].name)
      && (forall j :: 0 <= j < |c| && c[j].name != items[t].name ==>
            exists k :: 0 <= k < |items| && k != t && c[j] == ToCandidate(items[k], v))
  {
    var c := RoundCandidates(items, v, t, otherOrder, displayOrder);
    CandidatesAt(items, v, t, otherOrder, displayOrder);
    forall i, j | 0 <= i < |c| && 0 <= j < |c| && i != j ensures c[i].name != c[j].name {
      assert SourceIndex(t, otherOrder, displayOrder, i) != SourceIndex(t, otherOrder, displayOrder, j);
    }
    assert 0 in displayOrder;
    var i :| 0 <= i < |displayOrder| && displayOrder[i] == 0;
    assert c[i] == ToCandidate(items[t], v);
    forall j | 0 <= j < |c| && c[j].name != items[t].name
      ensures exists k :: 0 <= k < |items| && k != t && c[j] == ToCandidate(items[k], v)
    {
      assert c[j] == ToCandidate(items[SourceIndex(t, otherOrder, displayOrder, j)], v);
    }
  }
}
