/**
 * The session store (src/store/gameStore.ts): one GameState, updated by
 * merging a partial delta over it ({...state, ...delta}) and reset to the
 * initial state.
 */
module GameStore {
  import opened GameTypes

  /** The state at start-up and after resetGame. */
  const InitialState := GameState(0, 1, "", 0, 0, 0, 0, false)

  /** A Partial<GameState>: each field is present (Some) or absent (None). */
  datatype Delta = Delta(
    currentSubLO: Option<int>,
    currentVariation: Option<Variation>,
    currentTarget: Option<string>,
    score: Option<int>,
    attempts: Option<int>,
    consecutiveNoResponse: Option<int>,
    stars: Option<int>,
    isGameOver: Option<bool>)

  /** The delta with no keys, {}. */
  const NoChange := Delta(None, None, None, None, None, None, None, None)

  /*
   * A key-by-key view of states and deltas, the way the spread operator
   * sees them: a state maps every key to a value, a delta maps some keys.
   */
  datatype Field = CurrentSubLO | CurrentVariation | CurrentTarget | Score
                 | Attempts | ConsecutiveNoResponse | Stars | IsGameOver

  datatype Value = IntValue(i: int) | VariationValue(v: Variation)
                 | StringValue(s: string) | BoolValue(b: bool)

  function Get(s: GameState, f: Field): Value {
    match f
    case CurrentSubLO => IntValue(s.currentSubLO)
    case CurrentVariation => VariationValue(s.currentVariation)
    case CurrentTarget => StringValue(s.currentTarget)
    case Score => IntValue(s.score)
    case Attempts => IntValue(s.attempts)
    case ConsecutiveNoResponse => IntValue(s.consecutiveNoResponse)
    case Stars => IntValue(s.stars)
    case IsGameOver => BoolValue(s.isGameOver)
  }

  function Lookup(d: Delta, f: Field): Option<Value> {
    match f
    case CurrentSubLO => if d.currentSubLO.Some? then Some(IntValue(d.currentSubLO.value)) else None
    case CurrentVariation => if d.currentVariation.Some? then Some(VariationValue(d.currentVariation.value)) else None
    case CurrentTarget => if d.currentTarget.Some? then Some(StringValue(d.currentTarget.value)) else None
    case Score => if d.score.Some? then Some(IntValue(d.score.value)) else None
    case Attempts => if d.attempts.Some? then Some(IntValue(d.attempts.value)) else None
    case ConsecutiveNoResponse =>
      if d.consecutiveNoResponse.Some? then Some(IntValue(d.consecutiveNoResponse.value)) else None
    case Stars => if d.stars.Some? then Some(IntValue(d.stars.value)) else None
    case IsGameOver => if d.isGameOver.Some? then Some(BoolValue(d.isGameOver.value)) else None
  }

  /** The keys a delta carries. */
  function Keys(d: Delta): set<Field> {
    set f: Field | Lookup(d, f).Some?
  }

  /** A state is determined by the values of its eight keys. */
  lemma StateExtensionality(a: GameState, b: GameState)
    requires forall f: Field :: Get(a, f) == Get(b, f)
    ensures a == b
  {
    assert Get(a, CurrentSubLO) == Get(b, CurrentSubLO);
    assert Get(a, CurrentVariation) == Get(b, CurrentVariation);
    assert Get(a, CurrentTarget) == Get(b, CurrentTarget);
    assert Get(a, Score) == Get(b, Score);
    assert Get(a, Attempts) == Get(b, Attempts);
    assert Get(a, ConsecutiveNoResponse) == Get(b, ConsecutiveNoResponse);
    assert Get(a, Stars) == Get(b, Stars);
    assert Get(a, IsGameOver) == Get(b, IsGameOver);
  }

  /**
   * {...state, ...delta}: every key the delta carries takes the delta's
   * value, every other key keeps the state's value.
   */
  function Merge(s: GameState, d: Delta): (r: GameState)
    ensures forall f: Field :: f in Keys(d) ==> Lookup(d, f) == Some(Get(r, f))
    ensures forall f: Field :: f !in Keys(d) ==> Get(r, f) == Get(s, f)
  {
    GameState(
      if d.currentSubLO.Some? then d.currentSubLO.value else s.currentSubLO,
      if d.currentVariation.Some? then d.currentVariation.value else s.currentVariation,
      if d.currentTarget.Some? then d.currentTarget.value else s.currentTarget,
      if d.score.Some? then d.score.value else s.score,
      if d.attempts.Some? then d.attempts.value else s.attempts,
      if d.consecutiveNoResponse.Some? then d.consecutiveNoResponse.value else s.consecutiveNoResponse,
      if d.stars.Some? then d.stars.value else s.stars,
      if d.isGameOver.Some? then d.isGameOver.value else s.isGameOver)
  }

  /** The keys of d2 laid over those of d1, as {...d1, ...d2}. */
  function Then(d1: Delta, d2: Delta): (d: Delta)
    ensures forall f: Field :: f in Keys(d2) ==> Lookup(d, f) == Lookup(d2, f)
    ensures forall f: Field :: f !in Keys(d2) ==> Lookup(d, f) == Lookup(d1, f)
  {
    Delta(
      if d2.currentSubLO.Some? then d2.currentSubLO else d1.currentSubLO,
      if d2.currentVariation.Some? then d2.currentVariation else d1.currentVariation,
      if d2.currentTarget.Some? then d2.currentTarget else d1.currentTarget,
      if d2.score.Some? then d2.score else d1.score,
      if d2.attempts.Some? then d2.attempts else d1.attempts,
      if d2.consecutiveNoResponse.Some? then d2.consecutiveNoResponse else d1.consecutiveNoResponse,
      if d2.stars.Some? then d2.stars else d1.stars,
      if d2.isGameOver.Some? then d2.isGameOver else d1.isGameOver)
  }

  /** Merging the empty delta changes nothing. */
  lemma MergeNoChange(s: GameState)
    ensures Keys(NoChange) == {}
    ensures Merge(s, NoChange) == s
  {
    forall f: Field ensures Get(Merge(s, NoChange), f) == Get(s, f) {
    }
    StateExtensionality(Merge(s, NoChange), s);
  }

  /** Merging the same delta twice is merging it once. */
  lemma MergeIdempotent(s: GameState, d: Delta)
    ensures Merge(Merge(s, d), d) == Merge(s, d)
  {
    var once := Merge(s, d);
    forall f: Field ensures Get(Merge(once, d), f) == Get(once, f) {
      if f in Keys(d) {
        assert Lookup(d, f) == Some(Get(Merge(once, d), f));
        assert Lookup(d, f) == Some(Get(once, f));
      }
    }
    StateExtensionality(Merge(once, d), once);
  }

  /** Two merges in a row are one merge in which the later delta wins on shared keys. */
  lemma MergeThen(s: GameState, d1: Delta, d2: Delta)
    ensures Merge(Merge(s, d1), d2) == Merge(s, Then(d1, d2))
  {
    var two := Merge(Merge(s, d1), d2);
    var one := Merge(s, Then(d1, d2));
    forall f: Field ensures Get(two, f) == Get(one, f) {
      if f in Keys(d2) {
        assert Lookup(d2, f) == Some(Get(two, f));
        assert Lookup(Then(d1, d2), f) == Some(Get(one, f));
      } else if f in Keys(d1) {
        assert Lookup(d1, f) == Some(Get(Merge(s, d1), f));
        assert Lookup(Then(d1, d2), f) == Some(Get(one, f));
      }
    }
    StateExtensionality(two, one);
  }

  /** The store: a single state that setGameState and resetGame overwrite. */
  class GameStore {
    var gameState: GameState

    constructor ()
      ensures gameState == InitialState
    {
      gameState := InitialState;
    }

    /** setGameState with an object: merge it over the current state. */
    method SetGameState(delta: Delta)
      modifies this
      ensures gameState == Merge(old(gameState), delta)
    {
      gameState := Merge(gameState, delta);
    }

    /** setGameState with a function: apply it to the current state, merge its result. */
    method SetGameStateWith(update: GameState -> Delta)
      modifies this
      ensures gameState == Merge(old(gameState), update(old(gameState)))
    {
      var functionResult := update(gameState);
      gameState := Merge(gameState, functionResult);
    }

    /** resetGame: back to the initial state, whatever the state was. */
    method ResetGame()
      modifies this
      ensures gameState == InitialState
    {
      gameState := InitialState;
    }
  }

  /** The initial state: level 0, variation 1, no target, every counter 0, not over. */
  lemma InitialStateValues()
    ensures Get(InitialState, CurrentSubLO) == IntValue(0)
    ensures Get(InitialState, CurrentVariation) == VariationValue(1)
    ensures Get(InitialState, CurrentTarget) == StringValue("")
    ensures forall f: Field :: f in {Score, Attempts, ConsecutiveNoResponse, Stars} ==> Get(InitialState, f) == IntValue(0)
    ensures Get(InitialState, IsGameOver) == BoolValue(false)
  {
  }
}
