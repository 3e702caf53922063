/**
 * The progression rules of src/components/GameBoard.tsx: the updater a
 * correct answer hands to the store (lines 187-204), the per-level counter
 * (lines 184-185, 206-208) and the two updates of a miss (lines 216-229).
 * Each is a function of the state before the event; the Board class
 * applies them step by step.
 */
module GameProgress {
  import opened GameTypes
  import opened GameData
  import opened GameStore

  /** Correct answers in one level that move the game on. */
  const CORRECT_ANSWERS_TO_ADVANCE := 5

  /** The levels reached so far: in range, with one star per level left behind. */
  ghost predicate Progressing(s: GameState) {
    && 0 <= s.currentSubLO < |SubLOs()|
    && s.stars == s.currentSubLO
    && s.score >= 0
    && s.consecutiveNoResponse >= 0
  }

  lemma InitialStateProgressing()
    ensures Progressing(InitialState)
  {
  }

  /**
   * The updater of a correct answer: one more point; on reaching the
   * threshold, the next level (clamped to the last) with variation 1 and a
   * star, or, already at the last level, variation 2.
   */
  function ScoreDelta(prevState: GameState, newCorrectAnswers: int): (d: Delta)
    ensures d.score == Some(prevState.score + 1)
    ensures d.consecutiveNoResponse == None && d.isGameOver == None && d.currentTarget == None && d.attempts == None
    ensures newCorrectAnswers < CORRECT_ANSWERS_TO_ADVANCE ==> d == NoChange.(score := Some(prevState.score + 1))
    ensures newCorrectAnswers >= CORRECT_ANSWERS_TO_ADVANCE && 0 <= prevState.currentSubLO < |SubLOs()| - 1 ==>
              && d.currentSubLO == Some(prevState.currentSubLO + 1)
              && d.stars == Some(prevState.stars + 1)
              && d.currentVariation == Some(1)
    ensures newCorrectAnswers >= CORRECT_ANSWERS_TO_ADVANCE && prevState.currentSubLO == |SubLOs()| - 1 ==>
              d == NoChange.(score := Some(prevState.score + 1), currentVariation := Some(2))
  {
    var newState := NoChange.(score := Some(prevState.score + 1));
    if newCorrectAnswers >= CORRECT_ANSWERS_TO_ADVANCE then
      var nextLevel := Min(prevState.currentSubLO + 1, |SubLOs()| - 1);
      if nextLevel != prevState.currentSubLO then
        newState.(currentSubLO := Some(nextLevel), currentVariation := Some(1), stars := Some(prevState.stars + 1))
      else
        newState.(currentVariation := Some(2))
    else
      newState
  }

  /** The updater never touches the miss counter, the game-over flag, the target or attempts. */
  lemma ScoreDeltaKeys(prevState: GameState, newCorrectAnswers: int)
    ensures Score in Keys(ScoreDelta(prevState, newCorrectAnswers))
    ensures Keys(ScoreDelta(prevState, newCorrectAnswers)) <= {Score, CurrentSubLO, CurrentVariation, Stars}
  {
  }

  /** A correct answer: the store's new state and the level's new counter. */
  function CorrectAnswer(s: GameState, correctAnswersInLevel: nat): (r: (GameState, nat))
    ensures r.0.score == s.score + 1
    ensures r.0.consecutiveNoResponse == s.consecutiveNoResponse && r.0.isGameOver == s.isGameOver
    ensures r.0.currentTarget == s.currentTarget && r.0.attempts == s.attempts
    ensures r.1 == 0 <==> correctAnswersInLevel + 1 >= CORRECT_ANSWERS_TO_ADVANCE
    ensures r.1 != 0 ==> r.1 == correctAnswersInLevel + 1
  {
    var newCorrectAnswers := correctAnswersInLevel + 1;
    (Merge(s, ScoreDelta(s, newCorrectAnswers)),
     if newCorrectAnswers >= CORRECT_ANSWERS_TO_ADVANCE then 0 else newCorrectAnswers)
  }

  /**
   * One correct answer scores one point. Below the threshold nothing else
   * changes; at it the level advances with a star and variation 1, or at the
   * last level the variation becomes 2; either way the counter restarts.
   * The miss counter and game-over flag are left as they were.
   */
  lemma CorrectAnswerProgress(s: GameState, correctAnswersInLevel: nat)
    requires Progressing(s)
    requires correctAnswersInLevel < CORRECT_ANSWERS_TO_ADVANCE
    ensures var (r, counter) := CorrectAnswer(s, correctAnswersInLevel);
      && Progressing(r)
      && r.score == s.score + 1
      && r.consecutiveNoResponse == s.consecutiveNoResponse
      && r.isGameOver == s.isGameOver
      && r.currentTarget == s.currentTarget
      && r.attempts == s.attempts
      && counter < CORRECT_ANSWERS_TO_ADVANCE
      && (correctAnswersInLevel + 1 < CORRECT_ANSWERS_TO_ADVANCE ==>
            && counter == correctAnswersInLevel + 1
            && r == s.(score := s.score + 1))
      && (correctAnswersInLevel + 1 == CORRECT_ANSWERS_TO_ADVANCE && s.currentSubLO + 1 < |SubLOs()| ==>
            && counter == 0
            && r.currentSubLO == s.currentSubLO + 1
            && r.currentVariation == 1
            && r.stars == s.stars + 1)
      && (correctAnswersInLevel + 1 == CORRECT_ANSWERS_TO_ADVANCE && s.currentSubLO + 1 == |SubLOs()| ==>
            && counter == 0
            && r == s.(score := s.score + 1, currentVariation := 2))
  {
  }

  /** k correct answers in a row, each in a fresh round. */
  function CorrectAnswers(s: GameState, correctAnswersInLevel: nat, k: nat): (GameState, nat)
    decreases k
  {
    if k == 0 then (s, correctAnswersInLevel)
    else
      var (s1, c1) := CorrectAnswer(s, correctAnswersInLevel);
      CorrectAnswers(s1, c1, k - 1)
  }

  /** Short of the threshold, correct answers only add to the score and the counter. */
  lemma {:induction false} CorrectAnswersBelowThreshold(s: GameState, correctAnswersInLevel: nat, k: nat)
    requires Progressing(s)
    requires correctAnswersInLevel + k < CORRECT_ANSWERS_TO_ADVANCE
    ensures CorrectAnswers(s, correctAnswersInLevel, k) == (s.(score := s.score + k), correctAnswersInLevel + k)
    decreases k
  {
    if k > 0 {
      CorrectAnswerProgress(s, correctAnswersInLevel);
      CorrectAnswersBelowThreshold(s.(score := s.score + 1), correctAnswersInLevel + 1, k - 1);
    }
  }

  /**
   * Five correct answers from the start of a level: below the last level,
   * the next level with one more star and variation 1; at the last level,
   * the same level and stars with variation 2. The counter is back to 0.
   */
  lemma FiveCorrectAnswers(s: GameState)
    requires Progressing(s)
    ensures var (r, counter) := CorrectAnswers(s, 0, CORRECT_ANSWERS_TO_ADVANCE);
      && Progressing(r)
      && counter == 0
      && r.score == s.score + CORRECT_ANSWERS_TO_ADVANCE
      && (s.currentSubLO + 1 < |SubLOs()| ==>
            r.currentSubLO == s.currentSubLO + 1 && r.stars == s.stars + 1 && r.currentVariation == 1)
      && (s.currentSubLO + 1 == |SubLOs()| ==>
            r.currentSubLO == s.currentSubLO && r.stars == s.stars && r.currentVariation == 2)
  {
    var k := CORRECT_ANSWERS_TO_ADVANCE - 1;
    CorrectAnswersBelowThreshold(s, 0, k);
    var s4 := s.(score := s.score + k);
    CorrectAnswersSplit(s, 0, k);
    CorrectAnswerProgress(s4, k);
  }

  lemma {:induction false} CorrectAnswersSplit(s: GameState, correctAnswersInLevel: nat, k: nat)
    ensures var (s1, c1) := CorrectAnswers(s, correctAnswersInLevel, k);
      CorrectAnswers(s, correctAnswersInLevel, k + 1) == CorrectAnswer(s1, c1)
    decreases k
  {
    if k > 0 {
      var (s1, c1) := CorrectAnswer(s, correctAnswersInLevel);
      CorrectAnswersSplit(s1, c1, k - 1);
    }
  }

  /**
   * A miss: the counter read before the event plus one, then the game-over
   * flag when that counter already stood at 2 or more.
   */
  function Miss(s: GameState): (r: GameState)
    ensures r.consecutiveNoResponse == s.consecutiveNoResponse + 1
    ensures r.isGameOver <==> s.isGameOver || s.consecutiveNoResponse >= 2
    ensures r.score == s.score && r.currentSubLO == s.currentSubLO
    ensures r.stars == s.stars && r.currentVariation == s.currentVariation
  {
    var counted := Merge(s, NoChange.(consecutiveNoResponse := Some(s.consecutiveNoResponse + 1)));
    if s.consecutiveNoResponse >= 2 then Merge(counted, NoChange.(isGameOver := Some(true)))
    else counted
  }

  /** A miss adds one to the counter, ends the game on the third, and changes nothing else. */
  lemma MissEffect(s: GameState)
    ensures Miss(s) == s.(consecutiveNoResponse := s.consecutiveNoResponse + 1,
                          isGameOver := s.isGameOver || s.consecutiveNoResponse >= 2)
  {
  }

  /** k misses in a row. */
  function Misses(s: GameState, k: nat): GameState
    decreases k
  {
    if k == 0 then s else Misses(Miss(s), k - 1)
  }

  /**
   * After k misses the counter has grown by k, and the game is over exactly
   * when it was already or the counter has reached 3.
   */
  lemma {:induction false} MissesEffect(s: GameState, k: nat)
    requires s.consecutiveNoResponse >= 0
    ensures Misses(s, k).consecutiveNoResponse == s.consecutiveNoResponse + k
    ensures Misses(s, k).isGameOver <==> s.isGameOver || (k > 0 && s.consecutiveNoResponse + k >= 3)
    ensures Misses(s, k).score == s.score && Misses(s, k).currentSubLO == s.currentSubLO
    ensures Misses(s, k).stars == s.stars && Misses(s, k).currentVariation == s.currentVariation
    decreases k
  {
    if k > 0 {
      MissEffect(s);
      MissesEffect(Miss(s), k - 1);
    }
  }

  /** From a clean start the first two misses leave the game running; the third ends it. */
  lemma ThirdMissEndsGame(s: GameState)
    requires s.consecutiveNoResponse == 0 && !s.isGameOver
    ensures !Misses(s, 1).isGameOver
    ensures !Misses(s, 2).isGameOver
    ensures Misses(s, 3).isGameOver
  {
    MissesEffect(s, 1);
    MissesEffect(s, 2);
    MissesEffect(s, 3);
  }

  /**
   * A correct answer does not clear the miss counter, so the third miss of
   * a session ends it even when a correct answer came between the misses.
   */
  lemma MissesSurviveCorrectAnswer(s: GameState, correctAnswersInLevel: nat)
    requires Progressing(s)
    requires correctAnswersInLevel < CORRECT_ANSWERS_TO_ADVANCE
    requires s.consecutiveNoResponse == 0 && !s.isGameOver
    ensures var (afterCorrect, _) := CorrectAnswer(Misses(s, 2), correctAnswersInLevel);
      && !afterCorrect.isGameOver
      && afterCorrect.consecutiveNoResponse == 2
      && Miss(afterCorrect).isGameOver
  {
    MissesEffect(s, 2);
    var s2 := Misses(s, 2);
    CorrectAnswerProgress(s2, correctAnswersInLevel);
  }
}
