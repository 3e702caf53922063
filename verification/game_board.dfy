/**
 * The GameBoard component's game logic (src/components/GameBoard.tsx): the
 * board's own state (the candidates on show, the objects dropped, the
 * per-level counter and the "already scored" flag of scoreUpdateRef) and
 * the handlers that change it together with the store.
 *
 * Math.random is an input: a draw in [0, 1) for each getRandomItem and the
 * permutation each random sort produces. Timers and React effects are the
 * caller's business: the 2-second timer and the mount / level / variation
 * effect each amount to a call of SetupRound, and the level-change effect
 * to a call of OnSubLOChange.
 */
module GameBoard {
  import opened GameTypes
  import opened GameData
  import opened GameStore
  import opened GameRound
  import opened GameProgress

  /**
   * The test of handleDragEnd: the candidate found by the dropped name is the
   * current target. It holds exactly when the dropped name is the target's
   * and some candidate on show carries it.
   */
  function IsCorrectDrop(objects: seq<Candidate>, item: string, currentTarget: string): (correct: bool)
    ensures correct <==> item == currentTarget && exists c :: c in objects && c.name == item
  {
    var draggedObject := FindByName(objects, item);
    draggedObject.Some? && draggedObject.value.name == currentTarget
  }

  class Board {
    const store: GameStore
    var objects: seq<Candidate>
    var droppedObjects: seq<Candidate>
    var targetObject: Option<Candidate>
    var currentInstruction: string
    var correctAnswersInLevel: nat
    /** scoreUpdateRef.current: this round has already been scored. */
    var scoreUpdated: bool
    /** The score when the current round was set up. */
    ghost var roundStartScore: int

    /**
     * The level stays in range with stars equal to it, the counter stays
     * below the threshold, and the current round has added at most one
     * point: exactly one once it is scored.
     */
    ghost predicate Valid()
      reads this, store
    {
      && Progressing(store.gameState)
      && correctAnswersInLevel < CORRECT_ANSWERS_TO_ADVANCE
      && store.gameState.score == roundStartScore + (if scoreUpdated then 1 else 0)
    }

    /** The items of the current level's group. */
    function Group(): (items: seq<GameItem>)
      reads store
      requires 0 <= store.gameState.currentSubLO < |SubLOs()|
      ensures |items| == 5 && DistinctNames(items)
    {
      SubLOs()[store.gameState.currentSubLO].items
    }

    /** The component's initial local state over an existing store. */
    constructor (store: GameStore)
      requires Progressing(store.gameState)
      ensures Valid()
      ensures this.store == store && store.gameState == old(store.gameState)
      ensures objects == [] && droppedObjects == [] && targetObject == None && currentInstruction == ""
      ensures correctAnswersInLevel == 0 && !scoreUpdated
    {
      this.store := store;
      objects := [];
      droppedObjects := [];
      targetObject := None;
      currentInstruction := "";
      correctAnswersInLevel := 0;
      scoreUpdated := false;
      roundStartScore := store.gameState.score;
    }

    /**
     * setupRound: pick the target (draw rTarget), the two other items
     * (the rest shuffled by otherOrder), label them for the variation,
     * shuffle them (displayOrder), pick the instruction (draw
     * rInstruction), record the target's name and open a fresh round.
     */
    method SetupRound(rTarget: real, otherOrder: seq<nat>, displayOrder: seq<nat>, rInstruction: real)
      requires Progressing(store.gameState) && correctAnswersInLevel < CORRECT_ANSWERS_TO_ADVANCE
      requires 0.0 <= rTarget < 1.0 && 0.0 <= rInstruction < 1.0
      requires IsPermutation(otherOrder, |Group()| - 1)
      requires IsPermutation(displayOrder, Min(3, |Group()|))
      modifies this, store
      ensures Valid()
      ensures var items := old(Group());
              var t := RandomIndex(rTarget, |items|);
              var v := old(store.gameState.currentVariation);
              && objects == RoundCandidates(items, v, t, otherOrder, displayOrder)
              && targetObject == Some(ToCandidate(items[t], v))
              && currentInstruction == Prompt(rInstruction, items[t].name)
              && store.gameState == old(store.gameState).(currentTarget := items[t].name)
      ensures droppedObjects == [] && !scoreUpdated
      ensures correctAnswersInLevel == old(correctAnswersInLevel)
      ensures |objects| == 3 && DistinctCandidateNames(objects)
      ensures exists i :: 0 <= i < |objects| && objects[i].name == store.gameState.currentTarget
                && forall j :: 0 <= j < |objects| && j != i ==> objects[j].name != store.gameState.currentTarget
    {
      var subLO := SubLOs()[store.gameState.currentSubLO];
      var variation := store.gameState.currentVariation;
      var targetItem := GetRandomItem(subLO.items, rTarget).value;
      // The position the identity filter drops.
      var t := RandomIndex(rTarget, |subLO.items|);
      RoundShape(subLO.items, variation, t, otherOrder, displayOrder);
      objects := RoundCandidates(subLO.items, variation, t, otherOrder, displayOrder);
      targetObject := Some(ToCandidate(targetItem, variation));
      currentInstruction := Prompt(rInstruction, targetItem.name);
      store.SetGameState(NoChange.(currentTarget := Some(targetItem.name), currentVariation := Some(variation)));
      droppedObjects := [];
      scoreUpdated := false;
      roundStartScore := store.gameState.score;
    }

    /**
     * handleDragEnd: ignored once the round is scored; a drop naming the
     * target among the candidates is dropped and scored; anything else is
     * a miss.
     */
    method HandleDragEnd(item: string)
      requires Valid()
      modifies this, store
      ensures Valid()
      ensures objects == old(objects) && targetObject == old(targetObject)
      ensures currentInstruction == old(currentInstruction) && roundStartScore == old(roundStartScore)
      ensures old(scoreUpdated) ==> unchanged(this) && unchanged(store)
      ensures !old(scoreUpdated) && IsCorrectDrop(old(objects), item, old(store.gameState.currentTarget)) ==>
                && droppedObjects == old(droppedObjects) + [FindByName(old(objects), item).value]
                && scoreUpdated
                && (store.gameState, correctAnswersInLevel)
                   == CorrectAnswer(old(store.gameState), old(correctAnswersInLevel))
      ensures !old(scoreUpdated) && !IsCorrectDrop(old(objects), item, old(store.gameState.currentTarget)) ==>
                && droppedObjects == old(droppedObjects)
                && !scoreUpdated
                && correctAnswersInLevel == old(correctAnswersInLevel)
                && store.gameState == Miss(old(store.gameState))
      ensures store.gameState.score <= roundStartScore + 1
    {
      if scoreUpdated {
        return;
      }
      var draggedObject := FindByName(objects, item);
      if draggedObject.Some? && draggedObject.value.name == store.gameState.currentTarget {
        droppedObjects := droppedObjects + [draggedObject.value];
        HandleCorrectAnswer();
      } else {
        HandleIncorrectAnswer();
      }
    }

    /**
     * handleCorrectAnswer: mark the round scored, count the answer in the
     * level and hand the store the score updater; the counter restarts on
     * reaching the threshold.
     */
    method HandleCorrectAnswer()
      requires Valid() && !scoreUpdated
      modifies this, store
      ensures Valid()
      ensures scoreUpdated
      ensures (store.gameState, correctAnswersInLevel)
              == CorrectAnswer(old(store.gameState), old(correctAnswersInLevel))
      ensures objects == old(objects) && droppedObjects == old(droppedObjects)
      ensures targetObject == old(targetObject) && currentInstruction == old(currentInstruction)
      ensures roundStartScore == old(roundStartScore)
    {
      CorrectAnswerProgress(store.gameState, correctAnswersInLevel);
      scoreUpdated := true;
      var newCorrectAnswers := correctAnswersInLevel + 1;
      correctAnswersInLevel := newCorrectAnswers;
      store.SetGameStateWith(prevState => ScoreDelta(prevState, newCorrectAnswers));
      if newCorrectAnswers >= CORRECT_ANSWERS_TO_ADVANCE {
        correctAnswersInLevel := 0;
      }
    }

    /**
     * handleIncorrectAnswer: one more miss, from the counter as it stood,
     * and game over when it already stood at 2 or more.
     */
    method HandleIncorrectAnswer()
      requires Valid()
      modifies store
      ensures Valid()
      ensures store.gameState == Miss(old(store.gameState))
    {
      MissEffect(store.gameState);
      var consecutiveNoResponse := store.gameState.consecutiveNoResponse;
      store.SetGameState(NoChange.(consecutiveNoResponse := Some(consecutiveNoResponse + 1)));
      if consecutiveNoResponse >= 2 {
        store.SetGameState(NoChange.(isGameOver := Some(true)));
      }
    }

    /** The effect run when the level changes: the level's counter restarts. */
    method OnSubLOChange()
      requires Valid()
      modifies this
      ensures Valid()
      ensures correctAnswersInLevel == 0
      ensures objects == old(objects) && droppedObjects == old(droppedObjects)
      ensures targetObject == old(targetObject) && currentInstruction == old(currentInstruction)
      ensures scoreUpdated == old(scoreUpdated) && roundStartScore == old(roundStartScore)
    {
      correctAnswersInLevel := 0;
    }
  }

  /**
   * A round played out: a correct drop scores one point, and the same drop
   * repeated before the next round changes nothing.
   */
  method RepeatedDropScoresOnce(board: Board, rTarget: real, otherOrder: seq<nat>,
                                displayOrder: seq<nat>, rInstruction: real)
    requires board.Valid()
    requires 0.0 <= rTarget < 1.0 && 0.0 <= rInstruction < 1.0
    requires IsPermutation(otherOrder, |board.Group()| - 1)
    requires IsPermutation(displayOrder, Min(3, |board.Group()|))
    modifies board, board.store
    ensures board.Valid()
    ensures board.store.gameState.score == old(board.store.gameState.score) + 1
  {
    board.SetupRound(rTarget, otherOrder, displayOrder, rInstruction);
    var target := board.store.gameState.currentTarget;
    board.HandleDragEnd(target);
    var scored := board.store.gameState.score;
    board.HandleDragEnd(target);
    assert board.store.gameState.score == scored;
  }

  /**
   * A new game started from outside the board (resetGame), whether or not
   * the round on show was scored: the next round setup puts the board back
   * in step with the store, at the first level.
   */
  method ResetThenSetupRound(board: Board, rTarget: real, otherOrder: seq<nat>,
                             displayOrder: seq<nat>, rInstruction: real)
    requires board.Valid()
    requires 0.0 <= rTarget < 1.0 && 0.0 <= rInstruction < 1.0
    requires IsPermutation(otherOrder, |SubLOs()[0].items| - 1)
    requires IsPermutation(displayOrder, Min(3, |SubLOs()[0].items|))
    modifies board, board.store
    ensures board.Valid()
    ensures board.store.gameState == InitialState.(currentTarget := board.store.gameState.currentTarget)
    ensures !board.scoreUpdated && board.droppedObjects == []
  {
    board.store.ResetGame();
    InitialStateProgressing();
    board.SetupRound(rTarget, otherOrder, displayOrder, rInstruction);
  }
}
