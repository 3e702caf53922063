# Matching game: session state machine

A Dafny model of the decision logic of a browser matching game for early
learners. Each round shows a target picture and three candidates. The player
drags the matching one into a drop zone. Correct answers move the player
through five levels ("sub learning objectives", content groups of five items).
Misses count towards a game-over.

The model covers four parts:

- **Content table** (`game_data.dfy`, module `GameData`). It holds the five
  groups and the three instruction phrases. It also has `getRandomItem`, which
  is floor(r·n) for a draw r in [0, 1).
- **Store** (`game_store.dfy`, module `GameStore`). It holds the eight-field
  `GameState` and the initial state. Its `Merge` is the `{...state, ...delta}`
  spread with a partial `Delta` (one `Option` per field). Its class
  `GameStore` has the object form and the function form of `setGameState`,
  and `resetGame`. A key-by-key view (`Field`, `Get`, `Lookup`, `Keys`) states
  the merge the way the spread operator sees it.
- **Round setup** (`round.dfy`, module `GameRound`). These are the pure parts
  of `setupRound`:
  - the label for each variation;
  - removing the target from its group;
  - the two random sorts, given as the permutation each one produces;
  - `objects.find`.
- **Progression** (`progress.dfy`, module `GameProgress`) and the **board**
  (`game_board.dfy`, module `GameBoard`).
  - `GameProgress` has the store updater of a correct answer, the per-level
    counter and the two store updates of a miss, all as functions.
  - `GameBoard` has the class `Board`. It holds the component's local state and
    `scoreUpdateRef`. Its methods `SetupRound`, `HandleDragEnd`,
    `HandleCorrectAnswer`, `HandleIncorrectAnswer` and `OnSubLOChange` change
    that state and the store step by step.

`Board.Valid()` is the invariant every handler keeps:

- the level stays in `[0, 5)`;
- stars equal the level;
- the score and the miss counter are never negative;
- the per-level counter stays below 5;
- the score is the round's starting score, plus exactly 1 once the round is scored.

Math.random is an input. A `getRandomItem` call takes a real draw in
`[0, 1)`; `RandomIndexReachable` shows that every index can be drawn. A
`sort(() => Math.random() - 0.5)` is modelled by the permutation of indices
it produces.

Where the written description of the game and the code disagree, the model
follows the code:

- A correct answer does not reset `consecutiveNoResponse`. Nothing resets it
  except `resetGame`, so the third miss of a session ends the game even when
  correct answers came between the misses (`MissesSurviveCorrectAnswer`).
- Stars always equal the level index, not merely at most it.
- Round setup writes the target's name into the store, so it is not pure with
  respect to the session state.
- No "round already resolved" check guards the delayed next round.

## Model

| member | source | states |
|---|---|---|
| GameData.SubLOs | src/data/gameData.ts:3-59 | exactly five groups, ids 1..5 in order, five items each, item names pairwise distinct within each group |
| GameData.BasicObjects | src/data/gameData.ts:4-14 | group 1 has id 1, five items, distinct names |
| GameData.NatureAndPlay | src/data/gameData.ts:15-25 | group 2 has id 2, five items, distinct names |
| GameData.PersonalItems | src/data/gameData.ts:26-36 | group 3 has id 3, five items, distinct names |
| GameData.MixedObjects | src/data/gameData.ts:37-47 | group 4 has id 4, five items, distinct names |
| GameData.MoreObjects | src/data/gameData.ts:48-58 | group 5 has id 5, five items, distinct names |
| GameData.Instructions | src/data/gameData.ts:74-78 | three phrases, none empty |
| GameData.RandomIndex | src/data/gameData.ts:87 | floor(r·n) for r in [0, 1) is a valid index of a non-empty array |
| GameData.RandomIndexReachable | src/data/gameData.ts:87 | every index of a non-empty array is floor(r·n) for some r in [0, 1) |
| GameData.GetRandomItem | src/data/gameData.ts:86-88 | the result is an element of the array exactly when the array is non-empty; otherwise it is undefined (None) |
| GameData.Prompt | src/components/GameBoard.tsx:160 | the prompt is one of the instruction phrases, a space, then the target's name, and it ends with that name |
| GameStore.Merge | src/store/gameStore.ts:23 | every key the delta carries takes the delta's value; every other key keeps the old value |
| GameStore.Then | src/store/gameStore.ts:23 | laying d2 over d1: d2's keys win, the other keys come from d1 |
| GameStore.MergeNoChange | src/store/gameStore.ts:23 | merging the empty delta returns the state unchanged |
| GameStore.MergeIdempotent | src/store/gameStore.ts:23 | merging the same delta twice equals merging it once |
| GameStore.MergeThen | src/store/gameStore.ts:23 | two successive merges equal one merge in which the later delta wins on shared keys |
| GameStore.InitialStateValues | src/store/gameStore.ts:4-13 | initial state: level 0, variation 1, empty target, score, attempts, misses and stars 0, not over |
| GameStore.GameStore.constructor | src/store/gameStore.ts:15-16 | the store starts at the initial state |
| GameStore.GameStore.SetGameState | src/store/gameStore.ts:23 | the object form: the new state is the old state with the delta merged over it |
| GameStore.GameStore.SetGameStateWith | src/store/gameStore.ts:19-21 | the function form: the function's result on the old state, merged over the old state |
| GameStore.GameStore.ResetGame | src/store/gameStore.ts:25 | the state is the initial state, whatever it was before |
| GameRound.Label | src/components/GameBoard.tsx:149-155 | the label shown for an item: its name in variation 1, its similar name in any other variation |
| GameRound.LabelByVariation | src/components/GameBoard.tsx:149-155 | variation 1 shows an item's name; variations 2 and 3 both show its similar name |
| GameRound.FindByName | src/components/GameBoard.tsx:172 | finds a candidate exactly when one has that name, and returns the first such candidate |
| GameRound.Permute | src/components/GameBoard.tsx:146 | a shuffle keeps the length and the multiset of elements (each element as often as before), hence exactly the same elements |
| GameRound.PermutedMultiset | src/components/GameBoard.tsx:146 | any sequence read from s through a permutation of its indices has the same multiset of elements as s |
| GameRound.Without | src/components/GameBoard.tsx:144-145 | the identity filter drops exactly the target's position and keeps the others in order |
| GameRound.OtherItems | src/components/GameBoard.tsx:144-147 | min(2, n-1) other items, each an item of the group at a position other than the target's (`OtherItemOf`) |
| GameRound.RoundCandidates | src/components/GameBoard.tsx:142-157 | min(3, n) candidates, the target's among them, each an item of the group labelled for the variation |
| GameRound.RoundShape | src/components/GameBoard.tsx:142-157 | with distinct item names and at least 3 items: exactly 3 candidates with pairwise-distinct names; exactly one is named as the target; every other one is a different item of the group |
| GameProgress.InitialStateProgressing | src/store/gameStore.ts:5-11 | the initial state has its level in range and stars equal to the level |
| GameProgress.ScoreDelta | src/components/GameBoard.tsx:187-204 | the updater sets the score to one more than before and never the miss counter, game-over flag, target or attempts. Below 5 answers it sets the score only. At 5 below the last level it sets the next level, one more star and variation 1. At 5 on the last level it sets the score and variation 2 only |
| GameProgress.ScoreDeltaKeys | src/components/GameBoard.tsx:187-204 | the updater always sets score; it never sets the miss counter, the game-over flag, the target or attempts |
| GameProgress.CorrectAnswer | src/components/GameBoard.tsx:184-208 | a correct answer adds 1 to the score and leaves misses, game-over, target and attempts alone; the counter restarts at 0 exactly when the answer reaches 5, and otherwise goes up by one |
| GameProgress.CorrectAnswerProgress | src/components/GameBoard.tsx:184-208 | a correct answer adds 1 to the score. Below 5 in the level only score and counter change. On the 5th with a next level: level+1, stars+1, variation 1, counter 0. At the last level: variation 2, counter 0, level and stars unchanged. Misses and game-over stay as they were; level range and stars = level are kept |
| GameProgress.CorrectAnswersBelowThreshold | src/components/GameBoard.tsx:184-208 | correct answers that stay short of 5 in a level only raise score and counter, each by one per answer |
| GameProgress.FiveCorrectAnswers | src/components/GameBoard.tsx:192-208 | five correct answers from the start of a level move on one level with one star and variation 1; at the last level they switch to variation 2 instead |
| GameProgress.Miss | src/components/GameBoard.tsx:216-229 | a miss adds 1 to the miss counter, sets game over exactly when it was already over or the counter stood at 2 or more, and keeps score, level, stars and variation |
| GameProgress.MissEffect | src/components/GameBoard.tsx:216-229 | a miss adds 1 to the miss counter and sets game over exactly when the counter already stood at 2 or more; nothing else changes |
| GameProgress.MissesEffect | src/components/GameBoard.tsx:216-229 | after k misses the counter has grown by k; the game is over exactly when it was already or the counter reached 3; score, level, stars and variation are unchanged |
| GameProgress.ThirdMissEndsGame | src/components/GameBoard.tsx:226-228 | from a clean start, the first and second misses leave the game running and the third ends it |
| GameProgress.MissesSurviveCorrectAnswer | src/components/GameBoard.tsx:181-229 | a correct answer leaves the miss counter alone: two misses, a correct answer, then one miss ends the game |
| GameBoard.IsCorrectDrop | src/components/GameBoard.tsx:172-173 | a drop is correct exactly when its name is the current target's and some candidate on show has that name |
| GameBoard.Board.Group | src/components/GameBoard.tsx:142 | for any level in range, the current level's group has five items with distinct names |
| GameBoard.Board.constructor | src/components/GameBoard.tsx:17-35 | the component starts with no candidates, nothing dropped, counter 0 and the round not scored |
| GameBoard.Board.SetupRound | src/components/GameBoard.tsx:141-167 | runs on any state the program can reach (level in range, stars equal to it, non-negative score and miss counter, level counter below 5), including one reset from outside, and leaves the board valid. Sets the candidates, the target and the prompt from the draws. The store gets the target's name and nothing else changes there. Dropped objects are emptied, the scored flag cleared, the counter kept. Exactly 3 candidates with distinct names, exactly one named as the target |
| GameBoard.Board.HandleDragEnd | src/components/GameBoard.tsx:169-179 | once the round is scored nothing changes. A drop naming a candidate that is the target appends it to the dropped objects and takes the correct-answer step. Anything else takes the miss step. The candidates, target and prompt are kept on every path. The round's score never exceeds its start plus 1 |
| GameBoard.Board.HandleCorrectAnswer | src/components/GameBoard.tsx:181-214 | marks the round scored; the store and the counter take the correct-answer step; the invariant is kept |
| GameBoard.Board.HandleIncorrectAnswer | src/components/GameBoard.tsx:216-229 | the store takes the miss step; the board's own state is untouched |
| GameBoard.Board.OnSubLOChange | src/components/GameBoard.tsx:41-43 | the level's counter restarts at 0 and nothing else changes |
| GameBoard.RepeatedDropScoresOnce | src/components/GameBoard.tsx:169-182 | in a fresh round, dropping the target scores exactly one point, and the same drop again adds nothing |
| GameBoard.ResetThenSetupRound | src/store/gameStore.ts:25 | after resetGame, whether or not the round on show was scored, the next round setup leaves the board valid, with the store at the initial state apart from the new target |

## Left out

- Rendering and animation are not modelled: JSX, framer-motion, the confetti scene (src/components/ThreeConfetti.tsx), icons and the drag UI (src/components/DraggableObject.tsx).
- The hand-guide geometry is not modelled: `updateHandPosition` and the resize listeners use DOM rectangles, float offsets and console logging.
- The `showConfetti` and `showAlert` flags are not modelled; they only drive rendering and are cleared by timers.
- Timers and effect scheduling become explicit steps. The 2-second timer and the mount, level and variation effects each amount to a call of `SetupRound`. The level-change effect is a call of `OnSubLOChange`. When a timer fires is up to the caller.
- The deferred `setupRound` (src/components/GameBoard.tsx:210-213) closes over the state of the render that ran `handleCorrectAnswer`. The model always reads the current state, so it does not capture what that stale call does two seconds later:
  - After a level advance, it sets up a round from the previous level's group, although the store is already at the new level.
  - Its `setGameState` (lines 161-164) writes the old `currentVariation` back. At the last level, the switch to variation 2 stated by `CorrectAnswerProgress` and `FiveCorrectAnswers` therefore reverts to 1, unless another correct answer lands in between. The effect at lines 37-39 then sets up a variation-1 round.
- The drop path receives the displayed label from the drag data, while a drag-end receives the item's name. The model's event is an item name supplied by the caller.
- `isGameOver` blocks nothing in the component, and the model claims nothing of the kind.
- The `reinforcements` and `exitMessages` tables are not modelled because nothing in the core reads them. The `attempts` field is kept in the state but is never changed.
- The zustand `create` wrapper and its subscription mechanics are not modelled; the store is a single object with one field.
- JavaScript numbers are doubles; the counters are modelled as unbounded integers. Math.random's draw is a real in [0, 1), not a double.
- A JavaScript spread also copies keys that are present with the value `undefined`; a `Delta` cannot express such a key, and no update in the core produces one.
- `Board.Valid()` holds only while the store is changed through the board. After a `resetGame` from outside, the handlers need a round setup first. `SetupRound` runs on any state the program can reach (level in range, stars equal to it, non-negative score and miss counter, level counter below 5), and `ResetThenSetupRound` shows that it puts the board back in step.
- `GameStore.InitialState` is a constant; its values are stated by `InitialStateValues`.
