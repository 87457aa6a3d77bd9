# Math game engines, modelled in Dafny

This project models the game logic of six math mini-games from a React
application that generates arithmetic questions: a multiple-choice quiz,
a true-or-false game, whack-a-mole, a maze chase, an airplane shooter and
a rank-order puzzle. Every game receives the same list of generated
questions (`MathQuestion`: question text, answer, answer options, display
text) and keeps its progress in component state fields.

Each game is one module:

- a value type for the component's state fields;
- an invariant `Consistent` that every reachable state keeps;
- one function per handler, effect or timer callback, each with a
  contract that states what it does to the state;
- an `Event` type, a `Step` function and a `Run` function over any
  sequence of events, whose contracts give the properties of a whole
  session;
- lemmas for the properties that relate several steps;
- a class with the component's state fields as mutable fields. Each
  handler is a method with `modifies this`, proved to move the fields
  exactly as the pure function says and to keep the invariant.

The environment's inputs are parameters:

- Random draws (`Math.random()`) come in as explicit values.
- The clock reading (`Date.now()`) for bullet ids comes in the same way.
- Timers are explicit callback methods: a handler that starts a
  `setTimeout` records the callback as pending, and a separate
  `On...Timeout` method fires it. Where the source's callback reads state
  from the render that started it, the pending record keeps that state.

Modules: `Questions` (the question and settings shapes), `Quiz`,
`TrueOrFalse`, `WhackAMole`, `MazeChase`, `Airplane`, `RankOrder`.

## Model

| member | source | states |
|---|---|---|
| Quiz.AnswerClick | src/components/games/Quiz.tsx:21-31 | a second click after an answer changes nothing; otherwise the answer is recorded, `isCorrect` is true exactly when it equals the question's answer, and the score rises by one exactly then |
| Quiz.Next | src/components/games/Quiz.tsx:33-41 | before the last question: the next index with the selection and correctness cleared; on the last: the result screen with the index kept; the score is untouched |
| Quiz.Run | src/components/games/Quiz.tsx:13-41 | over any clicks, the state stays consistent, the score never falls and never exceeds the questions answered, hence the question count, the index never falls, and after the result screen nothing changes |
| Quiz.PerfectPlayFrom | src/components/games/Quiz.tsx:21-41 | answering every remaining question right, with "next" after each, ends with the full score on the result screen |
| Quiz.PerfectSession | src/components/games/Quiz.tsx:21-41 | a whole session answered right scores the question count |
| Quiz.InitialConsistent | src/components/games/Quiz.tsx:13-17 | the initial fields satisfy the invariant |
| Quiz.QuizGame.constructor | src/components/games/Quiz.tsx:13-17 | the initial state fields |
| Quiz.QuizGame.HandleAnswerClick | src/components/games/Quiz.tsx:21-31 | the fields change as `AnswerClick` says |
| Quiz.QuizGame.HandleNext | src/components/games/Quiz.tsx:33-41 | the fields change as `Next` says; offered only after an answer (Quiz.tsx:147-153) |
| TrueOrFalse.MakeStatement | src/components/games/TrueOrFalse.tsx:21-32 | a true statement shows the answer; a false one shows the answer moved by an offset in -3..2 |
| TrueOrFalse.FalseStatementMayShowAnswer | src/components/games/TrueOrFalse.tsx:22-25 | an offset draw of 3 makes a "false" statement show the true answer |
| TrueOrFalse.BuildStatements | src/components/games/TrueOrFalse.tsx:20-34 | one statement per question, each true or false per its coin and showing the answer or a nearby value |
| TrueOrFalse.Answer | src/components/games/TrueOrFalse.tsx:43-50 | ignored once an answer is selected; otherwise the answer is selected, the advance timeout becomes pending, and the score rises exactly when the answer matches the statement's truth |
| TrueOrFalse.AdvanceTimeout | src/components/games/TrueOrFalse.tsx:51-58 | before the last statement: the next one with no selection; on the last: the result screen; the score is untouched |
| TrueOrFalse.Run | src/components/games/TrueOrFalse.tsx:36-59 | over any presses and timeouts, the score never falls and never exceeds the statements answered or the statement count, and the result screen is final |
| TrueOrFalse.TrueOrFalseGame.constructor | src/components/games/TrueOrFalse.tsx:20-39 | the statements are built from the questions and the draws, with the initial fields |
| TrueOrFalse.TrueOrFalseGame.HandleAnswer | src/components/games/TrueOrFalse.tsx:43-50 | the fields change as `Answer` says |
| TrueOrFalse.TrueOrFalseGame.OnAdvanceTimeout | src/components/games/TrueOrFalse.tsx:51-58 | the fields change as `AdvanceTimeout` says |
| WhackAMole.VisibleCount | src/components/games/WhackAMole.tsx:61 | the number of raised moles is at most the number of moles |
| WhackAMole.Invisible | src/components/games/WhackAMole.tsx:63 | the free holes are exactly the moles that are down: every mole listed is down, every mole that is down is listed, and their number is the total minus the raised ones |
| WhackAMole.VisibleCountUpdate | src/components/games/WhackAMole.tsx:72-76 | replacing one mole changes the raised count by that mole alone |
| WhackAMole.NoneVisible | src/components/games/WhackAMole.tsx:30-35 | moles that are all down count zero raised |
| WhackAMole.InitialMoles | src/components/games/WhackAMole.tsx:28-37 | nine holes, mole i in hole i, all down, wrong and showing 0 |
| WhackAMole.Reveal | src/components/games/WhackAMole.tsx:72-76 | the spawn's map raises exactly the chosen hole with its value and correctness |
| WhackAMole.Hide | src/components/games/WhackAMole.tsx:80-84 | the hide map lowers exactly the given hole and keeps its value |
| WhackAMole.SpawnValue | src/components/games/WhackAMole.tsx:66-70 | a true coin shows the answer; a false coin shows the picked option when it exists and is not 0, and the answer otherwise; so a value other than the answer is always a non-zero picked option |
| WhackAMole.InitialConsistent | src/components/games/WhackAMole.tsx:20-37 | the state after mount satisfies the invariant |
| WhackAMole.FreeHoleExists | src/components/games/WhackAMole.tsx:62-64 | with at most three raised, at least six holes are free, so a spawn always finds one |
| WhackAMole.ChosenHole | src/components/games/WhackAMole.tsx:65 | the picked free hole is a hole that is down |
| WhackAMole.Spawn | src/components/games/WhackAMole.tsx:56-91 | with three raised nothing happens; otherwise exactly the chosen free hole goes up, as the mole with that hole's id showing the spawn value and correct exactly on a true coin; the raised count rises by one, a correct mole shows the answer, and its hide timeout becomes pending |
| WhackAMole.HideTimeout | src/components/games/WhackAMole.tsx:78-85 | the hole goes down whatever it now shows, no other hole changes, and the raised count does not rise |
| WhackAMole.Whack | src/components/games/WhackAMole.tsx:93-109 | a hidden mole or a finished game changes nothing; a raised correct mole scores one and moves on unless on the last question; the mole goes down |
| WhackAMole.ClockTick | src/components/games/WhackAMole.tsx:39-54 | one second less, and the game ends exactly when the last second runs out |
| WhackAMole.Run | src/components/games/WhackAMole.tsx:20-109 | over any interleaving, at most three moles are up, the score and index never fall, the clock never rises, and a finished game stays finished |
| WhackAMole.GameOverFreezes | src/components/games/WhackAMole.tsx:39-109 | after the game ends no event changes the score or the question, and the number of raised moles does not rise |
| WhackAMole.RunAppend | src/components/games/WhackAMole.tsx:20-109 | running two event lists in turn is running them joined |
| WhackAMole.CorrectRoundScores | src/components/games/WhackAMole.tsx:96-102 | a correct mole raised and whacked scores one, even on the last question where the index stays |
| WhackAMole.ScoreExceedsQuestionCount | src/components/games/WhackAMole.tsx:96-102 | with one question, two correct whacks score 2, more than the question count |
| WhackAMole.WhackAMoleGame.constructor | src/components/games/WhackAMole.tsx:20-37 | the initial fields, with the nine holes of the mount effect |
| WhackAMole.WhackAMoleGame.OnSpawnTick | src/components/games/WhackAMole.tsx:60-88 | the fields change as `Spawn` says |
| WhackAMole.WhackAMoleGame.OnHideTimeout | src/components/games/WhackAMole.tsx:79-85 | the fields change as `HideTimeout` says |
| WhackAMole.WhackAMoleGame.HandleWhack | src/components/games/WhackAMole.tsx:93-109 | the fields change as `Whack` says |
| WhackAMole.WhackAMoleGame.OnClockTick | src/components/games/WhackAMole.tsx:43-51 | the fields change as `ClockTick` says |
| MazeChase.Clamp | src/components/games/MazeChase.tsx:53-54 | the result is on the grid, equals the input when that is on the grid, and is the nearest edge otherwise |
| MazeChase.Moved | src/components/games/MazeChase.tsx:52-55 | each coordinate is the step clamped to the grid, so the new position is on the grid, is the exact step when that stays on the grid, stops at the edge on each axis that would leave it, and a unit step moves at most one cell per axis |
| MazeChase.PlaceItems | src/components/games/MazeChase.tsx:33-47 | the placed cells are on the grid, off the start cell, pairwise distinct, at most one per option and all drawn; if fewer are placed, every draw was rejected |
| MazeChase.PlacementCellsDistinct | src/components/games/MazeChase.tsx:42-45 | two items in the same cell are the same item |
| MazeChase.MatchFrom | src/components/games/MazeChase.tsx:59-60 | the item found sits at the new cell and is not yet collected; finding none means every item there is collected |
| MazeChase.AdvanceQueueAppend | src/components/games/MazeChase.tsx:67-73 | a new advance timeout, reading the current index, keeps the pending timeouts ordered and at the current index or the one before |
| MazeChase.AdvanceQueuePop | src/components/games/MazeChase.tsx:67-73 | firing the oldest pending advance keeps that order for the rest |
| MazeChase.Move | src/components/games/MazeChase.tsx:51-77 | the player takes the clamped step; the uncollected item there, if any, is appended to the collected list; it scores and starts an advance timeout exactly when its option is the answer; the index and the items stay |
| MazeChase.AdvanceTimeout | src/components/games/MazeChase.tsx:28-73 | the timeout started on the current, non-last question moves to the next with the player reset, nothing collected and new items; one started on the previous question changes nothing; one started on the last question shows the result; the index never falls |
| MazeChase.TwoScoringItemsAdvanceOnce | src/components/games/MazeChase.tsx:63-73 | two scoring collections on one question move on by one question, not two |
| MazeChase.Run | src/components/games/MazeChase.tsx:18-103 | over any keys and timeouts, the player stays on the grid, the collected list has no repeats, the score and index never fall, and the result screen once shown stays |
| MazeChase.ScoringCountAppend | src/components/games/MazeChase.tsx:63-65 | counting scoring items over a list with one more item adds one exactly when that item scores |
| MazeChase.ScoringCountConcat | src/components/games/MazeChase.tsx:63-65 | the scoring items of two lists joined are those of each list added |
| MazeChase.MoveScoresScoringItem | src/components/games/MazeChase.tsx:51-77 | one move extends the collected list and scores exactly for the scoring item it adds |
| MazeChase.MovesScoreScoringItems | src/components/games/MazeChase.tsx:51-77 | with moves only, the collected list only grows at its end and the score rises by exactly the number of newly collected items that carry the answer |
| MazeChase.ScoringCountNone | src/components/games/MazeChase.tsx:63-65 | a list with no item carrying the answer counts no scoring item |
| MazeChase.ScoringCountAtMostOne | src/components/games/MazeChase.tsx:59-65 | when the answer is on one option only, a list of distinct collected items holds at most one scoring item |
| MazeChase.StepScoreWithin | src/components/games/MazeChase.tsx:51-77 | under that condition on every question, each key or timeout keeps the score at most the index plus the scoring items collected on the current question |
| MazeChase.RunScoreWithin | src/components/games/MazeChase.tsx:18-103 | the same bound holds after any session |
| MazeChase.ScoreAtMostQuestionCount | src/components/games/MazeChase.tsx:18-103 | when no question carries its answer on two options, no session from mounting scores more than the number of questions |
| MazeChase.MazeChaseGame.constructor | src/components/games/MazeChase.tsx:18-49 | the initial fields, with the items placed for question 0 from the draws |
| MazeChase.MazeChaseGame.MovePlayer | src/components/games/MazeChase.tsx:51-77 | the loop over the items changes the fields as `Move` says |
| MazeChase.MazeChaseGame.OnAdvanceTimeout | src/components/games/MazeChase.tsx:28-73 | the fields change as `AdvanceTimeout` says, with the new items drawn from the stream |
| Airplane.CreatePlanes | src/components/games/Airplane.tsx:31-45 | one plane per option with id question-slot, carrying that option, correct exactly when it equals the answer, starting at x -20 in rows 20 apart from 15; ids distinct |
| Airplane.TickBullets | src/components/games/Airplane.tsx:63-77 | no bullet is added, and every kept bullet is an old one moved 2 right that is still short of 120 |
| Airplane.TickBulletsCons | src/components/games/Airplane.tsx:66-72 | the tick on a bullet followed by others moves that bullet 2 right in front of the tick of the others, or drops it at 120 |
| Airplane.TickBulletsConcatStep | src/components/games/Airplane.tsx:66-72 | a bullet put in front of a list whose tick splits at a point keeps that split |
| Airplane.TickBulletsConcat | src/components/games/Airplane.tsx:66-72 | the tick of two lists joined is the two ticks joined, so kept bullets keep their order and number |
| Airplane.TickBulletsOne | src/components/games/Airplane.tsx:66-72 | one bullet moves 2 right, or is dropped when it reaches 120 |
| Airplane.TickBulletsKeepsInside | src/components/games/Airplane.tsx:66-72 | every bullet that stays short of 120 is kept, moved 2 right |
| Airplane.TickBulletsNoneDropped | src/components/games/Airplane.tsx:66-72 | when none reaches 120, every bullet moves 2 right and their number and order are kept |
| Airplane.InitialConsistent | src/components/games/Airplane.tsx:22-45 | the state after mount satisfies the invariant |
| Airplane.BulletTick | src/components/games/Airplane.tsx:63-77 | only the bullets change, as the tick says |
| Airplane.Shoot | src/components/games/Airplane.tsx:79-87 | ignored while a plane is marked; otherwise one bullet appears at (5, 50) and the hit callback becomes pending with this render's score and index |
| Airplane.ResolveHit | src/components/games/Airplane.tsx:87-92 | the oldest pending shot marks its plane; a correct plane sets the score to one more than the score the shot read; the second callback becomes pending |
| Airplane.AfterHit | src/components/games/Airplane.tsx:93-106 | after a correct hit: the question after the one the shot read, with its planes, no mark and no bullets, or the result screen after the last; after a wrong hit: only the mark is cleared |
| Airplane.Run | src/components/games/Airplane.tsx:22-108 | over any interleaving, the planes are those of the current question and every bullet is short of 120, and the result screen once shown stays; that the score and index never fall is stated by `RunMono` |
| Airplane.InitialMono | src/components/games/Airplane.tsx:22-30 | the state after mount keeps the order of pending callbacks (nothing is pending) |
| Airplane.ShootMono | src/components/games/Airplane.tsx:79-87 | a shot records the live score and index, which keeps the pending shots ordered and none later than the live values |
| Airplane.HitMono | src/components/games/Airplane.tsx:87-92 | the first phase never lowers the score, leaves the index, and keeps the pending callbacks ordered |
| Airplane.AfterMono | src/components/games/Airplane.tsx:93-106 | the second phase never lowers the index, leaves the score, and keeps the pending callbacks ordered |
| Airplane.StepMono | src/components/games/Airplane.tsx:22-108 | no event lowers the score or the index, and every event keeps the pending callbacks ordered |
| Airplane.RunMono | src/components/games/Airplane.tsx:22-108 | over any interleaving of ticks, clicks and both phases, the score and the question index never fall, although each callback reads the values of the render that scheduled it |
| Airplane.RunAppend | src/components/games/Airplane.tsx:22-108 | running two event lists in turn is running them joined |
| Airplane.ScoreAndIndexNeverFall | src/components/games/Airplane.tsx:22-108 | from mounting, a later point of a session never shows a lower score or an earlier question than an earlier point |
| Airplane.ScoreExceedsQuestionCount | src/components/games/Airplane.tsx:79-108 | with one question, a wrong and a correct shot in one window and a second correct shot after the wrong one's mark clears reach the result screen and then score 2, more than the question count |
| Airplane.ScoreBoundRun | src/components/games/Airplane.tsx:87-92 | the score rises by at most one per hit callback fired |
| Airplane.DoubleShotScoresOnce | src/components/games/Airplane.tsx:79-92 | two clicks on the correct plane within 500 ms are both accepted and fire two bullets, but score only once |
| Airplane.CorrectPlaneShown | src/components/games/Airplane.tsx:35-42 | when the answer is among the options, some plane is correct, and every correct plane carries the answer |
| Airplane.CorrectShotAdvances | src/components/games/Airplane.tsx:79-108 | one undisturbed shot at the correct plane of a non-last question scores one and shows the next question's planes, with no bullets and no mark |
| Airplane.AirplaneGame.constructor | src/components/games/Airplane.tsx:22-45 | the initial fields, with the planes of question 0 |
| Airplane.AirplaneGame.OnBulletTick | src/components/games/Airplane.tsx:65-74 | the fields change as `BulletTick` says |
| Airplane.AirplaneGame.HandleShoot | src/components/games/Airplane.tsx:79-87 | the fields change as `Shoot` says |
| Airplane.AirplaneGame.OnHitTimeout | src/components/games/Airplane.tsx:87-92 | the fields change as `ResolveHit` says |
| Airplane.AirplaneGame.OnAfterHitTimeout | src/components/games/Airplane.tsx:93-106 | the fields change as `AfterHit` says |
| RankOrder.MakeItems | src/components/games/RankOrder.tsx:20-24 | min(6, N) items, item i with id i, question i's display and its answer as value |
| RankOrder.MakeItemsDistinct | src/components/games/RankOrder.tsx:21 | the item ids are distinct |
| RankOrder.Insert | src/components/games/RankOrder.tsx:34 | insertion adds exactly the one item |
| RankOrder.InsertSorted | src/components/games/RankOrder.tsx:34 | insertion into an ascending list keeps it ascending |
| RankOrder.SortByValue | src/components/games/RankOrder.tsx:34 | the correct order is ascending by value and a permutation of the items |
| RankOrder.InsertKeepsEqualOrder | src/components/games/RankOrder.tsx:34 | insertion puts the new item ahead of the items of its value and keeps their order |
| RankOrder.SortIsStable | src/components/games/RankOrder.tsx:34 | the sort keeps the order of the items of every value |
| RankOrder.SortedFixpoint | src/components/games/RankOrder.tsx:34 | items already ascending are their own correct order |
| RankOrder.StableSortUnique | src/components/games/RankOrder.tsx:34 | two ascending lists holding the items of each value in the same order are equal |
| RankOrder.CorrectOrderIsStableSort | src/components/games/RankOrder.tsx:34 | the correct order is what any stable ascending sort of the items gives |
| RankOrder.PermutationKeepsDistinctIds | src/components/games/RankOrder.tsx:27 | any rearrangement of items with distinct ids has distinct ids |
| RankOrder.CheckIffSorted | src/components/games/RankOrder.tsx:34-37 | the check passes exactly when the live order is ascending by value |
| RankOrder.EqualValuesEitherOrder | src/components/games/RankOrder.tsx:34-37 | two items of equal value pass in either order |
| RankOrder.FindIndex | src/components/games/RankOrder.tsx:96 | the first position holding the id, or -1 exactly when none does |
| RankOrder.MarkInPlaceIff | src/components/games/RankOrder.tsx:96-98 | after a check, a position is marked in place exactly when the correct order holds the same item there |
| RankOrder.MarksMatchCheck | src/components/games/RankOrder.tsx:96-98 | the check passed exactly when every position is marked in place |
| RankOrder.InitialConsistent | src/components/games/RankOrder.tsx:19-32 | any shuffle of the items satisfies the invariant |
| RankOrder.HandleCheck | src/components/games/RankOrder.tsx:36-46 | the state becomes checked, correct exactly when the items are ascending, with the result timeout pending exactly then; the items stay |
| RankOrder.TryAgain | src/components/games/RankOrder.tsx:48-50 | only the checked flag is cleared |
| RankOrder.Reorder | src/components/games/RankOrder.tsx:94 | the list takes the dragged order; the ids stay distinct and the flags stay |
| RankOrder.ResultTimeout | src/components/games/RankOrder.tsx:41-44 | the result screen, with the items kept |
| RankOrder.Run | src/components/games/RankOrder.tsx:19-50 | over any clicks, drags and timeouts, the items stay a rearrangement of the start, and the result is shown only after a check that passed |
| RankOrder.RankOrderGame.constructor | src/components/games/RankOrder.tsx:19-32 | the initial fields, with the shuffled items |
| RankOrder.RankOrderGame.OnCheck | src/components/games/RankOrder.tsx:36-46 | the fields change as `HandleCheck` says |
| RankOrder.RankOrderGame.OnTryAgain | src/components/games/RankOrder.tsx:48-50 | the fields change as `TryAgain` says |
| RankOrder.RankOrderGame.OnReorder | src/components/games/RankOrder.tsx:94 | the fields change as `Reorder` says |
| RankOrder.RankOrderGame.OnResultTimeout | src/components/games/RankOrder.tsx:42-44 | the fields change as `ResultTimeout` says |

## Behaviour of the source that the model keeps

- WhackAMole: the score is not bounded by the number of questions. On the
  last question a correct whack scores and the index stays, so every
  later correct mole scores again (`ScoreExceedsQuestionCount`).
- WhackAMole: a wrong mole picks an option with `options[k] || answer`,
  so a 0 option shows the answer instead, on a mole marked wrong.
- TrueOrFalse: a false statement may show the true value, since an
  offset draw of 3 gives an offset of 0 (`FalseStatementMayShowAnswer`).
- Airplane: the mark that blocks further shots is set only when the
  500 ms callback fires, so several clicks in that window are accepted.
  Each callback reads the score and index of the render that fired it.
  Two quick shots at the correct plane therefore score once, not twice
  (`DoubleShotScoresOnce`). Even so, the score and the question index
  never fall (`RunMono`).
- Airplane: the result screen stays, but the score behind it keeps
  changing, and it is not bounded by the number of questions. A click on a wrong plane and one on the
  correct plane inside one 500 ms window are both accepted. The wrong
  plane's second phase clears the mark, so the correct plane can be shot
  again. The first correct second phase shows the result screen, and
  the new shot's first phase, which fires after it, raises the score
  once more: 2 with one question (`ScoreExceedsQuestionCount`).
- MazeChase: the key listener stays registered behind the result screen,
  so moves and collections go on there. Two scoring items in one
  question advance once (`TwoScoringItemsAdvanceOnce`). When every
  question carries its answer on one option only, the score stays at
  most the number of questions (`ScoreAtMostQuestionCount`); with the
  answer on two options, each of them scores.
- RankOrder: dragging stays possible after a passed check, so the result
  screen can appear over a list that is no longer ascending. Items of
  equal value pass in either order.

## Left out

- Rendering, styling and animation (JSX, `motion`), the result screens'
  text, and the `onComplete` callback to the parent.
- Screen navigation and question generation in src/App.tsx; only the
  `MathQuestion` and `GameSettings` shapes are modelled.
- Airplane plane motion: the per-plane speed (`0.3 + Math.random() * 0.2`)
  and the 50 ms flight interval use floating point. Planes keep their
  start x.
- TrueOrFalse: the rendered equation string is kept as its display text
  and shown value, not as one formatted string.
- Real time. Timers are callbacks fired by the caller, in any order
  among kinds. Within one kind they fire oldest first where every timer
  of that kind has the same delay: Airplane's two phases and MazeChase's
  advance timeouts. WhackAMole's hide timeouts fire in any order (any
  pending hole may be hidden next), although a real clock would fire
  them in the order they were started. So the models also allow orders
  a real clock would exclude, for example an Airplane second phase
  before a later first phase. Interval restarts and cleanup on unmount
  are not modelled.
- MazeChase keyboard listener registration (`addEventListener`): a key
  press is a `Key` event calling the move directly.
- WhackAMole's first render, before the mount effect sets up the nine
  holes, when the mole list is empty; the model starts after that effect.
- With an empty question list, Quiz and TrueOrFalse fail in the first
  render, which reads question 0 without a guard, and MazeChase fails in
  its mount effect, which reads that question's options
  (src/components/games/MazeChase.tsx:35); its render itself reads the
  question safely (src/components/games/MazeChase.tsx:137). So the
  constructors of these three require a non-empty list; WhackAMole,
  Airplane and RankOrder accept an empty list.
- MazeChase.PlaceItems: the source's rejection loop draws until it finds
  a free cell; the model consumes a finite stream of draws and places
  fewer items if the stream runs out, as its contract says.
- RankOrder's shuffle (`sort(() => Math.random() - 0.5)`): modelled as
  any permutation handed to the constructor, not as a sort with a random
  comparator.
- Number formatting of values and of the score display.
- Quiz: a `Click` event stands for a click on one of the shown option
  buttons (src/components/games/Quiz.tsx:114-123), but carries any
  integer. The session properties are proved for every clicked value,
  which includes the values the buttons offer.
