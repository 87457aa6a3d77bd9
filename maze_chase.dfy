/** The maze chase (src/components/games/MazeChase.tsx): a player on a
    6 x 6 grid moves one clamped step at a time and collects the answer
    items placed on the grid; collecting the item that carries the answer
    scores and, after a delay, moves on to the next question. */
module MazeChase {
  import opened Questions

  const GridSize: int := 6

  datatype Position = Position(x: int, y: int)

  const Origin: Position := Position(0, 0)

  predicate InGrid(p: Position)
  {
    0 <= p.x < GridSize && 0 <= p.y < GridSize
  }

  /** `Math.max(0, Math.min(gridSize - 1, v))` */
  function Clamp(v: int): (r: int)
    ensures 0 <= r < GridSize
    ensures 0 <= v < GridSize ==> r == v
    ensures v < 0 ==> r == 0
    ensures v >= GridSize ==> r == GridSize - 1
  {
    var upper := if v < GridSize - 1 then v else GridSize - 1;
    if upper > 0 then upper else 0
  }

  /** The new position of `movePlayer(dx, dy)`: each coordinate moves by
      its step unless that leaves the grid, where it stops at the edge. */
  function Moved(p: Position, dx: int, dy: int): (r: Position)
    ensures InGrid(r)
    ensures InGrid(Position(p.x + dx, p.y + dy)) ==> r == Position(p.x + dx, p.y + dy)
    ensures r.x == Clamp(p.x + dx) && r.y == Clamp(p.y + dy)
    ensures InGrid(p) && -1 <= dx <= 1 && -1 <= dy <= 1 ==>
              -1 <= r.x - p.x <= 1 && -1 <= r.y - p.y <= 1
  {
    Position(Clamp(p.x + dx), Clamp(p.y + dy))
  }

  /** Item positions as the placement loop leaves them: on the grid, off
      the start cell, and no two in one cell. */
  predicate ValidPlacement(ps: seq<Position>)
  {
    && (forall i :: 0 <= i < |ps| ==> InGrid(ps[i]) && ps[i] != Origin)
    && (forall i, j :: 0 <= i < j < |ps| ==> ps[i] != ps[j])
  }

  /** The placement effect: one position per option, each drawn again and
      again until it is free and not the start cell. The random cells come
      in as one stream `draws`; the loop over options and its inner
      rejection loop consume it in order. If the stream runs out, fewer
      items are placed, and then every draw was rejected. */
  method PlaceItems(count: nat, draws: seq<Position>) returns (positions: seq<Position>)
    requires forall d :: d in draws ==> InGrid(d)
    ensures ValidPlacement(positions) && |positions| <= count
    ensures forall p :: p in positions ==> p in draws
    ensures |positions| < count ==> forall d :: d in draws ==> d == Origin || d in positions
  {
    positions := [];
    var next := 0;
    while |positions| < count && next < |draws|
      invariant next <= |draws|
      invariant ValidPlacement(positions) && |positions| <= count
      invariant forall p :: p in positions ==> p in draws[..next]
      invariant forall d :: d in draws[..next] ==> d == Origin || d in positions
    {
      var pos := draws[next];
      next := next + 1;
      if pos !in positions && pos != Origin {
        positions := positions + [pos];
      }
    }
    assert draws[..next] == draws || |positions| == count;
  }

  lemma PlacementCellsDistinct(ps: seq<Position>, a: nat, b: nat)
    requires ValidPlacement(ps) && a < |ps| && b < |ps| && ps[a] == ps[b]
    ensures a == b
  {
  }

  /** The index of an item at `pos` that is not yet collected, if any.
      Items sit in distinct cells, so there is at most one. */
  function MatchFrom(items: seq<Position>, collected: seq<nat>, pos: Position, i: nat): (k: Option<nat>)
    requires i <= |items|
    ensures k.Some? ==> i <= k.value < |items| && items[k.value] == pos && k.value !in collected
    ensures k.None? ==> forall j :: i <= j < |items| && items[j] == pos ==> j in collected
    decreases |items| - i
  {
    if i == |items| then None
    else if items[i] == pos && i !in collected then Some(i)
    else MatchFrom(items, collected, pos, i + 1)
  }

  function MatchAt(items: seq<Position>, collected: seq<nat>, pos: Position): Option<nat>
  {
    MatchFrom(items, collected, pos, 0)
  }

  /** The component's state fields. `pendingAdvances` holds, oldest first,
      the question index each advance timeout started and not yet fired
      read when it was started; they all wait 1000 ms, so they fire in
      that order. */
  datatype MState = MState(
    currentQuestion: nat,
    player: Position,
    collected: seq<nat>,
    score: nat,
    showResult: bool,
    items: seq<Position>,
    pendingAdvances: seq<nat>)

  /** Items for `q`: a valid placement with at most one item per option. */
  predicate PlacementFor(items: seq<Position>, q: MathQuestion)
  {
    ValidPlacement(items) && |items| <= |q.options|
  }

  predicate Distinct(ks: seq<nat>)
  {
    forall i, j :: 0 <= i < j < |ks| ==> ks[i] != ks[j]
  }

  predicate Consistent(s: MState, questions: seq<MathQuestion>)
  {
    && s.currentQuestion < |questions|
    && InGrid(s.player)
    && PlacementFor(s.items, questions[s.currentQuestion])
    && Distinct(s.collected)
    && (forall i :: 0 <= i < |s.collected| ==> s.collected[i] < |s.items|)
    && AdvanceQueueOk(s.pendingAdvances, s.currentQuestion)
  }

  /** The pending advances read the current index or the one before, the
      older ones first; so none of them can move the index back. */
  predicate AdvanceQueueOk(pending: seq<nat>, current: nat)
  {
    && (forall i :: 0 <= i < |pending| ==> pending[i] == current || pending[i] + 1 == current)
    && (forall i, j :: 0 <= i < j < |pending| ==> pending[i] <= pending[j])
  }

  lemma AdvanceQueueAppend(pending: seq<nat>, current: nat)
    requires AdvanceQueueOk(pending, current)
    ensures AdvanceQueueOk(pending + [current], current)
  {
  }

  lemma AdvanceQueuePop(pending: seq<nat>, current: nat)
    requires AdvanceQueueOk(pending, current) && |pending| > 0
    ensures AdvanceQueueOk(pending[1..], current)
    ensures pending[0] == current ==> AdvanceQueueOk(pending[1..], current + 1)
  {
  }

  /** The effect run for a question: the player back at the start, nothing
      collected, the new items. */
  function QuestionStart(index: nat, items: seq<Position>): MState
  {
    MState(index, Origin, [], 0, false, items, [])
  }

  /** Whether collecting item `k` of `q` scores. */
  predicate Scores(q: MathQuestion, k: nat)
  {
    k < |q.options| && q.options[k] == q.answer
  }

  /** `movePlayer(dx, dy)`: the clamped step, then collection of the item
      in the new cell unless it was already collected. Collecting the item
      carrying the answer scores and starts the advance timeout; collecting
      another item only marks it. The key listener stays registered behind
      the result screen, so moves are accepted there too. */
  function Move(s: MState, questions: seq<MathQuestion>, dx: int, dy: int): (r: MState)
    requires Consistent(s, questions)
    ensures Consistent(r, questions)
    ensures r.player == Moved(s.player, dx, dy)
    ensures r.currentQuestion == s.currentQuestion && r.showResult == s.showResult && r.items == s.items
    ensures r.collected == s.collected || |r.collected| == |s.collected| + 1
    ensures s.collected <= r.collected
    ensures r.collected != s.collected ==>
              var k := r.collected[|s.collected|];
              && k !in s.collected && s.items[k] == r.player
              && (Scores(questions[s.currentQuestion], k) ==>
                    r.score == s.score + 1 && r.pendingAdvances == s.pendingAdvances + [s.currentQuestion])
              && (!Scores(questions[s.currentQuestion], k) ==>
                    r.score == s.score && r.pendingAdvances == s.pendingAdvances)
    ensures r.collected == s.collected ==>
              && (forall j :: 0 <= j < |s.items| && s.items[j] == r.player ==> j in s.collected)
              && r.score == s.score && r.pendingAdvances == s.pendingAdvances
  {
    var p := Moved(s.player, dx, dy);
    match MatchAt(s.items, s.collected, p)
    case None => s.(player := p)
    case Some(k) =>
      var hit := Scores(questions[s.currentQuestion], k);
      AdvanceQueueAppend(s.pendingAdvances, s.currentQuestion);
      s.(player := p,
         collected := s.collected + [k],
         score := if hit then s.score + 1 else s.score,
         pendingAdvances := if hit then s.pendingAdvances + [s.currentQuestion] else s.pendingAdvances)
  }

  /** Whether the oldest pending advance moves to a new question: it was
      started on the current question, which is not the last. */
  predicate AdvancesQuestion(s: MState, questions: seq<MathQuestion>)
    requires |s.pendingAdvances| > 0
  {
    s.pendingAdvances[0] == s.currentQuestion && HasNext(questions, s.currentQuestion)
  }

  /** The 1000 ms timeout started by a scoring collection, with the index
      `c` read when it started. Before the last question it sets the index
      to c + 1: when that is a new index, the effect resets the player,
      clears the collected list and places `items`; when it is already the
      index, nothing changes. After the last question: the result screen. */
  function AdvanceTimeout(s: MState, questions: seq<MathQuestion>, items: seq<Position>): (r: MState)
    requires Consistent(s, questions) && |s.pendingAdvances| > 0
    requires AdvancesQuestion(s, questions) ==> PlacementFor(items, questions[s.currentQuestion + 1])
    ensures Consistent(r, questions)
    ensures r.score == s.score && r.pendingAdvances == s.pendingAdvances[1..]
    ensures s.currentQuestion <= r.currentQuestion <= s.currentQuestion + 1
    ensures AdvancesQuestion(s, questions) ==>
              && r.currentQuestion == s.currentQuestion + 1
              && r.player == Origin && r.collected == [] && r.items == items
              && r.showResult == s.showResult
    ensures s.pendingAdvances[0] + 1 == s.currentQuestion ==>
              r == s.(pendingAdvances := s.pendingAdvances[1..])
    ensures !HasNext(questions, s.pendingAdvances[0]) ==>
              r == s.(showResult := true, pendingAdvances := s.pendingAdvances[1..])
  {
    var c := s.pendingAdvances[0];
    var rest := s.pendingAdvances[1..];
    AdvanceQueuePop(s.pendingAdvances, s.currentQuestion);
    if HasNext(questions, c) then
      if c + 1 == s.currentQuestion then s.(pendingAdvances := rest)
      else
        var start := QuestionStart(c + 1, items);
        start.(score := s.score, showResult := s.showResult, pendingAdvances := rest)
    else
      s.(showResult := true, pendingAdvances := rest)
  }

  /** Two scoring collections on one question (the answer appears twice
      among the options) start two timeouts reading the same index, so
      the game moves on by one question, not two. */
  lemma TwoScoringItemsAdvanceOnce(s: MState, questions: seq<MathQuestion>, items1: seq<Position>, items2: seq<Position>)
    requires Consistent(s, questions) && HasNext(questions, s.currentQuestion)
    requires s.pendingAdvances == [s.currentQuestion, s.currentQuestion]
    requires PlacementFor(items1, questions[s.currentQuestion + 1])
    ensures var s1 := AdvanceTimeout(s, questions, items1);
            var s2 := AdvanceTimeout(s1, questions, items2);
            && s2.currentQuestion == s.currentQuestion + 1
            && s2.items == items1 && s2.pendingAdvances == []
  {
    var s1 := AdvanceTimeout(s, questions, items1);
    assert s1.pendingAdvances == [s.currentQuestion];
  }

  /** A key press, or an advance timeout with the placement it triggers. */
  datatype Event = Key(dx: int, dy: int) | AdvanceFires(items: seq<Position>)

  function Step(s: MState, questions: seq<MathQuestion>, e: Event): MState
    requires Consistent(s, questions)
  {
    match e
    case Key(dx, dy) => Move(s, questions, dx, dy)
    case AdvanceFires(items) =>
      if |s.pendingAdvances| > 0
         && (AdvancesQuestion(s, questions) ==> PlacementFor(items, questions[s.currentQuestion + 1]))
      then AdvanceTimeout(s, questions, items)
      else s
  }

  /** Any session keeps the player on the grid and the collected list free
      of repeats; the score and the question index never fall. */
  function Run(s: MState, questions: seq<MathQuestion>, events: seq<Event>): (r: MState)
    requires Consistent(s, questions)
    ensures Consistent(r, questions)
    ensures InGrid(r.player) && Distinct(r.collected)
    ensures s.score <= r.score && s.currentQuestion <= r.currentQuestion
    ensures s.showResult ==> r.showResult
    decreases |events|
  {
    if events == [] then s
    else Run(Step(s, questions, events[0]), questions, events[1..])
  }

  predicate AllKeys(events: seq<Event>)
  {
    forall i :: 0 <= i < |events| ==> events[i].Key?
  }

  /** How many of the item indices `ks` score for `q`. */
  function ScoringCount(q: MathQuestion, ks: seq<nat>): nat
  {
    if ks == [] then 0 else (if Scores(q, ks[0]) then 1 else 0) + ScoringCount(q, ks[1..])
  }

  lemma {:induction false} ScoringCountAppend(q: MathQuestion, ks: seq<nat>, k: nat)
    ensures ScoringCount(q, ks + [k]) == ScoringCount(q, ks) + if Scores(q, k) then 1 else 0
  {
    if ks != [] {
      assert (ks + [k])[1..] == ks[1..] + [k];
      ScoringCountAppend(q, ks[1..], k);
    }
  }

  lemma {:induction false} ScoringCountConcat(q: MathQuestion, a: seq<nat>, b: seq<nat>)
    ensures ScoringCount(q, a + b) == ScoringCount(q, a) + ScoringCount(q, b)
  {
    if a == [] {
      assert a + b == b;
    } else {
      assert (a + b)[0] == a[0] && (a + b)[1..] == a[1..] + b;
      ScoringCountConcat(q, a[1..], b);
    }
  }

  /** One move scores exactly for the scoring item it collects, if any. */
  lemma MoveScoresScoringItem(s: MState, questions: seq<MathQuestion>, dx: int, dy: int)
    requires Consistent(s, questions)
    ensures var r := Move(s, questions, dx, dy);
            && s.collected <= r.collected
            && r.score == s.score + ScoringCount(questions[s.currentQuestion], r.collected[|s.collected|..])
  {
    var q := questions[s.currentQuestion];
    var r := Move(s, questions, dx, dy);
    if r.collected == s.collected {
      assert r.collected[|s.collected|..] == [];
    } else {
      var k := r.collected[|s.collected|];
      assert r.collected[|s.collected|..] == [k];
      assert ScoringCount(q, [k]) == if Scores(q, k) then 1 else 0 by {
        assert [k][1..] == [];
      }
    }
  }

  /** Within one question, moving only: the items collected grow as an
      extension of the old list, and the score rises by exactly the number
      of newly collected items that carry the answer. */
  lemma {:induction false} MovesScoreScoringItems(s: MState, questions: seq<MathQuestion>, events: seq<Event>)
    requires Consistent(s, questions) && AllKeys(events)
    ensures var r := Run(s, questions, events);
            && r.currentQuestion == s.currentQuestion && r.items == s.items
            && s.collected <= r.collected
            && r.score == s.score + ScoringCount(questions[s.currentQuestion], r.collected[|s.collected|..])
    decreases |events|
  {
    var q := questions[s.currentQuestion];
    if events == [] {
      assert s.collected[|s.collected|..] == [];
    } else {
      var s1 := Move(s, questions, events[0].dx, events[0].dy);
      assert Step(s, questions, events[0]) == s1;
      MoveScoresScoringItem(s, questions, events[0].dx, events[0].dy);
      MovesScoreScoringItems(s1, questions, events[1..]);
      var r := Run(s1, questions, events[1..]);
      var mid := s1.collected[|s.collected|..];
      var tail := r.collected[|s1.collected|..];
      assert r.collected[|s.collected|..] == mid + tail;
      ScoringCountConcat(q, mid, tail);
    }
  }

  /** The answer is carried by at most one option of `q`. */
  predicate AnswerOnce(q: MathQuestion)
  {
    forall i, j :: 0 <= i < |q.options| && 0 <= j < |q.options| && q.options[i] == q.answer && q.options[j] == q.answer ==> i == j
  }

  lemma {:induction false} ScoringCountNone(q: MathQuestion, ks: seq<nat>)
    requires forall k :: k in ks ==> !Scores(q, k)
    ensures ScoringCount(q, ks) == 0
  {
    if ks != [] {
      assert ks[0] in ks;
      assert forall k :: k in ks[1..] ==> k in ks;
      ScoringCountNone(q, ks[1..]);
    }
  }

  /** With the answer on one option only, a list of distinct items holds
      at most one scoring item. */
  lemma {:induction false} ScoringCountAtMostOne(q: MathQuestion, ks: seq<nat>)
    requires AnswerOnce(q) && Distinct(ks)
    ensures ScoringCount(q, ks) <= 1
  {
    if ks != [] {
      assert Distinct(ks[1..]) by {
        forall i, j | 0 <= i < j < |ks[1..]|
          ensures ks[1..][i] != ks[1..][j]
        {
          assert ks[1..][i] == ks[i + 1] && ks[1..][j] == ks[j + 1];
        }
      }
      if Scores(q, ks[0]) {
        forall k | k in ks[1..]
          ensures !Scores(q, k)
        {
          var i :| 0 <= i < |ks[1..]| && ks[1..][i] == k;
          assert ks[i + 1] == k && ks[0] != k;
        }
        ScoringCountNone(q, ks[1..]);
      } else {
        ScoringCountAtMostOne(q, ks[1..]);
      }
    }
  }

  /** The score is at most one per question passed plus the scoring items
      collected on the current one. */
  predicate ScoreWithin(s: MState, questions: seq<MathQuestion>)
    requires s.currentQuestion < |questions|
  {
    s.score <= s.currentQuestion + ScoringCount(questions[s.currentQuestion], s.collected)
  }

  lemma {:induction false} StepScoreWithin(s: MState, questions: seq<MathQuestion>, e: Event)
    requires Consistent(s, questions) && ScoreWithin(s, questions)
    requires forall i :: 0 <= i < |questions| ==> AnswerOnce(questions[i])
    ensures ScoreWithin(Step(s, questions, e), questions)
  {
    var q := questions[s.currentQuestion];
    match e
    case Key(dx, dy) =>
      var r := Move(s, questions, dx, dy);
      if r.collected != s.collected {
        var k := r.collected[|s.collected|];
        assert r.collected == s.collected + [k];
        ScoringCountAppend(q, s.collected, k);
      }
    case AdvanceFires(items) =>
      if |s.pendingAdvances| > 0
         && (AdvancesQuestion(s, questions) ==> PlacementFor(items, questions[s.currentQuestion + 1]))
      {
        if AdvancesQuestion(s, questions) {
          ScoringCountAtMostOne(q, s.collected);
          var r := AdvanceTimeout(s, questions, items);
          assert r.collected == [] && r.currentQuestion == s.currentQuestion + 1;
        } else {
          assert s.pendingAdvances[0] + 1 == s.currentQuestion || !HasNext(questions, s.pendingAdvances[0]);
        }
      }
  }

  lemma {:induction false} RunScoreWithin(s: MState, questions: seq<MathQuestion>, events: seq<Event>)
    requires Consistent(s, questions) && ScoreWithin(s, questions)
    requires forall i :: 0 <= i < |questions| ==> AnswerOnce(questions[i])
    ensures ScoreWithin(Run(s, questions, events), questions)
    decreases |events|
  {
    if events != [] {
      StepScoreWithin(s, questions, events[0]);
      RunScoreWithin(Step(s, questions, events[0]), questions, events[1..]);
    }
  }

  /** When no question carries its answer on two options, a session from
      mounting never scores more than the number of questions. */
  lemma ScoreAtMostQuestionCount(questions: seq<MathQuestion>, items: seq<Position>, events: seq<Event>)
    requires |questions| > 0 && PlacementFor(items, questions[0])
    requires forall i :: 0 <= i < |questions| ==> AnswerOnce(questions[i])
    ensures Run(QuestionStart(0, items), questions, events).score <= |questions|
  {
    var s0 := QuestionStart(0, items);
    RunScoreWithin(s0, questions, events);
    var r := Run(s0, questions, events);
    ScoringCountAtMostOne(questions[r.currentQuestion], r.collected);
  }

  /** The component: its state fields, the key handler and the advance
      timeout with the placement effect it triggers. */
  class MazeChaseGame {
    const questions: seq<MathQuestion>
    var currentQuestion: nat
    var playerPos: Position
    var collected: seq<nat>
    var score: nat
    var showResult: bool
    var itemPositions: seq<Position>
    var pendingAdvances: seq<nat>

    function State(): MState
      reads this
    {
      MState(currentQuestion, playerPos, collected, score, showResult, itemPositions, pendingAdvances)
    }

    predicate Valid()
      reads this
    {
      Consistent(State(), questions)
    }

    /** Mounting, with the placement effect for question 0, whose options
        the effect reads (so the list must not be empty). */
    constructor (questions: seq<MathQuestion>, draws: seq<Position>)
      requires |questions| > 0
      requires forall d :: d in draws ==> InGrid(d)
      ensures Valid() && this.questions == questions
      ensures State() == QuestionStart(0, itemPositions)
      ensures |itemPositions| <= |questions[0].options|
      ensures forall p :: p in itemPositions ==> p in draws
    {
      this.questions := questions;
      currentQuestion := 0;
      score := 0;
      showResult := false;
      pendingAdvances := [];
      playerPos := Origin;
      collected := [];
      var positions := PlaceItems(|questions[0].options|, draws);
      itemPositions := positions;
    }

    method MovePlayer(dx: int, dy: int)
      requires Valid()
      modifies this
      ensures State() == Move(old(State()), questions, dx, dy)
      ensures Valid()
    {
      var newPos := Position(Clamp(playerPos.x + dx), Clamp(playerPos.y + dy));
      playerPos := newPos;
      ghost var match0 := MatchAt(itemPositions, collected, newPos);
      ghost var collected0, score0, pending0 := collected, score, pendingAdvances;
      ghost var added := if match0.Some? && Scores(questions[currentQuestion], match0.value) then [currentQuestion] else [];
      var i := 0;
      while i < |itemPositions|
        invariant 0 <= i <= |itemPositions|
        invariant playerPos == newPos && itemPositions == old(itemPositions)
        invariant currentQuestion < |questions| && ValidPlacement(itemPositions)
        invariant currentQuestion == old(currentQuestion) && showResult == old(showResult)
        invariant match0 == MatchAt(itemPositions, collected0, newPos)
        invariant match0.Some? && match0.value < i ==>
                    && collected == collected0 + [match0.value]
                    && score == score0 + |added| && pendingAdvances == pending0 + added
        invariant !(match0.Some? && match0.value < i) ==>
                    collected == collected0 && score == score0 && pendingAdvances == pending0
      {
        if match0.Some? && itemPositions[i] == newPos {
          PlacementCellsDistinct(itemPositions, match0.value, i);
        }
        if itemPositions[i] == newPos && i !in collected {
          collected := collected + [i];
          var q := questions[currentQuestion];
          if i < |q.options| && q.options[i] == q.answer {
            score := score + 1;
            pendingAdvances := pendingAdvances + [currentQuestion];
          }
        }
        i := i + 1;
      }
    }

    /** The environment fires the oldest pending advance timeout; `draws`
        feeds the placement effect when the question changes. */
    method OnAdvanceTimeout(draws: seq<Position>)
      requires Valid() && |pendingAdvances| > 0
      requires forall d :: d in draws ==> InGrid(d)
      modifies this
      ensures Valid()
      ensures old(AdvancesQuestion(State(), questions)) ==> currentQuestion == old(currentQuestion) + 1
      ensures State() == AdvanceTimeout(old(State()), questions, itemPositions)
      ensures old(AdvancesQuestion(State(), questions)) ==> forall p :: p in itemPositions ==> p in draws
    {
      var c := pendingAdvances[0];
      AdvanceQueuePop(pendingAdvances, currentQuestion);
      pendingAdvances := pendingAdvances[1..];
      if c + 1 < |questions| {
        if c + 1 != currentQuestion {
          currentQuestion := c + 1;
          playerPos := Origin;
          collected := [];
          var positions := PlaceItems(|questions[currentQuestion].options|, draws);
          itemPositions := positions;
        }
      } else {
        showResult := true;
      }
    }
  }
}
