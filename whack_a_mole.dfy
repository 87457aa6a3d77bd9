/** The whack-a-mole game (src/components/games/WhackAMole.tsx): nine
    holes, a spawn tick that shows a mole in a free hole while fewer than
    three are up, a hide timeout per spawned mole, whacks that score
    correct moles, and a 30-second countdown that ends the game. */
module WhackAMole {
  import opened Questions

  const HoleCount: nat := 9
  const MaxVisible: nat := 3
  const GameSeconds: nat := 30

  datatype Mole = Mole(id: nat, answer: int, isCorrect: bool, isVisible: bool)

  /** `moles.filter(m => m.isVisible).length` */
  function VisibleCount(ms: seq<Mole>): (c: nat)
    ensures c <= |ms|
  {
    if ms == [] then 0 else (if ms[0].isVisible then 1 else 0) + VisibleCount(ms[1..])
  }

  /** `moles.filter(m => !m.isVisible)`: the holes a spawn may use. */
  function Invisible(ms: seq<Mole>): (r: seq<Mole>)
    ensures |r| == |ms| - VisibleCount(ms)
    ensures forall m :: m in r ==> m in ms && !m.isVisible
    ensures forall m :: m in ms && !m.isVisible ==> m in r
  {
    if ms == [] then []
    else if ms[0].isVisible then Invisible(ms[1..])
    else [ms[0]] + Invisible(ms[1..])
  }

  /** Nine holes, the mole in hole `i` carrying id `i`. */
  predicate WellFormed(ms: seq<Mole>)
  {
    |ms| == HoleCount && forall i :: 0 <= i < |ms| ==> ms[i].id == i
  }

  function Bit(b: bool): nat
  {
    if b then 1 else 0
  }

  /** Replacing one mole changes the visible count by that slot alone. */
  lemma {:induction false} VisibleCountUpdate(ms: seq<Mole>, i: nat, m: Mole)
    requires i < |ms|
    ensures VisibleCount(ms[i := m]) + Bit(ms[i].isVisible) == VisibleCount(ms) + Bit(m.isVisible)
  {
    if i > 0 {
      VisibleCountUpdate(ms[1..], i - 1, m);
      assert ms[i := m][1..] == ms[1..][i - 1 := m];
    }
  }

  lemma {:induction false} NoneVisible(ms: seq<Mole>)
    requires forall i :: 0 <= i < |ms| ==> !ms[i].isVisible
    ensures VisibleCount(ms) == 0
  {
    if ms != [] {
      NoneVisible(ms[1..]);
    }
  }

  /** The moles set up on mount: nine hidden, wrong, zero-valued moles. */
  function InitialMoles(): (ms: seq<Mole>)
    ensures WellFormed(ms) && VisibleCount(ms) == 0
    ensures forall i :: 0 <= i < |ms| ==> !ms[i].isCorrect && ms[i].answer == 0
  {
    var ms := seq(HoleCount, i requires 0 <= i => Mole(i, 0, false, false));
    NoneVisible(ms);
    ms
  }

  /** The spawn's `moles.map`: the mole with id `id` shows `answer`. */
  function Reveal(ms: seq<Mole>, id: nat, answer: int, isCorrect: bool): (r: seq<Mole>)
    ensures |r| == |ms|
    ensures WellFormed(ms) && id < |ms| ==> r == ms[id := Mole(id, answer, isCorrect, true)]
  {
    seq(|ms|, i requires 0 <= i < |ms| =>
      if ms[i].id == id then ms[i].(answer := answer, isCorrect := isCorrect, isVisible := true) else ms[i])
  }

  /** The hide timeout's and the whack's `moles.map`: the mole with id
      `id` goes down, keeping its value and its flag. */
  function Hide(ms: seq<Mole>, id: nat): (r: seq<Mole>)
    ensures |r| == |ms|
    ensures WellFormed(ms) && id < |ms| ==> r == ms[id := ms[id].(isVisible := false)]
  {
    seq(|ms|, i requires 0 <= i < |ms| => if ms[i].id == id then ms[i].(isVisible := false) else ms[i])
  }

  /** The value a spawned mole shows: the answer on a true coin, else the
      drawn option, except that a missing or zero option falls back to the
      answer (`options?.[k] || answer`). */
  function SpawnValue(q: MathQuestion, coin: bool, optionPick: nat): (v: int)
    ensures coin ==> v == q.answer
    ensures !coin && optionPick < |q.options| && q.options[optionPick] != 0 ==> v == q.options[optionPick]
    ensures !coin && (optionPick >= |q.options| || q.options[optionPick] == 0) ==> v == q.answer
    ensures v != q.answer ==> !coin && optionPick < |q.options| && v == q.options[optionPick] && v != 0
  {
    if coin then q.answer
    else if optionPick < |q.options| && q.options[optionPick] != 0 then q.options[optionPick]
    else q.answer
  }

  /** `Math.floor(Math.random() * options.length)` */
  predicate ValidOptionPick(q: MathQuestion, optionPick: nat)
  {
    optionPick < |q.options| || optionPick == 0
  }

  /** The component's state fields; `pendingHides` holds the hole of every
      hide timeout not yet fired. */
  datatype WState = WState(
    currentQuestion: nat,
    moles: seq<Mole>,
    score: nat,
    timeLeft: nat,
    gameOver: bool,
    pendingHides: multiset<nat>)

  function Initial(): WState
  {
    WState(0, InitialMoles(), 0, GameSeconds, false, multiset{})
  }

  predicate Consistent(s: WState, n: nat)
  {
    && WellFormed(s.moles)
    && VisibleCount(s.moles) <= MaxVisible
    && (if n == 0 then s.currentQuestion == 0 else s.currentQuestion < n)
    && s.timeLeft <= GameSeconds
    && (s.gameOver <==> s.timeLeft == 0)
    && (forall h :: h in s.pendingHides ==> h < HoleCount)
  }

  lemma InitialConsistent(n: nat)
    ensures Consistent(Initial(), n)
  {
  }

  /** A spawn can always pick a hole: at most three of nine are up. */
  lemma FreeHoleExists(s: WState, n: nat)
    requires Consistent(s, n)
    ensures |Invisible(s.moles)| >= HoleCount - MaxVisible
  {
  }

  /** The hole a spawn with draw `pick` uses. */
  function ChosenHole(ms: seq<Mole>, pick: nat): (h: nat)
    requires WellFormed(ms) && pick < |Invisible(ms)|
    ensures h < HoleCount && !ms[h].isVisible && ms[h] == Invisible(ms)[pick]
  {
    var m := Invisible(ms)[pick];
    assert m in ms;
    m.id
  }

  /** The 800 ms spawn tick, which runs only while the game is on and a
      question is shown. With fewer than three moles up, the hole chosen
      among the free ones shows a mole; nothing else changes. */
  function Spawn(s: WState, questions: seq<MathQuestion>, pick: nat, coin: bool, optionPick: nat): (r: WState)
    requires Consistent(s, |questions|) && !s.gameOver && |questions| > 0
    requires pick < |Invisible(s.moles)|
    requires ValidOptionPick(questions[s.currentQuestion], optionPick)
    ensures Consistent(r, |questions|)
    ensures r.score == s.score && r.currentQuestion == s.currentQuestion
    ensures r.timeLeft == s.timeLeft && r.gameOver == s.gameOver
    ensures VisibleCount(s.moles) >= MaxVisible ==> r == s
    ensures VisibleCount(s.moles) < MaxVisible ==>
              var h := ChosenHole(s.moles, pick);
              && r.moles[h] == Mole(h, SpawnValue(questions[s.currentQuestion], coin, optionPick), coin, true)
              && r.moles[h].isVisible
              && (r.moles[h].isCorrect <==> coin)
              && (r.moles[h].isCorrect ==> r.moles[h].answer == questions[s.currentQuestion].answer)
              && (forall i :: 0 <= i < HoleCount && i != h ==> r.moles[i] == s.moles[i])
              && VisibleCount(r.moles) == VisibleCount(s.moles) + 1
              && r.pendingHides == s.pendingHides + multiset{h}
  {
    if VisibleCount(s.moles) < MaxVisible then
      var h := ChosenHole(s.moles, pick);
      var value := SpawnValue(questions[s.currentQuestion], coin, optionPick);
      var ms := Reveal(s.moles, h, value, coin);
      VisibleCountUpdate(s.moles, h, Mole(h, value, coin, true));
      s.(moles := ms, pendingHides := s.pendingHides + multiset{h})
    else s
  }

  /** The 1500 ms hide timeout of a spawn: that hole goes down, whatever it
      shows by now, and nothing else changes. */
  function HideTimeout(s: WState, n: nat, hole: nat): (r: WState)
    requires Consistent(s, n) && hole in s.pendingHides
    ensures Consistent(r, n)
    ensures r.score == s.score && r.currentQuestion == s.currentQuestion
    ensures r.timeLeft == s.timeLeft && r.gameOver == s.gameOver
    ensures !r.moles[hole].isVisible
    ensures r.moles[hole] == s.moles[hole].(isVisible := false)
    ensures forall i :: 0 <= i < HoleCount && i != hole ==> r.moles[i] == s.moles[i]
    ensures VisibleCount(r.moles) <= VisibleCount(s.moles)
    ensures r.pendingHides == s.pendingHides - multiset{hole}
  {
    VisibleCountUpdate(s.moles, hole, s.moles[hole].(isVisible := false));
    s.(moles := Hide(s.moles, hole), pendingHides := s.pendingHides - multiset{hole})
  }

  /** `handleWhack`: ignored on a hidden mole or after the game ends.
      Otherwise a correct mole scores and moves to the next question when
      there is one; every whack hides just the whacked mole. */
  function Whack(s: WState, questions: seq<MathQuestion>, hole: nat): (r: WState)
    requires Consistent(s, |questions|) && hole < HoleCount
    ensures Consistent(r, |questions|)
    ensures !s.moles[hole].isVisible || s.gameOver ==> r == s
    ensures s.moles[hole].isVisible && !s.gameOver ==>
              && r.moles == s.moles[hole := s.moles[hole].(isVisible := false)]
              && VisibleCount(r.moles) == VisibleCount(s.moles) - 1
              && r.timeLeft == s.timeLeft && r.gameOver == s.gameOver
              && r.pendingHides == s.pendingHides
              && (s.moles[hole].isCorrect ==> r.score == s.score + 1)
              && (!s.moles[hole].isCorrect ==> r.score == s.score && r.currentQuestion == s.currentQuestion)
              && (s.moles[hole].isCorrect && HasNext(questions, s.currentQuestion) ==>
                    r.currentQuestion == s.currentQuestion + 1)
              && (!HasNext(questions, s.currentQuestion) ==> r.currentQuestion == s.currentQuestion)
  {
    var m := s.moles[hole];
    if !m.isVisible || s.gameOver then s
    else
      var advance := m.isCorrect && HasNext(questions, s.currentQuestion);
      VisibleCountUpdate(s.moles, hole, m.(isVisible := false));
      s.(score := if m.isCorrect then s.score + 1 else s.score,
         currentQuestion := if advance then s.currentQuestion + 1 else s.currentQuestion,
         moles := Hide(s.moles, hole))
  }

  /** The one-second countdown, running until the game ends: one second
      less, and the tick taken at one second or less ends the game at 0. */
  function ClockTick(s: WState, n: nat): (r: WState)
    requires Consistent(s, n) && !s.gameOver
    ensures Consistent(r, n)
    ensures r.timeLeft == s.timeLeft - 1
    ensures r.gameOver <==> s.timeLeft <= 1
    ensures r.moles == s.moles && r.score == s.score && r.currentQuestion == s.currentQuestion
    ensures r.pendingHides == s.pendingHides
  {
    if s.timeLeft <= 1 then s.(timeLeft := 0, gameOver := true)
    else s.(timeLeft := s.timeLeft - 1)
  }

  /** What the environment may do: a spawn tick with its random draws, a
      hide timeout, a whack on a hole, a countdown tick. */
  datatype Event =
    | SpawnTick(pick: nat, coin: bool, optionPick: nat)
    | HideFires(hole: nat)
    | WhackAt(hole: nat)
    | Second

  /** One event; an event that cannot occur in `s` (no spawn interval after
      the game ends, no such timer, no such hole) changes nothing. */
  function Step(s: WState, questions: seq<MathQuestion>, e: Event): WState
    requires Consistent(s, |questions|)
  {
    match e
    case SpawnTick(pick, coin, optionPick) =>
      if !s.gameOver && |questions| > 0 && pick < |Invisible(s.moles)|
         && ValidOptionPick(questions[s.currentQuestion], optionPick)
      then Spawn(s, questions, pick, coin, optionPick)
      else s
    case HideFires(hole) => if hole in s.pendingHides then HideTimeout(s, |questions|, hole) else s
    case WhackAt(hole) => if hole < HoleCount then Whack(s, questions, hole) else s
    case Second => if !s.gameOver then ClockTick(s, |questions|) else s
  }

  /** Any interleaving of events keeps at most three moles up, never lowers
      the score and never brings back time. */
  function Run(s: WState, questions: seq<MathQuestion>, events: seq<Event>): (r: WState)
    requires Consistent(s, |questions|)
    ensures Consistent(r, |questions|)
    ensures VisibleCount(r.moles) <= MaxVisible
    ensures s.score <= r.score && s.currentQuestion <= r.currentQuestion
    ensures r.timeLeft <= s.timeLeft && (s.gameOver ==> r.gameOver)
    decreases |events|
  {
    if events == [] then s
    else Run(Step(s, questions, events[0]), questions, events[1..])
  }

  /** After the game ends, no event changes the score or the question, and
      moles only go down. */
  lemma {:induction false} GameOverFreezes(s: WState, questions: seq<MathQuestion>, events: seq<Event>)
    requires Consistent(s, |questions|) && s.gameOver
    ensures var r := Run(s, questions, events);
            && r.score == s.score && r.currentQuestion == s.currentQuestion
            && VisibleCount(r.moles) <= VisibleCount(s.moles)
    decreases |events|
  {
    if events != [] {
      GameOverFreezes(Step(s, questions, events[0]), questions, events[1..]);
    }
  }

  /** Running two event lists in turn is running their concatenation. */
  lemma {:induction false} RunAppend(s: WState, questions: seq<MathQuestion>, a: seq<Event>, b: seq<Event>)
    requires Consistent(s, |questions|)
    ensures Run(s, questions, a + b) == Run(Run(s, questions, a), questions, b)
    decreases |a|
  {
    if a != [] {
      assert (a + b)[0] == a[0] && (a + b)[1..] == a[1..] + b;
      RunAppend(Step(s, questions, a[0]), questions, a[1..], b);
    } else {
      assert a + b == b;
    }
  }

  /** A round of play: a correct mole comes up in the first hole and is
      whacked. */
  function CorrectRound(): seq<Event>
  {
    [SpawnTick(0, true, 0), WhackAt(0)]
  }

  /** On any question, the last one included, a round with no mole up
      scores one point and leaves no mole up. */
  lemma CorrectRoundScores(s: WState, questions: seq<MathQuestion>)
    requires Consistent(s, |questions|) && !s.gameOver && |questions| > 0
    requires VisibleCount(s.moles) == 0
    ensures var r := Run(s, questions, CorrectRound());
            r.score == s.score + 1 && !r.gameOver && VisibleCount(r.moles) == 0
  {
    assert Invisible(s.moles)[0] == s.moles[0];
    var s1 := Spawn(s, questions, 0, true, 0);
    var s2 := Whack(s1, questions, 0);
    assert Step(s, questions, CorrectRound()[0]) == s1;
    assert CorrectRound()[1..] == [WhackAt(0)];
    assert Run(s, questions, CorrectRound()) == Run(s1, questions, [WhackAt(0)]);
    assert Run(s1, questions, [WhackAt(0)]) == Run(s2, questions, []);
  }

  /** The score is not bounded by the number of questions: with a single
      question, two correct rounds score two. */
  lemma ScoreExceedsQuestionCount(q: MathQuestion)
    ensures Run(Initial(), [q], CorrectRound() + CorrectRound()).score == 2 > |[q]|
  {
    var s0 := Initial();
    InitialConsistent(1);
    CorrectRoundScores(s0, [q]);
    CorrectRoundScores(Run(s0, [q], CorrectRound()), [q]);
    RunAppend(s0, [q], CorrectRound(), CorrectRound());
  }

  /** The component: its state fields, the timers and the whack handler. */
  class WhackAMoleGame {
    const questions: seq<MathQuestion>
    var currentQuestion: nat
    var moles: seq<Mole>
    var score: nat
    var timeLeft: nat
    var gameOver: bool
    var pendingHides: multiset<nat>

    function State(): WState
      reads this
    {
      WState(currentQuestion, moles, score, timeLeft, gameOver, pendingHides)
    }

    predicate Valid()
      reads this
    {
      Consistent(State(), |questions|)
    }

    /** Mounting, including the effect that sets up the nine holes. */
    constructor (questions: seq<MathQuestion>)
      ensures Valid() && this.questions == questions && State() == Initial()
    {
      this.questions := questions;
      currentQuestion := 0;
      moles := InitialMoles();
      score := 0;
      timeLeft := GameSeconds;
      gameOver := false;
      pendingHides := multiset{};
    }

    method OnSpawnTick(pick: nat, coin: bool, optionPick: nat)
      requires Valid() && !gameOver && |questions| > 0
      requires pick < |Invisible(moles)|
      requires ValidOptionPick(questions[currentQuestion], optionPick)
      modifies this
      ensures State() == Spawn(old(State()), questions, pick, coin, optionPick)
      ensures Valid()
    {
      var visibleCount := VisibleCount(moles);
      if visibleCount < MaxVisible {
        var availableHoles := Invisible(moles);
        var randomHole := availableHoles[pick];
        assert randomHole.id == ChosenHole(moles, pick);
        var newAnswer := SpawnValue(questions[currentQuestion], coin, optionPick);
        moles := Reveal(moles, randomHole.id, newAnswer, coin);
        pendingHides := pendingHides + multiset{randomHole.id};
      }
    }

    method OnHideTimeout(hole: nat)
      requires Valid() && hole in pendingHides
      modifies this
      ensures State() == HideTimeout(old(State()), |questions|, hole)
      ensures Valid()
    {
      moles := Hide(moles, hole);
      pendingHides := pendingHides - multiset{hole};
    }

    method HandleWhack(hole: nat)
      requires Valid() && hole < HoleCount
      modifies this
      ensures State() == Whack(old(State()), questions, hole)
      ensures Valid()
    {
      var mole := moles[hole];
      if !mole.isVisible || gameOver {
        return;
      }
      if mole.isCorrect {
        score := score + 1;
        if currentQuestion + 1 < |questions| {
          currentQuestion := currentQuestion + 1;
        }
      }
      moles := Hide(moles, mole.id);
    }

    method OnClockTick()
      requires Valid() && !gameOver
      modifies this
      ensures State() == ClockTick(old(State()), |questions|)
      ensures Valid()
    {
      if timeLeft <= 1 {
        gameOver := true;
        timeLeft := 0;
      } else {
        timeLeft := timeLeft - 1;
      }
    }
  }
}
