/** The true/false game (src/components/games/TrueOrFalse.tsx): each
    question becomes a statement "display = shown" that is either true or
    off by a small offset; one answer per statement is accepted and the
    game moves on after a delay. */
module TrueOrFalse {
  import opened Questions

  /** One statement. The rendered text `display = shownAnswer` is kept as
      its two parts. */
  datatype TFQuestion = TFQuestion(display: string, isCorrect: bool, correctAnswer: int, shownAnswer: int)

  /** The random draws behind one statement: the coin `Math.random() > 0.5`
      and the offset draw `Math.floor(Math.random() * 6)`, in 0..5. */
  datatype Draw = Draw(coin: bool, offsetDraw: int)

  predicate ValidDraw(d: Draw)
  {
    0 <= d.offsetDraw < 6
  }

  /** The statement made from one question: a true statement shows the
      answer, a false one shows the answer moved by `offsetDraw - 3`. */
  function MakeStatement(q: MathQuestion, d: Draw): (t: TFQuestion)
    requires ValidDraw(d)
    ensures t.correctAnswer == q.answer && t.isCorrect == d.coin && t.display == q.display
    ensures t.isCorrect ==> t.shownAnswer == t.correctAnswer
    ensures !t.isCorrect ==> -3 <= t.shownAnswer - t.correctAnswer <= 2
  {
    var shown := if d.coin then q.answer else q.answer + (d.offsetDraw - 3);
    TFQuestion(q.display, d.coin, q.answer, shown)
  }

  /** A "false" statement can show the true value: the offset draw 3
      gives an offset of 0. */
  lemma FalseStatementMayShowAnswer(q: MathQuestion)
    ensures exists d :: ValidDraw(d) && !d.coin && MakeStatement(q, d).shownAnswer == q.answer
  {
    var d := Draw(false, 3);
    assert ValidDraw(d) && MakeStatement(q, d).shownAnswer == q.answer;
  }

  /** The statements of the session: `questions.map(...)` with one draw
      per question. */
  function BuildStatements(questions: seq<MathQuestion>, draws: seq<Draw>): (tf: seq<TFQuestion>)
    requires |draws| == |questions|
    requires forall i :: 0 <= i < |draws| ==> ValidDraw(draws[i])
    ensures |tf| == |questions|
    ensures forall i :: 0 <= i < |tf| ==>
              && tf[i].correctAnswer == questions[i].answer
              && tf[i].isCorrect == draws[i].coin
              && (tf[i].isCorrect ==> tf[i].shownAnswer == tf[i].correctAnswer)
              && (!tf[i].isCorrect ==> -3 <= tf[i].shownAnswer - tf[i].correctAnswer <= 2)
  {
    seq(|questions|, i requires 0 <= i < |questions| => MakeStatement(questions[i], draws[i]))
  }

  /** The component's state fields, as one value. The advance timeout is
      pending exactly when an answer is selected and the result is not yet
      shown. */
  datatype TFState = TFState(currentQuestion: nat, selectedAnswer: Option<bool>, score: nat, showResult: bool)

  function Initial(): TFState
  {
    TFState(0, None, 0, false)
  }

  function Answered(s: TFState): nat
  {
    s.currentQuestion + if s.selectedAnswer.Some? then 1 else 0
  }

  predicate AdvancePending(s: TFState)
  {
    s.selectedAnswer.Some? && !s.showResult
  }

  predicate Consistent(s: TFState, n: nat)
  {
    && s.currentQuestion < n
    && s.score <= Answered(s)
    && (s.showResult ==> s.selectedAnswer.Some? && s.currentQuestion == n - 1)
  }

  /** `handleAnswer`: ignored while an answer is selected; otherwise records
      the choice, scores it when it matches the statement's truth, and
      starts the advance timeout. */
  function Answer(s: TFState, tf: seq<TFQuestion>, answer: bool): (r: TFState)
    requires Consistent(s, |tf|)
    ensures Consistent(r, |tf|)
    ensures s.selectedAnswer.Some? ==> r == s
    ensures s.selectedAnswer.None? ==>
              && r.selectedAnswer == Some(answer)
              && r.currentQuestion == s.currentQuestion
              && AdvancePending(r)
    ensures r.score == s.score + 1 <==> s.selectedAnswer.None? && answer == tf[s.currentQuestion].isCorrect
    ensures r.score == s.score || r.score == s.score + 1
  {
    if s.selectedAnswer.Some? then s
    else
      s.(selectedAnswer := Some(answer),
         score := if answer == tf[s.currentQuestion].isCorrect then s.score + 1 else s.score)
  }

  /** The 1500 ms timeout started by an answer: the next statement with a
      clean selection, or the result screen after the last. */
  function AdvanceTimeout(s: TFState, n: nat): (r: TFState)
    requires Consistent(s, n) && AdvancePending(s)
    ensures Consistent(r, n)
    ensures r.score == s.score
    ensures s.currentQuestion < n - 1 ==>
              r.currentQuestion == s.currentQuestion + 1 && r.selectedAnswer.None? && !r.showResult
    ensures s.currentQuestion == n - 1 ==>
              r.showResult && r.currentQuestion == s.currentQuestion && r.selectedAnswer == s.selectedAnswer
  {
    if s.currentQuestion < n - 1 then
      s.(currentQuestion := s.currentQuestion + 1, selectedAnswer := None)
    else
      s.(showResult := true)
  }

  /** A user press, or the firing of the pending timeout. */
  datatype Event = Press(answer: bool) | Timeout

  function Step(s: TFState, tf: seq<TFQuestion>, e: Event): TFState
    requires Consistent(s, |tf|)
  {
    match e
    case Press(a) => Answer(s, tf, a)
    case Timeout => if AdvancePending(s) then AdvanceTimeout(s, |tf|) else s
  }

  /** A session: presses and timeouts in order. The score never falls and
      never exceeds the statements answered, hence never exceeds their
      number. */
  function Run(s: TFState, tf: seq<TFQuestion>, events: seq<Event>): (r: TFState)
    requires Consistent(s, |tf|)
    ensures Consistent(r, |tf|)
    ensures s.score <= r.score <= Answered(r) <= |tf|
    ensures s.currentQuestion <= r.currentQuestion
    ensures s.showResult ==> r == s
    decreases |events|
  {
    if events == [] then s
    else Run(Step(s, tf, events[0]), tf, events[1..])
  }

  /** The component: the statements built on mount, the state fields,
      the answer handler and its timeout. */
  class TrueOrFalseGame {
    const tfQuestions: seq<TFQuestion>
    var currentQuestion: nat
    var selectedAnswer: Option<bool>
    var score: nat
    var showResult: bool

    function State(): TFState
      reads this
    {
      TFState(currentQuestion, selectedAnswer, score, showResult)
    }

    predicate Valid()
      reads this
    {
      Consistent(State(), |tfQuestions|)
    }

    /** The first render reads statement 0, so the list must not be empty. */
    constructor (questions: seq<MathQuestion>, draws: seq<Draw>)
      requires |questions| > 0 && |draws| == |questions|
      requires forall i :: 0 <= i < |draws| ==> ValidDraw(draws[i])
      ensures Valid() && State() == Initial()
      ensures tfQuestions == BuildStatements(questions, draws)
    {
      tfQuestions := BuildStatements(questions, draws);
      currentQuestion := 0;
      selectedAnswer := None;
      score := 0;
      showResult := false;
    }

    method HandleAnswer(answer: bool)
      requires Valid()
      modifies this
      ensures State() == Answer(old(State()), tfQuestions, answer)
      ensures Valid()
    {
      if selectedAnswer.Some? {
        return;
      }
      selectedAnswer := Some(answer);
      if answer == tfQuestions[currentQuestion].isCorrect {
        score := score + 1;
      }
    }

    /** The environment fires the timeout that `HandleAnswer` started. */
    method OnAdvanceTimeout()
      requires Valid() && AdvancePending(State())
      modifies this
      ensures State() == AdvanceTimeout(old(State()), |tfQuestions|)
      ensures Valid()
    {
      if currentQuestion < |tfQuestions| - 1 {
        currentQuestion := currentQuestion + 1;
        selectedAnswer := None;
      } else {
        showResult := true;
      }
    }
  }
}
