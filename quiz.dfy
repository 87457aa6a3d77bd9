/** The multiple-choice quiz (src/components/games/Quiz.tsx): one answer
    per question is accepted, scored by equality with the question's
    answer, and the player then moves on or sees the result. */
module Quiz {
  import opened Questions

  /** The component's state fields, as one value. */
  datatype QuizState = QuizState(
    currentQuestion: nat,
    selectedAnswer: Option<int>,
    isCorrect: Option<bool>,
    score: nat,
    showResult: bool)

  function Initial(): QuizState
  {
    QuizState(0, None, None, 0, false)
  }

  /** Questions answered so far: every earlier one, and the current one
      once an answer is selected. */
  function Answered(s: QuizState): nat
  {
    s.currentQuestion + if s.selectedAnswer.Some? then 1 else 0
  }

  /** The invariant every reachable state keeps. */
  predicate Consistent(s: QuizState, questions: seq<MathQuestion>)
  {
    && s.currentQuestion < |questions|
    && (s.selectedAnswer.None? ==> s.isCorrect.None? && !s.showResult)
    && (s.selectedAnswer.Some? ==>
          s.isCorrect == Some(s.selectedAnswer.value == questions[s.currentQuestion].answer))
    && s.score <= Answered(s)
    && (s.showResult ==> s.currentQuestion == |questions| - 1)
  }

  lemma InitialConsistent(questions: seq<MathQuestion>)
    requires |questions| > 0
    ensures Consistent(Initial(), questions) && Answered(Initial()) == 0
  {
  }

  /** `handleAnswerClick`: ignored once an answer is selected; otherwise
      records the answer, whether it is right, and scores a right one. */
  function AnswerClick(s: QuizState, questions: seq<MathQuestion>, answer: int): (r: QuizState)
    requires Consistent(s, questions)
    ensures Consistent(r, questions)
    ensures s.selectedAnswer.Some? ==> r == s
    ensures s.selectedAnswer.None? ==>
              && r.selectedAnswer == Some(answer)
              && (r.isCorrect == Some(true) <==> answer == questions[s.currentQuestion].answer)
              && r.currentQuestion == s.currentQuestion
              && !r.showResult
              && Answered(r) == Answered(s) + 1
    ensures r.score == s.score + 1 <==> s.selectedAnswer.None? && answer == questions[s.currentQuestion].answer
    ensures r.score == s.score || r.score == s.score + 1
  {
    if s.selectedAnswer.Some? then s
    else
      var correct := answer == questions[s.currentQuestion].answer;
      s.(selectedAnswer := Some(answer),
         isCorrect := Some(correct),
         score := if correct then s.score + 1 else s.score)
  }

  /** `handleNext`, offered only once an answer is selected: the next
      question with a clean selection, or the result screen after the last. */
  function Next(s: QuizState, questions: seq<MathQuestion>): (r: QuizState)
    requires Consistent(s, questions) && s.selectedAnswer.Some?
    ensures Consistent(r, questions)
    ensures r.score == s.score && Answered(r) == Answered(s)
    ensures HasNext(questions, s.currentQuestion) ==>
              && r.currentQuestion == s.currentQuestion + 1
              && r.selectedAnswer.None? && r.isCorrect.None?
              && !r.showResult
    ensures !HasNext(questions, s.currentQuestion) ==>
              && r.showResult
              && r.currentQuestion == |questions| - 1 == s.currentQuestion
              && r.selectedAnswer == s.selectedAnswer && r.isCorrect == s.isCorrect
  {
    if HasNext(questions, s.currentQuestion) then
      s.(currentQuestion := s.currentQuestion + 1, selectedAnswer := None, isCorrect := None)
    else
      s.(showResult := true)
  }

  /** A user action: a click on an option, or on the next button. `Click`
      carries the clicked option's value; the buttons only offer the
      question's options, but any value is accepted here, so the session
      properties hold for every click, not only for shown options. */
  datatype Event = Click(answer: int) | NextClick

  /** One action; the next button is not shown before an answer, so a
      `NextClick` then changes nothing. */
  function Step(s: QuizState, questions: seq<MathQuestion>, e: Event): QuizState
    requires Consistent(s, questions)
  {
    match e
    case Click(a) => AnswerClick(s, questions, a)
    case NextClick => if s.selectedAnswer.Some? then Next(s, questions) else s
  }

  /** A session: the actions applied in order. */
  function Run(s: QuizState, questions: seq<MathQuestion>, events: seq<Event>): (r: QuizState)
    requires Consistent(s, questions)
    ensures Consistent(r, questions)
    ensures s.score <= r.score <= Answered(r) <= |questions|
    ensures s.currentQuestion <= r.currentQuestion
    ensures s.showResult ==> r == s
    decreases |events|
  {
    if events == [] then s
    else Run(Step(s, questions, events[0]), questions, events[1..])
  }

  /** Answer every question from `from` on correctly, pressing next after each. */
  function PerfectPlay(questions: seq<MathQuestion>, from: nat): seq<Event>
    requires from <= |questions|
    decreases |questions| - from
  {
    if from == |questions| then []
    else [Click(questions[from].answer), NextClick] + PerfectPlay(questions, from + 1)
  }

  lemma {:induction false} PerfectPlayFrom(s: QuizState, questions: seq<MathQuestion>)
    requires Consistent(s, questions) && s.selectedAnswer.None?
    requires s.score == s.currentQuestion
    ensures var r := Run(s, questions, PerfectPlay(questions, s.currentQuestion));
            r.score == |questions| && r.showResult && r.currentQuestion == |questions| - 1
    decreases |questions| - s.currentQuestion
  {
    var k := s.currentQuestion;
    var events := PerfectPlay(questions, k);
    var rest := PerfectPlay(questions, k + 1);
    assert events == [Click(questions[k].answer), NextClick] + rest;
    var s1 := Step(s, questions, Click(questions[k].answer));
    var s2 := Step(s1, questions, NextClick);
    assert events[0] == Click(questions[k].answer) && events[1..] == [NextClick] + rest;
    assert Run(s, questions, events) == Run(s1, questions, [NextClick] + rest);
    assert ([NextClick] + rest)[1..] == rest;
    assert Run(s1, questions, [NextClick] + rest) == Run(s2, questions, rest);
    if HasNext(questions, k) {
      PerfectPlayFrom(s2, questions);
    } else {
      assert rest == [];
    }
  }

  /** A whole session answered correctly ends with the full score, the
      result screen shown and the index held at the last question. */
  lemma PerfectSession(questions: seq<MathQuestion>)
    requires |questions| > 0
    ensures var r := Run(Initial(), questions, PerfectPlay(questions, 0));
            r.score == |questions| && r.showResult && r.currentQuestion == |questions| - 1
  {
    PerfectPlayFrom(Initial(), questions);
  }

  /** The component: its state fields and its two click handlers. */
  class QuizGame {
    const questions: seq<MathQuestion>
    var currentQuestion: nat
    var selectedAnswer: Option<int>
    var isCorrect: Option<bool>
    var score: nat
    var showResult: bool

    function State(): QuizState
      reads this
    {
      QuizState(currentQuestion, selectedAnswer, isCorrect, score, showResult)
    }

    predicate Valid()
      reads this
    {
      Consistent(State(), questions)
    }

    /** The question list is read at index 0 on the first render, so it
        must not be empty. */
    constructor (questions: seq<MathQuestion>)
      requires |questions| > 0
      ensures Valid() && this.questions == questions && State() == Initial()
    {
      this.questions := questions;
      currentQuestion := 0;
      selectedAnswer := None;
      isCorrect := None;
      score := 0;
      showResult := false;
    }

    method HandleAnswerClick(answer: int)
      requires Valid()
      modifies this
      ensures State() == AnswerClick(old(State()), questions, answer)
      ensures Valid()
    {
      if selectedAnswer.Some? {
        return;
      }
      selectedAnswer := Some(answer);
      var correct := answer == questions[currentQuestion].answer;
      isCorrect := Some(correct);
      if correct {
        score := score + 1;
      }
    }

    method HandleNext()
      requires Valid() && selectedAnswer.Some?
      modifies this
      ensures State() == Next(old(State()), questions)
      ensures Valid()
    {
      if currentQuestion + 1 < |questions| {
        currentQuestion := currentQuestion + 1;
        selectedAnswer := None;
        isCorrect := None;
      } else {
        showResult := true;
      }
    }
  }
}
