/** Data shared by every game template: the generated questions and the
    generator settings (src/App.tsx). */
module Questions {

  datatype Option<T> = None | Some(value: T)

  /** A generated arithmetic question. The source's optional `options`
      list is modelled as a sequence that is empty when absent. */
  datatype MathQuestion = MathQuestion(question: string, answer: int, options: seq<int>, display: string)

  datatype Operation = Addition | Subtraction | Multiplication | Division

  /** Generator settings; the game engines never read them. */
  datatype GameSettings = GameSettings(operation: Operation, minNumber: int, maxNumber: int, questionCount: int)

  /** `currentQuestion < questions.length - 1`: a later question exists. */
  predicate HasNext(questions: seq<MathQuestion>, index: nat)
  {
    index + 1 < |questions|
  }
}
