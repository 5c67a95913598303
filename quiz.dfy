/** A quiz session: a fixed list of questions and a counter of how many of
    them have been answered. The session moves forward one question per
    evaluated answer, is done once every question has been answered, and can
    be reset to the first question. */
module Quizzes {
  import opened Java

  /** One answer with its increments for the various results. */
  datatype Answer = Answer(value: string, increments: seq<int>)

  /** A question with its possible answers. */
  datatype Question = Question(value: string, answers: seq<Answer>)

  /** The question to be answered next: the underlying question, its 1-based
      index in the list of questions and whether it is the last one. */
  datatype CurrentQuestion = CurrentQuestion(value: Question, idx: int, last: bool) {

    /** The text of the underlying question. */
    function QuestionText(): string
    {
      value.value
    }

    /** The answers of the underlying question. */
    function Answers(): seq<Answer>
    {
      value.answers
    }
  }

  /** The result of a finished quiz; it carries no data. */
  datatype Result = Result

  /** The compact constructor of `Answer`: a `null` list of increments becomes
      the empty list, any other list is copied element by element, and a `null`
      element makes the copy throw. */
  function NewAnswer(value: string, increments: Option<seq<Option<int>>>): (r: Completion<Answer>)
    ensures increments.None? ==> r == Returns(Answer(value, []))
    ensures increments.Some? ==>
              (r.Throws? <==> exists i :: 0 <= i < |increments.value| && increments.value[i].None?)
    ensures r.Returns? ==> r.result.value == value
    ensures r.Returns? && increments.Some? ==>
              |r.result.increments| == |increments.value| &&
              forall i :: 0 <= i < |increments.value| ==> increments.value[i] == Some(r.result.increments[i])
  {
    match increments
    case None => Returns(Answer(value, []))
    case Some(xs) =>
      match CopyOf(xs)
      case Throws(e) => Throws(e)
      case Returns(copy) => Returns(Answer(value, copy))
  }

  /** The compact constructor of `Question`: a `null` list of answers becomes
      the empty list, any other list is copied element by element, and a `null`
      element makes the copy throw. */
  function NewQuestion(value: string, answers: Option<seq<Option<Answer>>>): (r: Completion<Question>)
    ensures answers.None? ==> r == Returns(Question(value, []))
    ensures answers.Some? ==>
              (r.Throws? <==> exists i :: 0 <= i < |answers.value| && answers.value[i].None?)
    ensures r.Returns? ==> r.result.value == value
    ensures r.Returns? && answers.Some? ==>
              |r.result.answers| == |answers.value| &&
              forall i :: 0 <= i < |answers.value| ==> answers.value[i] == Some(r.result.answers[i])
  {
    match answers
    case None => Returns(Question(value, []))
    case Some(xs) =>
      match CopyOf(xs)
      case Throws(e) => Throws(e)
      case Returns(copy) => Returns(Question(value, copy))
  }

  /** Rebuilding an answer from its own fields gives the same answer back. */
  lemma NewAnswerRoundTrip(a: Answer)
    ensures NewAnswer(a.value, Some(NonNull(a.increments))) == Returns(a)
  {
    CopyOfNonNull(a.increments);
  }

  /** Rebuilding a question from its own fields gives the same question back. */
  lemma NewQuestionRoundTrip(q: Question)
    ensures NewQuestion(q.value, Some(NonNull(q.answers))) == Returns(q)
  {
    CopyOfNonNull(q.answers);
  }

  /** The counter of a quiz with `size` questions after one call of `evaluate`
      with `selectedAnswer`: unchanged when the answer is `null` (the call
      throws) or the quiz is done, one more otherwise. */
  function NextCounter(size: nat, counter: nat, selectedAnswer: Option<int>): (c: nat)
    ensures counter <= c <= counter + 1
    ensures c == counter + 1 <==> selectedAnswer.Some? && counter < size
    ensures counter <= size ==> c <= size
  {
    if selectedAnswer.None? || counter >= size then counter else counter + 1
  }

  /** The counter after `evaluate` has been called once for each element of
      `answers`, in order, each call whose answer is `null` throwing. */
  function Replay(size: nat, counter: nat, answers: seq<Option<int>>): nat
    decreases |answers|
  {
    if answers == [] then counter
    else Replay(size, NextCounter(size, counter, answers[0]), answers[1..])
  }

  /** How many of `answers` are non-null. */
  function CountNonNull(answers: seq<Option<int>>): (n: nat)
    ensures n <= |answers|
  {
    if answers == [] then 0
    else (if answers[0].Some? then 1 else 0) + CountNonNull(answers[1..])
  }

  /** Every non-null evaluation moves the quiz on by exactly one question until
      it is done, and nothing moves it past the last question. */
  lemma {:induction false} ReplayAdvancesByNonNull(size: nat, counter: nat, answers: seq<Option<int>>)
    requires counter <= size
    ensures Replay(size, counter, answers) == Min(counter + CountNonNull(answers), size)
    decreases answers
  {
    if answers != [] {
      ReplayAdvancesByNonNull(size, NextCounter(size, counter, answers[0]), answers[1..]);
    }
  }

  /** A fresh quiz is done after exactly as many non-null evaluations as it has
      questions, and not before. */
  lemma FreshQuizDoneIff(size: nat, answers: seq<Option<int>>)
    ensures Replay(size, 0, answers) == size <==> CountNonNull(answers) >= size
    ensures Replay(size, 0, answers) <= size
  {
    ReplayAdvancesByNonNull(size, 0, answers);
  }

  /** A quiz session over a fixed list of questions. */
  class Quiz {

    /** The questions, in order; the session never changes them. */
    const questions: seq<Question>

    /** How many questions have been answered. */
    var counter: nat

    /** The counter never runs past the end of the list of questions. */
    ghost predicate Valid()
      reads this
    {
      counter <= |questions|
    }

    /** A new session starts at the first question. */
    constructor (questions: seq<Question>)
      ensures Valid()
      ensures this.questions == questions && counter == 0
      ensures IsDone() <==> questions == []
    {
      this.questions := questions;
      counter := 0;
    }

    /** Done exactly when every question has been answered, so a quiz without
        questions is done from the start. */
    function IsDone(): (done: bool)
      reads this
      requires Valid()
      ensures done <==> counter == |questions|
      ensures questions == [] ==> done
    {
      counter >= |questions|
    }

    /** The question at the counter, with its 1-based index and whether it is
        the last one; nothing once the quiz is done. */
    function GetCurrentQuestion(): (r: Option<CurrentQuestion>)
      reads this
      requires Valid()
      ensures r.None? <==> IsDone()
      ensures r.Some? ==> 1 <= r.value.idx <= |questions| && r.value.idx == counter + 1
      ensures r.Some? ==> r.value.value == questions[r.value.idx - 1]
      ensures r.Some? ==> (r.value.last <==> r.value.idx == |questions|)
      ensures r.Some? ==> r.value.QuestionText() == questions[counter].value
      ensures r.Some? ==> r.value.Answers() == questions[counter].answers
    {
      if IsDone() then None
      else
        var idx := counter;
        Some(CurrentQuestion(questions[idx], idx + 1, idx == |questions| - 1))
    }

    /** Evaluates the selected answer: throws on `null` without looking at the
        session, does nothing on a finished quiz, and otherwise moves on to
        the next question. The answer itself is neither range-checked nor
        recorded. Returns whether the quiz is now done. */
    method Evaluate(selectedAnswer: Option<int>) returns (r: Completion<bool>)
      requires Valid()
      modifies this
      ensures Valid()
      ensures counter == NextCounter(|questions|, old(counter), selectedAnswer)
      ensures selectedAnswer.None? ==> r == Throws(NullPointerException) && counter == old(counter)
      ensures selectedAnswer.Some? && old(IsDone()) ==> r == Returns(true) && counter == old(counter)
      ensures selectedAnswer.Some? && !old(IsDone()) ==> counter == old(counter) + 1 && r == Returns(IsDone())
    {
      if selectedAnswer.None? {
        return Throws(NullPointerException);
      }
      if IsDone() {
        return Returns(true);
      }
      counter := counter + 1;
      r := Returns(IsDone());
    }

    /** A result exists exactly when the quiz has questions and all of them
        have been answered. */
    function GetResult(): (r: Option<Result>)
      reads this
      requires Valid()
      ensures r.Some? <==> questions != [] && counter == |questions|
    {
      if |questions| == 0 || !IsDone() then None else Some(Result)
    }

    /** Goes back to the first question; the questions stay as they are. */
    method Reset()
      modifies this
      ensures Valid()
      ensures counter == 0
      ensures questions != [] ==> !IsDone() && GetResult() == None
      ensures questions != [] ==> GetCurrentQuestion() == Some(CurrentQuestion(questions[0], 1, |questions| == 1))
    {
      counter := 0;
    }
  }

  /** A quiz without questions is done from the start, has no current
      question, accepts any answer as done and has no result. */
  method EmptyQuizScenario() returns (done: bool, current: Option<CurrentQuestion>, evaluated: Completion<bool>, result: Option<Result>)
    ensures done && current == None && evaluated == Returns(true) && result == None
  {
    var quiz := new Quiz([]);
    done := quiz.IsDone();
    current := quiz.GetCurrentQuestion();
    evaluated := quiz.Evaluate(Some(42));
    result := quiz.GetResult();
  }

  /** A quiz with one question presents it as the first and last question,
      is done after one evaluation and then has no current question. */
  method SingleQuestionScenario() returns (first: Option<CurrentQuestion>, evaluated: Completion<bool>, after: Option<CurrentQuestion>)
    ensures first.Some? && first.value.last && first.value.idx == 1
    ensures first.Some? && first.value.QuestionText() == "Was ist die Antwort?"
    ensures evaluated == Returns(true) && after == None
  {
    var built := NewQuestion("Was ist die Antwort?", Some([]));
    var quiz := new Quiz([built.result]);
    first := quiz.GetCurrentQuestion();
    evaluated := quiz.Evaluate(Some(42));
    after := quiz.GetCurrentQuestion();
  }
}
