/** A quiz attempt as the question screen runs it: the questions are fetched, the countdown
    starts, the user moves between questions and answers them, and the attempt is submitted by
    hand or when the countdown finds zero. */
module QuizSession {
  import opened Js
  import opened StringOrder
  import opened QuizAnswers
  import opened QuizClock

  /** The reply to the questions request, as the screen reads it. */
  datatype QuestionsReply =
    | RequestFailed                                   // the request or its JSON parse threw
    | ErrorReply(error: string)                       // a reply with a truthy `error`
    | QuestionLists(lists: map<string, seq<Question>>) // `quizQuestions`, keyed by list name

  /** What loading does: start the attempt, leave because there are no questions (a notice
      and a step back), or stay on the loading text (the error is only logged). */
  datatype LoadOutcome = Started | NoQuestions | LoadFailed

  /** The key of the question list for a quiz type ("chapter", "subject", "course"). */
  function QuestionsKey(quizType: string): string {
    quizType + "QuizQNA"
  }

  /** How a reply to the questions request ends. A missing list makes `.length` throw, which
      the handler catches and logs. */
  function LoadOutcomeOf(reply: QuestionsReply, quizType: string): (o: LoadOutcome)
    ensures o == Started <==>
      reply.QuestionLists? && QuestionsKey(quizType) in reply.lists
      && |reply.lists[QuestionsKey(quizType)]| > 0
    ensures o == NoQuestions <==>
      reply.QuestionLists? && QuestionsKey(quizType) in reply.lists
      && reply.lists[QuestionsKey(quizType)] == []
  {
    match reply
    case RequestFailed => LoadFailed
    case ErrorReply(_) => LoadFailed
    case QuestionLists(lists) =>
      var key := QuestionsKey(quizType);
      if key !in lists then LoadFailed
      else if |lists[key]| == 0 then NoQuestions
      else Started
  }

  /** The body of the submission request (its `createdAt` date is not modelled). */
  datatype Submission = Submission(
    quizId: string,
    quizType: string,
    score: int,
    total: int,
    answers: Answers)

  /** Where a submission reply leads: to the results screen with the submitted score and total,
      or to an error notice. */
  datatype SubmitOutcome = ToResults(score: int, total: int, quizType: string) | ShowError(message: string)

  function AfterSubmit(ok: bool, s: Submission, error: string): (o: SubmitOutcome)
    ensures o.ToResults? <==> ok
    ensures o.ToResults? ==> o.score == s.score && o.total == s.total && o.quizType == s.quizType
    ensures o.ShowError? ==> o.message == error
  {
    if ok then ToResults(s.score, s.total, s.quizType) else ShowError(error)
  }

  /** The Next button on a list of `n` questions: forward by one, but never past the last. */
  function NextIndex(i: int, n: int): (j: int)
    requires 0 <= i < n
    ensures 0 <= j < n
    ensures i < n - 1 ==> j == i + 1
    ensures i == n - 1 ==> j == i
  {
    if i + 1 < n - 1 then i + 1 else n - 1
  }

  /** The Previous button: back by one, but never before the first. */
  function PreviousIndex(i: int): (j: int)
    requires i >= 0
    ensures 0 <= j <= i
    ensures i > 0 ==> j == i - 1
  {
    if i - 1 > 0 then i - 1 else 0
  }

  class Attempt {
    const quizId: string
    const quizType: string
    /** `quizDataFull.quizQuestions`; empty until loaded. */
    var questions: seq<Question>
    var loading: bool
    /** `quizDataFull` has been set. */
    var loaded: bool
    /** The countdown interval is active. */
    var running: bool
    var answers: Answers
    var index: nat
    var time: Clock
    var score: int
    /** The score and answers the interval's callback closes over: those of the render in
        which the countdown started, before anything could be answered. */
    var timerScore: int
    var timerAnswers: Answers

    ghost predicate Valid()
      reads this
    {
      && (loaded ==> |questions| > 0 && index < |questions|)
      && (!loaded ==> questions == [] && index == 0 && !running && answers == map[])
      && score == Score(questions, answers)
      && CleanEntries(answers)
      && timerScore == 0 && timerAnswers == map[]
    }

    /** The screen as it mounts: loading, no questions, no answers, the timer set from the
        quiz's time limit. */
    constructor (quizId: string, quizType: string, timeLimit: int)
      ensures Valid()
      ensures this.quizId == quizId && this.quizType == quizType
      ensures loading && !loaded && !running
      ensures answers == map[] && index == 0 && score == 0
      ensures time == InitialClock(timeLimit)
    {
      this.quizId := quizId;
      this.quizType := quizType;
      questions := [];
      loading := true;
      loaded := false;
      running := false;
      answers := map[];
      index := 0;
      time := InitialClock(timeLimit);
      score := 0;
      timerScore := 0;
      timerAnswers := map[];
    }

    /** The "Loading..." text is shown instead of the quiz. */
    predicate ShowsLoading()
      reads this
    {
      loading || !loaded
    }

    /** `getQuizQuestionsByQuizId` and the effect that starts the countdown: only a non-empty
        question list starts the attempt; every outcome ends the loading state. */
    method Load(reply: QuestionsReply) returns (outcome: LoadOutcome)
      requires Valid() && !loaded
      modifies this
      ensures Valid()
      ensures outcome == LoadOutcomeOf(reply, quizType)
      ensures !loading && time == old(time)
      ensures outcome == Started ==>
        loaded && running && questions == reply.lists[QuestionsKey(quizType)]
        && index == 0 && answers == map[] && score == 0
      ensures outcome != Started ==> !loaded && !running && questions == [] && answers == map[]
    {
      outcome := LoadOutcomeOf(reply, quizType);
      loading := false;
      if outcome == Started {
        questions := reply.lists[QuestionsKey(quizType)];
        ScoreWithoutAnswers(questions);
        loaded := true;
        running := true;
        timerScore := score;
        timerAnswers := answers;
      }
    }

    /** The score effect: the sum of the contributions of all questions, accumulated one
        question at a time. */
    method TallyScore() returns (total: int)
      ensures total == Score(questions, answers)
    {
      total := 0;
      var i := 0;
      while i < |questions|
        invariant 0 <= i <= |questions|
        invariant total == Score(questions[..i], answers)
      {
        assert questions[..i + 1][..i] == questions[..i];
        total := total + Contribution(questions[i], answers);
        i := i + 1;
      }
      assert questions[..i] == questions;
    }

    /** `getMaxMarks`: the marks of every question, answered or not. */
    method GetMaxMarks() returns (total: int)
      ensures total == MaxMarks(questions)
    {
      total := 0;
      var i := 0;
      while i < |questions|
        invariant 0 <= i <= |questions|
        invariant total == MaxMarks(questions[..i])
      {
        assert questions[..i + 1][..i] == questions[..i];
        total := total + questions[i].marks;
        i := i + 1;
      }
      assert questions[..i] == questions;
    }

    /** `handleAnswerChange`, then the score effect. */
    method HandleAnswerChange(qid: string, a: string)
      requires Valid() && loaded
      modifies this`answers, this`score
      ensures Valid()
      ensures answers == SetAnswer(old(answers), qid, a)
      ensures score == Score(questions, answers)
    {
      SetAnswerKeepsClean(answers, qid, a);
      answers := SetAnswer(answers, qid, a);
      score := TallyScore();
    }

    /** `handleAnswerChangeMoreThanOne`; the score effect runs only when the map changed. */
    method HandleAnswerChangeMoreThanOne(qid: string, a: string)
      requires Valid() && loaded
      modifies this`answers, this`score
      ensures Valid()
      ensures answers == AddChoice(old(answers), qid, a)
      ensures score == Score(questions, answers)
    {
      var existing := Existing(answers, qid);
      if a !in existing {
        AddChoiceKeepsClean(answers, qid, a);
        answers := AddChoice(answers, qid, a);
        score := TallyScore();
      }
    }

    /** A tap on an option, or a keystroke in the text field, of the question on screen: the
        question's type picks the handler, and types without a control do nothing. */
    method AnswerCurrent(value: string)
      requires Valid() && loaded
      modifies this`answers, this`score
      ensures Valid()
      ensures answers == Respond(questions[index], old(answers), value)
      ensures score == Score(questions, answers)
    {
      var q := questions[index];
      if SingleChoice(q.kind) {
        HandleAnswerChange(q.id, value);
      } else if MultiChoice(q.kind) {
        HandleAnswerChangeMoreThanOne(q.id, value);
      }
    }

    method HandleNext()
      requires Valid() && loaded
      modifies this`index
      ensures Valid()
      ensures index == NextIndex(old(index), |questions|)
    {
      index := NextIndex(index, |questions|);
    }

    method HandlePrevious()
      requires Valid() && loaded
      modifies this`index
      ensures Valid()
      ensures index == PreviousIndex(old(index))
    {
      index := PreviousIndex(index);
    }

    /** `saveSubmission` as the Submit button runs it: the live score and answers, and the
        maximum marks as the total. */
    method SaveSubmission() returns (s: Submission)
      requires Valid()
      ensures s.quizId == quizId && s.quizType == quizType
      ensures s.answers == answers
      ensures s.score == Score(questions, answers)
      ensures s.total == MaxMarks(questions)
    {
      var total := GetMaxMarks();
      s := Submission(quizId, quizType, score, total, answers);
    }

    /** One run of the interval callback. Finding 00:00:00 stops the countdown and submits
        what the callback closes over: the total of the loaded questions, but the score and
        answers from before the first answer. */
    method TimerTick() returns (submitted: Option<Submission>)
      requires Valid() && running
      modifies this`time, this`running
      ensures Valid()
      ensures time == TickClock(old(time))
      ensures running == !IsZero(old(time))
      ensures submitted.Some? <==> IsZero(old(time))
      ensures submitted.Some? ==>
        submitted.value == Submission(quizId, quizType, 0, MaxMarks(questions), map[])
    {
      if IsZero(time) {
        running := false;
        var total := GetMaxMarks();
        submitted := Some(Submission(quizId, quizType, timerScore, total, timerAnswers));
      } else {
        time := TickClock(time);
        submitted := None;
      }
    }
  }
}
