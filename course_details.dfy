/** The course page's quiz dialog and curriculum accordion
    (CourseDetailsPage.tsx). The page keeps two state cells for a quiz,
    `selectedQuiz` and `quizState`; each handler replaces them with fresh
    records, so the model is a `Session` value and one function per handler. */
module CourseDetails {
  import opened Common

  datatype Question = Question(prompt: string, options: seq<string>, correctAnswer: int)

  datatype Quiz = Quiz(title: string, questions: seq<Question>)

  /** `answers` is part of the record but no handler ever writes it. */
  datatype QuizState = QuizState(currentQuestion: int, selectedAnswer: Option<int>, answers: seq<int>, score: int)

  datatype Session = Session(selectedQuiz: Option<Quiz>, quizState: Option<QuizState>)

  /** What the completion alert shows: `score/total`. */
  datatype Report = Report(score: int, total: int)

  /** The outcome of `moveToNextQuestion`: the new session and, when the quiz
      was completed, the alert it raised. */
  datatype Advanced = Advanced(session: Session, report: Option<Report>)

  const NoQuiz := Session(None, None)

  /** The invariant of every session reached from starting non-empty quizzes:
      both cells are set together, the current question exists, the score is
      bounded by the questions answered so far, and `answers` stays empty. */
  ghost predicate Inv(s: Session)
  {
    && (s.selectedQuiz.Some? <==> s.quizState.Some?)
    && (s.quizState.Some? ==>
          var st := s.quizState.value;
          && 0 <= st.currentQuestion < |s.selectedQuiz.value.questions|
          && 0 <= st.score <= st.currentQuestion + (if st.selectedAnswer.Some? then 1 else 0)
          && st.answers == [])
  }

  /** What `handleQuizAnswer` reads without a guard: once it gets past its
      early return it indexes the quiz's questions with the current index. */
  predicate CanAnswer(s: Session)
  {
    s.quizState.Some? && s.quizState.value.selectedAnswer.None? ==>
      s.selectedQuiz.Some? && 0 <= s.quizState.value.currentQuestion < |s.selectedQuiz.value.questions|
  }

  /** `startQuiz`: no check on the number of questions. */
  function StartQuiz(quiz: Quiz): Session
  {
    Session(Some(quiz), Some(QuizState(0, None, [], 0)))
  }

  /** A fresh attempt: first question, nothing selected, no score; it
      satisfies the invariant exactly when the quiz has a question. */
  lemma StartQuizFresh(quiz: Quiz)
    ensures var st := StartQuiz(quiz).quizState;
      st.Some? && st.value.currentQuestion == 0 && st.value.selectedAnswer.None?
      && st.value.answers == [] && st.value.score == 0
    ensures StartQuiz(quiz).selectedQuiz == Some(quiz)
    ensures Inv(StartQuiz(quiz)) <==> |quiz.questions| > 0
  {
  }

  /** `handleQuizAnswer(answerIndex)`. */
  function HandleQuizAnswer(s: Session, answerIndex: int): (r: Session)
    requires CanAnswer(s)
    // no attempt, or an answer already chosen: nothing happens
    ensures s.quizState.None? || s.quizState.value.selectedAnswer.Some? ==> r == s
    // a first answer is recorded, the question stays, the score moves by the verdict
    ensures s.quizState.Some? && s.quizState.value.selectedAnswer.None? ==>
      r.selectedQuiz == s.selectedQuiz && r.quizState.Some? &&
      var st, st' := s.quizState.value, r.quizState.value;
      var correct := s.selectedQuiz.value.questions[st.currentQuestion].correctAnswer;
      && st'.selectedAnswer == Some(answerIndex)
      && st'.currentQuestion == st.currentQuestion
      && st'.answers == st.answers
      && (st'.score == st.score + 1 <==> answerIndex == correct)
      && (answerIndex != correct ==> st'.score == st.score)
  {
    if s.quizState.None? || s.quizState.value.selectedAnswer.Some? then s
    else
      var st := s.quizState.value;
      var isCorrect := answerIndex == s.selectedQuiz.value.questions[st.currentQuestion].correctAnswer;
      Session(s.selectedQuiz, Some(st.(selectedAnswer := Some(answerIndex),
                                       score := if isCorrect then st.score + 1 else st.score)))
  }

  /** The first answer to a question is final: answering again changes nothing. */
  lemma FirstAnswerIsFinal(s: Session, first: int, second: int)
    requires CanAnswer(s)
    requires s.quizState.Some?
    ensures CanAnswer(HandleQuizAnswer(s, first))
    ensures HandleQuizAnswer(HandleQuizAnswer(s, first), second) == HandleQuizAnswer(s, first)
  {
  }

  /** `moveToNextQuestion`; it does not look at the selection itself. */
  function MoveToNextQuestion(s: Session): (r: Advanced)
    ensures s.quizState.None? || s.selectedQuiz.None? ==> r == Advanced(s, None)
    ensures s.quizState.Some? && s.selectedQuiz.Some? ==>
      var st := s.quizState.value;
      var n := |s.selectedQuiz.value.questions|;
      if st.currentQuestion + 1 < n then
        && r.report.None? && r.session.selectedQuiz == s.selectedQuiz
        && r.session.quizState == Some(st.(currentQuestion := st.currentQuestion + 1, selectedAnswer := None))
      else
        r == Advanced(NoQuiz, Some(Report(st.score, n)))
  {
    if s.quizState.None? || s.selectedQuiz.None? then Advanced(s, None)
    else
      var st := s.quizState.value;
      var next := st.currentQuestion + 1;
      if next < |s.selectedQuiz.value.questions| then
        Advanced(Session(s.selectedQuiz, Some(st.(currentQuestion := next, selectedAnswer := None))), None)
      else
        Advanced(NoQuiz, Some(Report(st.score, |s.selectedQuiz.value.questions|)))
  }

  /** The "Next Question" button is rendered only while an answer is
      selected, so the user can advance only then. */
  function NextButton(s: Session): (r: Advanced)
    ensures s.quizState.None? || s.quizState.value.selectedAnswer.None? ==> r == Advanced(s, None)
    ensures s.quizState.Some? && s.quizState.value.selectedAnswer.Some? ==> r == MoveToNextQuestion(s)
  {
    if s.quizState.Some? && s.quizState.value.selectedAnswer.Some? then MoveToNextQuestion(s)
    else Advanced(s, None)
  }

  /** Advancing with questions left keeps the score and clears the selection;
      advancing from the last question reports a score between 0 and the
      number of questions and discards the attempt. */
  lemma AdvanceFacts(s: Session)
    requires Inv(s)
    requires s.quizState.Some? && s.quizState.value.selectedAnswer.Some?
    ensures var r := NextButton(s);
      var st := s.quizState.value;
      && Inv(r.session)
      && (r.report.None? ==>
            && r.session.quizState.Some?
            && r.session.quizState.value.currentQuestion == st.currentQuestion + 1
            && r.session.quizState.value.selectedAnswer.None?
            && r.session.quizState.value.score == st.score)
      && (r.report.Some? ==>
            && r.session == NoQuiz
            && r.report.value.total == |s.selectedQuiz.value.questions|
            && 0 <= r.report.value.score <= r.report.value.total)
  {
  }

  /** The quiz dialog's `onOpenChange`: closing it discards the attempt. */
  function CloseQuizDialog(s: Session): (r: Session)
    ensures r.selectedQuiz.None? && r.quizState.None?
  {
    NoQuiz
  }

  /** A user action in the quiz dialog. */
  datatype QuizEvent = Start(quiz: Quiz) | Answer(index: int) | Next | Close

  predicate StartsNonEmpty(e: QuizEvent)
  {
    e.Start? ==> |e.quiz.questions| > 0
  }

  function Step(s: Session, e: QuizEvent): (r: Advanced)
    requires Inv(s)
    requires StartsNonEmpty(e)
    ensures Inv(r.session)
    ensures r.report.Some? ==> 0 <= r.report.value.score <= r.report.value.total
    // the score of a running attempt never goes down
    ensures !e.Start? && s.quizState.Some? && r.session.quizState.Some? ==>
      r.session.quizState.value.score >= s.quizState.value.score
  {
    match e
    case Start(q) => Advanced(StartQuiz(q), None)
    case Answer(i) => Advanced(HandleQuizAnswer(s, i), None)
    case Next =>
      if s.quizState.Some? && s.quizState.value.selectedAnswer.Some? then
        AdvanceFacts(s);
        NextButton(s)
      else NextButton(s)
    case Close => Advanced(CloseQuizDialog(s), None)
  }

  /** Replays a sequence of user actions, collecting the completion alerts. */
  function Run(s: Session, events: seq<QuizEvent>): (r: (Session, seq<Report>))
    requires Inv(s)
    requires forall k :: 0 <= k < |events| ==> StartsNonEmpty(events[k])
    ensures Inv(r.0)
    ensures forall k :: 0 <= k < |r.1| ==> 0 <= r.1[k].score <= r.1[k].total
    decreases |events|
  {
    if events == [] then (s, [])
    else
      var step := Step(s, events[0]);
      var rest := Run(step.session, events[1..]);
      (rest.0, (if step.report.Some? then [step.report.value] else []) + rest.1)
  }

  /** Two questions, correct options 1 and 0: answering 1 twice scores 1 of 2. */
  lemma TwoQuestionWalkthrough(q1: Question, q2: Question)
    requires q1.correctAnswer == 1 && q2.correctAnswer == 0
    ensures Run(NoQuiz, [Start(Quiz("Quiz", [q1, q2])), Answer(1), Next, Answer(1), Next])
            == (NoQuiz, [Report(1, 2)])
  {
    var quiz := Quiz("Quiz", [q1, q2]);
    var s1 := StartQuiz(quiz);
    var s2 := HandleQuizAnswer(s1, 1);
    assert s2.quizState.value.score == 1;
    var s3 := NextButton(s2).session;
    var s4 := HandleQuizAnswer(s3, 1);
    assert s4.quizState.value.score == 1;
    assert Run(NoQuiz, []) == (NoQuiz, []);
    assert Run(s4, [Next]) == (NoQuiz, [Report(1, 2)]) by {
      assert Inv(s4);
      assert Step(s4, Next) == Advanced(NoQuiz, Some(Report(1, 2)));
      assert [Next][1..] == [];
      assert Run(s4, [Next]) == (Run(NoQuiz, []).0, [Report(1, 2)] + Run(NoQuiz, []).1);
      assert Run(NoQuiz, []) == (NoQuiz, []);
      assert [Report(1, 2)] + [] == [Report(1, 2)];
    }
    assert Run(s3, [Answer(1), Next]) == (NoQuiz, [Report(1, 2)]) by {
      assert [Answer(1), Next][1..] == [Next];
      assert Step(s3, Answer(1)) == Advanced(s4, None);
      assert [] + [Report(1, 2)] == [Report(1, 2)];
    }
    assert Run(s2, [Next, Answer(1), Next]) == (NoQuiz, [Report(1, 2)]) by {
      assert [Next, Answer(1), Next][1..] == [Answer(1), Next];
    }
    assert Run(s1, [Answer(1), Next, Answer(1), Next]) == (NoQuiz, [Report(1, 2)]) by {
      assert [Answer(1), Next, Answer(1), Next][1..] == [Next, Answer(1), Next];
    }
    assert [Start(quiz), Answer(1), Next, Answer(1), Next][1..] == [Answer(1), Next, Answer(1), Next];
  }

  /** `toggleWeekDetails(week)`: the accordion keeps at most one open week. */
  function ToggleWeekDetails(expandedWeek: Option<int>, week: int): (r: Option<int>)
    ensures r == None || r == Some(week)
    ensures r == None <==> expandedWeek == Some(week)
  {
    if expandedWeek == Some(week) then None else Some(week)
  }

  /** Re-toggling the week just opened collapses it again. */
  lemma ToggleWeekTwice(expandedWeek: Option<int>, week: int)
    requires expandedWeek != Some(week)
    ensures ToggleWeekDetails(ToggleWeekDetails(expandedWeek, week), week) == None
  {
  }
}
