/** The timed quiz session of the student quiz page: a code gate, a rules screen,
    an active attempt with a ten-minute countdown and a tab-switch monitor, and two
    terminal screens (submitted, or auto-submitted after violations), all sharing one
    finalize routine that scores the answers. */
module Quiz {
  import opened Strings

  const QuestionCount := 20
  const OptionCount := 4
  const CodeLength := 6
  /** Seconds in one attempt (ten minutes). */
  const Duration := 600
  /** Tab switches that force submission. */
  const MaxViolations := 3
  const PresentThreshold := 16
  const PassThreshold := 12

  const CodeErrorText := "Please enter a valid 6-digit quiz code."
  const WarningPrefix := "\U{26A0}\U{FE0F} Tab switch detected! Warning: "

  /** One multiple-choice question; `ans` is the index of the correct option. */
  datatype Question = Question(text: string, options: seq<string>, ans: int)

  /** The page's question set: twenty questions of four options, each with a correct index among them. */
  predicate ValidQuestionSet(qs: seq<Question>)
  {
    |qs| == QuestionCount
    && forall i :: 0 <= i < |qs| ==> |qs[i].options| == OptionCount && 0 <= qs[i].ans < OptionCount
  }

  datatype QuizState = EnterCode | Rules | Active | Submitted | Violation

  datatype Attendance = Present | Absent

  datatype Outcome = Pass | Fail

  /* ---------------- the code gate ---------------- */

  /** `/^\d+$/.test(code)`: at least one character, all decimal digits. */
  predicate MatchesDigitPattern(code: string)
  {
    |code| >= 1 && AllDigits(code)
  }

  /** A quiz code the gate accepts: six decimal digits. */
  predicate IsValidCode(code: string)
  {
    |code| == CodeLength && AllDigits(code)
  }

  /* ---------------- scoring and outcomes ---------------- */

  predicate IsCorrect(qs: seq<Question>, answers: map<int, int>, i: int)
    requires 0 <= i < |qs|
  {
    i in answers && answers[i] == qs[i].ans
  }

  /** Correct answers among the first `n` questions. */
  function CorrectAmong(qs: seq<Question>, answers: map<int, int>, n: nat): (r: nat)
    requires n <= |qs|
    ensures r <= n
  {
    if n == 0 then 0
    else CorrectAmong(qs, answers, n - 1) + (if IsCorrect(qs, answers, n - 1) then 1 else 0)
  }

  /** `questions.filter((q, i) => answers[i] === q.ans).length`. */
  function Score(qs: seq<Question>, answers: map<int, int>): (r: nat)
    ensures r <= |qs|
  {
    CorrectAmong(qs, answers, |qs|)
  }

  /** Reference definition: the indices whose recorded answer is the correct one. */
  function CorrectIndices(qs: seq<Question>, answers: map<int, int>, n: nat): set<int>
    requires n <= |qs|
  {
    set i | 0 <= i < n && IsCorrect(qs, answers, i)
  }

  lemma {:induction false} CorrectAmongIsCardinality(qs: seq<Question>, answers: map<int, int>, n: nat)
    requires n <= |qs|
    ensures CorrectAmong(qs, answers, n) == |CorrectIndices(qs, answers, n)|
  {
    if n > 0 {
      CorrectAmongIsCardinality(qs, answers, n - 1);
      var prev := CorrectIndices(qs, answers, n - 1);
      if IsCorrect(qs, answers, n - 1) {
        assert CorrectIndices(qs, answers, n) == prev + {n - 1};
      } else {
        assert CorrectIndices(qs, answers, n) == prev;
      }
    }
  }

  /** The score is the number of questions answered correctly; unanswered questions never count. */
  lemma ScoreCountsCorrectAnswers(qs: seq<Question>, answers: map<int, int>)
    ensures Score(qs, answers) == |set i | 0 <= i < |qs| && i in answers && answers[i] == qs[i].ans|
  {
    CorrectAmongIsCardinality(qs, answers, |qs|);
    assert CorrectIndices(qs, answers, |qs|) == set i | 0 <= i < |qs| && i in answers && answers[i] == qs[i].ans;
  }

  /** Re-answering question `i` changes the score only through question `i`. */
  lemma {:induction false} CorrectAmongAfterAnswer(qs: seq<Question>, answers: map<int, int>, n: nat, i: int, j: int)
    requires n <= |qs| && 0 <= i < |qs|
    ensures CorrectAmong(qs, answers[i := j], n)
            == CorrectAmong(qs, answers, n)
               - (if i < n && IsCorrect(qs, answers, i) then 1 else 0)
               + (if i < n && j == qs[i].ans then 1 else 0)
  {
    if n > 0 {
      CorrectAmongAfterAnswer(qs, answers, n - 1, i, j);
    }
  }

  /** Selecting option `j` for question `i` moves the score by at most one, and selecting the
      correct option never lowers it. */
  lemma ScoreAfterAnswer(qs: seq<Question>, answers: map<int, int>, i: int, j: int)
    requires 0 <= i < |qs|
    ensures Score(qs, answers[i := j])
            == Score(qs, answers) - (if IsCorrect(qs, answers, i) then 1 else 0) + (if j == qs[i].ans then 1 else 0)
    ensures j == qs[i].ans ==> Score(qs, answers[i := j]) >= Score(qs, answers)
  {
    CorrectAmongAfterAnswer(qs, answers, |qs|, i, j);
  }

  lemma {:induction false} CorrectAmongNoAnswers(qs: seq<Question>, n: nat)
    requires n <= |qs|
    ensures CorrectAmong(qs, map[], n) == 0
  {
    if n > 0 {
      CorrectAmongNoAnswers(qs, n - 1);
    }
  }

  /** The correct option for each of the first `n` questions. */
  function KeyPrefix(qs: seq<Question>, n: nat): map<int, int>
    requires n <= |qs|
  {
    map i | 0 <= i < n :: qs[i].ans
  }

  /** The correct option for every question. */
  function AnswerKey(qs: seq<Question>): map<int, int>
  {
    KeyPrefix(qs, |qs|)
  }

  lemma KeyPrefixStep(qs: seq<Question>, n: nat)
    requires n < |qs|
    ensures KeyPrefix(qs, n)[n := qs[n].ans] == KeyPrefix(qs, n + 1)
  {
  }

  lemma {:induction false} CorrectAmongAnswerKey(qs: seq<Question>, n: nat)
    requires n <= |qs|
    ensures CorrectAmong(qs, AnswerKey(qs), n) == n
  {
    if n > 0 {
      CorrectAmongAnswerKey(qs, n - 1);
    }
  }

  /** An empty answer sheet scores 0 and the answer key scores every question. */
  lemma ScoreExtremes(qs: seq<Question>)
    ensures Score(qs, map[]) == 0
    ensures Score(qs, AnswerKey(qs)) == |qs|
  {
    CorrectAmongNoAnswers(qs, |qs|);
    CorrectAmongAnswerKey(qs, |qs|);
  }

  /** `score >= 16 ? "Present" : "Absent"`. */
  function AttendanceFor(score: int): Attendance
  {
    if score >= PresentThreshold then Present else Absent
  }

  /** `score >= 12 ? "Pass" : "Fail"`. */
  function OutcomeFor(score: int): Outcome
  {
    if score >= PassThreshold then Pass else Fail
  }

  /** The attendance threshold lies above the pass threshold, so Present implies Pass;
      both verdicts are monotone in the score. */
  lemma PresentImpliesPass(score: int, better: int)
    ensures AttendanceFor(score) == Present ==> OutcomeFor(score) == Pass
    ensures score <= better && AttendanceFor(score) == Present ==> AttendanceFor(better) == Present
    ensures score <= better && OutcomeFor(score) == Pass ==> OutcomeFor(better) == Pass
  {
  }

  /* ---------------- the clock ---------------- */

  /** `formatTime`: minutes and seconds, each written with at least two digits. */
  function FormatTime(s: nat): (r: string)
    ensures s < 100 * 60 ==>
              r == [DigitChar(s / 60 / 10), DigitChar(s / 60 % 10), ':', DigitChar(s % 60 / 10), DigitChar(s % 60 % 10)]
  {
    TwoDigits(s / 60);
    TwoDigits(s % 60);
    PadStart2(NatToDecimal(s / 60)) + ":" + PadStart2(NatToDecimal(s % 60))
  }

  /** Every time the page can show (up to 99:59, which covers the 600 s of an attempt)
      is an "MM:SS" display that reads back as the same number of seconds. */
  lemma FormatTimeReadsBack(s: nat)
    requires s < 100 * 60
    ensures IsClock(FormatTime(s)) && ReadClock(FormatTime(s)) == s
  {
    var m, sec := s / 60, s % 60;
    var t := FormatTime(s);
    assert t == [DigitChar(m / 10), DigitChar(m % 10), ':', DigitChar(sec / 10), DigitChar(sec % 10)];
    assert DigitValue(t[0]) == m / 10 && DigitValue(t[1]) == m % 10;
    assert DigitValue(t[3]) == sec / 10 && DigitValue(t[4]) == sec % 10;
    assert (m / 10) * 10 + m % 10 == m;
    assert (sec / 10) * 10 + sec % 10 == sec;
    assert m * 60 + sec == s;
  }

  predicate IsClock(t: string)
  {
    |t| == 5 && IsDigit(t[0]) && IsDigit(t[1]) && t[2] == ':' && IsDigit(t[3]) && IsDigit(t[4])
  }

  /** Reads an "MM:SS" display back as a number of seconds. */
  function ReadClock(t: string): nat
  {
    if IsClock(t) then
      (DigitValue(t[0]) * 10 + DigitValue(t[1])) * 60 + DigitValue(t[3]) * 10 + DigitValue(t[4])
    else 0
  }

  /** The warning shown after `n` tab switches; none before the first. */
  function WarningFor(n: nat): string
  {
    if n == 0 then "" else WarningPrefix + NatToDecimal(n) + "/3"
  }

  /* ---------------- the session ---------------- */

  /** All component state of the page, for stating what a handler changes; the last two
      are the answer sheets held by the subscribed timer and visibility handlers. */
  datatype Session = Session(
    state: QuizState, code: string, codeError: string, answers: map<int, int>,
    currentQ: int, timeLeft: int, violations: int, score: int, violationMsg: string,
    timerAnswers: map<int, int>, visibilityAnswers: map<int, int>)

  class QuizSession {
    const questions: seq<Question>
    var state: QuizState
    var code: string
    var codeError: string
    /** Selected option per question index. */
    var answers: map<int, int>
    /** Index of the question on screen. */
    var currentQ: int
    /** Remaining seconds. */
    var timeLeft: int
    /** Tab switches seen during the attempt. */
    var violations: int
    var score: int
    var violationMsg: string
    /** The answers of the render in which the timer effect (dependency `[state]`) last
        subscribed: its `handleSubmit` scores these. */
    var timerAnswers: map<int, int>
    /** The answers of the render in which the visibility effect (dependencies
        `[state, violations]`) last subscribed. */
    var visibilityAnswers: map<int, int>

    function Snapshot(): Session
      reads this
    {
      Session(state, code, codeError, answers, currentQ, timeLeft, violations, score, violationMsg,
              timerAnswers, visibilityAnswers)
    }

    /** Answers, cursor, clock, violation count and warning as a new attempt needs them. */
    predicate Pristine()
      reads this
    {
      answers == map[] && currentQ == 0 && timeLeft == Duration && violations == 0 && violationMsg == ""
    }

    ghost predicate Valid()
      reads this
    {
      && ValidQuestionSet(questions)
      && (forall i :: i in answers ==> 0 <= i < QuestionCount && 0 <= answers[i] < OptionCount)
      && 0 <= currentQ < QuestionCount
      && 0 <= timeLeft <= Duration
      && 0 <= violations <= MaxViolations
      && violationMsg == WarningFor(violations)
      && 0 <= score <= QuestionCount
      && (state.EnterCode? ==> |code| <= CodeLength && AllDigits(code))
      && (state.Rules? ==> IsValidCode(code))
      && (state.EnterCode? || state.Rules? ==> Pristine())
      && (state.Active? ==> 1 <= timeLeft && violations < MaxViolations && timerAnswers == map[])
      && (state.Submitted? ==> violations < MaxViolations && score == Score(questions, answers))
      && (state.Violation? ==> violations == MaxViolations && score == Score(questions, answers))
    }

    constructor (questions: seq<Question>)
      requires ValidQuestionSet(questions)
      ensures Valid() && this.questions == questions
      ensures Snapshot() == Session(EnterCode, "", "", map[], 0, Duration, 0, 0, "", map[], map[])
    {
      this.questions := questions;
      state := EnterCode;
      code := "";
      codeError := "";
      answers := map[];
      currentQ := 0;
      timeLeft := Duration;
      violations := 0;
      score := 0;
      violationMsg := "";
      timerAnswers := map[];
      visibilityAnswers := map[];
    }

    /** The code input's change handler: keeps only the digits and clears the error.
        `value` is what the browser delivers, at most six characters (`maxLength`). */
    method OnCodeInput(value: string)
      requires Valid() && |value| <= CodeLength
      modifies this
      ensures Valid()
      ensures old(state).EnterCode? ==> Snapshot() == old(Snapshot()).(code := DigitsOnly(value), codeError := "")
      ensures !old(state).EnterCode? ==> Snapshot() == old(Snapshot())
    {
      if state.EnterCode? {
        code := DigitsOnly(value);
        codeError := "";
      }
    }

    /** `enterQuiz`: to the rules screen iff the code is six digits, else an error. */
    method EnterQuiz()
      requires Valid()
      modifies this
      ensures Valid()
      ensures old(state).EnterCode? ==> (state.Rules? <==> IsValidCode(code))
      ensures old(state).EnterCode? && IsValidCode(old(code)) ==>
                Snapshot() == old(Snapshot()).(state := Rules, codeError := "")
      ensures old(state).EnterCode? && !IsValidCode(old(code)) ==>
                Snapshot() == old(Snapshot()).(codeError := CodeErrorText)
      ensures !old(state).EnterCode? ==> Snapshot() == old(Snapshot())
    {
      if state.EnterCode? {
        if |code| != CodeLength || !MatchesDigitPattern(code) {
          codeError := CodeErrorText;
          return;
        }
        codeError := "";
        state := Rules;
      }
    }

    /** "Go Back" on the rules screen. */
    method GoBack()
      requires Valid()
      modifies this
      ensures Valid()
      ensures old(state).Rules? ==> Snapshot() == old(Snapshot()).(state := EnterCode)
      ensures !old(state).Rules? ==> Snapshot() == old(Snapshot())
    {
      if state.Rules? {
        state := EnterCode;
      }
    }

    /** `startQuiz` sets only the state and the clock; that the attempt nonetheless starts with
        no answers, the first question, no violations and no warning is the invariant. The
        new state makes both effects subscribe, holding the answers of this render. */
    method StartQuiz()
      requires Valid()
      modifies this
      ensures Valid()
      ensures old(state).Rules? ==>
                Snapshot() == old(Snapshot()).(state := Active, timeLeft := Duration,
                                               timerAnswers := old(answers), visibilityAnswers := old(answers))
      ensures !old(state).Rules? ==> Snapshot() == old(Snapshot())
      ensures state.Active? && !old(state).Active? ==>
                answers == map[] && currentQ == 0 && violations == 0 && violationMsg == "" && timeLeft == Duration
    {
      if state.Rules? {
        state := Active;
        timeLeft := Duration;
        timerAnswers := answers;
        visibilityAnswers := answers;
      }
    }

    /** `handleSubmit`: the one finalize routine behind the Submit button, the timer and
        the violation monitor. It scores the answer sheet of the render it belongs to,
        `sheet`. */
    method Finalize(forced: bool, sheet: map<int, int>)
      requires state.Active?
      modifies this
      ensures Snapshot() == old(Snapshot()).(score := Score(questions, sheet),
                                             state := if forced then Violation else Submitted)
    {
      score := Score(questions, sheet);
      state := if forced then Violation else Submitted;
    }

    /** One second of the countdown; ignored outside an attempt. At one second or less
        the clock shows 0 and the attempt is submitted. */
    method Tick()
      requires Valid()
      modifies this
      ensures Valid()
      ensures old(state).Active? && old(timeLeft) > 1 ==>
                Snapshot() == old(Snapshot()).(timeLeft := old(timeLeft) - 1)
      ensures old(state).Active? && old(timeLeft) <= 1 ==>
                Snapshot() == old(Snapshot()).(timeLeft := 0, state := Submitted,
                                               score := Score(questions, old(answers)))
      ensures !old(state).Active? ==> Snapshot() == old(Snapshot())
    {
      if state.Active? {
        if timeLeft <= 1 {
          timeLeft := 0;
          Finalize(false, answers);
        } else {
          timeLeft := timeLeft - 1;
        }
      }
    }

    /** One second of the countdown as the page runs it: the interval calls the
        `handleSubmit` of the render in which the attempt began, which scores that render's
        answers. Every timeout therefore records 0, whatever has been answered since. */
    method TickAsWritten()
      requires Valid()
      modifies this
      ensures old(state).Active? && old(timeLeft) > 1 ==>
                Valid() && Snapshot() == old(Snapshot()).(timeLeft := old(timeLeft) - 1)
      ensures old(state).Active? && old(timeLeft) <= 1 ==>
                Snapshot() == old(Snapshot()).(timeLeft := 0, state := Submitted,
                                               score := Score(questions, old(timerAnswers)))
      ensures old(state).Active? && old(timeLeft) <= 1 ==> score == 0
      ensures !old(state).Active? ==> Valid() && Snapshot() == old(Snapshot())
    {
      if state.Active? {
        if timeLeft <= 1 {
          timeLeft := 0;
          ScoreExtremes(questions);
          Finalize(false, timerAnswers);
        } else {
          timeLeft := timeLeft - 1;
        }
      }
    }

    /** A `visibilitychange` event; only a hidden page during an attempt counts.
        The third such event auto-submits into the violation screen. */
    method OnVisibilityChange(hidden: bool)
      requires Valid()
      modifies this
      ensures Valid()
      ensures old(state).Active? && hidden && old(violations) + 1 < MaxViolations ==>
                Snapshot() == old(Snapshot()).(violations := old(violations) + 1,
                                               violationMsg := WarningFor(old(violations) + 1),
                                               visibilityAnswers := old(answers))
      ensures old(state).Active? && hidden && old(violations) + 1 >= MaxViolations ==>
                Snapshot() == old(Snapshot()).(violations := old(violations) + 1,
                                               violationMsg := WarningFor(old(violations) + 1),
                                               visibilityAnswers := old(answers),
                                               state := Violation, score := Score(questions, old(answers)))
      ensures !(old(state).Active? && hidden) ==> Snapshot() == old(Snapshot())
    {
      if state.Active? && hidden {
        var newViolations := violations + 1;
        violations := newViolations;
        violationMsg := WarningPrefix + NatToDecimal(newViolations) + "/3";
        visibilityAnswers := answers;
        if newViolations >= MaxViolations {
          Finalize(true, answers);
        }
      }
    }

    /** A `visibilitychange` event as the page handles it: the listener subscribed in the
        render after the previous violation (or at the start of the attempt), so the forced
        submission scores the answers recorded at that point, not the current ones. The new
        count re-subscribes the listener with the current answers. */
    method OnVisibilityChangeAsWritten(hidden: bool)
      requires Valid()
      modifies this
      ensures old(state).Active? && hidden && old(violations) + 1 < MaxViolations ==>
                Valid() &&
                Snapshot() == old(Snapshot()).(violations := old(violations) + 1,
                                               violationMsg := WarningFor(old(violations) + 1),
                                               visibilityAnswers := old(answers))
      ensures old(state).Active? && hidden && old(violations) + 1 >= MaxViolations ==>
                Snapshot() == old(Snapshot()).(violations := old(violations) + 1,
                                               violationMsg := WarningFor(old(violations) + 1),
                                               visibilityAnswers := old(answers),
                                               state := Violation, score := Score(questions, old(visibilityAnswers)))
      ensures !(old(state).Active? && hidden) ==> Valid() && Snapshot() == old(Snapshot())
    {
      if state.Active? && hidden {
        var newViolations := violations + 1;
        var held := visibilityAnswers;
        violations := newViolations;
        violationMsg := WarningPrefix + NatToDecimal(newViolations) + "/3";
        visibilityAnswers := answers;
        if newViolations >= MaxViolations {
          Finalize(true, held);
        }
      }
    }

    /** Clicking option `j` of the question on screen records it, replacing an earlier choice. */
    method SelectOption(j: int)
      requires Valid() && 0 <= j < OptionCount
      modifies this
      ensures Valid()
      ensures old(state).Active? ==> Snapshot() == old(Snapshot()).(answers := old(answers)[old(currentQ) := j])
      ensures !old(state).Active? ==> Snapshot() == old(Snapshot())
    {
      if state.Active? {
        answers := answers[currentQ := j];
      }
    }

    /** "← Prev": one question back, never below the first. */
    method Prev()
      requires Valid()
      modifies this
      ensures Valid()
      ensures old(state).Active? ==> Snapshot() == old(Snapshot()).(currentQ := if old(currentQ) > 0 then old(currentQ) - 1 else 0)
      ensures !old(state).Active? ==> Snapshot() == old(Snapshot())
    {
      if state.Active? {
        currentQ := if currentQ - 1 > 0 then currentQ - 1 else 0;
      }
    }

    /** "Next →", shown only before the last question. */
    method Next()
      requires Valid()
      modifies this
      ensures Valid()
      ensures old(state).Active? && old(currentQ) < QuestionCount - 1 ==>
                Snapshot() == old(Snapshot()).(currentQ := old(currentQ) + 1)
      ensures !(old(state).Active? && old(currentQ) < QuestionCount - 1) ==> Snapshot() == old(Snapshot())
    {
      if state.Active? && currentQ < QuestionCount - 1 {
        currentQ := currentQ + 1;
      }
    }

    /** A button of the question navigator. */
    method GoToQuestion(i: int)
      requires Valid() && 0 <= i < QuestionCount
      modifies this
      ensures Valid()
      ensures old(state).Active? ==> Snapshot() == old(Snapshot()).(currentQ := i)
      ensures !old(state).Active? ==> Snapshot() == old(Snapshot())
    {
      if state.Active? {
        currentQ := i;
      }
    }

    /** "Submit Quiz", shown in place of "Next" on the last question. */
    method SubmitQuiz()
      requires Valid()
      modifies this
      ensures Valid()
      ensures old(state).Active? && old(currentQ) >= QuestionCount - 1 ==>
                Snapshot() == old(Snapshot()).(state := Submitted, score := Score(questions, old(answers)))
      ensures !(old(state).Active? && old(currentQ) >= QuestionCount - 1) ==> Snapshot() == old(Snapshot())
    {
      if state.Active? && currentQ >= QuestionCount - 1 {
        Finalize(false, answers);
      }
    }

    /** "Attempt Another Quiz": back to the code gate with a clean slate; the score stays
        until the next submission overwrites it. */
    method Reset()
      requires Valid()
      modifies this
      ensures Valid()
      ensures old(state).Submitted? || old(state).Violation? ==>
                Snapshot() == old(Snapshot()).(state := EnterCode, code := "", answers := map[], currentQ := 0,
                                               timeLeft := Duration, violations := 0, violationMsg := "")
      ensures !(old(state).Submitted? || old(state).Violation?) ==> Snapshot() == old(Snapshot())
    {
      if state.Submitted? || state.Violation? {
        state := EnterCode;
        code := "";
        answers := map[];
        currentQ := 0;
        timeLeft := Duration;
        violations := 0;
        violationMsg := "";
      }
    }
  }

  /* ---------------- whole attempts through the handlers ---------------- */

  /** Code "123456" typed and accepted, then the rules confirmed: an attempt begins. */
  method BeginAttempt(qs: seq<Question>) returns (session: QuizSession)
    requires ValidQuestionSet(qs)
    ensures fresh(session) && session.Valid() && session.questions == qs
    ensures session.state.Active? && session.Pristine()
  {
    session := new QuizSession(qs);
    DigitsOnlyKeepsDigits("123456");
    session.OnCodeInput("123456");
    session.EnterQuiz();
    session.StartQuiz();
  }

  /** The correct option on every question in turn, moving on with "Next": the sheet
      becomes the answer key and the last question is on screen; nothing else changes. */
  method AnswerEveryQuestion(session: QuizSession)
    requires session.Valid() && session.state.Active? && session.answers == map[] && session.currentQ == 0
    modifies session
    ensures session.Valid()
    ensures session.Snapshot() == old(session.Snapshot()).(answers := AnswerKey(session.questions),
                                                           currentQ := QuestionCount - 1)
  {
    var qs := session.questions;
    var k := 0;
    assert KeyPrefix(qs, 0) == map[];
    while k < QuestionCount - 1
      invariant 0 <= k <= QuestionCount - 1
      invariant session.Valid() && session.questions == qs
      invariant session.Snapshot() == old(session.Snapshot()).(answers := KeyPrefix(qs, k), currentQ := k)
    {
      session.SelectOption(qs[k].ans);
      KeyPrefixStep(qs, k);
      session.Next();
      k := k + 1;
    }
    session.SelectOption(qs[k].ans);
    KeyPrefixStep(qs, k);
  }

  /** Code, rules, the correct option on every question and "Submit Quiz" on the last one:
      full marks, Present and Pass. */
  method PerfectAttempt(qs: seq<Question>) returns (score: int, attendance: Attendance, outcome: Outcome)
    requires ValidQuestionSet(qs)
    ensures score == QuestionCount && attendance == Present && outcome == Pass
  {
    var session := BeginAttempt(qs);
    AnswerEveryQuestion(session);
    session.SubmitQuiz();
    ScoreExtremes(qs);
    score := session.score;
    attendance := AttendanceFor(score);
    outcome := OutcomeFor(score);
  }

  /** Tab switches during an attempt: after two the attempt goes on with the warning "2/3",
      the third ends it on the violation screen with the (empty) answers scored. */
  method TabSwitchesEndAttempt(qs: seq<Question>) returns (afterTwo: QuizState, warning: string, afterThree: QuizState, score: int)
    requires ValidQuestionSet(qs)
    ensures afterTwo == Active && warning == WarningFor(2)
    ensures afterThree == Violation && score == 0
  {
    var session := BeginAttempt(qs);
    session.OnVisibilityChange(true);
    session.OnVisibilityChange(false);
    session.OnVisibilityChange(true);
    afterTwo, warning := session.state, session.violationMsg;
    session.OnVisibilityChange(true);
    ScoreExtremes(qs);
    afterThree, score := session.state, session.score;
  }

  /* ---------------- as written: handlers that outlive their render ---------------- */

  /** Every answer correct, then the clock runs out. The page as written (`TickAsWritten`)
      records 0, because its timer holds the empty sheet of the render that began the
      attempt; the intended `Tick` records 20. */
  method TimeoutAsWrittenAndIntended(qs: seq<Question>) returns (asWritten: int, intended: int)
    requires ValidQuestionSet(qs)
    ensures asWritten == 0 && intended == QuestionCount
  {
    var written := BeginAttempt(qs);
    AnswerEveryQuestion(written);
    while written.state.Active?
      invariant written.questions == qs
      invariant written.state.Active? ==> written.Valid()
      invariant !written.state.Active? ==> written.state.Submitted? && written.score == 0
      decreases written.timeLeft
    {
      written.TickAsWritten();
    }
    asWritten := written.score;

    var session := BeginAttempt(qs);
    AnswerEveryQuestion(session);
    while session.state.Active?
      invariant session.Valid() && session.questions == qs
      invariant session.answers == AnswerKey(qs)
      invariant !session.state.Active? ==> session.state.Submitted?
      decreases session.timeLeft
    {
      session.Tick();
    }
    ScoreExtremes(qs);
    intended := session.score;
  }

  /** Two tab switches before answering, every answer correct, then a third switch. The page
      as written (`OnVisibilityChangeAsWritten`) records 0, because the listener that sees
      the third switch subscribed when the second one was counted, with no answers yet; the
      intended `OnVisibilityChange` records 20. */
  method ViolationAsWrittenAndIntended(qs: seq<Question>) returns (asWritten: int, intended: int)
    requires ValidQuestionSet(qs)
    ensures asWritten == 0 && intended == QuestionCount
  {
    ScoreExtremes(qs);
    var written := BeginAttempt(qs);
    written.OnVisibilityChangeAsWritten(true);
    written.OnVisibilityChangeAsWritten(true);
    AnswerEveryQuestion(written);
    written.OnVisibilityChangeAsWritten(true);
    asWritten := written.score;

    var session := BeginAttempt(qs);
    session.OnVisibilityChange(true);
    session.OnVisibilityChange(true);
    AnswerEveryQuestion(session);
    session.OnVisibilityChange(true);
    intended := session.score;
  }
}
