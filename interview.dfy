/**
 * The question and timer flow of the interview page (src/pages/Interview.jsx).
 *
 * Five fixed questions, a 60-second answer timer per question, and four
 * handlers: start the interview, start recording, stop recording (advance to
 * the next question, or finish after the last one) and the timer effect,
 * which counts down once a second while recording and stops the recording
 * when it reaches zero. One `Tick` is one run of that effect.
 */
module InterviewFlow {
  import opened Wrappers

  /** `questions.length`. */
  const QuestionCount: int := 5
  /** The answer timer, in seconds. */
  const AnswerSeconds: int := 60
  const CompletionFeedback: string := "Interview complete! AI Feedback: Well done."

  /** The page's React state. */
  datatype Page = Page(
    hasStarted: bool,
    currentQuestion: int,
    timeLeft: int,
    isRecording: bool,
    feedback: Option<string>)

  /** The state on first render. */
  const Initial: Page := Page(false, 0, AnswerSeconds, false, None)

  /** The question index is a valid index into `questions` and the timer is within [0, 60]. */
  ghost predicate InBounds(p: Page)
  {
    0 <= p.currentQuestion < QuestionCount && 0 <= p.timeLeft <= AnswerSeconds
  }

  /** `handleStartInterview`: back to the first question with a full timer and no feedback. */
  function StartInterview(p: Page): (p': Page)
    ensures p'.hasStarted && p'.currentQuestion == 0 && p'.timeLeft == AnswerSeconds && p'.feedback == None
    ensures p'.isRecording == p.isRecording
    ensures InBounds(p')
  {
    p.(hasStarted := true, currentQuestion := 0, timeLeft := AnswerSeconds, feedback := None)
  }

  /** `handleStartRecording`: recording with a full timer, on the same question. */
  function StartRecording(p: Page): (p': Page)
    ensures p'.isRecording && p'.timeLeft == AnswerSeconds
    ensures p'.hasStarted == p.hasStarted && p'.currentQuestion == p.currentQuestion && p'.feedback == p.feedback
    ensures InBounds(p) ==> InBounds(p')
  {
    p.(isRecording := true, timeLeft := AnswerSeconds)
  }

  /**
   * `handleStopRecording`: recording always stops; before the last question
   * the page moves to the next one with a full timer, on the last one the
   * interview ends with the completion feedback.
   */
  function StopRecording(p: Page): (p': Page)
    ensures !p'.isRecording
    ensures p.currentQuestion < QuestionCount - 1 ==>
      && p'.hasStarted == p.hasStarted && p'.currentQuestion == p.currentQuestion + 1
      && p'.timeLeft == AnswerSeconds && p'.feedback == p.feedback
    ensures p.currentQuestion >= QuestionCount - 1 ==>
      && !p'.hasStarted && p'.feedback == Some(CompletionFeedback)
      && p'.currentQuestion == p.currentQuestion && p'.timeLeft == p.timeLeft
    ensures InBounds(p) ==> InBounds(p')
  {
    if p.currentQuestion < QuestionCount - 1 then
      p.(isRecording := false, currentQuestion := p.currentQuestion + 1, timeLeft := AnswerSeconds)
    else
      p.(isRecording := false, hasStarted := false, feedback := Some(CompletionFeedback))
  }

  /**
   * One run of the timer effect: while the interview runs and records, a
   * second passes when time is left and the recording stops when it is not;
   * otherwise nothing happens.
   */
  function Tick(p: Page): (p': Page)
    ensures p.hasStarted && p.isRecording && p.timeLeft > 0 ==> p' == p.(timeLeft := p.timeLeft - 1)
    ensures p.hasStarted && p.isRecording && p.timeLeft <= 0 ==> p' == StopRecording(p)
    ensures !(p.hasStarted && p.isRecording) ==> p' == p
    ensures InBounds(p) ==> InBounds(p')
  {
    if p.hasStarted && p.isRecording then
      if p.timeLeft > 0 then p.(timeLeft := p.timeLeft - 1) else StopRecording(p)
    else p
  }

  /** `n` timer runs in a row. */
  function Ticks(p: Page, n: nat): Page
    decreases n
  {
    if n == 0 then p else Ticks(Tick(p), n - 1)
  }

  /** One answered question: the candidate starts and then stops recording. */
  function Answer(p: Page): Page
  {
    StopRecording(StartRecording(p))
  }

  /** `n` questions answered in a row. */
  function Answers(p: Page, n: nat): Page
    decreases n
  {
    if n == 0 then p else Answers(Answer(p), n - 1)
  }

  /** While the timer has time left, `k` ticks take exactly `k` seconds off it and change nothing else. */
  lemma {:induction false} TicksCountDown(p: Page, k: nat)
    requires p.hasStarted && p.isRecording && k <= p.timeLeft
    ensures Ticks(p, k) == p.(timeLeft := p.timeLeft - k)
    decreases k
  {
    if k > 0 {
      TicksCountDown(Tick(p), k - 1);
    }
  }

  /** A recording that is never stopped by hand is stopped by the timer on the 61st tick. */
  lemma TimerStopsRecording(p: Page)
    requires p.hasStarted
    ensures Ticks(StartRecording(p), AnswerSeconds + 1) == StopRecording(StartRecording(p).(timeLeft := 0))
    ensures !Ticks(StartRecording(p), AnswerSeconds + 1).isRecording
  {
    var rec := StartRecording(p);
    TicksCountDown(rec, AnswerSeconds);
    TicksAppend(rec, AnswerSeconds, 1);
  }

  lemma {:induction false} TicksAppend(p: Page, m: nat, n: nat)
    ensures Ticks(p, m + n) == Ticks(Ticks(p, m), n)
    decreases m
  {
    if m > 0 {
      TicksAppend(Tick(p), m - 1, n);
    }
  }

  /** Fewer answers than questions keep the interview running, on the next unanswered question. */
  lemma {:induction false} AnswersAdvance(p: Page, k: nat)
    requires p.hasStarted && 0 <= p.currentQuestion && p.currentQuestion + k < QuestionCount
    ensures Answers(p, k).hasStarted
    ensures Answers(p, k).currentQuestion == p.currentQuestion + k
    ensures Answers(p, k).feedback == p.feedback
    decreases k
  {
    if k > 0 {
      AnswersAdvance(Answer(p), k - 1);
    }
  }

  /**
   * From a fresh start, the interview is still running after fewer than five
   * answers and is over, with the completion feedback, after exactly five.
   */
  lemma FiveAnswersFinish(p: Page, k: nat)
    requires k < QuestionCount
    ensures Answers(StartInterview(p), k).hasStarted
    ensures Answers(StartInterview(p), k).currentQuestion == k
    ensures Answers(StartInterview(p), k).feedback == None
    ensures !Answers(StartInterview(p), QuestionCount).hasStarted
    ensures Answers(StartInterview(p), QuestionCount).feedback == Some(CompletionFeedback)
  {
    var start := StartInterview(p);
    AnswersAdvance(start, k);
    AnswersAdvance(start, QuestionCount - 1);
    AnswersAppend(start, QuestionCount - 1, 1);
  }

  lemma {:induction false} AnswersAppend(p: Page, m: nat, n: nat)
    ensures Answers(p, m + n) == Answers(Answers(p, m), n)
    decreases m
  {
    if m > 0 {
      AnswersAppend(Answer(p), m - 1, n);
    }
  }

  /** The page component: its state fields and the handlers that update them. */
  class InterviewPage {
    var hasStarted: bool
    var currentQuestion: int
    var timeLeft: int
    var isRecording: bool
    var feedback: Option<string>

    function State(): Page
      reads this
    {
      Page(hasStarted, currentQuestion, timeLeft, isRecording, feedback)
    }

    ghost predicate Valid()
      reads this
    {
      InBounds(State())
    }

    constructor ()
      ensures Valid() && State() == Initial
    {
      hasStarted, currentQuestion, timeLeft, isRecording, feedback := false, 0, AnswerSeconds, false, None;
    }

    method HandleStartInterview()
      requires Valid()
      modifies this
      ensures Valid() && State() == StartInterview(old(State()))
    {
      hasStarted := true;
      currentQuestion := 0;
      timeLeft := AnswerSeconds;
      feedback := None;
    }

    method HandleStartRecording()
      requires Valid()
      modifies this
      ensures Valid() && State() == StartRecording(old(State()))
    {
      isRecording := true;
      timeLeft := AnswerSeconds;
    }

    method HandleStopRecording()
      requires Valid()
      modifies this
      ensures Valid() && State() == StopRecording(old(State()))
    {
      isRecording := false;
      if currentQuestion < QuestionCount - 1 {
        currentQuestion := currentQuestion + 1;
        timeLeft := AnswerSeconds;
      } else {
        hasStarted := false;
        feedback := Some(CompletionFeedback);
      }
    }

    /** The timer effect followed by its one-second timeout firing. */
    method TimerTick()
      requires Valid()
      modifies this
      ensures Valid() && State() == Tick(old(State()))
    {
      if hasStarted && isRecording {
        if timeLeft > 0 {
          timeLeft := timeLeft - 1;
        } else {
          HandleStopRecording();
        }
      }
    }
  }
}
