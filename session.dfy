/** The exam session of `ExaniSimulatorComplete`: the session fields the
    application keeps between reruns, and the operations the dashboard, the
    exam screen, the results screen and the sidebar apply to them. The
    clock is the parameter `now` (whole seconds); the random source is the
    pair `draw`, `swapDraw` handed to question selection. */
module Session {
  import opened Questions
  import opened Selection
  import opened Scoring
  import opened Timer
  import opened Config

  datatype Screen = Dashboard | Exam | Results | Review

  /** `final_results`; the formatted date is not modelled. */
  datatype FinalResults = FinalResults(
    score: nat,
    correct: nat,
    wrong: nat,
    skipped: nat,
    totalQuestions: nat,
    examType: string,
    modules: seq<ModuleKey>,
    duration: int)

  /** Seconds since the exam started, or zero when it never did. */
  function ExamDuration(start: Option<int>, now: int): int
  {
    if start.Some? then now - start.value else 0
  }

  /** The results `finish_exam` stores: tallies and score of the answers,
      the configuration's type and modules, and the duration. */
  function Summarize(qs: seq<Question>, answers: seq<Answer>, config: ExamConfig, duration: int)
    : (r: FinalResults)
    ensures r.correct == Tally(qs, answers).correct && r.wrong == Tally(qs, answers).wrong &&
            r.skipped == Tally(qs, answers).skipped
    ensures r.score == Score(r.correct, |qs|)
    ensures r.totalQuestions == |qs| && r.score <= 100
    ensures |answers| == |qs| ==> r.correct + r.wrong + r.skipped == |qs|
    ensures AllCorrect(qs, answers) && qs != [] ==> r.score == 100 && r.correct == |qs|
    ensures NoneCorrect(qs, answers) ==> r.score == 0 && r.correct == 0
    ensures r.examType == config.examType && r.modules == config.modules && r.duration == duration
  {
    var t := Tally(qs, answers);
    SummaryFacts(qs, answers);
    FinalResults(Score(t.correct, |qs|), t.correct, t.wrong, t.skipped, |qs|,
                 config.examType, config.modules, duration)
  }

  /** What the tallies and the score of a set of answers satisfy. */
  lemma SummaryFacts(qs: seq<Question>, answers: seq<Answer>)
    ensures Score(Tally(qs, answers).correct, |qs|) <= 100
    ensures |answers| == |qs| ==>
              Tally(qs, answers).correct + Tally(qs, answers).wrong + Tally(qs, answers).skipped == |qs|
    ensures AllCorrect(qs, answers) && qs != [] ==>
              Score(Tally(qs, answers).correct, |qs|) == 100 && Tally(qs, answers).correct == |qs|
    ensures NoneCorrect(qs, answers) ==>
              Score(Tally(qs, answers).correct, |qs|) == 0 && Tally(qs, answers).correct == 0
  {
    TallyBounded(qs, answers);
    ScoreInRange(Tally(qs, answers).correct, |qs|);
    SessionScoreExtremes(qs, answers);
    if |answers| == |qs| {
      TallyCountsStatuses(qs, answers);
    }
    if AllCorrect(qs, answers) {
      TallyAllCorrect(qs, answers);
    }
    if NoneCorrect(qs, answers) {
      TallyNoneCorrect(qs, answers);
    }
  }

  /** All session fields at one moment. */
  datatype Snapshot = Snapshot(
    currentScreen: Screen,
    currentQuestionIndex: int,
    questions: seq<Question>,
    userAnswers: seq<Answer>,
    examStartTime: Option<int>,
    timeRemaining: int,
    timerActive: bool,
    examConfig: ExamConfig,
    showFinishModal: bool,
    finalResults: Option<FinalResults>)

  /** The session as `init_session_state` leaves it, with configuration
      `config`. */
  function FreshSnapshot(config: ExamConfig): Snapshot
  {
    Snapshot(Dashboard, 0, [], [], None, 0, false, config, false, None)
  }

  /** The session after `finish_exam` at time `now`: the timer stops, the
      results are computed from the answers, the results screen shows. */
  function AfterFinish(s: Snapshot, now: int): Snapshot
  {
    s.(timerActive := false,
       finalResults := Some(Summarize(s.questions, s.userAnswers, s.examConfig,
                                      ExamDuration(s.examStartTime, now))),
       currentScreen := Results)
  }

  /** Finishing again, later, changes nothing but the recorded duration:
      the counts and the score are those of the first finish. */
  lemma FinishAgainKeepsOutcome(s: Snapshot, now1: int, now2: int)
    ensures var once := AfterFinish(s, now1);
            var twice := AfterFinish(once, now2);
            twice.(finalResults := once.finalResults) == once &&
            twice.finalResults.value.(duration := 0) == once.finalResults.value.(duration := 0)
  {
  }

  /** Index arithmetic shared by auto-advance, "Siguiente" and "Saltar":
      one step forward unless already on the last question. */
  function StepForward(index: int, count: nat): int
  {
    if index < count - 1 then index + 1 else index
  }

  /** What the timer panel shows. */
  datatype TimerView = TimerView(remaining: nat, clock: Clock, warning: bool)

  /** The progress line: question number, total and answered count. */
  datatype Progress = Progress(current: nat, total: nat, answered: nat)

  class ExaniSimulator {
    /** The bank, loaded once when the simulator is built. */
    const questionDatabase: Bank

    var currentScreen: Screen
    var currentQuestionIndex: int
    var questions: seq<Question>
    var userAnswers: seq<Answer>
    var examStartTime: Option<int>
    var timeRemaining: int
    var timerActive: bool
    var examConfig: ExamConfig
    var showFinishModal: bool
    var finalResults: Option<FinalResults>

    ghost function State(): Snapshot
      reads this
    {
      Snapshot(currentScreen, currentQuestionIndex, questions, userAnswers, examStartTime,
               timeRemaining, timerActive, examConfig, showFinishModal, finalResults)
    }

    /** One answer slot per question; the index is on a question whenever
        there is one; the dashboard holds no exam; an exam in progress has
        questions, a start time and a running timer; the results and review
        screens have results and a stopped timer. */
    ghost predicate Valid()
      reads this
    {
      && |userAnswers| == |questions|
      && 0 <= currentQuestionIndex
      && (if questions == [] then currentQuestionIndex == 0 else currentQuestionIndex < |questions|)
      && (currentScreen == Dashboard ==> questions == [] && !timerActive && finalResults.None?)
      && (currentScreen == Exam ==>
            questions != [] && examStartTime.Some? && timerActive && finalResults.None?)
      && (currentScreen == Results || currentScreen == Review ==> finalResults.Some? && !timerActive)
    }

    /** `__init__`: the session defaults and the bank. */
    constructor (bank: Bank)
      ensures Valid()
      ensures questionDatabase == bank
      ensures State() == FreshSnapshot(DefaultConfig())
    {
      questionDatabase := bank;
      currentScreen := Dashboard;
      currentQuestionIndex := 0;
      questions := [];
      userAnswers := [];
      examStartTime := None;
      timeRemaining := 0;
      timerActive := false;
      examConfig := DefaultConfig();
      showFinishModal := false;
      finalResults := None;
    }

    /** `update_exam_config`: the mode buttons replace the whole
        configuration. */
    method UpdateExamConfig(examType: string, questionCount: nat, timeLimit: nat, modules: seq<ModuleKey>)
      requires Valid()
      modifies this
      ensures Valid()
      ensures State() == old(State()).(examConfig := ExamConfig(examType, modules, timeLimit, questionCount))
    {
      examConfig := ExamConfig(examType, modules, timeLimit, questionCount);
    }

    /** `update_exam_settings_by_type`: a known type loads its preset; an
        unknown type changes nothing. */
    method UpdateExamSettingsByType(examType: string)
      requires Valid()
      modifies this
      ensures Valid()
      ensures State() == old(State()).(examConfig :=
                if PresetFor(examType).Some? then WithPreset(old(examConfig), PresetFor(examType).value)
                else old(examConfig))
    {
      match PresetFor(examType)
      case Some(p) =>
        examConfig := WithPreset(examConfig, p);
      case None =>
    }

    /** Choosing a different type in the dashboard's selector records it and
        loads its preset; choosing the current type changes nothing. */
    method ChooseExamType(selectedType: string)
      requires Valid()
      modifies this
      ensures Valid()
      ensures selectedType == old(examConfig).examType ==> State() == old(State())
      ensures selectedType != old(examConfig).examType ==>
                var typed := old(examConfig).(examType := selectedType);
                State() == old(State()).(examConfig :=
                  if PresetFor(selectedType).Some? then WithPreset(typed, PresetFor(selectedType).value)
                  else typed)
    {
      if selectedType != examConfig.examType {
        examConfig := examConfig.(examType := selectedType);
        UpdateExamSettingsByType(selectedType);
      }
    }

    /** `start_exam`: refused when no module is selected or selection yields
        no question; otherwise the exam begins on its first question with
        every answer empty and the full time on the clock. */
    method StartExam(now: int, draw: nat -> (nat, nat), swapDraw: nat -> nat) returns (started: bool)
      requires Valid() && currentScreen == Dashboard
      modifies this
      ensures Valid()
      ensures started <==> examConfig.modules != [] && examConfig.questionCount > 0 &&
                           AnyNonEmpty(questionDatabase, examConfig.modules)
      ensures !started ==> State() == old(State())
      ensures started ==>
                State() == old(State()).(
                  currentScreen := Exam,
                  currentQuestionIndex := 0,
                  questions := questions,
                  userAnswers := seq(|questions|, _ => None),
                  examStartTime := Some(now),
                  timeRemaining := old(examConfig).timeLimit * 60,
                  timerActive := true)
      ensures started ==>
                && |questions| == examConfig.questionCount
                && (forall i :: 0 <= i < |questions| ==>
                      FromSelected(questionDatabase, examConfig.modules, questions[i]))
                && multiset(QuotaPhase(questionDatabase, examConfig.modules, examConfig.questionCount))
                     <= multiset(questions)
    {
      if examConfig.modules == [] {
        return false;
      }
      var generated := GenerateQuestions(questionDatabase, examConfig.modules, examConfig.questionCount,
                                         draw, swapDraw);
      assert generated == [] <==>
               !(examConfig.questionCount > 0 && AnyNonEmpty(questionDatabase, examConfig.modules));
      questions := generated;
      if questions == [] {
        assert State() == old(State());
        return false;
      }
      BeginExam(now);
      started := true;
    }

    /** The initialisation `start_exam` performs once it has questions. */
    method BeginExam(now: int)
      modifies this
      ensures State() == old(State()).(
                currentScreen := Exam,
                currentQuestionIndex := 0,
                userAnswers := seq(|questions|, _ => None),
                examStartTime := Some(now),
                timeRemaining := old(examConfig).timeLimit * 60,
                timerActive := true)
    {
      currentQuestionIndex := 0;
      userAnswers := seq(|questions|, _ => None);
      examStartTime := Some(now);
      timeRemaining := examConfig.timeLimit * 60;
      timerActive := true;
      currentScreen := Exam;
    }

    /** Choosing option `choice` of the current question records it in that
        question's slot only, then advances unless on the last question. */
    method AnswerCurrent(choice: nat)
      requires Valid() && currentScreen == Exam && choice < OptionsPerQuestion
      modifies this
      ensures Valid()
      ensures State() == old(State()).(
                userAnswers := old(userAnswers)[old(currentQuestionIndex) := Some(choice)],
                currentQuestionIndex := StepForward(old(currentQuestionIndex), |questions|))
    {
      var currentIdx := currentQuestionIndex;
      userAnswers := userAnswers[currentIdx := Some(choice)];
      if currentIdx < |questions| - 1 {
        currentQuestionIndex := currentQuestionIndex + 1;
      }
    }

    /** "Anterior": one question back; the button is disabled on the first
        question. */
    method Previous()
      requires Valid() && currentScreen == Exam
      modifies this
      ensures Valid()
      ensures State() == old(State()).(
                currentQuestionIndex := if old(currentQuestionIndex) == 0 then 0
                                        else old(currentQuestionIndex) - 1)
    {
      if currentQuestionIndex != 0 {
        currentQuestionIndex := currentQuestionIndex - 1;
      }
    }

    /** "Siguiente": one question forward, or "Terminar" on the last one. */
    method Next(now: int)
      requires Valid() && currentScreen == Exam
      modifies this
      ensures Valid()
      ensures old(currentQuestionIndex) < |old(questions)| - 1 ==>
                State() == old(State()).(currentQuestionIndex := old(currentQuestionIndex) + 1)
      ensures old(currentQuestionIndex) >= |old(questions)| - 1 ==>
                State() == AfterFinish(old(State()), now)
    {
      var nextDisabled := currentQuestionIndex >= |questions| - 1;
      if nextDisabled {
        FinishExam(now);
      } else {
        currentQuestionIndex := currentQuestionIndex + 1;
      }
    }

    /** A numbered quick-navigation button, shown only for exams of at most
        twenty questions, jumps to its question. */
    method JumpTo(i: nat)
      requires Valid() && currentScreen == Exam && i < |questions| <= 20
      modifies this
      ensures Valid()
      ensures State() == old(State()).(currentQuestionIndex := i)
    {
      currentQuestionIndex := i;
    }

    /** The sidebar's "Saltar pregunta": forward unless on the last question. */
    method Skip()
      requires Valid() && currentScreen == Exam
      modifies this
      ensures Valid()
      ensures State() == old(State()).(currentQuestionIndex := StepForward(old(currentQuestionIndex), |questions|))
    {
      if currentQuestionIndex < |questions| - 1 {
        currentQuestionIndex := currentQuestionIndex + 1;
      }
    }

    /** "Terminar Examen" opens the confirmation. */
    method RequestFinish()
      requires Valid() && currentScreen == Exam
      modifies this
      ensures Valid()
      ensures State() == old(State()).(showFinishModal := true)
    {
      showFinishModal := true;
    }

    /** "Cancelar" closes the confirmation. */
    method CancelFinish()
      requires Valid() && currentScreen == Exam && showFinishModal
      modifies this
      ensures Valid()
      ensures State() == old(State()).(showFinishModal := false)
    {
      showFinishModal := false;
    }

    /** "Terminar" in the confirmation closes it and finishes the exam. */
    method ConfirmFinish(now: int)
      requires Valid() && currentScreen == Exam && showFinishModal
      modifies this
      ensures Valid()
      ensures State() == AfterFinish(old(State()).(showFinishModal := false), now)
    {
      showFinishModal := false;
      FinishExam(now);
    }

    /** `finish_exam`: stop the timer, store the results, show them. */
    method FinishExam(now: int)
      requires Valid()
      modifies this
      ensures Valid()
      ensures State() == AfterFinish(old(State()), now)
    {
      timerActive := false;
      var duration := ExamDuration(examStartTime, now);
      var correct, wrong, skipped := CalculateCurrentStats(questions, userAnswers);
      var totalQuestions := |questions|;
      var score := Score(correct, totalQuestions);
      finalResults := Some(FinalResults(score, correct, wrong, skipped, totalQuestions,
                                        examConfig.examType, examConfig.modules, duration));
      assert finalResults == Some(Summarize(questions, userAnswers, examConfig, duration));
      currentScreen := Results;
    }

    /** The timer panel at time `now`: the time left and its clock reading,
        highlighted in the last five minutes; once no time is left the exam
        is finished. */
    method Tick(now: int) returns (view: TimerView)
      requires Valid() && currentScreen == Exam
      modifies this
      ensures Valid()
      ensures view.remaining == RemainingSeconds(old(examConfig).timeLimit, now - old(examStartTime).value)
      ensures ClockSeconds(view.clock) == view.remaining && view.clock.minutes < 60 && view.clock.seconds < 60
      ensures view.warning <==> view.remaining <= 300
      ensures Expired(view.remaining) ==> State() == AfterFinish(old(State()), now)
      ensures !Expired(view.remaining) ==> State() == old(State())
    {
      var elapsed := now - examStartTime.value;
      var remaining := RemainingSeconds(examConfig.timeLimit, elapsed);
      view := TimerView(remaining, SplitClock(remaining), InWarningZone(remaining));
      if remaining <= 0 {
        FinishExam(now);
      }
    }

    /** The live statistics panel: the tallies of the answers so far and
        the percentage score. */
    function ExamStats(): (r: (Stats, nat))
      reads this
      requires Valid()
      ensures r.0 == Tally(questions, userAnswers)
      ensures r.0.correct + r.0.wrong + r.0.skipped == |questions|
      ensures r.1 <= 100
      ensures r.1 == Score(r.0.correct, |questions|)
    {
      var t := Tally(questions, userAnswers);
      TallyCountsStatuses(questions, userAnswers);
      ScoreInRange(t.correct, |questions|);
      (t, Score(t.correct, |questions|))
    }

    /** The progress line of the exam screen and the sidebar: question
        number, total, and how many slots hold an answer. */
    function CurrentProgress(): (p: Progress)
      reads this
      requires Valid() && questions != []
      ensures p.current == currentQuestionIndex + 1
      ensures 1 <= p.current <= p.total == |questions|
      ensures p.answered + Tally(questions, userAnswers).skipped == p.total
    {
      AnsweredComplementsSkipped(questions, userAnswers);
      Progress(currentQuestionIndex + 1, |questions|, Answered(userAnswers))
    }

    /** "Revisar Respuestas" opens the review screen. */
    method OpenReview()
      requires Valid() && currentScreen == Results
      modifies this
      ensures Valid()
      ensures State() == old(State()).(currentScreen := Review)
    {
      currentScreen := Review;
    }

    /** `restart_exam`: the configuration is kept, every other exam field
        returns to its default, and the dashboard shows. */
    method RestartExam()
      requires Valid()
      modifies this
      ensures Valid()
      ensures State() == FreshSnapshot(old(examConfig))
    {
      var config := examConfig;
      currentQuestionIndex := 0;
      questions := [];
      userAnswers := [];
      examStartTime := None;
      timeRemaining := 0;
      timerActive := false;
      showFinishModal := false;
      finalResults := None;
      examConfig := config;
      currentScreen := Dashboard;
    }
  }
}
