# EXANI-II simulator: exam session model

This project models the exam session of the EXANI-II practice simulator
(`ExaniSimulatorComplete` in `exani_simulator.py`) and proves facts about it.
The simulator keeps its session in a store of mutable fields. Its parts:

- a question bank: module key to an ordered list of multiple-choice questions;
- an exam configuration: type, selected modules, time limit, question count;
- question selection: a per-module quota, a random top-up to the requested
  count, a shuffle;
- an exam session: question index, one answer slot per question, start time,
  timer flag, current screen, final results;
- a countdown that finishes the exam when it reaches zero;
- a scorer: correct / wrong / skipped tallies and a percentage;
- a review filter and a per-question export record.

Modules:

- `Questions` (`questions.dfy`): question records (only `correct` and
  `area`), the bank type, and the shipped bank reduced to those two fields.
- `Selection` (`selection.dfy`): `generate_questions`, split into the quota
  loop, the top-up loop and the shuffle. Also the top-up loop exactly as
  written, with its defect.
- `Scoring` (`scoring.dfy`): `calculate_current_stats`, the score and the
  performance bands.
- `Timer` (`timer.dfy`): time left, the hh:mm:ss split, the warning zone and
  expiry.
- `Review` (`review.dfy`): the review screen's filter loop and the export rows.
- `Config` (`config.dfy`): the default configuration and the preset table.
- `Session` (`session.dfy`): the class `ExaniSimulator`. It holds the session
  fields. Its methods are the session updates made by the dashboard, the exam
  screen, the confirmation dialog, the results screen and the sidebar.
  `Valid()` is the session invariant:
  - one answer slot per question;
  - the index is on a question whenever there is one;
  - the dashboard holds no exam;
  - a running exam has questions, a start time and a running timer;
  - the results and review screens hold results.

Every method of `ExaniSimulator` states its whole new state as an update of
`State()` before the call, so "nothing else changes" is part of each contract.

The clock and the random source are parameters:

- `now`: whole seconds, passed to starting, finishing and the timer tick.
- `draw(k)`: the k-th top-up pick. It chooses a module among the selected
  modules whose bank is not empty, then a question in it.
- `swapDraw(i)`: the shuffle's swap partner for position i. The shuffle is the
  Fisher-Yates loop that `random.shuffle` runs.

Behaviour of the code that the model follows:

- The quota phase takes `min(quota, len)` questions, so the `i % len` index
  never wraps.
- `finish_exam` has no guard against a second call. A repeat recomputes the
  same counts and score with a later duration (`FinishAgainKeepsOutcome`).
- Out-of-range jumps, and answers after finishing, are not rejected with
  errors. The buttons that would cause them are never shown. The model
  expresses this as preconditions: the exam screen, and an index below the
  question count.
- The score rounds ties to even, as Python's `round` does.
- With every selected module empty, the code loops forever (see Findings).
  The model refuses the start instead.

## Model

| member | source | states |
|---|---|---|
| `Questions.ShippedBank` | exani_simulator.py:84-281 | The bank the application loads, keeping each question's correct option and area in bank order. `ShippedBankCoversModuleKeys` states its properties. |
| `Questions.ShippedBankCoversModuleKeys` | exani_simulator.py:84-281 | Every module the dashboard offers is in the bank with at least one question. Every correct index names one of the three options. |
| `Selection.QuotaPerModule` | exani_simulator.py:694 | The quota is at least 1. When total >= number of modules, it is the floor of total / modules: quota * modules <= total < (quota + 1) * modules. |
| `Selection.Truncate` | exani_simulator.py:712 | The slice `[:n]` keeps the first min(len, n) elements, in order. |
| `Selection.NonEmptyModules` | exani_simulator.py:705-707 | A module is kept exactly when it is selected and its bank is non-empty. These are the modules a top-up pick can land on. |
| `Selection.QuotaPhase` | exani_simulator.py:696-701 | What the quota loop collects: each selected module's first min(quota, len) questions, in module order, cut at the total. `TakeQuotas` is proved equal to it, and `ContributionsFromSelected` and `QuotaPhaseUncut` state its properties. |
| `Selection.TakeQuotas` | exani_simulator.py:696-701 | The quota loop returns the modules' first min(quota, len) questions, concatenated in module order and cut at the total. |
| `Selection.TopUp` | exani_simulator.py:704-708 | With a non-empty selected module, the top-up stops at exactly the total. Without one, it appends nothing. It keeps the quota-phase prefix, and everything it appends comes from a selected module. |
| `Selection.Shuffle` | exani_simulator.py:711 | The shuffle keeps the length and the multiset of questions: it is a permutation. |
| `Selection.GenerateQuestions` | exani_simulator.py:682-712 | With selected modules and a non-empty one among them, the result has exactly `question_count` entries. Otherwise it is empty. Every entry comes from a selected module's bank, and the quota-phase questions are all in it. |
| `Selection.ContributionsFromSelected` | exani_simulator.py:696-701 | Every quota-phase question belongs to a selected module. |
| `Selection.ContributionsEmpty` | exani_simulator.py:696-701 | With no non-empty selected module, the quota phase yields nothing. |
| `Selection.ContributionsLength` | exani_simulator.py:698-699 | The quota phase yields at most quota * modules questions. |
| `Selection.QuotaPhaseUncut` | exani_simulator.py:694-701 | When at least one question per module is requested, the running-total check never drops a quota-phase question. |
| `Selection.FillStepAsWritten` | exani_simulator.py:705-708 | One pass of the loop as written: a pick appends one question of a selected module. It appends nothing exactly when the picked module is missing or empty. |
| `Selection.FillAsWritten` | exani_simulator.py:704-708 | The loop as written, over a finite run of picks: it keeps the list it started with, never passes the total, and appends only questions of selected modules. |
| `Selection.FillStallsWhenBanksEmpty` | exani_simulator.py:704-708 | As written, when every selected module is missing or empty, no finite run of random picks appends anything. The loop condition stays true forever. |
| `Selection.FillStallsOnMissingModule` | exani_simulator.py:704-708 | Concrete case: module "historia" absent from the bank, ten questions requested. The list stays below ten whatever is picked. |
| `Selection.SingleQuestionModuleRepeats` | exani_simulator.py:694-712 | With only the one-question "historia" module and ten questions, the exam holds that question ten times. |
| `Scoring.Classify` | exani_simulator.py:1201-1209 | The status of one answer: unanswered when the slot is empty, correct when it holds the right option, incorrect otherwise. `StatusFiltersPartition` and `ExportDetails` state its properties. |
| `Scoring.Tally` | exani_simulator.py:1004-1015 | The three counters after the loop, slot by slot. An empty slot is skipped. A filled slot with a question is correct or wrong. A filled slot past the last question counts nowhere. `CalculateCurrentStats` and `TallyCountsStatuses` state its properties. |
| `Scoring.CalculateCurrentStats` | exani_simulator.py:999-1015 | The counter loop computes the tallies `Tally`: empty slot = skipped; matching answer = correct; other answer = wrong; answers past the last question are not counted. |
| `Scoring.TallyCountsStatuses` | exani_simulator.py:1005-1013 | With one slot per question, each tally counts exactly the slots of its status, and correct + wrong + skipped = number of questions. |
| `Scoring.TallyBounded` | exani_simulator.py:1005-1013 | For any lengths, the tallies add up to at most the number of slots, and correct + wrong is at most the number of questions. |
| `Scoring.Answered` | exani_simulator.py:773 | The number of filled slots, the "respondidas" of the progress line (also at line 1360). `AnsweredComplementsSkipped` states its property. |
| `Scoring.AnsweredComplementsSkipped` | exani_simulator.py:773 | The "respondidas" count plus the skipped tally equals the number of slots. |
| `Scoring.TallyAllCorrect` | exani_simulator.py:1008-1011 | When every slot holds the right option, all questions are correct and none are wrong or skipped. |
| `Scoring.TallyNoneCorrect` | exani_simulator.py:1008-1011 | When no slot holds the right option, the correct tally is 0. |
| `Scoring.ThreeQuestionExample` | exani_simulator.py:999-1015 | A pinned session: answers A, none, B against correct A, A, C tally 1 correct, 1 wrong, 1 skipped, and the score is 33. |
| `Scoring.Score` | exani_simulator.py:807 | The score is 0 with no questions. Otherwise it is within one half of 100 * correct / total. |
| `Scoring.ScoreInRange` | exani_simulator.py:1033 | With at most `total` correct answers, the score is at most 100. |
| `Scoring.ScoreAllCorrect` | exani_simulator.py:1033 | All answers correct scores exactly 100. |
| `Scoring.ScoreNoneCorrect` | exani_simulator.py:1033 | No correct answer scores 0. |
| `Scoring.SessionScoreExtremes` | exani_simulator.py:1031-1033 | A session with every answer right scores 100. One with none right scores 0. |
| `Scoring.PerformanceBand` | exani_simulator.py:1126-1131 | "Excelente" exactly from 70, "Necesitas estudiar" exactly below 60, the warning in between. |
| `Scoring.BandMonotone` | exani_simulator.py:1126-1131 | A higher score never gets a worse message. A score of 100 gets the best one. |
| `Timer.RemainingSeconds` | exani_simulator.py:755-757 | Time left is never negative. It is zero exactly when the elapsed time reaches the limit. Otherwise it adds up with the elapsed time to the limit. |
| `Timer.SplitClock` | exani_simulator.py:760-762 | Minutes and seconds are below 60, and h * 3600 + m * 60 + s equals the time left. |
| `Timer.InWarningZone` | exani_simulator.py:765 | The highlight condition: at most 300 seconds left. `WarningMatchesClock` states what the clock shows then. |
| `Timer.Expired` | exani_simulator.py:795 | The expiry condition: no time left. `WarningMatchesClock` and `RemainingMonotone` state its properties. |
| `Timer.WarningMatchesClock` | exani_simulator.py:760-765 | On whole seconds, the highlight (<= 300 s) shows exactly at 00:05:00 and below, and expiry shows exactly at 00:00:00. |
| `Timer.RemainingMonotone` | exani_simulator.py:755-757 | Time left never grows as time passes, and an expired exam stays expired. |
| `Review.Shows` | exani_simulator.py:1188-1196 | Whether the review loop shows a question: the area test first, then the status test. `StatusFiltersPartition` and `AreaFilterRestricts` state its properties. |
| `Review.FilterForReview` | exani_simulator.py:1183-1196 | The loop shows exactly the indices that pass both filters, in ascending order. |
| `Review.ShownCharacterized` | exani_simulator.py:1183-1196 | The shown list holds exactly the matching indices, strictly ascending. |
| `Review.StatusFiltersPartition` | exani_simulator.py:1191-1196 | "Todas" keeps every question. "Correctas", "Incorrectas" and "Sin Responder" each keep exactly one status, so they are disjoint and together cover every question. |
| `Review.AreaFilterRestricts` | exani_simulator.py:1188-1189 | A chosen area keeps a question exactly when its area matches and the status filter keeps it. |
| `Review.ShownCountsMatchTally` | exani_simulator.py:1183-1198 | Each status filter shows as many questions as the matching tally of the results. "Todas" shows all of them. |
| `Review.ShownCountsStatus` | exani_simulator.py:1183-1198 | The same counts, for the first n questions. |
| `Review.ExportDetails` | exani_simulator.py:1245-1258 | One row per question, in order: `numero` = i + 1, the question's area and correct option, the recorded answer. `es_correcta` is set exactly for a correct status, `sin_responder` exactly for an empty slot. |
| `Review.ExportAgreesWithReview` | exani_simulator.py:1255-1256 | No row is both correct and unanswered. Rows flagged correct or unanswered are exactly the questions the matching review filter shows. |
| `Config.DefaultConfig` | exani_simulator.py:60-65 | The configuration a new session starts with: "transversales", the three transversal modules, 180 minutes, 30 questions. `PresetsHaveQuestions` shows that it can start an exam. |
| `Config.PresetFor` | exani_simulator.py:641-646 | The preset table: the four exam types with their question count, time limit and modules. `PresetsWithinFormBounds` states its properties. |
| `Config.WithPreset` | exani_simulator.py:649-654 | Applying a preset keeps the exam type and replaces count, limit and modules. |
| `Config.PresetsWithinFormBounds` | exani_simulator.py:641-646 | Exactly the four exam types have presets. Each preset has 10-138 questions and 30-300 minutes, and selects only modules the dashboard offers. |
| `Config.DashboardChoicesHaveQuestions` | exani_simulator.py:587-600 | Any non-empty choice of the dashboard's modules has questions in the shipped bank. |
| `Config.ShippedBankKeepsEveryChoice` | exani_simulator.py:704-707 | With the shipped bank, no choice of offered modules loses a module when the empty ones are dropped. A top-up pick among non-empty modules is then a pick among all selected modules, as the source makes it. |
| `Config.PresetsHaveQuestions` | exani_simulator.py:641-646 | Every preset and the default configuration select a module with questions, so they can start an exam. |
| `Session.Summarize` | exani_simulator.py:1031-1046 | The stored results: the counts are the tallies `Tally` of the answers; the score is `Score` of the correct count; total = number of questions; score <= 100; correct + wrong + skipped = total; 100 when all are right; 0 when none are; the configuration's type and modules. |
| `Session.SummaryFacts` | exani_simulator.py:1031-1033 | The tally and score facts the stored results rely on. |
| `Session.ExamDuration` | exani_simulator.py:1025-1028 | Time since the start, or zero when no start time is recorded. `FinishAgainKeepsOutcome` shows that it is the only part of the results that a later finish changes. |
| `Session.StepForward` | exani_simulator.py:884-885 | One step forward unless on the last question, as after an answer and on "Saltar" (lines 1369-1370). `AnswerCurrent` and `Skip` state their effect through it. |
| `Session.FreshSnapshot` | exani_simulator.py:40-77 | The session defaults of `init_session_state` for a given configuration. `RestartExam` (lines 1300-1318) returns to them, keeping the configuration. |
| `Session.AfterFinish` | exani_simulator.py:1017-1049 | The session after `finish_exam`: timer off, the results summarised from the answers, the configuration and the elapsed time, the results screen. Every other field is kept. |
| `Session.FinishAgainKeepsOutcome` | exani_simulator.py:1017-1049 | Finishing again later changes only the recorded duration. Counts and score stay the same. |
| `Session.ExaniSimulator.constructor` | exani_simulator.py:36-77 | On a fresh session store, a new simulator has the bank and the default session: dashboard, index 0, no questions or answers, no start time, timer off, default configuration, no results. |
| `Session.ExaniSimulator.UpdateExamConfig` | exani_simulator.py:630-637 | The configuration is replaced, and nothing else changes. |
| `Session.ExaniSimulator.UpdateExamSettingsByType` | exani_simulator.py:639-654 | A known type loads its preset. An unknown type changes nothing. |
| `Session.ExaniSimulator.ChooseExamType` | exani_simulator.py:581-583 | A different type is recorded and its preset loaded. The current type changes nothing. |
| `Session.ExaniSimulator.StartExam` | exani_simulator.py:656-680 | The start succeeds exactly when modules are selected, the count is positive and a selected module has questions. If it fails, nothing changes. If it succeeds: the exam screen at index 0; `question_count` questions from selected modules, including the quota phase; one empty slot each; start time `now`; `time_limit * 60` seconds; timer on. |
| `Session.ExaniSimulator.BeginExam` | exani_simulator.py:672-677 | The initialisation after a successful selection: index 0, empty slots, start time, full time, timer on, exam screen. |
| `Session.ExaniSimulator.AnswerCurrent` | exani_simulator.py:880-885 | Only the current slot changes. The index advances unless it is on the last question. |
| `Session.ExaniSimulator.Previous` | exani_simulator.py:897-900 | One step back, nothing at index 0. The invariant keeps the index in range. |
| `Session.ExaniSimulator.Next` | exani_simulator.py:909-920 | One step forward below the last question. On the last question it finishes the exam. |
| `Session.ExaniSimulator.JumpTo` | exani_simulator.py:973-975 | The index becomes the chosen valid question. Nothing else changes. |
| `Session.ExaniSimulator.Skip` | exani_simulator.py:1368-1370 | One step forward unless on the last question. Nothing else changes. |
| `Session.ExaniSimulator.RequestFinish` | exani_simulator.py:736-739 | Opens the confirmation and changes nothing else. |
| `Session.ExaniSimulator.CancelFinish` | exani_simulator.py:989-991 | Offered only while the confirmation is open (lines 743-744). Closes it and changes nothing else. |
| `Session.ExaniSimulator.ConfirmFinish` | exani_simulator.py:994-997 | Offered only while the confirmation is open (lines 743-744). Closes it and finishes the exam. |
| `Session.ExaniSimulator.FinishExam` | exani_simulator.py:1017-1049 | Timer off, results computed from the current answers and configuration, results screen. Questions and answers are unchanged. |
| `Session.ExaniSimulator.Tick` | exani_simulator.py:746-798 | Time left and its clock reading, with the highlight at <= 300 s. At zero the exam is finished. Otherwise nothing changes. |
| `Session.ExaniSimulator.ExamStats` | exani_simulator.py:805-807 | The live panel: the tallies `Tally` of the current answers, with correct + wrong + skipped = number of questions, and the score `Score` of the correct count, at most 100. |
| `Session.ExaniSimulator.CurrentProgress` | exani_simulator.py:771-773 | The question number is the index plus one, between 1 and the total. Answered plus skipped equals the total. |
| `Session.ExaniSimulator.OpenReview` | exani_simulator.py:1138-1140 | Switches from results to review. Nothing else changes. |
| `Session.ExaniSimulator.RestartExam` | exani_simulator.py:1296-1318 | Keeps the configuration and resets every other field to its default. The dashboard shows. |

## Left out

- Rendering: CSS, HTML strings, widgets, charts, notifications and reruns. These have no state the core depends on. The notification fields are not modelled.
- Wall-clock time. `now` is an integer number of seconds. Fractional seconds and `timedelta` formatting are not modelled. The results date string is dropped.
- The distribution of `random.choice` and `random.shuffle`. The picks are parameters. A top-up pick chooses among the non-empty selected modules. For the shipped bank every offered module is non-empty, so this is the same choice as the source's (`ShippedBankKeepsEveryChoice`).
- Question text and option strings. Only `correct` and `area` are kept.
- `Session.ExaniSimulator.constructor`: models a fresh session store only. `init_session_state` sets each field only when it is missing, so a simulator built over an existing store keeps that session. The model does not cover that case.
- Exam actions and the clock: `AnswerCurrent`, `Previous`, `JumpTo`, `Skip` and `RequestFinish` take no time. The source's exam screen runs the expiry check (lines 724 and 795-798) before its answer and navigation handlers. A caller of the model must likewise call `Tick` before each exam action, or an answer can be recorded after the deadline.
- `Timer.WarningMatchesClock`: holds on whole seconds only. The source's time left is a float. Between 300 and 301 seconds it shows 00:05:00 without the highlight. Between 0 and 1 second it shows 00:00:00 while the exam goes on, since expiry tests `<= 0`.
- `Scoring.Score`: the floating-point division before `round` is not modelled. The score is rounded from the exact quotient, ties to even. Where the float product is inexact, the source's result at a .5 boundary may differ.
- JSON and CSV serialisation and the download buttons of `export_results`. Only the per-question record is modelled.
- The dashboard's module multiselect and its number inputs for time and count. These are widget reads. `UpdateExamConfig` models the configuration they write.
- The sidebar's restart confirmation checkbox. `RestartExam` models the restart itself.
- The dispatcher that shows a screen for `current_screen` is not part of this model. Exam-screen actions require the exam screen, results actions the results screen.

## Findings

| source | as written | input that shows it | evidently intended | confidence | as-written member | corrected member |
|---|---|---|---|---|---|---|
| exani_simulator.py:704-708 | The top-up loop retries forever when every selected module is missing from the bank or empty: nothing is appended, so `len(questions) < total_questions` never becomes false. | A bank without "historia", modules ["historia"], question_count 10 | Top up only from non-empty modules. Return no questions when there are none, so the "no questions" error at line 667 is shown. | not executed; latent, since every module the dashboard offers has questions in the shipped bank | `Selection.FillAsWritten`, `Selection.FillStallsWhenBanksEmpty` | `Selection.GenerateQuestions` |
