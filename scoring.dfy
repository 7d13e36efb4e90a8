/** Scoring of a session: the correct / wrong / skipped tallies of
    `calculate_current_stats`, the percentage score shown during the exam
    and stored on finishing, and the pass / warn / fail bands of the
    results screen. */
module Scoring {
  import opened Questions

  /** How one answered slot stands against its question. */
  datatype Status = Correct | Incorrect | Unanswered

  function Classify(q: Question, a: Answer): Status
  {
    match a
    case None => Unanswered
    case Some(choice) => if choice == q.correct then Correct else Incorrect
  }

  datatype Stats = Stats(correct: nat, wrong: nat, skipped: nat)

  /** The tallies over the answers in order: an empty slot is skipped; a
      filled slot that has a question is correct or wrong; a filled slot
      past the last question counts nowhere. */
  function Tally(qs: seq<Question>, answers: seq<Answer>): Stats
    decreases |answers|
  {
    if answers == [] then Stats(0, 0, 0)
    else
      var t := Tally(qs, answers[..|answers| - 1]);
      var i := |answers| - 1;
      if answers[i].None? then t.(skipped := t.skipped + 1)
      else if i < |qs| then
        if answers[i].value == qs[i].correct then t.(correct := t.correct + 1)
        else t.(wrong := t.wrong + 1)
      else t
  }

  /** The number of positions below `n` whose answer has status `s`. */
  function CountStatus(qs: seq<Question>, answers: seq<Answer>, n: nat, s: Status): (c: nat)
    requires n <= |qs| && n <= |answers|
    ensures c <= n
  {
    if n == 0 then 0
    else CountStatus(qs, answers, n - 1, s) + (if Classify(qs[n - 1], answers[n - 1]) == s then 1 else 0)
  }

  /** `calculate_current_stats`: one pass over the answers with three
      counters. */
  method CalculateCurrentStats(qs: seq<Question>, answers: seq<Answer>)
    returns (correct: nat, wrong: nat, skipped: nat)
    ensures Stats(correct, wrong, skipped) == Tally(qs, answers)
  {
    correct, wrong, skipped := 0, 0, 0;
    var i := 0;
    while i < |answers|
      invariant 0 <= i <= |answers|
      invariant Stats(correct, wrong, skipped) == Tally(qs, answers[..i])
    {
      assert answers[..i + 1][..i] == answers[..i];
      if answers[i].None? {
        skipped := skipped + 1;
      } else if i < |qs| {
        if answers[i].value == qs[i].correct {
          correct := correct + 1;
        } else {
          wrong := wrong + 1;
        }
      }
      i := i + 1;
    }
    assert answers[..i] == answers;
  }

  /** When there is one answer slot per question, each tally counts exactly
      the slots of its status, so the three tallies add up to the number of
      questions. */
  lemma {:induction false} TallyCountsStatuses(qs: seq<Question>, answers: seq<Answer>)
    requires |answers| == |qs|
    ensures Tally(qs, answers).correct == CountStatus(qs, answers, |qs|, Correct)
    ensures Tally(qs, answers).wrong == CountStatus(qs, answers, |qs|, Incorrect)
    ensures Tally(qs, answers).skipped == CountStatus(qs, answers, |qs|, Unanswered)
    ensures Tally(qs, answers).correct + Tally(qs, answers).wrong + Tally(qs, answers).skipped == |qs|
  {
    if answers != [] {
      var n := |answers| - 1;
      TallyPrefix(qs, answers, n);
    }
  }

  /** `TallyCountsStatuses` for the first `n` slots. */
  lemma {:induction false} TallyPrefix(qs: seq<Question>, answers: seq<Answer>, n: nat)
    requires n <= |answers| == |qs|
    ensures Tally(qs, answers[..n]).correct == CountStatus(qs, answers, n, Correct)
    ensures Tally(qs, answers[..n]).wrong == CountStatus(qs, answers, n, Incorrect)
    ensures Tally(qs, answers[..n]).skipped == CountStatus(qs, answers, n, Unanswered)
    ensures Tally(qs, answers[..n]).correct + Tally(qs, answers[..n]).wrong
            + Tally(qs, answers[..n]).skipped == n
  {
    if n > 0 {
      TallyPrefix(qs, answers, n - 1);
      assert answers[..n][..n - 1] == answers[..n - 1];
    }
  }

  /** Without the length match the tallies still never exceed the slots,
      and only slots that have a question can be correct. */
  lemma {:induction false} TallyBounded(qs: seq<Question>, answers: seq<Answer>)
    ensures Tally(qs, answers).correct + Tally(qs, answers).wrong + Tally(qs, answers).skipped <= |answers|
    ensures Tally(qs, answers).correct + Tally(qs, answers).wrong <= |qs|
  {
    if answers != [] {
      TallyBounded(qs, answers[..|answers| - 1]);
    }
  }

  /** The number of filled slots (the "respondidas" of the progress line). */
  function Answered(answers: seq<Answer>): nat
    decreases |answers|
  {
    if answers == [] then 0
    else Answered(answers[..|answers| - 1]) + (if answers[|answers| - 1].Some? then 1 else 0)
  }

  /** Filled and skipped slots together are all the slots. */
  lemma {:induction false} AnsweredComplementsSkipped(qs: seq<Question>, answers: seq<Answer>)
    ensures Answered(answers) + Tally(qs, answers).skipped == |answers|
  {
    TallyBounded(qs, answers);
    if answers != [] {
      AnsweredComplementsSkipped(qs, answers[..|answers| - 1]);
    }
  }

  /** Every slot holds its question's correct option. */
  predicate AllCorrect(qs: seq<Question>, answers: seq<Answer>)
  {
    |answers| == |qs| && forall i :: 0 <= i < |qs| ==> answers[i] == Some(qs[i].correct)
  }

  /** No slot holds its question's correct option. */
  predicate NoneCorrect(qs: seq<Question>, answers: seq<Answer>)
  {
    |answers| == |qs| && forall i :: 0 <= i < |qs| ==> answers[i] != Some(qs[i].correct)
  }

  lemma {:induction false} TallyAllCorrect(qs: seq<Question>, answers: seq<Answer>)
    requires AllCorrect(qs, answers)
    ensures Tally(qs, answers) == Stats(|qs|, 0, 0)
  {
    if answers != [] {
      var n := |answers| - 1;
      TallyAllCorrect(qs[..n], answers[..n]);
      TallySameOnPrefix(qs, answers[..n]);
    }
  }

  lemma {:induction false} TallyNoneCorrect(qs: seq<Question>, answers: seq<Answer>)
    requires NoneCorrect(qs, answers)
    ensures Tally(qs, answers).correct == 0
  {
    if answers != [] {
      var n := |answers| - 1;
      TallyNoneCorrect(qs[..n], answers[..n]);
      TallySameOnPrefix(qs, answers[..n]);
    }
  }

  /** The tallies of `answers` only read the questions it has slots for. */
  lemma {:induction false} TallySameOnPrefix(qs: seq<Question>, answers: seq<Answer>)
    requires |answers| <= |qs|
    ensures Tally(qs[..|answers|], answers) == Tally(qs, answers)
    decreases |answers|
  {
    if answers != [] {
      var n := |answers| - 1;
      TallySameOnPrefix(qs, answers[..n]);
      TallySameOnPrefix(qs[..|answers|], answers[..n]);
      assert qs[..|answers|][..n] == qs[..n];
    }
  }

  /** `round(correct / total * 100)` if there are questions, else 0, on the
      exact quotient, with Python's ties-to-even rounding. */
  function Score(correct: nat, total: nat): (r: nat)
    ensures total == 0 ==> r == 0
    ensures total > 0 ==> -(total as int) <= 2 * (r * total - 100 * correct) <= total
  {
    if total == 0 then 0
    else
      var whole := (100 * correct) / total;
      var rest := (100 * correct) % total;
      if 2 * rest < total then whole
      else if 2 * rest > total then whole + 1
      else if whole % 2 == 0 then whole
      else whole + 1
  }

  /** The score of at most `total` correct answers is a percentage. */
  lemma ScoreInRange(correct: nat, total: nat)
    requires correct <= total
    ensures Score(correct, total) <= 100
  {
    var r := Score(correct, total);
    if total > 0 && r > 100 {
      MulMonotone(101, r, total);
      assert false;
    }
  }

  lemma MulMonotone(a: nat, b: nat, c: nat)
    requires a <= b
    ensures a * c <= b * c
  {
  }

  lemma ScoreAllCorrect(total: nat)
    requires total > 0
    ensures Score(total, total) == 100
  {
    var d := Score(total, total) - 100;
    assert d * total == Score(total, total) * total - 100 * total;
    if d > 0 {
      assert false;
    } else if d < 0 {
      assert false;
    }
  }

  lemma ScoreNoneCorrect(total: nat)
    ensures Score(0, total) == 0
  {
  }

  /** A session where every answer is right scores 100, one where none is
      right scores 0. */
  lemma SessionScoreExtremes(qs: seq<Question>, answers: seq<Answer>)
    ensures AllCorrect(qs, answers) && qs != [] ==> Score(Tally(qs, answers).correct, |qs|) == 100
    ensures NoneCorrect(qs, answers) ==> Score(Tally(qs, answers).correct, |qs|) == 0
  {
    if AllCorrect(qs, answers) && qs != [] {
      TallyAllCorrect(qs, answers);
      ScoreAllCorrect(|qs|);
    }
    if NoneCorrect(qs, answers) {
      TallyNoneCorrect(qs, answers);
      ScoreNoneCorrect(|qs|);
    }
  }

  /** A pinned session of three questions: one right, one left empty, one
      wrong scores 1 / 1 / 1 and 33 percent. */
  lemma ThreeQuestionExample()
    ensures var qs := [Question(0, "A"), Question(0, "A"), Question(2, "A")];
            var answers: seq<Answer> := [Some(0), None, Some(1)];
            Tally(qs, answers) == Stats(1, 1, 1) && Score(Tally(qs, answers).correct, |qs|) == 33
  {
    var qs := [Question(0, "A"), Question(0, "A"), Question(2, "A")];
    var answers: seq<Answer> := [Some(0), None, Some(1)];
    assert answers[..2] == [Some(0), None];
    assert answers[..2][..1] == [Some(0)];
    assert answers[..2][..1][..0] == [];
    assert Tally(qs, [Some(0)]) == Stats(1, 0, 0);
    assert Tally(qs, [Some(0), None]) == Stats(1, 0, 1);
    assert Tally(qs, answers) == Stats(1, 1, 1);
    assert (100 * 1) / 3 == 33 && (100 * 1) % 3 == 1;
  }

  /** The performance message of the results screen. */
  datatype Band = Excellent | Fair | NeedsStudy

  function PerformanceBand(score: nat): (b: Band)
    ensures b == Excellent <==> score >= 70
    ensures b == NeedsStudy <==> score < 60
  {
    if score >= 70 then Excellent
    else if score >= 60 then Fair
    else NeedsStudy
  }

  function BandRank(b: Band): nat
  {
    match b
    case NeedsStudy => 0
    case Fair => 1
    case Excellent => 2
  }

  /** A higher score never earns a worse message, and a perfect session
      earns the best one. */
  lemma BandMonotone(s1: nat, s2: nat)
    requires s1 <= s2
    ensures BandRank(PerformanceBand(s1)) <= BandRank(PerformanceBand(s2))
    ensures PerformanceBand(100) == Excellent
  {
  }
}
