/** The review screen's filter over a finished session and the per-question
    rows of the detailed export. */
module Review {
  import opened Questions
  import opened Scoring

  /** The status selector: "Todas", "Correctas", "Incorrectas",
      "Sin Responder". */
  datatype StatusFilter = Todas | Correctas | Incorrectas | SinResponder

  /** The area selector: "Todas", or one area label. */
  datatype AreaFilter = AnyArea | OnlyArea(area: string)

  /** Whether the review loop shows a question: it is skipped when its area
      differs from a chosen area, then when its answer does not fit the
      chosen status. */
  predicate Shows(q: Question, a: Answer, sf: StatusFilter, af: AreaFilter)
  {
    if af.OnlyArea? && q.area != af.area then false
    else if sf == Correctas && a != Some(q.correct) then false
    else if sf == Incorrectas && (a == Some(q.correct) || a.None?) then false
    else if sf == SinResponder && a.Some? then false
    else true
  }

  /** The indices below `n` the review loop shows, in question order. */
  function Shown(qs: seq<Question>, answers: seq<Answer>, sf: StatusFilter, af: AreaFilter, n: nat)
    : seq<nat>
    requires n <= |qs| && n <= |answers|
  {
    if n == 0 then []
    else
      var before := Shown(qs, answers, sf, af, n - 1);
      if Shows(qs[n - 1], answers[n - 1], sf, af) then before + [n - 1] else before
  }

  /** The review loop of `render_review_screen`, collecting the indices it
      displays; its length is the `question_count` that decides whether the
      "no question matches" note appears. */
  method FilterForReview(qs: seq<Question>, answers: seq<Answer>, sf: StatusFilter, af: AreaFilter)
    returns (shown: seq<nat>)
    requires |answers| == |qs|
    ensures forall k :: 0 <= k < |shown| ==> shown[k] < |qs| && Shows(qs[shown[k]], answers[shown[k]], sf, af)
    ensures forall i :: 0 <= i < |qs| && Shows(qs[i], answers[i], sf, af) ==> i in shown
    ensures forall k, l :: 0 <= k < l < |shown| ==> shown[k] < shown[l]
    ensures shown == Shown(qs, answers, sf, af, |qs|)
  {
    shown := [];
    var i := 0;
    while i < |qs|
      invariant 0 <= i <= |qs|
      invariant shown == Shown(qs, answers, sf, af, i)
    {
      var q, a := qs[i], answers[i];
      if af.OnlyArea? && q.area != af.area {
        i := i + 1;
        continue;
      }
      if sf == Correctas && a != Some(q.correct) {
        i := i + 1;
        continue;
      } else if sf == Incorrectas && (a == Some(q.correct) || a.None?) {
        i := i + 1;
        continue;
      } else if sf == SinResponder && a.Some? {
        i := i + 1;
        continue;
      }
      shown := shown + [i];
      i := i + 1;
    }
    ShownCharacterized(qs, answers, sf, af, |qs|);
  }

  /** `Shown` holds exactly the matching indices below `n`, ascending. */
  lemma {:induction false} ShownCharacterized(qs: seq<Question>, answers: seq<Answer>,
                                              sf: StatusFilter, af: AreaFilter, n: nat)
    requires n <= |qs| && n <= |answers|
    ensures forall k :: 0 <= k < |Shown(qs, answers, sf, af, n)| ==>
              Shown(qs, answers, sf, af, n)[k] < n &&
              Shows(qs[Shown(qs, answers, sf, af, n)[k]], answers[Shown(qs, answers, sf, af, n)[k]], sf, af)
    ensures forall i :: 0 <= i < n && Shows(qs[i], answers[i], sf, af) ==> i in Shown(qs, answers, sf, af, n)
    ensures forall k, l :: 0 <= k < l < |Shown(qs, answers, sf, af, n)| ==>
              Shown(qs, answers, sf, af, n)[k] < Shown(qs, answers, sf, af, n)[l]
  {
    if n > 0 {
      ShownCharacterized(qs, answers, sf, af, n - 1);
    }
  }

  /** With every area, "Correctas", "Incorrectas" and "Sin Responder" each
      keep exactly the questions of one status, so between them they keep
      every question exactly once; "Todas" keeps every question. */
  lemma StatusFiltersPartition(q: Question, a: Answer)
    ensures Shows(q, a, Todas, AnyArea)
    ensures Shows(q, a, Correctas, AnyArea) <==> Classify(q, a) == Correct
    ensures Shows(q, a, Incorrectas, AnyArea) <==> Classify(q, a) == Incorrect
    ensures Shows(q, a, SinResponder, AnyArea) <==> Classify(q, a) == Unanswered
  {
  }

  /** A chosen area keeps only questions of that area, and otherwise keeps
      what the status filter alone keeps. */
  lemma AreaFilterRestricts(q: Question, a: Answer, sf: StatusFilter, area: string)
    ensures Shows(q, a, sf, OnlyArea(area)) <==> q.area == area && Shows(q, a, sf, AnyArea)
  {
  }

  /** The number of questions each status filter shows equals the matching
      tally of the results, and "Todas" shows them all. */
  lemma {:induction false} ShownCountsMatchTally(qs: seq<Question>, answers: seq<Answer>)
    requires |answers| == |qs|
    ensures |Shown(qs, answers, Correctas, AnyArea, |qs|)| == Tally(qs, answers).correct
    ensures |Shown(qs, answers, Incorrectas, AnyArea, |qs|)| == Tally(qs, answers).wrong
    ensures |Shown(qs, answers, SinResponder, AnyArea, |qs|)| == Tally(qs, answers).skipped
    ensures |Shown(qs, answers, Todas, AnyArea, |qs|)| == |qs|
  {
    ShownCountsStatus(qs, answers, |qs|);
    TallyCountsStatuses(qs, answers);
  }

  lemma {:induction false} ShownCountsStatus(qs: seq<Question>, answers: seq<Answer>, n: nat)
    requires n <= |qs| && n <= |answers|
    ensures |Shown(qs, answers, Correctas, AnyArea, n)| == CountStatus(qs, answers, n, Correct)
    ensures |Shown(qs, answers, Incorrectas, AnyArea, n)| == CountStatus(qs, answers, n, Incorrect)
    ensures |Shown(qs, answers, SinResponder, AnyArea, n)| == CountStatus(qs, answers, n, Unanswered)
    ensures |Shown(qs, answers, Todas, AnyArea, n)| == n
  {
    if n > 0 {
      ShownCountsStatus(qs, answers, n - 1);
      StatusFiltersPartition(qs[n - 1], answers[n - 1]);
    }
  }

  /** One entry of `preguntas_detalle`; the question text and option
      strings are not modelled. */
  datatype Detail = Detail(
    numero: nat,
    area: string,
    respuestaCorrecta: nat,
    respuestaUsuario: Answer,
    esCorrecta: bool,
    sinResponder: bool)

  function DetailOf(i: nat, q: Question, a: Answer): Detail
  {
    Detail(i + 1, q.area, q.correct, a,
           if a.Some? then a.value == q.correct else false,
           a.None?)
  }

  /** The per-question rows of `export_results`, one per question in
      session order. */
  function ExportDetails(qs: seq<Question>, answers: seq<Answer>): (rows: seq<Detail>)
    requires |answers| == |qs|
    ensures |rows| == |qs|
    ensures forall i :: 0 <= i < |rows| ==>
              rows[i].numero == i + 1 && rows[i].area == qs[i].area &&
              rows[i].respuestaCorrecta == qs[i].correct && rows[i].respuestaUsuario == answers[i]
    ensures forall i :: 0 <= i < |rows| ==>
              (rows[i].esCorrecta <==> Classify(qs[i], answers[i]) == Correct) &&
              (rows[i].sinResponder <==> Classify(qs[i], answers[i]) == Unanswered)
  {
    seq(|qs|, i requires 0 <= i < |qs| => DetailOf(i, qs[i], answers[i]))
  }

  /** A row is never both correct and unanswered, and the rows flagged
      correct are exactly the questions the "Correctas" review filter
      shows. */
  lemma ExportAgreesWithReview(qs: seq<Question>, answers: seq<Answer>, i: nat)
    requires |answers| == |qs| && i < |qs|
    ensures !(ExportDetails(qs, answers)[i].esCorrecta && ExportDetails(qs, answers)[i].sinResponder)
    ensures ExportDetails(qs, answers)[i].esCorrecta <==> i in Shown(qs, answers, Correctas, AnyArea, |qs|)
    ensures ExportDetails(qs, answers)[i].sinResponder <==> i in Shown(qs, answers, SinResponder, AnyArea, |qs|)
  {
    ShownCharacterized(qs, answers, Correctas, AnyArea, |qs|);
    ShownCharacterized(qs, answers, SinResponder, AnyArea, |qs|);
    StatusFiltersPartition(qs[i], answers[i]);
  }
}
