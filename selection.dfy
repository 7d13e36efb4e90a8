/** Question selection for one exam session (`generate_questions`): a fixed
    quota from the front of every selected module, a random top-up to the
    requested count, a shuffle and a final slice. The random source is a
    parameter: `draw(k)` is the k-th top-up pick and `swapDraw(i)` the
    shuffle's pick for position i. */
module Selection {
  import opened Questions

  function Min(a: nat, b: nat): nat { if a <= b then a else b }

  /** `max(1, total // len(modules))`: floor division, but never below one. */
  function QuotaPerModule(total: nat, moduleCount: nat): (q: nat)
    requires moduleCount > 0
    ensures q >= 1
    ensures total >= moduleCount ==> q * moduleCount <= total < (q + 1) * moduleCount
    ensures total < moduleCount ==> q == 1
  {
    var d := total / moduleCount;
    if d < 1 then 1 else d
  }

  /** Python's `s[:n]`. */
  function Truncate<T>(s: seq<T>, n: nat): (r: seq<T>)
    ensures |r| == Min(|s|, n)
    ensures r == s[..|r|]
  {
    if |s| <= n then s else s[..n]
  }

  /** What one module adds in the quota phase before the running total is
      checked: its first `min(quota, len)` questions, in bank order. */
  function Contribution(bank: Bank, m: ModuleKey, quota: nat): seq<Question>
  {
    var mq := Lookup(bank, m);
    mq[..Min(quota, |mq|)]
  }

  /** The contributions of `mods`, in module order. */
  function Contributions(bank: Bank, mods: seq<ModuleKey>, quota: nat): seq<Question>
    decreases |mods|
  {
    if mods == [] then []
    else Contributions(bank, mods[..|mods| - 1], quota) + Contribution(bank, mods[|mods| - 1], quota)
  }

  /** The list after the quota phase: the contributions, cut off at the
      requested total. */
  function QuotaPhase(bank: Bank, mods: seq<ModuleKey>, total: nat): seq<Question>
    requires mods != []
  {
    Truncate(Contributions(bank, mods, QuotaPerModule(total, |mods|)), total)
  }

  /** `q` is a question of one of the selected modules. */
  predicate FromSelected(bank: Bank, mods: seq<ModuleKey>, q: Question)
  {
    exists m :: m in mods && q in Lookup(bank, m)
  }

  /** Some selected module has at least one question in the bank. */
  predicate AnyNonEmpty(bank: Bank, mods: seq<ModuleKey>)
  {
    exists m :: m in mods && Lookup(bank, m) != []
  }

  /** The selected modules whose bank is not empty, in selection order. */
  function NonEmptyModules(bank: Bank, mods: seq<ModuleKey>): (r: seq<ModuleKey>)
    ensures forall m :: m in r <==> m in mods && Lookup(bank, m) != []
  {
    if mods == [] then []
    else
      var rest := NonEmptyModules(bank, mods[1..]);
      assert forall m :: m in mods <==> m == mods[0] || m in mods[1..];
      if Lookup(bank, mods[0]) != [] then [mods[0]] + rest else rest
  }

  lemma TruncateSnoc<T>(s: seq<T>, x: T, n: nat)
    ensures Truncate(s + [x], n) == if |s| < n then Truncate(s, n) + [x] else Truncate(s, n)
  {
    if |s| >= n {
      assert (s + [x])[..n] == s[..n];
    }
  }

  /** Everything the quota phase yields comes from a selected module. */
  lemma {:induction false} ContributionsFromSelected(bank: Bank, mods: seq<ModuleKey>, quota: nat)
    ensures forall i :: 0 <= i < |Contributions(bank, mods, quota)| ==>
              FromSelected(bank, mods, Contributions(bank, mods, quota)[i])
  {
    if mods != [] {
      var init, last := mods[..|mods| - 1], mods[|mods| - 1];
      ContributionsFromSelected(bank, init, quota);
      var c := Contributions(bank, mods, quota);
      var mq := Lookup(bank, last);
      forall i | 0 <= i < |c| ensures FromSelected(bank, mods, c[i]) {
        if i < |Contributions(bank, init, quota)| {
          var q := c[i];
          var m :| m in init && q in Lookup(bank, m);
          assert m in mods;
        } else {
          var j := i - |Contributions(bank, init, quota)|;
          assert c[i] == mq[j];
          assert last in mods;
        }
      }
    }
  }

  /** With no non-empty selected module, the quota phase yields nothing. */
  lemma {:induction false} ContributionsEmpty(bank: Bank, mods: seq<ModuleKey>, quota: nat)
    requires !AnyNonEmpty(bank, mods)
    ensures Contributions(bank, mods, quota) == []
  {
    if mods != [] {
      var init := mods[..|mods| - 1];
      assert !AnyNonEmpty(bank, init) by {
        forall m | m in init ensures Lookup(bank, m) == [] {
          assert m in mods;
        }
      }
      ContributionsEmpty(bank, init, quota);
      assert mods[|mods| - 1] in mods;
    }
  }

  /** No module contributes more than the quota. */
  lemma {:induction false} ContributionsLength(bank: Bank, mods: seq<ModuleKey>, quota: nat)
    ensures |Contributions(bank, mods, quota)| <= quota * |mods|
  {
    if mods != [] {
      ContributionsLength(bank, mods[..|mods| - 1], quota);
      assert quota * |mods| == quota * (|mods| - 1) + quota;
    }
  }

  /** When at least one question per module is requested, the quotas add up
      to no more than the total, so the running-total check of the quota
      phase never drops a question. */
  lemma QuotaPhaseUncut(bank: Bank, mods: seq<ModuleKey>, total: nat)
    requires mods != [] && total >= |mods|
    ensures QuotaPhase(bank, mods, total) == Contributions(bank, mods, QuotaPerModule(total, |mods|))
  {
    var quota := QuotaPerModule(total, |mods|);
    ContributionsLength(bank, mods, quota);
  }

  /** `random.shuffle`: Fisher-Yates from the last position down, the swap
      partner of position i being `swapDraw(i) % (i + 1)`. */
  method Shuffle<T>(s: seq<T>, swapDraw: nat -> nat) returns (r: seq<T>)
    ensures |r| == |s| && multiset(r) == multiset(s)
  {
    r := s;
    var i := |r|;
    while i > 1
      invariant 0 <= i <= |r| == |s|
      invariant multiset(r) == multiset(s)
    {
      i := i - 1;
      var j := swapDraw(i) % (i + 1);
      var x, y := r[i], r[j];
      r := r[i := y][j := x];
    }
  }

  /** Below the module's length, the `i % len` of the quota loop is `i`:
      the index never wraps. */
  lemma ModuloBelow(i: nat, n: nat)
    requires i < n
    ensures i % n == i
  {
  }

  /** One step of the quota loop: appending the next question exactly when
      fewer than `total` are held keeps the list equal to the cut-off
      concatenation. */
  lemma QuotaStep(before: seq<Question>, mq: seq<Question>, i: nat, total: nat)
    requires i < |mq|
    ensures var held := Truncate(before + mq[..i], total);
            Truncate(before + mq[..i + 1], total) == if |held| < total then held + [mq[i]] else held
  {
    assert before + mq[..i + 1] == (before + mq[..i]) + [mq[i]];
    TruncateSnoc(before + mq[..i], mq[i], total);
  }

  /** The quota loop of `generate_questions`: module by module, the first
      `min(quota, len)` questions are appended while fewer than `total` are
      held (`i % len` there is always `i`). */
  method TakeQuotas(bank: Bank, modules: seq<ModuleKey>, total: nat) returns (qs: seq<Question>)
    requires modules != []
    ensures qs == QuotaPhase(bank, modules, total)
  {
    var quota := QuotaPerModule(total, |modules|);
    qs := [];
    var k := 0;
    while k < |modules|
      invariant 0 <= k <= |modules|
      invariant qs == Truncate(Contributions(bank, modules[..k], quota), total)
    {
      var moduleQuestions := Lookup(bank, modules[k]);
      var n := Min(quota, |moduleQuestions|);
      ghost var before := Contributions(bank, modules[..k], quota);
      var i := 0;
      assert before + moduleQuestions[..0] == before;
      while i < n
        invariant 0 <= i <= n
        invariant qs == Truncate(before + moduleQuestions[..i], total)
      {
        QuotaStep(before, moduleQuestions, i, total);
        ModuloBelow(i, |moduleQuestions|);
        if |qs| < total {
          qs := qs + [moduleQuestions[i % |moduleQuestions|]];
        }
        i := i + 1;
      }
      assert moduleQuestions[..n] == Contribution(bank, modules[k], quota);
      assert modules[..k + 1][..k] == modules[..k] && modules[..k + 1][k] == modules[k];
      assert Contributions(bank, modules[..k + 1], quota) == before + moduleQuestions[..n];
      k := k + 1;
    }
    assert modules[..k] == modules;
  }

  /** The top-up loop of `generate_questions`, drawing only among the
      selected modules whose bank is not empty: it stops at exactly `total`
      when there is such a module and appends nothing otherwise. */
  method TopUp(bank: Bank, modules: seq<ModuleKey>, start: seq<Question>, total: nat,
               draw: nat -> (nat, nat))
    returns (qs: seq<Question>)
    requires |start| <= total
    ensures AnyNonEmpty(bank, modules) ==> |qs| == total
    ensures !AnyNonEmpty(bank, modules) ==> qs == start
    ensures |start| <= |qs| && qs[..|start|] == start
    ensures forall i :: |start| <= i < |qs| ==> FromSelected(bank, modules, qs[i])
  {
    var available := NonEmptyModules(bank, modules);
    assert AnyNonEmpty(bank, modules) ==> available != [] by {
      if AnyNonEmpty(bank, modules) {
        var m :| m in modules && Lookup(bank, m) != [];
        assert m in available;
      }
    }
    assert available != [] ==> AnyNonEmpty(bank, modules) by {
      if available != [] {
        assert available[0] in available;
      }
    }
    qs := start;
    var drawn := 0;
    while |qs| < total && available != []
      invariant |start| <= |qs| <= total
      invariant qs[..|start|] == start
      invariant forall i :: |start| <= i < |qs| ==> FromSelected(bank, modules, qs[i])
      invariant available == [] ==> qs == start
      decreases total - |qs|
    {
      var (dm, dq) := draw(drawn);
      var m := available[dm % |available|];
      var mq := Lookup(bank, m);
      qs := qs + [mq[dq % |mq|]];
      drawn := drawn + 1;
    }
  }

  /** `generate_questions`, with the top-up loop drawing only among the
      selected modules whose bank is not empty (see `FillAsWritten` for the
      loop as the application writes it). With at least one such module the
      result holds exactly `total` questions, all taken from selected
      modules, and contains the quota phase's questions; otherwise it is
      empty, so that `start_exam` reports that no questions are available. */
  method GenerateQuestions(bank: Bank, modules: seq<ModuleKey>, total: nat,
                           draw: nat -> (nat, nat), swapDraw: nat -> nat)
    returns (questions: seq<Question>)
    ensures modules == [] || !AnyNonEmpty(bank, modules) ==> questions == []
    ensures modules != [] && AnyNonEmpty(bank, modules) ==> |questions| == total
    ensures forall i :: 0 <= i < |questions| ==> FromSelected(bank, modules, questions[i])
    ensures modules != [] ==> multiset(QuotaPhase(bank, modules, total)) <= multiset(questions)
  {
    if modules == [] {
      return [];
    }
    var quotaPhase := TakeQuotas(bank, modules, total);
    ContributionsFromSelected(bank, modules, QuotaPerModule(total, |modules|));
    if !AnyNonEmpty(bank, modules) {
      ContributionsEmpty(bank, modules, QuotaPerModule(total, |modules|));
    }
    var filled := TopUp(bank, modules, quotaPhase, total, draw);
    assert filled == quotaPhase + filled[|quotaPhase|..];
    forall i | 0 <= i < |filled| ensures FromSelected(bank, modules, filled[i]) {
      if i < |quotaPhase| {
        assert filled[i] == quotaPhase[i];
      }
    }
    var shuffled := Shuffle(filled, swapDraw);
    forall i | 0 <= i < |shuffled| ensures FromSelected(bank, modules, shuffled[i]) {
      assert shuffled[i] in multiset(filled);
    }
    questions := Truncate(shuffled, total);
    assert questions == shuffled;
  }

  /** One pass of the top-up loop as the application writes it: a module is
      picked among all selected ones, and nothing is appended when its bank
      is missing or empty. */
  function FillStepAsWritten(bank: Bank, modules: seq<ModuleKey>, qs: seq<Question>,
                             pick: (nat, nat)): (r: seq<Question>)
    requires modules != []
    ensures r == qs || (|r| == |qs| + 1 && r[..|qs|] == qs && FromSelected(bank, modules, r[|qs|]))
    ensures r == qs <==> Lookup(bank, modules[pick.0 % |modules|]) == []
  {
    var mq := Lookup(bank, modules[pick.0 % |modules|]);
    if mq != [] then qs + [mq[pick.1 % |mq|]] else qs
  }

  /** The top-up loop as written, run for the finite sequence of random
      picks `picks` or until the total is reached. */
  function FillAsWritten(bank: Bank, modules: seq<ModuleKey>, qs: seq<Question>, total: nat,
                         picks: seq<(nat, nat)>): (r: seq<Question>)
    requires modules != []
    ensures |qs| <= |r| && r[..|qs|] == qs
    ensures |qs| <= total ==> |r| <= total
    ensures forall k :: |qs| <= k < |r| ==> FromSelected(bank, modules, r[k])
    decreases |picks|
  {
    if |qs| >= total || picks == [] then qs
    else FillAsWritten(bank, modules, FillStepAsWritten(bank, modules, qs, picks[0]), total, picks[1..])
  }

  /** The defect of the loop as written: when every selected module is
      missing from the bank or empty, no sequence of picks, however long,
      appends anything, so the loop condition `len(questions) < total`
      stays true forever and `start_exam` never reaches its "no questions"
      check. */
  lemma {:induction false} FillStallsWhenBanksEmpty(bank: Bank, modules: seq<ModuleKey>,
                                                    qs: seq<Question>, total: nat,
                                                    picks: seq<(nat, nat)>)
    requires modules != [] && !AnyNonEmpty(bank, modules)
    ensures FillAsWritten(bank, modules, qs, total, picks) == qs
  {
    if |qs| < total && picks != [] {
      var m := modules[picks[0].0 % |modules|];
      assert m in modules;
      assert FillStepAsWritten(bank, modules, qs, picks[0]) == qs;
      FillStallsWhenBanksEmpty(bank, modules, qs, total, picks[1..]);
    }
  }

  /** A concrete instance: a module the bank does not hold, ten questions
      requested. */
  lemma FillStallsOnMissingModule(picks: seq<(nat, nat)>)
    ensures |FillAsWritten(map[], ["historia"], [], 10, picks)| < 10
  {
    FillStallsWhenBanksEmpty(map[], ["historia"], [], 10, picks);
  }

  /** With only the one-question "historia" module of the shipped bank
      selected and ten questions requested, the exam repeats that question
      ten times: repeats are how the top-up reaches the count. */
  method SingleQuestionModuleRepeats(draw: nat -> (nat, nat), swapDraw: nat -> nat)
    returns (questions: seq<Question>)
    ensures |questions| == 10
    ensures forall i :: 0 <= i < |questions| ==> questions[i] == Question(0, "Historia")
  {
    var bank := ShippedBank();
    assert "historia" in ["historia"] && Lookup(bank, "historia") != [];
    questions := GenerateQuestions(bank, ["historia"], 10, draw, swapDraw);
    forall i | 0 <= i < |questions| ensures questions[i] == Question(0, "Historia") {
      var m :| m in ["historia"] && questions[i] in Lookup(bank, m);
    }
  }
}
