/** The published status of the materialization service over its runs. */
module MaterializationStatus {
  import opened Basics
  import opened Catchup
  import opened MaterializationSpec
  import opened MaterializationSafety
  import opened MaterializationRefresh
  import opened MaterializationWarnings
  import opened MaterializationRuns

  // ----- the published status -----

  datatype Health = HealthOk | HealthRetrying | HealthHeld

  function HealthOf(s: State): Health
  {
    if s.consecutiveFailures == 0 then HealthOk else if s.aborted then HealthRetrying else HealthHeld
  }

  /** OK exactly when nothing is outstanding, and an armed retry exactly when it is not OK. */
  predicate Truthful(s: State)
  {
    && (HealthOf(s).HealthOk? <==> s.failureRun == 0)
    && (!s.stopped ==> (s.retrySource.Some? <==> !HealthOf(s).HealthOk?))
  }

  /** Both counters after a step: as before, cleared, or one failure counted. */
  predicate Counts(s: State, kind: PassKind, t: State)
  {
    var c := CountFailure(s, kind);
    || (t.failureRun == s.failureRun && t.consecutiveFailures == s.consecutiveFailures)
    || t.failureRun == 0
    || (t.failureRun == c.failureRun && t.consecutiveFailures == c.consecutiveFailures)
  }

  lemma FinishCounts(s: State, kind: PassKind, out: ScanOutcome, now: int)
    ensures Counts(s, kind, FinishPass(s, kind, out, now))
  {
    hide FailureSignature, Warns, Doubled;
  }

  lemma PassCounts(s: State, kind: PassKind, env: PassEnv)
    requires RecordsSafe(s)
    ensures Counts(s, kind, RunAndFinish(s, kind, env))
    ensures kind.PassCatchUp? ==> Counts(s, kind, CatchUpStep(s, env))
  {
    hide DerivedPass, FinishPass, RecordsSafeAt, Doubled;
    DerivedPassKeepsRecordsSafe(s, kind, env);
    var (t, out) := DerivedPass(s, kind, env);
    FinishCounts(t, kind, out, env.now);
  }

  /** The step that counts failure number 2^32 leaves the counter at 0. */
  lemma CounterWraps(s: State, op: Op)
    requires RecordsSafe(s) && RetrySafe(s)
    requires s.failureRun < GUINT_MODULUS <= Step(s, op).failureRun
    ensures Step(s, op).failureRun == GUINT_MODULUS && HealthOf(Step(s, op)).HealthOk?
  {
    hide RunAndFinish, CatchUpStep, RecordsSafeAt, Doubled;
    match op
    case CatchUp(env) => PassCounts(s, PassCatchUp, env);
    case PostIngest(env) => PassCounts(s, PassPostIngest, env);
    case Fire(source, env) =>
      PassCounts(s.(attached := s.attached - {source}, retrySource := None), PassRetry, env);
    case _ =>
  }

  lemma {:induction false} WrapIsReached(ops: seq<Op>, n: nat)
    requires n <= |ops| && Run(Init(), ops[..n]).failureRun >= GUINT_MODULUS
    ensures exists m: nat :: m <= n && !Truthful(Run(Init(), ops[..m]))
  {
    hide Step, RecordsSafe, RefreshSafe, WarningsSafe;
    assert n > 0 by {
      RunNothing(Init());
    }
    var before := ops[..n - 1];
    if Run(Init(), before).failureRun >= GUINT_MODULUS {
      WrapIsReached(ops, n - 1);
    } else {
      EveryRunIsSafe(before);
      RunAppend(Init(), before, ops[n - 1]);
      assert ops[..n] == before + [ops[n - 1]];
      CounterWraps(Run(Init(), before), ops[n - 1]);
      assert !Truthful(Run(Init(), ops[..n]));
    }
  }

  /** The status tells the truth in every state of a run exactly when none of them has counted
      2^32 failures since the last clean pass. */
  lemma StatusIsTruthfulIff(ops: seq<Op>)
    ensures (forall n: nat :: n <= |ops| ==> Truthful(Run(Init(), ops[..n]))) <==>
            (forall n: nat :: n <= |ops| ==> Run(Init(), ops[..n]).failureRun < GUINT_MODULUS)
  {
    hide Step, RecordsSafe, RefreshSafe, WarningsSafe, Run;
    if n: nat :| n <= |ops| && Run(Init(), ops[..n]).failureRun >= GUINT_MODULUS {
      WrapIsReached(ops, n);
    } else {
      forall n: nat | n <= |ops| ensures Truthful(Run(Init(), ops[..n])) {
        EveryRunIsSafe(ops[..n]);
      }
    }
  }

  function BlockedEnv(): PassEnv
  {
    var scan := ScanEnv(Some(Error("g-io-error-quark", "0", "catalog is locked")), true, p => Applies);
    PassEnv([], scan, a => ExtractAnswer(None, []), [], scan, a => None, 0)
  }

  function FailingRun(n: nat): seq<Op>
  {
    if n == 0 then [PostIngest(BlockedEnv())] else FailingRun(n - 1) + [Fire(n - 1, BlockedEnv())]
  }

  lemma BlockedPass(s: State, kind: PassKind)
    ensures var t := RunAndFinish(s, kind, BlockedEnv());
            && t.consecutiveFailures == CountFailure(s, kind).consecutiveFailures
            && t.stopped == s.stopped
            && (s.stopped || s.retrySource.Some? ==>
                  t.retrySource == s.retrySource && t.attached == s.attached && t.nextSource == s.nextSource)
            && (!s.stopped && s.retrySource.None? ==>
                  t.retrySource == Some(s.nextSource) && t.nextSource == s.nextSource + 1 &&
                  t.attached == s.attached + {s.nextSource})
  {
    hide FailureSignature, AfterScan;
    assert DerivedPass(s, kind, BlockedEnv()).1.Aborted?;
    assert Extend(s.journal, []) == s.journal;
  }

  ghost predicate FailedSoFar(s: State, n: nat)
  {
    && s.consecutiveFailures == (n + 1) % GUINT_MODULUS
    && !s.stopped && s.retrySource == Some(n) && s.nextSource == n + 1 && n in s.attached
  }

  lemma FirstFailure()
    ensures FailedSoFar(Step(Init(), PostIngest(BlockedEnv())), 0)
  {
    hide RunAndFinish, BlockedEnv;
    BlockedPass(Init(), PassPostIngest);
  }

  lemma OneMoreFailure(s: State, n: nat)
    requires FailedSoFar(s, n)
    ensures FailedSoFar(Step(s, Fire(n, BlockedEnv())), n + 1)
  {
    hide RunAndFinish, BlockedEnv;
    BlockedPass(s.(attached := s.attached - {n}, retrySource := None), PassRetry);
  }

  lemma {:induction false} FailingRunCounts(n: nat)
    ensures FailedSoFar(Run(Init(), FailingRun(n)), n)
  {
    hide Step, FailedSoFar, BlockedEnv, Run;
    if n == 0 {
      FirstFailure();
      RunAppend(Init(), [], PostIngest(BlockedEnv()));
      RunNothing(Init());
      assert [] + [PostIngest(BlockedEnv())] == FailingRun(0);
    } else {
      FailingRunCounts(n - 1);
      OneMoreFailure(Run(Init(), FailingRun(n - 1)), n - 1);
      RunAppend(Init(), FailingRun(n - 1), Fire(n - 1, BlockedEnv()));
    }
  }

  lemma RunNothing(s: State)
    ensures Run(s, []) == s
  {
  }

  /** At 2^32 failures in a row the 32-bit counter wraps: a retry is armed, yet the
      published status is OK with no failures. */
  lemma StatusWraps()
    ensures exists ops :: var s := Run(Init(), ops);
              !s.stopped && s.retrySource.Some? && HealthOf(s).HealthOk?
  {
    hide Run, FailingRun;
    FailingRunCounts(GUINT_MODULUS - 1);
    var s := Run(Init(), FailingRun(GUINT_MODULUS - 1));
    assert !s.stopped && s.retrySource.Some? && HealthOf(s).HealthOk?;
  }

  // ----- an explicit catch-up that aborts -----

  /** The accounts whose extraction fails, in the order they are extracted. */
  function Failing(accounts: seq<string>, extract: string -> ExtractAnswer): seq<string>
  {
    Keep(accounts, a => extract(a).error.Some?)
  }

  function NotHeld(holds: seq<Hold>, names: seq<string>): seq<string>
  {
    Keep(names, a => !Held(holds, a))
  }

  /** The accounts a scan leaves for extraction, ascending. */
  ghost function Due(s: State, report: Report): seq<string>
  {
    SortedSet(set a | a in s.pending + report.materialized && !Held(report.holds, a))
  }

  lemma {:induction false} UnlistedNames(holds: seq<Hold>, refreshHolds: seq<Hold>)
    ensures Unlisted(holds, refreshHolds) == NotHeld(holds, Accounts(refreshHolds))
  {
    if refreshHolds != [] {
      UnlistedNames(holds, refreshHolds[1..]);
      assert Accounts(refreshHolds)[1..] == Accounts(refreshHolds[1..]);
    }
  }

  lemma {:induction false} ExtractionHolds(s: State, accounts: seq<string>, extract: string -> ExtractAnswer)
    ensures Accounts(ExtractAll(s, accounts, extract).refreshHolds) ==
            Accounts(s.refreshHolds) + Failing(accounts, extract)
    decreases |accounts|
  {
    if accounts != [] {
      var a := accounts[0];
      var t := ExtractOne(s, a, extract(a));
      ExtractionHolds(t, accounts[1..], extract);
      assert Accounts(t.refreshHolds) == Accounts(s.refreshHolds) + if extract(a).error.Some? then [a] else [];
    }
  }

  /** What is held at refresh when the follow-up scan aborts. */
  lemma AbortedFollowUp(s: State, kind: PassKind, env: PassEnv, report: Report)
    requires AfterScan(s, kind, env, report).1.Aborted?
    ensures Accounts(AfterScan(s, kind, env, report).0.refreshHolds) == Failing(Due(s, report), env.extract)
  {
    hide Pass, Failing, SortedSet, RefreshPending, ExtractAll;
    var s2 := QueueMaterialized(s, report).(refreshHolds := []);
    assert Unheld(s2, report) == set a | a in s.pending + report.materialized && !Held(report.holds, a);
    ExtractionHolds(s2, Due(s, report), env.extract);
  }

  /** An explicit catch-up that aborts logs and schedules nothing and changes no status
      field but the held accounts. Those stay when the first scan aborts; after a completed
      one they become the old holds followed by the accounts due whose extraction failed. */
  lemma AbortedCatchUp(s: State, env: PassEnv)
    requires RecordsSafe(s) && DerivedPass(s, PassCatchUp, env).1.Aborted?
    ensures var t := Step(s, CatchUp(env));
            && HealthOf(t) == HealthOf(s) && t.consecutiveFailures == s.consecutiveFailures
            && t.retryInterval == s.retryInterval && t.retrySource == s.retrySource
            && t.attached == s.attached && t.warnedSignature == s.warnedSignature
            && t.holds == s.holds && t.cursor.None?
    ensures match RunScan(s, PassCatchUp, env.growth, env.scan).1
            case Aborted(_) => HeldAccounts(Step(s, CatchUp(env))) == HeldAccounts(s)
            case Completed(report) =>
              HeldAccounts(Step(s, CatchUp(env))) ==
              Accounts(s.holds) + NotHeld(s.holds, Failing(Due(s, report), env.extract))
  {
    hide RunScan, AfterScan, RecordsSafeAt, Due, Failing, NotHeld, Unlisted;
    DerivedPassKeepsRecordsSafe(s, PassCatchUp, env);
    ScanKeepsRecordsSafe(s, PassCatchUp, env.growth, env.scan);
    var (s1, out) := RunScan(s, PassCatchUp, env.growth, env.scan);
    if out.Completed? {
      AbortedFollowUp(s1, PassCatchUp, env, out.report);
      DueFrame(s, s1, out.report);
      UnlistedNames(s.holds, AfterScan(s1, PassCatchUp, env, out.report).0.refreshHolds);
    }
  }

  lemma DueFrame(s: State, t: State, report: Report)
    requires s.pending == t.pending
    ensures Due(s, report) == Due(t, report)
  {
  }

  /** After a completed first scan the held accounts stay exactly when the accounts due whose
      extraction failed are, holds aside, those that were held at refresh before. */
  lemma AbortKeepsHeldAccountsIff(s: State, env: PassEnv)
    requires RecordsSafe(s) && DerivedPass(s, PassCatchUp, env).1.Aborted?
    requires RunScan(s, PassCatchUp, env.growth, env.scan).1.Completed?
    ensures var report := RunScan(s, PassCatchUp, env.growth, env.scan).1.report;
            HeldAccounts(Step(s, CatchUp(env))) == HeldAccounts(s) <==>
            NotHeld(s.holds, Failing(Due(s, report), env.extract)) == Unlisted(s.holds, s.refreshHolds)
  {
    hide RunScan, DerivedPass, Step, RecordsSafe, Due, Failing, NotHeld, Unlisted;
    AbortedCatchUp(s, env);
    var report := RunScan(s, PassCatchUp, env.growth, env.scan).1.report;
    var n := |s.holds|;
    assert HeldAccounts(Step(s, CatchUp(env)))[n..] == NotHeld(s.holds, Failing(Due(s, report), env.extract));
    assert HeldAccounts(s)[n..] == Unlisted(s.holds, s.refreshHolds);
  }

  /** Delivers one message to account f, applies everything, fails the extraction for f after
      it journaled a record, and blocks the follow-up scan. */
  function FailingExtractionEnv(f: string): PassEnv
  {
    PassEnv([Draft(f, Delivery, 0, 0)], ScanEnv(None, true, p => Applies),
            a => if a == f then ExtractAnswer(Some("no header"), [Draft(f, Mutation, 0, 0)]) else ExtractAnswer(None, []),
            [], BlockedEnv().scan, a => None, 0)
  }

  function Longest(names: seq<string>): (n: nat)
    ensures forall i :: 0 <= i < |names| ==> |names[i]| <= n
  {
    if names == [] then 0
    else
      var n := Longest(names[1..]);
      if |names[0]| > n then |names[0]| else n
  }

  lemma FreshName(names: seq<string>)
    ensures exists f: string :: f != "" && f !in names
  {
    var f: string := seq(Longest(names) + 1, _ => 'x');
    assert f != "" && f !in names;
  }

  lemma OnlyFails(accounts: seq<string>, f: string)
    requires Distinct(accounts)
    ensures Failing(accounts, FailingExtractionEnv(f).extract) == if f in accounts then [f] else []
  {
    var extract := FailingExtractionEnv(f).extract;
    assert forall y: string :: extract(y).error.Some? <==> y == f;
    KeepOne(accounts, a => extract(a).error.Some?, f);
  }

  /** The journal has no delivery without account after the checkpoint. */
  predicate Scannable(s: State)
  {
    var i := Seek(s.journal, s.catalog.checkpoint);
    i.Some? && !LacksAccount(s.journal, i.value)
  }

  lemma FirstScanCompletes(s: State, f: string)
    requires RecordsSafe(s) && Scannable(s) && f != ""
    ensures var out := RunScan(s, PassCatchUp, FailingExtractionEnv(f).growth, FailingExtractionEnv(f).scan).1;
            out.Completed? && out.report.holds == [] && f in out.report.materialized
  {
    hide Scan, IndexOf;
    var env := FailingExtractionEnv(f);
    var j := s.journal;
    var j' := Extend(j, env.growth);
    GrowthBy(j, env.growth[0]);
    ExtendOrdered(j, env.growth);
    if s.catalog.checkpoint.Some? {
      IndexOfPrefix(j, j', s.catalog.checkpoint.value);
    }
    var i := Seek(j, s.catalog.checkpoint).value;
    assert Seek(j', s.catalog.checkpoint) == Some(i);
    assert !LacksAccount(j', i);
    ScanApplyingAll(j', i, true, ScanState(s.catalog, [], {}), env.scan.verdict);
    assert j'[|j|].account == f && !j'[|j|].kind.MembershipChange?;
  }

  lemma GrowthBy(j: seq<Record>, d: Draft)
    ensures Extend(j, [d]) == j + [NextRecord(j, d)]
  {
    assert [d][1..] == [] && Extend(j + [NextRecord(j, d)], []) == j + [NextRecord(j, d)];
  }

  lemma ExtractionAborts(s: State, f: string)
    requires RecordsSafe(s) && Scannable(s) && s.extractInstalled && f != "" && f !in HeldAccounts(s)
    ensures var env := FailingExtractionEnv(f);
            DerivedPass(s, PassCatchUp, env).1.Aborted? && HeldAccounts(Step(s, CatchUp(env))) == Accounts(s.holds) + [f]
  {
    hide Pass, RecordsSafeAt, Extend, RefreshPending, ExtractAll, SortedSet, Step, HeldAccounts;
    var env := FailingExtractionEnv(f);
    FirstScanCompletes(s, f);
    ScanKeepsRecordsSafe(s, PassCatchUp, env.growth, env.scan);
    var (s1, out) := RunScan(s, PassCatchUp, env.growth, env.scan);
    var report := out.report;
    var s2 := QueueMaterialized(s1, report).(refreshHolds := []);
    assert Unheld(s2, report) == set a | a in s1.pending + report.materialized && !Held(report.holds, a);
    var due := Due(s1, report);
    SortedSetMembers(Unheld(s2, report));
    assert f in due by {
      assert f in SetOf(due);
    }
    var k :| 0 <= k < |due| && due[k] == f;
    assert |env.extract(due[k]).appended| > 0;
    assert AppendedAny(due, env.extract);
    BlockedScan(ExtractPending(s2, report, env.extract).0, PassCatchUp);
    assert DerivedPass(s, PassCatchUp, env).1.Aborted?;
    AbortedCatchUp(s, env);
    DueFrame(s, s1, report);
    OnlyFails(due, f);
    FreshIsListed(s, f);
  }

  lemma BlockedScan(s: State, kind: PassKind)
    ensures RunScan(s, kind, [], BlockedEnv().scan).1.Aborted?
  {
    hide Scan;
  }

  lemma FreshIsListed(s: State, f: string)
    requires f !in HeldAccounts(s)
    ensures NotHeld(s.holds, [f]) == [f] && Accounts(s.holds) + [f] != HeldAccounts(s)
  {
    assert forall k :: 0 <= k < |s.holds| ==> HeldAccounts(s)[k] == s.holds[k].account;
    assert [f][1..] == [] && NotHeld(s.holds, []) == [];
    assert (Accounts(s.holds) + [f])[|s.holds|] == f;
  }

  /** An aborting catch-up never changes the published status exactly when no extraction is
      installed or no scan can get past a delivery without account. */
  lemma AbortedCatchUpIsInvisibleIff(s: State)
    requires RecordsSafe(s)
    ensures (forall env :: DerivedPass(s, PassCatchUp, env).1.Aborted? ==>
               HeldAccounts(Step(s, CatchUp(env))) == HeldAccounts(s)) <==>
            !s.extractInstalled || !Scannable(s)
  {
    hide DerivedPass, Step, RecordsSafeAt, HeldAccounts, FailingExtractionEnv;
    if s.extractInstalled && Scannable(s) {
      FreshName(HeldAccounts(s));
      var f: string :| f != "" && f !in HeldAccounts(s);
      ExtractionAborts(s, f);
      FreshIsListed(s, f);
    } else {
      forall env | DerivedPass(s, PassCatchUp, env).1.Aborted?
        ensures HeldAccounts(Step(s, CatchUp(env))) == HeldAccounts(s)
      {
        FirstScanAborts(s, env);
        AbortedCatchUp(s, env);
      }
    }
  }

  lemma FirstScanAborts(s: State, env: PassEnv)
    requires RecordsSafe(s) && (!s.extractInstalled || !Scannable(s)) && DerivedPass(s, PassCatchUp, env).1.Aborted?
    ensures RunScan(s, PassCatchUp, env.growth, env.scan).1.Aborted?
  {
    hide RunScan, RefreshPending, SortedSet, Unheld, ExtractAll;
    ScanKeepsRecordsSafe(s, PassCatchUp, env.growth, env.scan);
    if !Scannable(s) {
      UnscannableAborts(s, PassCatchUp, env.growth, env.scan);
    }
  }

  /** No scan from the checkpoint gets past a delivery without account. */
  lemma UnscannableAborts(s: State, kind: PassKind, growth: seq<Draft>, env: ScanEnv)
    requires RecordsSafe(s) && !Scannable(s) && (kind.PassPostIngest? ==> s.cursor.None?)
    ensures RunScan(s, kind, growth, env).1.Aborted?
  {
    hide Scan, IndexOf, Extend;
    var j' := Extend(s.journal, growth);
    ExtendOrdered(s.journal, growth);
    StartCovered(s.journal, s.catalog, None, []);
    if s.catalog.checkpoint.Some? {
      IndexOfPrefix(s.journal, j', s.catalog.checkpoint.value);
    }
    var i := Seek(s.journal, s.catalog.checkpoint).value;
    var k :| i <= k < |s.journal| && s.journal[k].account == "";
    assert j'[k] == s.journal[k];
    assert LacksAccount(j', i);
  }

  /** So the published status can change although the header promises it does not. */
  lemma AbortedCatchUpCanChangeStatus()
    ensures var s := Run(Init(), [SetExtract(true)]);
            var env := FailingExtractionEnv("a");
            && DerivedPass(s, PassCatchUp, env).1.Aborted?
            && HeldAccounts(s) == [] && HeldAccounts(Step(s, CatchUp(env))) == ["a"]
  {
    hide DerivedPass, FailingExtractionEnv, CatchUpStep;
    var s := Run(Init(), [SetExtract(true)]);
    assert s == Init().(extractInstalled := true) by {
      assert [SetExtract(true)][1..] == [] && Run(Step(Init(), SetExtract(true)), []) == Step(Init(), SetExtract(true));
    }
    ExtractionAborts(s, "a");
  }
}
