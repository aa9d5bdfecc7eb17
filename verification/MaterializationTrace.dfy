/**
 * What one pass does, as the trace it leaves: which accounts are extracted, when there is a
 * second scan, which accounts are refreshed, and what that makes of the pending accounts and
 * the refresh holds. The number of failures is then counted on the trace alone.
 */
module MaterializationTrace {
  import opened Basics
  import opened Catchup
  import opened CatchupDecisions
  import opened MaterializationSpec
  import opened MaterializationSafety
  import opened MaterializationRefresh
  import opened MaterializationWarnings
  import opened MaterializationRuns
  import opened MaterializationStatus
  import opened MaterializationOrder

  function ExtractEvents(accounts: seq<string>, extract: string -> ExtractAnswer): seq<Event>
  {
    seq(|accounts|, i requires 0 <= i < |accounts| =>
      Extracted(accounts[i], extract(accounts[i]).error.None?, |extract(accounts[i]).appended|))
  }

  function RefreshEvents(accounts: seq<string>, refresh: string -> Option<string>): seq<Event>
  {
    seq(|accounts|, i requires 0 <= i < |accounts| => Refreshed(accounts[i], refresh(accounts[i]).None?))
  }

  function DropEvents(accounts: seq<string>): seq<Event>
  {
    seq(|accounts|, i requires 0 <= i < |accounts| => Dropped(accounts[i]))
  }

  lemma {:induction false} ExtractAllTrace(s: State, accounts: seq<string>, extract: string -> ExtractAnswer)
    ensures var t := ExtractAll(s, accounts, extract);
            && t.log == s.log + ExtractEvents(accounts, extract)
            && t.pending == s.pending && t.refreshInstalled == s.refreshInstalled
    decreases |accounts|
  {
    if accounts != [] {
      var t := ExtractOne(s, accounts[0], extract(accounts[0]));
      ExtractAllTrace(t, accounts[1..], extract);
      assert ExtractEvents(accounts, extract) ==
             [ExtractEvents(accounts, extract)[0]] + ExtractEvents(accounts[1..], extract);
    }
  }

  lemma {:induction false} RefreshAllTrace(s: State, accounts: seq<string>, refresh: string -> Option<string>)
    ensures var t := RefreshAll(s, accounts, refresh);
            && t.log == s.log + RefreshEvents(accounts, refresh)
            && forall a :: a in t.pending <==> a in s.pending && !(a in accounts && refresh(a).None?)
    decreases |accounts|
  {
    if accounts != [] {
      var t := RefreshOne(s, accounts[0], refresh(accounts[0]));
      RefreshAllTrace(t, accounts[1..], refresh);
      assert accounts == [accounts[0]] + accounts[1..];
      assert RefreshEvents(accounts, refresh) ==
             [RefreshEvents(accounts, refresh)[0]] + RefreshEvents(accounts[1..], refresh);
    }
  }

  lemma {:induction false} DropAllTrace(s: State, accounts: seq<string>)
    ensures DropAll(s, accounts).log == s.log + DropEvents(accounts)
    decreases |accounts|
  {
    if accounts != [] {
      DropAllTrace(s.(pending := s.pending - {accounts[0]}, log := s.log + [Dropped(accounts[0])]), accounts[1..]);
      assert DropEvents(accounts) == [Dropped(accounts[0])] + DropEvents(accounts[1..]);
    }
  }

  // ----- the last part of a pass -----

  /** Who is refreshed: pending, not held by the last scan, extraction not failed. */
  ghost function ToRefresh(pending: set<string>, report: Report, failed: seq<string>): set<string>
  {
    set a | a in pending && !Held(report.holds, a) && a !in failed
  }

  ghost function RefreshPart(installed: bool, pending: set<string>, report: Report, failed: seq<string>,
                             refresh: string -> Option<string>): seq<Event>
  {
    if installed then RefreshEvents(SortedSet(ToRefresh(pending, report, failed)), refresh)
    else DropEvents(SortedSet(set a | a in pending && a !in failed))
  }

  /** Who still waits afterwards. */
  ghost function LeftPending(installed: bool, pending: set<string>, report: Report, failed: seq<string>,
                             refresh: string -> Option<string>): set<string>
  {
    set a | a in pending &&
      if installed then !(a in ToRefresh(pending, report, failed) && refresh(a).None?) else a in failed
  }

  /** Who is held at refresh afterwards. */
  ghost function HeldAtRefresh(installed: bool, pending: set<string>, report: Report, failed: seq<string>,
                               refresh: string -> Option<string>): seq<string>
  {
    failed + if installed then Refusing(SortedSet(ToRefresh(pending, report, failed)), refresh) else []
  }

  lemma HeldNames(holds: seq<Hold>, a: string)
    ensures Held(holds, a) <==> a in Accounts(holds)
  {
    if a in Accounts(holds) {
      var k :| 0 <= k < |Accounts(holds)| && Accounts(holds)[k] == a;
      assert holds[k].account == a;
    }
    if Held(holds, a) {
      var k :| 0 <= k < |holds| && holds[k].account == a;
      assert Accounts(holds)[k] == a;
    }
  }

  lemma RefreshPendingTrace(s: State, report: Report, refresh: string -> Option<string>)
    ensures var t := RefreshPending(s, report, refresh);
            var failed := Accounts(s.refreshHolds);
            && t.log == s.log + RefreshPart(s.refreshInstalled, s.pending, report, failed, refresh)
            && t.pending == LeftPending(s.refreshInstalled, s.pending, report, failed, refresh)
            && Accounts(t.refreshHolds) == HeldAtRefresh(s.refreshInstalled, s.pending, report, failed, refresh)
  {
    hide SortedSet, RefreshAll, DropAll, Refusing, RefreshEvents, DropEvents, Accounts, Held;
    var failed := Accounts(s.refreshHolds);
    forall a ensures Held(s.refreshHolds, a) <==> a in failed {
      HeldNames(s.refreshHolds, a);
    }
    if s.refreshInstalled {
      var us := ToRefresh(s.pending, report, failed);
      assert Unheld(s, report) == us;
      RefreshAllTrace(s, SortedSet(us), refresh);
      RefreshHoldsAre(s, SortedSet(us), refresh);
      SortedSetMembers(us);
      forall a ensures a in SortedSet(us) <==> a in us {
        assert a in SortedSet(us) <==> a in SetOf(SortedSet(us));
      }
    } else {
      var idle := set a | a in s.pending && a !in failed;
      assert idle == set a | a in s.pending && !Held(s.refreshHolds, a);
      DropAllTrace(s, SortedSet(idle));
      DropAllFrame(s, SortedSet(idle));
      SortedSetMembers(idle);
      assert failed + [] == failed;
    }
  }

  // ----- a whole pass -----

  function ScanEvent(out: ScanOutcome): Event
  {
    if out.Completed? then Scanned(out.report) else ScanAborted
  }

  ghost function DueIf(s: State, report: Report): seq<string>
  {
    if s.extractInstalled then Due(s, report) else []
  }

  /** The events between the first scan and the refreshes, and the last scan's report if it has one. */
  ghost function MiddlePart(s: State, env: PassEnv, report: Report, out: ScanOutcome): seq<Event>
  {
    var due := DueIf(s, report);
    ExtractEvents(due, env.extract) + if AppendedAny(due, env.extract) then [ScanEvent(out)] else []
  }

  ghost predicate Traced(s: State, env: PassEnv, report: Report, t: State, out: ScanOutcome)
  {
    var due := DueIf(s, report);
    var failed := Failing(due, env.extract);
    var start := s.log + [Scanned(report)] + MiddlePart(s, env, report, out);
    && (!AppendedAny(due, env.extract) ==> out == Completed(report))
    && (out.Aborted? ==>
          t.log == start && Accounts(t.refreshHolds) == failed && t.pending == s.pending + report.materialized)
    && (out.Completed? ==>
          var all := s.pending + report.materialized + out.report.materialized;
          && t.log == start + RefreshPart(s.refreshInstalled, all, out.report, failed, env.refresh)
          && t.pending == LeftPending(s.refreshInstalled, all, out.report, failed, env.refresh)
          && Accounts(t.refreshHolds) == HeldAtRefresh(s.refreshInstalled, all, out.report, failed, env.refresh))
  }

  lemma AfterScanTrace(s: State, s1: State, kind: PassKind, env: PassEnv, report: Report)
    requires RecordsSafe(s1) && s1.log == s.log + [Scanned(report)] && s1.pending == s.pending
    requires s1.extractInstalled == s.extractInstalled && s1.refreshInstalled == s.refreshInstalled
    ensures Traced(s, env, report, AfterScan(s1, kind, env, report).0, AfterScan(s1, kind, env, report).1)
  {
    hide SortedSet, ExtractAll, Failing, RefreshPending, RefreshPart, LeftPending, HeldAtRefresh, RecordsSafeAt,
      ExtractEvents, AppendedAny, Pass, Accounts, Extend;
    var s2 := QueueMaterialized(s1, report).(refreshHolds := []);
    var due := DueIf(s, report);
    var failed := Failing(due, env.extract);
    DueIsUnheld(s, s2, report);
    ExtractNothing(env.extract);
    ExtractAllTrace(s2, due, env.extract);
    ExtractAllKeepsRecordsSafe(s2, due, env.extract);
    ExtractionHolds(s2, due, env.extract);
    NoAccounts();
    assert [] + failed == failed;
    var (s3, appended) := ExtractPending(s2, report, env.extract);
    assert s3.log == s1.log + ExtractEvents(due, env.extract) && Accounts(s3.refreshHolds) == failed;
    assert appended == AppendedAny(due, env.extract);
    if appended {
      var (s4, out) := RunScan(s3, kind, env.followUpGrowth, env.followUpScan);
      ScanKeepsRecordsSafe(s3, kind, env.followUpGrowth, env.followUpScan);
      if out.Completed? {
        RefreshPendingTrace(QueueMaterialized(s4, out.report), out.report, env.refresh);
      }
      assert s4.log == s.log + [Scanned(report)] + MiddlePart(s, env, report, out);
    } else {
      RefreshPendingTrace(s3, report, env.refresh);
      assert s.pending + report.materialized + report.materialized == s.pending + report.materialized;
      assert MiddlePart(s, env, report, Completed(report)) == ExtractEvents(due, env.extract);
    }
  }

  lemma NoAccounts()
    ensures Accounts([]) == []
  {
  }

  lemma ExtractNothing(extract: string -> ExtractAnswer)
    ensures ExtractEvents([], extract) == [] && Failing([], extract) == [] && !AppendedAny([], extract)
    ensures forall s: State :: ExtractAll(s, [], extract) == s
  {
  }

  lemma DueIsUnheld(s: State, s2: State, report: Report)
    requires s2.pending == s.pending + report.materialized && s2.refreshHolds == []
    ensures s.extractInstalled ==> DueIf(s, report) == SortedSet(Unheld(s2, report))
  {
    hide SortedSet;
    assert Unheld(s2, report) == set a | a in s.pending + report.materialized && !Held(report.holds, a);
  }

  /** Every pass leaves the trace, the pending accounts and the refresh holds described by Traced
      after a completed first scan, and one event otherwise. */
  lemma PassLeavesTrace(s: State, kind: PassKind, env: PassEnv)
    requires RecordsSafe(s)
    ensures var first := RunScan(s, kind, env.growth, env.scan).1;
            var (t, out) := DerivedPass(s, kind, env);
            match first
            case Aborted(_) => out == first && t.log == s.log + [ScanAborted] && t.pending == s.pending &&
                               t.refreshHolds == s.refreshHolds
            case Completed(report) => Traced(s, env, report, t, out)
  {
    hide AfterScan, Pass, Traced, RecordsSafeAt, Extend;
    ScanKeepsRecordsSafe(s, kind, env.growth, env.scan);
    var (s1, first) := RunScan(s, kind, env.growth, env.scan);
    if first.Completed? {
      AfterScanTrace(s, s1, kind, env, first.report);
    }
  }

  // ----- counting failures on the trace -----

  /** Neither the end of a pass nor a failure. */
  predicate Silent(events: seq<Event>)
  {
    forall k :: 0 <= k < |events| ==> !events[k].PassClean? && !events[k].PassFailed?
  }

  lemma PassIsSilent(s: State, kind: PassKind, env: PassEnv)
    requires RecordsSafe(s)
    ensures var log := DerivedPass(s, kind, env).0.log; s.log <= log && Silent(log[|s.log|..])
  {
    hide DerivedPass, RunScan, SortedSet, RecordsSafeAt, Due, ToRefresh, LeftPending, HeldAtRefresh, AppendedAny,
      Failing, Accounts;
    PassLeavesTrace(s, kind, env);
  }

  /** The events since the last clean pass. */
  function SinceClean(log: seq<Event>): seq<Event>
  {
    if log == [] || log[|log| - 1].PassClean? then [] else SinceClean(log[..|log| - 1]) + [log[|log| - 1]]
  }

  function FailedRetries(log: seq<Event>): nat
  {
    if log == [] then 0
    else
      var e := log[|log| - 1];
      FailedRetries(log[..|log| - 1]) + if e.PassFailed? && e.kind.PassRetry? then 1 else 0
  }

  predicate AnyFailed(log: seq<Event>)
  {
    exists k :: 0 <= k < |log| && log[k].PassFailed?
  }

  /** The first failure and every failed retry since the last clean pass. */
  function Failures(log: seq<Event>): nat
  {
    var events := SinceClean(log);
    if AnyFailed(events) then 1 + FailedRetries(events) else 0
  }

  lemma OneMoreEvent(log: seq<Event>, e: Event)
    ensures e.PassClean? ==> Failures(log + [e]) == 0
    ensures !e.PassClean? && !e.PassFailed? ==> Failures(log + [e]) == Failures(log)
    ensures e.PassFailed? && Failures(log) > 0 ==>
              Failures(log + [e]) == Failures(log) + if e.kind.PassRetry? then 1 else 0
    ensures e.PassFailed? && !e.kind.PassRetry? && Failures(log) == 0 ==> Failures(log + [e]) == 1
  {
    assert (log + [e])[..|log|] == log;
    var events := SinceClean(log);
    if !e.PassClean? {
      assert SinceClean(log + [e]) == events + [e];
      assert (events + [e])[..|events|] == events;
      assert AnyFailed(events + [e]) <==> AnyFailed(events) || e.PassFailed? by {
        assert (events + [e])[|events|] == e;
        if AnyFailed(events) {
          var k :| 0 <= k < |events| && events[k].PassFailed?;
          assert (events + [e])[k].PassFailed?;
        }
      }
      if !AnyFailed(events) {
        NoRetryWithoutFailure(events);
      }
    }
  }

  lemma {:induction false} NoRetryWithoutFailure(log: seq<Event>)
    requires !AnyFailed(log)
    ensures FailedRetries(log) == 0
  {
    if log != [] {
      NoRetryWithoutFailure(log[..|log| - 1]);
      assert !log[|log| - 1].PassFailed?;
    }
  }

  lemma {:induction false} SilentKeepsFailures(log: seq<Event>, more: seq<Event>)
    requires Silent(more)
    ensures Failures(log + more) == Failures(log)
    decreases |more|
  {
    hide Failures;
    if more == [] {
      assert log + more == log;
    } else {
      var n := |more| - 1;
      SilentKeepsFailures(log, more[..n]);
      OneMoreEvent(log + more[..n], more[n]);
      assert log + more == log + more[..n] + [more[n]];
    }
  }

  /** Did the last pass whose outcome was recorded abort? */
  predicate EndedAborted(log: seq<Event>)
  {
    log != [] &&
    var e := log[|log| - 1];
    if e.PassFailed? then e.aborted else !e.PassClean? && EndedAborted(log[..|log| - 1])
  }

  lemma {:induction false} SilentKeepsEnd(log: seq<Event>, more: seq<Event>)
    requires Silent(more)
    ensures EndedAborted(log + more) == EndedAborted(log)
    decreases |more|
  {
    if more == [] {
      assert log + more == log;
    } else {
      var n := |more| - 1;
      SilentKeepsEnd(log, more[..n]);
      assert (log + more)[..|log| + n] == log + more[..n];
    }
  }

  /** The counter is the number of failures the trace shows, and the flag its last outcome. */
  predicate Counted(s: State)
  {
    s.failureRun == Failures(s.log) && s.aborted == EndedAborted(s.log)
  }

  lemma FinishIsCounted(s: State, kind: PassKind, out: ScanOutcome, now: int)
    requires Counted(s) && (kind.PassRetry? ==> s.failureRun > 0)
    ensures Counted(FinishPass(s, kind, out, now))
  {
    hide Failures, FailureSignature, RecordFailure, EndedAborted;
    var signature := FailureSignature(out, s.refreshHolds);
    var e := PassFailed(kind, out.Aborted?, signature, now, Warns(s, signature, now), s.stopped, Window(s));
    OneMoreEvent(s.log, PassClean);
    OneMoreEvent(s.log, e);
    EndEvent(s.log, PassClean);
    EndEvent(s.log, e);
    RecordFailureFrame(s, kind, out, signature, now);
    FailureCounts(s, kind, out, signature, now);
  }

  lemma EndEvent(log: seq<Event>, e: Event)
    requires e.PassClean? || e.PassFailed?
    ensures EndedAborted(log + [e]) == (e.PassFailed? && e.aborted)
  {
  }

  lemma FailureCounts(s: State, kind: PassKind, out: ScanOutcome, signature: string, now: int)
    ensures var t := RecordFailure(s, kind, out, signature, now);
            && t.aborted == out.Aborted?
            && t.failureRun == if kind.PassRetry? then s.failureRun + 1 else if s.failureRun == 0 then 1 else s.failureRun
  {
    hide Warns, Doubled, Window;
  }

  lemma PassIsCounted(s: State, kind: PassKind, env: PassEnv)
    requires RecordsSafe(s) && Counted(s) && (kind.PassRetry? ==> s.failureRun > 0)
    ensures Counted(RunAndFinish(s, kind, env))
    ensures kind.PassCatchUp? ==> Counted(CatchUpStep(s, env))
  {
    hide DerivedPass, FinishPass, Failures, RecordsSafeAt, EndedAborted;
    DerivedPassKeepsRecordsSafe(s, kind, env);
    PassIsSilent(s, kind, env);
    var (t, out) := DerivedPass(s, kind, env);
    SilentKeepsFailures(s.log, t.log[|s.log|..]);
    SilentKeepsEnd(s.log, t.log[|s.log|..]);
    assert t.log == s.log + t.log[|s.log|..];
    FinishIsCounted(t, kind, out, env.now);
  }

  lemma StepIsCounted(s: State, op: Op)
    requires RecordsSafe(s) && RetrySafe(s) && Counted(s)
    ensures Counted(Step(s, op))
  {
    hide RunAndFinish, CatchUpStep, Failures, RecordsSafeAt;
    match op
    case CatchUp(env) => PassIsCounted(s, PassCatchUp, env);
    case PostIngest(env) => PassIsCounted(s, PassPostIngest, env);
    case Fire(source, env) =>
      if source in s.attached && !s.stopped && s.retrySource == Some(source) {
        PassIsCounted(s.(attached := s.attached - {source}, retrySource := None), PassRetry, env);
      }
    case QueueRefresh(account) =>
      OneMoreEvent(s.log, Queued(account));
      SilentKeepsEnd(s.log, [Queued(account)]);
    case _ =>
  }

  lemma {:induction false} RunIsCounted(s: State, ops: seq<Op>)
    requires Safe(s) && Counted(s)
    ensures Counted(Run(s, ops))
    decreases |ops|
  {
    hide Step, Counted, RecordsSafe, RetrySafe, RefreshSafe, WarningsSafe;
    if ops != [] {
      StepKeepsSafe(s, ops[0]);
      StepIsCounted(s, ops[0]);
      RunIsCounted(Step(s, ops[0]), ops[1..]);
    }
  }

  /** On every run the count of failures is what the trace shows: none after a clean pass,
      otherwise one and the failed retries since then. */
  lemma EveryRunIsCounted(ops: seq<Op>)
    ensures Run(Init(), ops).failureRun == Failures(Run(Init(), ops).log)
    ensures Run(Init(), ops).aborted == EndedAborted(Run(Init(), ops).log)
  {
    hide Step;
    RunIsCounted(Init(), ops);
  }

  /** With the backoff set in time, the retry interval is that of the failures on the trace. */
  lemma EveryRunBacksOffByTrace(ops: seq<Op>)
    requires BackoffSetEarly(Init(), ops)
    ensures var s := Run(Init(), ops);
            s.retryInterval == Min(s.retryMax, s.retryInitial * Pow2(if Failures(s.log) == 0 then 0 else Failures(s.log) - 1))
  {
    hide Step, Failures, BackoffSetEarly;
    EveryRunIsCounted(ops);
    EveryRunBacksOffExactly(ops);
  }

  /** Only retries count and back off: a failing catch-up or post-ingest pass while a failure is
      outstanding changes neither the counter nor the interval. */
  lemma OnlyRetriesBackOff(s: State, op: Op)
    requires RecordsSafe(s) && s.consecutiveFailures > 0 && (op.CatchUp? || op.PostIngest?)
    ensures LastIsClean(Step(s, op).log) ||
            (Step(s, op).retryInterval == s.retryInterval && Step(s, op).consecutiveFailures == s.consecutiveFailures)
  {
    hide DerivedPass, FailureSignature, RecordsSafeAt, Warns;
    DerivedPassKeepsRecordsSafe(s, if op.CatchUp? then PassCatchUp else PassPostIngest, op.env);
  }

  /** The published state on every run short of 2^32 failures: OK without a failure since the last
      clean pass, otherwise RETRYING or HELD as the last recorded pass aborted or held somebody. */
  lemma HealthIsTheLastOutcome(ops: seq<Op>)
    requires Failures(Run(Init(), ops).log) < GUINT_MODULUS
    ensures var s := Run(Init(), ops);
            HealthOf(s) == if Failures(s.log) == 0 then HealthOk
                           else if EndedAborted(s.log) then HealthRetrying else HealthHeld
  {
    hide Step, Failures, EndedAborted;
    EveryRunIsCounted(ops);
    EveryRunIsSafe(ops);
  }

  // ----- where holds and the cursor come from -----

  lemma ScanHoldsAreRejected(s: State, kind: PassKind, growth: seq<Draft>, env: ScanEnv)
    requires RecordsSafe(s) && RunScan(s, kind, growth, env).1.Completed?
    ensures var report := RunScan(s, kind, growth, env).1.report;
            var prior := if kind.PassPostIngest? then s.holds else [];
            && prior <= report.holds
            && forall m :: |prior| <= m < |report.holds| ==>
                 env.verdict(report.holds[m].pos) == Rejects(report.holds[m].message)
  {
    hide Pass, Decided, IndexOf;
    var j := Extend(s.journal, growth);
    GrowthKeepsRecordsSafe(s, growth);
    var resume := if kind.PassPostIngest? then s.cursor else None;
    var prior := if kind.PassPostIngest? then s.holds else [];
    StartCovered(j, s.catalog, resume, prior);
    PassReportsExactly(j, s.catalog, resume, prior, env);
    var holds := RunScan(s, kind, growth, env).1.report.holds;
    forall m | |prior| <= m < |holds| ensures env.verdict(holds[m].pos) == Rejects(holds[m].message) {
      assert holds[|prior|..][m - |prior|] == holds[m];
      assert holds[m] in holds[|prior|..];
      var q := Input(j, Seek(j, Start(s.catalog, resume)).value, prior, env.verdict);
      var k: nat :| HoldFrom(q, k, holds[m]);
    }
  }

  /** A completed pass holds the accounts carried in, which only a post-ingest pass does, and
      those whose run one of its scans rejected, with the rejection's message. */
  lemma PassHoldsAreRejected(s: State, kind: PassKind, env: PassEnv)
    requires RecordsSafe(s) && DerivedPass(s, kind, env).1.Completed?
    ensures var holds := DerivedPass(s, kind, env).1.report.holds;
            var prior := if kind.PassPostIngest? then s.holds else [];
            && prior <= holds
            && forall m :: |prior| <= m < |holds| ==>
                 || env.scan.verdict(holds[m].pos) == Rejects(holds[m].message)
                 || env.followUpScan.verdict(holds[m].pos) == Rejects(holds[m].message)
  {
    hide RunScan, RefreshPending, RecordsSafeAt, ExtractAll, SortedSet, Unheld;
    ScanKeepsRecordsSafe(s, kind, env.growth, env.scan);
    ScanHoldsAreRejected(s, kind, env.growth, env.scan);
    var (s1, out) := RunScan(s, kind, env.growth, env.scan);
    var s2 := QueueMaterialized(s1, out.report).(refreshHolds := []);
    ExtractAllKeepsRecordsSafe(s2, SortedSet(Unheld(s2, out.report)), env.extract);
    var (s3, appended) := ExtractPending(s2, out.report, env.extract);
    if appended {
      ScanHoldsAreRejected(s3, kind, env.followUpGrowth, env.followUpScan);
    }
  }

  /** A full pass whose verdicts reject nothing lets go of every account. */
  lemma FullPassReleasesEverybody(s: State, op: Op)
    requires RecordsSafe(s)
    requires op.CatchUp? || (op.Fire? && op.source in s.attached && !s.stopped && s.retrySource == Some(op.source))
    requires forall p :: !op.env.scan.verdict(p).Rejects? && !op.env.followUpScan.verdict(p).Rejects?
    ensures var kind := if op.CatchUp? then PassCatchUp else PassRetry;
            var s1 := if op.CatchUp? then s else s.(attached := s.attached - {op.source}, retrySource := None);
            DerivedPass(s1, kind, op.env).1.Completed? ==> Step(s, op).holds == []
  {
    hide DerivedPass, RecordsSafeAt, RecordFailure, FailureSignature;
    var kind := if op.CatchUp? then PassCatchUp else PassRetry;
    var s1 := if op.CatchUp? then s else s.(attached := s.attached - {op.source}, retrySource := None);
    var (t, out) := DerivedPass(s1, kind, op.env);
    if out.Completed? {
      PassHoldsAreRejected(s1, kind, op.env);
      assert out.report.holds == [] by {
        assert out.report.holds != [] ==> out.report.holds[0] == out.report.holds[0];
      }
      RecordFailureFrame(t, kind, out, FailureSignature(out, t.refreshHolds), op.env.now);
    }
  }

  /** Each refresh hold carries the error its account's extraction or refresh just returned. */
  predicate FreshRefreshHolds(holds: seq<Hold>, env: PassEnv)
  {
    forall m :: 0 <= m < |holds| ==>
      || (env.extract(holds[m].account).error.Some? &&
          holds[m].message == "fact extraction failed: " + env.extract(holds[m].account).error.value)
      || env.refresh(holds[m].account) == Some(holds[m].message)
  }

  lemma {:induction false} ExtractHoldsAreFresh(s: State, accounts: seq<string>, env: PassEnv)
    requires FreshRefreshHolds(s.refreshHolds, env)
    ensures FreshRefreshHolds(ExtractAll(s, accounts, env.extract).refreshHolds, env)
    decreases |accounts|
  {
    if accounts != [] {
      ExtractHoldsAreFresh(ExtractOne(s, accounts[0], env.extract(accounts[0])), accounts[1..], env);
    }
  }

  lemma {:induction false} RefreshHoldsAreFresh(s: State, accounts: seq<string>, env: PassEnv)
    requires FreshRefreshHolds(s.refreshHolds, env)
    ensures FreshRefreshHolds(RefreshAll(s, accounts, env.refresh).refreshHolds, env)
    decreases |accounts|
  {
    if accounts != [] {
      RefreshHoldsAreFresh(RefreshOne(s, accounts[0], env.refresh(accounts[0])), accounts[1..], env);
    }
  }

  lemma RefreshPendingIsFresh(s: State, report: Report, env: PassEnv)
    requires FreshRefreshHolds(s.refreshHolds, env)
    ensures FreshRefreshHolds(RefreshPending(s, report, env.refresh).refreshHolds, env)
  {
    hide SortedSet, Unheld, RefreshAll, DropAll, FreshRefreshHolds;
    RefreshHoldsAreFresh(s, SortedSet(Unheld(s, report)), env);
    DropAllFrame(s, SortedSet(set a | a in s.pending && !Held(s.refreshHolds, a)));
  }

  /** No refresh hold outlives the pass that made it: after a pass each one is of this pass. */
  lemma RefreshHoldsAreOfThisPass(s: State, kind: PassKind, env: PassEnv)
    requires RecordsSafe(s) && RunScan(s, kind, env.growth, env.scan).1.Completed?
    ensures FreshRefreshHolds(DerivedPass(s, kind, env).0.refreshHolds, env)
  {
    hide RunScan, RefreshPending, RecordsSafeAt, ExtractAll, SortedSet, Unheld;
    ScanKeepsRecordsSafe(s, kind, env.growth, env.scan);
    var (s1, out) := RunScan(s, kind, env.growth, env.scan);
    var s2 := QueueMaterialized(s1, out.report).(refreshHolds := []);
    var accounts := SortedSet(Unheld(s2, out.report));
    ExtractAllKeepsRecordsSafe(s2, accounts, env.extract);
    ExtractHoldsAreFresh(s2, accounts, env);
    var (s3, appended) := ExtractPending(s2, out.report, env.extract);
    hide FreshRefreshHolds;
    if appended {
      ScanKeepsRecordsSafe(s3, kind, env.followUpGrowth, env.followUpScan);
      var (s4, out2) := RunScan(s3, kind, env.followUpGrowth, env.followUpScan);
      if out2.Completed? {
        RefreshPendingIsFresh(QueueMaterialized(s4, out2.report), out2.report, env);
      }
    } else {
      RefreshPendingIsFresh(s3, out.report, env);
    }
  }

  /** A recorded pass is clean exactly when it completed and held nobody, at scan or at refresh. */
  lemma CleanIff(s: State, kind: PassKind, env: PassEnv)
    ensures var (t, out) := DerivedPass(s, kind, env);
            LastIsClean(RunAndFinish(s, kind, env).log) <==>
            out.Completed? && out.report.holds == [] && Accounts(t.refreshHolds) == []
  {
    hide DerivedPass, FailureSignature, RecordFailure;
    var (t, out) := DerivedPass(s, kind, env);
    RecordFailureFrame(t, kind, out, FailureSignature(out, t.refreshHolds), env.now);
  }

  /** After a pass that read records and holds somebody, the cursor is at the journal's end. */
  lemma CursorAtJournalEnd(s: State, kind: PassKind, env: PassEnv)
    requires RecordsSafe(s)
    requires var out := DerivedPass(s, kind, env).1;
             out.Completed? && out.report.holds != [] && out.report.recordsScanned > 0
    ensures var t := RunAndFinish(s, kind, env);
            t.journal != [] && t.cursor == Some(t.journal[|t.journal| - 1].pos)
  {
    hide RunScan, RefreshPending, RecordsSafeAt, ExtractAll, SortedSet, Unheld, RecordFailure, FailureSignature;
    ScanKeepsRecordsSafe(s, kind, env.growth, env.scan);
    ScanReachesJournalEnd(s, kind, env.growth, env.scan);
    var (s1, first) := RunScan(s, kind, env.growth, env.scan);
    var s2 := QueueMaterialized(s1, first.report).(refreshHolds := []);
    var accounts := SortedSet(Unheld(s2, first.report));
    ExtractAllKeepsRecordsSafe(s2, accounts, env.extract);
    var (s3, appended) := ExtractPending(s2, first.report, env.extract);
    if appended {
      ScanReachesJournalEnd(s3, kind, env.followUpGrowth, env.followUpScan);
      var (s4, out2) := RunScan(s3, kind, env.followUpGrowth, env.followUpScan);
      RefreshPendingFrame(QueueMaterialized(s4, out2.report), out2.report, env.refresh);
    } else {
      RefreshPendingFrame(s3, first.report, env.refresh);
    }
    var (t, out) := DerivedPass(s, kind, env);
    RecordFailureFrame(t, kind, out, FailureSignature(out, t.refreshHolds), env.now);
  }

  lemma ScanReachesJournalEnd(s: State, kind: PassKind, growth: seq<Draft>, env: ScanEnv)
    ensures var (t, out) := RunScan(s, kind, growth, env);
            out.Completed? && out.report.recordsScanned > 0 ==>
              t.journal != [] && out.report.scannedThrough == Some(t.journal[|t.journal| - 1].pos)
  {
    hide Scan, IndexOf, Extend;
  }
}
