/** Safety of the materialization service over every run of its operations. */
module MaterializationSafety {
  import opened Basics
  import opened Catchup
  import opened MaterializationSpec

  // ----- records: journal, catalog, cursor and holds -----

  /** Every durable record at or before a present cursor is materialized or belongs to a
      held account, and a cursor is present only while accounts are held. */
  predicate RecordsSafe(s: State)
  {
    RecordsSafeAt(s.journal, s.catalog, s.cursor, s.holds)
  }

  predicate RecordsSafeAt(j: seq<Record>, c: Catalog, cursor: Option<Position>, holds: seq<Hold>)
  {
    && Ordered(j)
    && CheckpointSound(j, c)
    && ResumeSound(j, c, cursor, holds)
    && (cursor.Some? ==> holds != [])
    && HoldsDistinct(holds)
  }

  lemma {:induction false} ExtendOrdered(j: seq<Record>, drafts: seq<Draft>)
    requires Ordered(j)
    ensures Ordered(Extend(j, drafts)) && j <= Extend(j, drafts)
    decreases |drafts|
  {
    if drafts != [] {
      ExtendOrdered(j + [NextRecord(j, drafts[0])], drafts[1..]);
    }
  }

  lemma IndexOfPrefix(j: seq<Record>, j': seq<Record>, p: Position)
    requires Ordered(j') && j <= j' && IndexOf(j, p).Some?
    ensures IndexOf(j', p) == IndexOf(j, p)
  {
    var k := IndexOf(j, p).value;
    assert j'[k] == j[k];
    IndexOfRecord(j', k);
  }

  lemma GrowthKeepsRecordsSafe(s: State, drafts: seq<Draft>)
    requires RecordsSafe(s)
    ensures RecordsSafe(s.(journal := Extend(s.journal, drafts)))
  {
    var j' := Extend(s.journal, drafts);
    ExtendOrdered(s.journal, drafts);
    if s.catalog.checkpoint.Some? {
      IndexOfPrefix(s.journal, j', s.catalog.checkpoint.value);
    }
    if s.cursor.Some? {
      IndexOfPrefix(s.journal, j', s.cursor.value);
    }
  }

  /** Fields no pass touches before it is finished. */
  predicate SameControl(s: State, t: State)
  {
    t == s.(journal := t.journal, catalog := t.catalog, pending := t.pending,
            refreshHolds := t.refreshHolds, log := t.log)
  }

  /** What a completed scan promises about the report it returns. */
  predicate ReportSafe(s: State, holdsBefore: seq<Hold>, kind: PassKind, report: Report)
  {
    && (kind.PassPostIngest? ==> holdsBefore <= report.holds)
    && HoldsDistinct(report.holds)
    && Covered(s.journal, |s.journal|, s.catalog.applied, report.holds)
    && ResumeSound(s.journal, s.catalog, report.scannedThrough, report.holds)
    && (kind.PassPostIngest? && report.holds == [] ==> s.cursor.None?)
    && (report.holds == [] && s.journal != [] ==>
          s.catalog.checkpoint == Some(s.journal[|s.journal| - 1].pos))
  }

  lemma CoverageKeepsResume(j: seq<Record>, c: Catalog, c': Catalog, resume: Option<Position>, holds: seq<Hold>)
    requires ResumeSound(j, c, resume, holds) && c.applied <= c'.applied
    ensures ResumeSound(j, c', resume, holds)
  {
  }

  lemma ScanKeepsRecordsSafe(s: State, kind: PassKind, growth: seq<Draft>, env: ScanEnv)
    requires RecordsSafe(s)
    ensures var (t, out) := RunScan(s, kind, growth, env);
            && RecordsSafe(t) && SameControl(s, t)
            && t.pending == s.pending && t.refreshHolds == s.refreshHolds
            && (out.Completed? ==> ReportSafe(t, s.holds, kind, out.report))
  {
    GrowthKeepsRecordsSafe(s, growth);
    var g := s.(journal := Extend(s.journal, growth));
    var resume := if kind.PassPostIngest? then s.cursor else None;
    var prior := if kind.PassPostIngest? then s.holds else [];
    PassSound(g.journal, g.catalog, resume, prior, env);
    var (t, out) := RunScan(s, kind, growth, env);
    CoverageKeepsResume(t.journal, g.catalog, t.catalog, s.cursor, s.holds);
    if out.Completed? && out.report.holds == [] {
      assert resume.None?;
      CleanPassReachesEnd(g.journal, g.catalog, prior, env);
    }
  }

  lemma {:induction false} ExtractAllKeepsRecordsSafe(s: State, accounts: seq<string>, extract: string -> ExtractAnswer)
    requires RecordsSafe(s)
    ensures var t := ExtractAll(s, accounts, extract);
            RecordsSafe(t) && SameControl(s, t) && t.catalog == s.catalog && t.pending == s.pending
    ensures !AppendedAny(accounts, extract) ==> ExtractAll(s, accounts, extract).journal == s.journal
    decreases |accounts|
  {
    if accounts != [] {
      var answer := extract(accounts[0]);
      GrowthKeepsRecordsSafe(s, answer.appended);
      ExtractAllKeepsRecordsSafe(ExtractOne(s, accounts[0], answer), accounts[1..], extract);
      if !AppendedAny(accounts, extract) {
        assert answer.appended == [];
        assert forall i :: 0 <= i < |accounts[1..]| ==> accounts[1..][i] == accounts[i + 1];
      }
    }
  }

  lemma {:induction false} RefreshAllFrame(s: State, accounts: seq<string>, refresh: string -> Option<string>)
    ensures var t := RefreshAll(s, accounts, refresh);
            SameControl(s, t) && t.journal == s.journal && t.catalog == s.catalog
    decreases |accounts|
  {
    if accounts != [] {
      RefreshAllFrame(RefreshOne(s, accounts[0], refresh(accounts[0])), accounts[1..], refresh);
    }
  }

  lemma {:induction false} DropAllFrame(s: State, accounts: seq<string>)
    ensures var t := DropAll(s, accounts);
            && SameControl(s, t) && t.journal == s.journal && t.catalog == s.catalog
            && t.refreshHolds == s.refreshHolds && t.pending == s.pending - SetOf(accounts)
    decreases |accounts|
  {
    if accounts != [] {
      DropAllFrame(s.(pending := s.pending - {accounts[0]}, log := s.log + [Dropped(accounts[0])]), accounts[1..]);
      assert SetOf(accounts) == {accounts[0]} + SetOf(accounts[1..]) by {
        assert accounts == [accounts[0]] + accounts[1..];
      }
    } else {
      assert s.pending - SetOf(accounts) == s.pending;
    }
  }

  lemma RefreshPendingFrame(s: State, report: Report, refresh: string -> Option<string>)
    ensures var t := RefreshPending(s, report, refresh);
            SameControl(s, t) && t.journal == s.journal && t.catalog == s.catalog
  {
    RefreshAllFrame(s, SortedSet(Unheld(s, report)), refresh);
    DropAllFrame(s, SortedSet(set a | a in s.pending && !Held(s.refreshHolds, a)));
  }

  /** What a whole pass keeps before it is finished. */
  predicate PassSafe(s: State, kind: PassKind, t: State, out: ScanOutcome)
  {
    && RecordsSafe(t) && SameControl(s, t)
    && (out.Completed? ==> ReportSafe(t, s.holds, kind, out.report))
  }

  lemma FollowUpKeepsRecordsSafe(s: State, kind: PassKind, env: PassEnv)
    requires RecordsSafe(s)
    ensures PassSafe(s, kind, FollowUp(s, kind, env).0, FollowUp(s, kind, env).1)
  {
    hide RunScan, RefreshPending, RecordsSafeAt;
    var (s', out) := RunScan(s, kind, env.followUpGrowth, env.followUpScan);
    ScanKeepsRecordsSafe(s, kind, env.followUpGrowth, env.followUpScan);
    if out.Completed? {
      RefreshPendingFrame(QueueMaterialized(s', out.report), out.report, env.refresh);
    }
  }

  lemma AfterScanKeepsRecordsSafe(s: State, kind: PassKind, env: PassEnv, report: Report)
    requires RecordsSafe(s) && ReportSafe(s, s.holds, kind, report)
    ensures PassSafe(s, kind, AfterScan(s, kind, env, report).0, AfterScan(s, kind, env, report).1)
  {
    var s2 := QueueMaterialized(s, report).(refreshHolds := []);
    var (s3, appended) := ExtractPending(s2, report, env.extract);
    ExtractAllKeepsRecordsSafe(s2, SortedSet(Unheld(s2, report)), env.extract);
    if appended {
      FollowUpKeepsRecordsSafe(s3, kind, env);
    } else {
      RefreshPendingFrame(s3, report, env.refresh);
    }
  }

  lemma DerivedPassKeepsRecordsSafe(s: State, kind: PassKind, env: PassEnv)
    requires RecordsSafe(s)
    ensures PassSafe(s, kind, DerivedPass(s, kind, env).0, DerivedPass(s, kind, env).1)
  {
    hide RunScan, AfterScan, RecordsSafeAt;
    var (s1, out) := RunScan(s, kind, env.growth, env.scan);
    ScanKeepsRecordsSafe(s, kind, env.growth, env.scan);
    if out.Completed? {
      AfterScanKeepsRecordsSafe(s1, kind, env, out.report);
    }
  }

  lemma RecordFailureFrame(s: State, kind: PassKind, out: ScanOutcome, signature: string, now: int)
    ensures var t := RecordFailure(s, kind, out, signature, now);
            && t.journal == s.journal && t.catalog == s.catalog
            && t.pending == s.pending && t.refreshHolds == s.refreshHolds
            && t.holds == (if out.Completed? then out.report.holds else s.holds)
            && t.cursor == (if out.Completed? && out.report.holds != [] then out.report.scannedThrough else None)
            && t.log == s.log + [PassFailed(kind, out.Aborted?, signature, now, Warns(s, signature, now), s.stopped, Window(s))]
  {
    hide Warns, Window, Doubled;
  }

  lemma FinishKeepsRecordsSafe(s: State, kind: PassKind, out: ScanOutcome, now: int, holdsBefore: seq<Hold>)
    requires RecordsSafe(s) && (out.Completed? ==> ReportSafe(s, holdsBefore, kind, out.report))
    ensures RecordsSafe(FinishPass(s, kind, out, now))
  {
    var signature := FailureSignature(out, s.refreshHolds);
    RecordFailureFrame(s, kind, out, signature, now);
    assert RecordsSafe(RecordFailure(s, kind, out, signature, now));
    assert RecordsSafe(FinishClean(s));
  }

  lemma StepKeepsRecordsSafe(s: State, op: Op)
    requires RecordsSafe(s)
    ensures RecordsSafe(Step(s, op))
  {
    hide CatchUpStep, RunAndFinish, RecordsSafeAt;
    match op
    case Append(drafts) => GrowthKeepsRecordsSafe(s, drafts);
    case CatchUp(env) => PassKeepsRecordsSafe(s, PassCatchUp, env);
    case PostIngest(env) => PassKeepsRecordsSafe(s, PassPostIngest, env);
    case Fire(source, env) =>
      PassKeepsRecordsSafe(s.(attached := s.attached - {source}, retrySource := None), PassRetry, env);
    case _ =>
  }

  lemma PassKeepsRecordsSafe(s: State, kind: PassKind, env: PassEnv)
    requires RecordsSafe(s)
    ensures RecordsSafe(RunAndFinish(s, kind, env))
    ensures kind.PassCatchUp? ==> RecordsSafe(CatchUpStep(s, env))
  {
    hide DerivedPass, FinishPass;
    DerivedPassKeepsRecordsSafe(s, kind, env);
    var (t, out) := DerivedPass(s, kind, env);
    FinishKeepsRecordsSafe(t, kind, out, env.now, s.holds);
  }

  /** A post-ingest pass only adds holds; no other operation but a full pass touches them. */
  lemma OnlyFullPassesDropHolds(s: State, op: Op)
    requires RecordsSafe(s)
    requires op.CatchUp? ==> DerivedPass(s, PassCatchUp, op.env).1.Aborted?
    requires op.Fire? ==> op.source !in s.attached || s.stopped || s.retrySource != Some(op.source)
    ensures s.holds <= Step(s, op).holds
  {
    hide DerivedPass, FailureSignature, RecordsSafeAt;
    match op
    case CatchUp(env) => DerivedPassKeepsRecordsSafe(s, PassCatchUp, env);
    case PostIngest(env) => DerivedPassKeepsRecordsSafe(s, PassPostIngest, env);
    case _ =>
  }

  // ----- the retry timer and its backoff -----

  predicate RetryBounds(s: State)
  {
    && (forall id :: id in s.attached ==> id < s.nextSource)
    && (s.failureRun < GUINT_MODULUS ==> s.consecutiveFailures == s.failureRun)
    && 0 < s.retryInitial <= s.retryInterval <= s.retryMax < GUINT_MODULUS
  }

  /** A retry is armed exactly while failures are outstanding and the service runs, and
      the armed source is one the main loop holds. */
  predicate RetrySafe(s: State)
  {
    && RetryBounds(s)
    && (s.retrySource.Some? ==> s.retrySource.value in s.attached)
    && (s.stopped ==> s.retrySource.None?)
    && (!s.stopped ==> (s.retrySource.Some? <==> s.failureRun > 0))
  }

  /** Between taking the fired source out and finishing its pass. */
  predicate RetryTaken(s: State)
  {
    RetryBounds(s) && s.retrySource.None? && !s.stopped && s.failureRun > 0
  }

  predicate RetryReady(s: State, kind: PassKind)
  {
    if kind.PassRetry? then RetryTaken(s) else RetrySafe(s)
  }

  lemma RecordFailureKeepsRetrySafe(s: State, kind: PassKind, out: ScanOutcome, signature: string, now: int)
    requires RetryReady(s, kind)
    ensures RetrySafe(RecordFailure(s, kind, out, signature, now))
  {
  }

  lemma PassKeepsRetrySafe(s: State, kind: PassKind, env: PassEnv)
    requires RecordsSafe(s) && RetryReady(s, kind)
    ensures RetrySafe(RunAndFinish(s, kind, env))
    ensures kind.PassCatchUp? ==> RetrySafe(CatchUpStep(s, env))
  {
    hide DerivedPass, FailureSignature, RecordFailure;
    DerivedPassKeepsRecordsSafe(s, kind, env);
    var (t, out) := DerivedPass(s, kind, env);
    RecordFailureKeepsRetrySafe(t, kind, out, FailureSignature(out, t.refreshHolds), env.now);
  }

  lemma StepKeepsRetrySafe(s: State, op: Op)
    requires RecordsSafe(s) && RetrySafe(s)
    ensures RetrySafe(Step(s, op))
  {
    hide RunAndFinish, CatchUpStep, FireStep;
    match op
    case CatchUp(env) => PassKeepsRetrySafe(s, PassCatchUp, env);
    case PostIngest(env) => PassKeepsRetrySafe(s, PassPostIngest, env);
    case Fire(source, env) => FireKeepsRetrySafe(s, source, env);
    case _ =>
  }

  lemma FireKeepsRetrySafe(s: State, source: nat, env: PassEnv)
    requires RecordsSafe(s) && RetrySafe(s)
    ensures RetrySafe(FireStep(s, source, env))
  {
    if source in s.attached && !s.stopped && s.retrySource == Some(source) {
      PassKeepsRetrySafe(s.(attached := s.attached - {source}, retrySource := None), PassRetry, env);
    }
  }

  /** A source that is not the current retry source, or fires after stop, does nothing
      but leave the main loop; and a current one is always one the main loop holds. */
  lemma StaleSourceChangesNothing(s: State, source: nat, env: PassEnv)
    requires s.stopped || s.retrySource != Some(source)
    ensures Step(s, Fire(source, env)) == s.(attached := s.attached - {source})
  {
    if source !in s.attached {
      assert s.attached - {source} == s.attached;
    }
  }

  /** A pending retry survives every failure that is not its own. */
  lemma PendingRetryIsNeverReplaced(s: State, op: Op)
    requires RecordsSafe(s) && s.retrySource.Some?
    requires op.CatchUp? || op.PostIngest?
    ensures Step(s, op).retrySource == s.retrySource || LastIsClean(Step(s, op).log)
  {
    hide DerivedPass, FailureSignature, RecordsSafeAt;
    DerivedPassKeepsRecordsSafe(s, if op.CatchUp? then PassCatchUp else PassPostIngest, op.env);
  }

  predicate LastIsClean(log: seq<Event>)
  {
    log != [] && log[|log| - 1].PassClean?
  }

  function Pow2(n: nat): nat
  {
    if n == 0 then 1 else 2 * Pow2(n - 1)
  }

  function Min(a: int, b: int): int
  {
    if a <= b then a else b
  }

  /** The doubling backoff in closed form. */
  function Backoff(initial: nat, max: nat, failures: nat): int
  {
    Min(max, initial * Pow2(if failures == 0 then 0 else failures - 1))
  }

  predicate BackoffExact(s: State)
  {
    s.retryInterval == Backoff(s.retryInitial, s.retryMax, s.failureRun)
  }

  lemma DoublingIsExact(s: State)
    requires RetryBounds(s)
    requires BackoffExact(s) && s.failureRun > 0
    ensures Doubled(s) == Backoff(s.retryInitial, s.retryMax, s.failureRun + 1)
    ensures Doubled(s) < GUINT_MODULUS && (s.retryInterval <= s.retryMax / 2 ==> s.retryInterval * 2 < GUINT_MODULUS)
  {
    var x := s.retryInitial * Pow2(s.failureRun - 1);
    assert s.retryInitial * Pow2(s.failureRun) == 2 * x by {
      assert Pow2(s.failureRun) == 2 * Pow2(s.failureRun - 1);
    }
  }

  lemma PowPositive(n: nat)
    ensures Pow2(n) >= 1
  {
  }

  /** Changing the backoff keeps the closed form exactly when no retry has failed yet or
      the two bounds coincide; the interval stays within its bounds either way. */
  lemma SetBackoffExactly(s: State, initial: nat, max: nat)
    requires 0 < initial <= max < GUINT_MODULUS
    ensures BackoffExact(Step(s, SetBackoff(initial, max))) <==> s.failureRun <= 1 || initial == max
  {
    if s.failureRun > 1 {
      PowPositive(s.failureRun - 2);
      assert Pow2(s.failureRun - 1) == 2 * Pow2(s.failureRun - 2);
      assert initial * Pow2(s.failureRun - 1) >= initial * 2 by {
        assert Pow2(s.failureRun - 1) >= 2;
      }
    }
  }

  lemma RecordFailureKeepsBackoff(s: State, kind: PassKind, out: ScanOutcome, signature: string, now: int)
    requires RetryReady(s, kind) && BackoffExact(s)
    ensures BackoffExact(RecordFailure(s, kind, out, signature, now))
  {
    if kind.PassRetry? {
      DoublingIsExact(s);
    }
  }

  lemma PassKeepsBackoff(s: State, kind: PassKind, env: PassEnv)
    requires RecordsSafe(s) && RetryReady(s, kind) && BackoffExact(s)
    ensures BackoffExact(RunAndFinish(s, kind, env))
    ensures kind.PassCatchUp? ==> BackoffExact(CatchUpStep(s, env))
  {
    hide DerivedPass, FailureSignature, RecordFailure;
    DerivedPassKeepsRecordsSafe(s, kind, env);
    var (t, out) := DerivedPass(s, kind, env);
    RecordFailureKeepsBackoff(t, kind, out, FailureSignature(out, t.refreshHolds), env.now);
  }

  lemma StepKeepsBackoff(s: State, op: Op)
    requires RecordsSafe(s) && RetrySafe(s) && BackoffExact(s)
    requires op.SetBackoff? ==> s.failureRun <= 1
    ensures BackoffExact(Step(s, op))
  {
    hide RunAndFinish, CatchUpStep;
    match op
    case CatchUp(env) => PassKeepsBackoff(s, PassCatchUp, env);
    case PostIngest(env) => PassKeepsBackoff(s, PassPostIngest, env);
    case Fire(source, env) =>
      if source in s.attached && !s.stopped && s.retrySource == Some(source) {
        PassKeepsBackoff(s.(attached := s.attached - {source}, retrySource := None), PassRetry, env);
      }
    case SetBackoff(initial, max) =>
      if 0 < initial <= max < GUINT_MODULUS {
        SetBackoffExactly(s, initial, max);
      }
    case _ =>
  }
}
