/** Whole-run theorems of the materialization service, from its initial state. */
module MaterializationRuns {
  import opened Basics
  import opened Catchup
  import opened MaterializationSpec
  import opened MaterializationSafety
  import opened MaterializationRefresh
  import opened MaterializationWarnings

  ghost predicate Safe(s: State)
  {
    RecordsSafe(s) && RetrySafe(s) && RefreshSafe(s) && WarningsSafe(s)
  }

  lemma StepKeepsSafe(s: State, op: Op)
    requires Safe(s)
    ensures Safe(Step(s, op))
  {
    hide Step, RecordsSafe, RetrySafe, RefreshSafe, WarningsSafe;
    StepKeepsRecordsSafe(s, op);
    StepKeepsRetrySafe(s, op);
    StepKeepsRefreshSafe(s, op);
    StepKeepsWarnings(s, op);
  }

  lemma {:induction false} RunKeepsSafe(s: State, ops: seq<Op>)
    requires Safe(s)
    ensures Safe(Run(s, ops))
    decreases |ops|
  {
    hide Step, Safe;
    if ops != [] {
      StepKeepsSafe(s, ops[0]);
      RunKeepsSafe(Step(s, ops[0]), ops[1..]);
    }
  }

  /** Every state any run reaches is safe. */
  lemma EveryRunIsSafe(ops: seq<Op>)
    ensures Safe(Run(Init(), ops))
  {
    RunKeepsSafe(Init(), ops);
  }

  lemma {:induction false} RunAppend(s: State, ops: seq<Op>, op: Op)
    ensures Run(s, ops + [op]) == Step(Run(s, ops), op)
    decreases |ops|
  {
    hide Step;
    if ops == [] {
      assert Run(Step(s, op), []) == Step(s, op);
      assert (ops + [op])[1..] == [];
    } else {
      assert (ops + [op])[0] == ops[0] && (ops + [op])[1..] == ops[1..] + [op];
      RunAppend(Step(s, ops[0]), ops[1..], op);
    }
  }

  predicate AtOrBeforeCursor(s: State, k: nat)
  {
    s.cursor.Some? && k < |s.journal| && s.journal[k].pos.offset <= s.cursor.value.offset
  }

  /** In every reachable state, each durable record at or before a present cursor is
      materialized or belongs to a held account, and somebody is held. */
  lemma RecordsBeforeCursorAreSafe(ops: seq<Op>, k: nat)
    requires AtOrBeforeCursor(Run(Init(), ops), k)
    ensures var s := Run(Init(), ops);
            s.holds != [] && (s.journal[k].pos in s.catalog.applied || Held(s.holds, s.journal[k].account))
  {
    hide RetrySafe, RefreshSafe, WarningsSafe, Step;
    EveryRunIsSafe(ops);
    var s := Run(Init(), ops);
    var c := IndexOf(s.journal, s.cursor.value).value;
    OffsetsFollowOrder(s.journal, k, c);
  }

  lemma OffsetsFollowOrder(j: seq<Record>, k: nat, c: nat)
    requires Ordered(j) && k < |j| && c < |j| && j[k].pos.offset <= j[c].pos.offset
    ensures k <= c
  {
  }

  /** In every reachable state a running service has a retry armed exactly while a failure is
      outstanding, the main loop holds the armed source, and a stopped service has none. */
  lemma RetryIsArmedExactlyOnFailure(ops: seq<Op>)
    ensures var s := Run(Init(), ops);
            && (!s.stopped ==> (s.retrySource.Some? <==> s.failureRun > 0))
            && (s.stopped ==> s.retrySource.None?)
            && (s.retrySource.Some? ==> s.retrySource.value in s.attached)
            && 0 < s.retryInitial <= s.retryInterval <= s.retryMax < GUINT_MODULUS
  {
    hide RecordsSafe, RefreshSafe, WarningsSafe, Step;
    EveryRunIsSafe(ops);
  }

  /** On every trace two consecutive warnings of one failure, with no clean pass between them
      and the service running, are at least the maximum interval apart. */
  lemma WarningsAreRateLimited(ops: seq<Op>, i: nat, k: nat)
    requires RepeatsWarning(Run(Init(), ops).log, i, k)
    ensures var log := Run(Init(), ops).log; log[k].at - log[i].at >= log[k].window
  {
    hide RecordsSafe, RefreshSafe, RetrySafe, Step, WarningsLimited;
    EveryRunIsSafe(ops);
    RepeatedWarningsAreSpaced(Run(Init(), ops).log, i, k);
  }

  // ----- refreshes -----

  lemma {:induction false} RunDropsNothing(s: State, ops: seq<Op>)
    requires s.refreshInstalled && forall i :: 0 <= i < |ops| ==> ops[i] != SetRefresh(false)
    ensures NoDrops(s.log, Run(s, ops).log)
    decreases |ops|
  {
    hide Step;
    if ops != [] {
      StepDropsNothing(s, ops[0]);
      RunDropsNothing(Step(s, ops[0]), ops[1..]);
    }
  }

  /** From any reachable state with a refresh function installed, while it stays installed: an
      account pending there, or queued explicitly or reported by a completed scan later (event
      n - 1), is still pending or was refreshed successfully afterwards. */
  lemma NoRefreshIsLost(before: seq<Op>, ops: seq<Op>, n: nat, a: string)
    requires var s := Run(Init(), before);
             s.refreshInstalled && forall k :: 0 <= k < |ops| ==> ops[k] != SetRefresh(false)
    requires var s, t := Run(Init(), before), Run(Run(Init(), before), ops);
             || (n == |s.log| && a in s.pending)
             || (|s.log| < n <= |t.log| && Queues(t.log[n - 1], a))
    ensures var t := Run(Run(Init(), before), ops);
            a in t.pending || exists k :: n <= k < |t.log| && t.log[k] == Refreshed(a, true)
  {
    hide RetrySafe, WarningsSafe, RecordsSafe, Step, RefreshesInOrder, HoldsPending;
    var s := Run(Init(), before);
    var t := Run(s, ops);
    EveryRunIsSafe(before);
    RunKeepsSafe(s, ops);
    RunDropsNothing(s, ops);
    assert Awaits(t.log[..n], a) by {
      if n > |s.log| {
        assert t.log[..n][n - 1] == t.log[n - 1];
      } else {
        assert t.log[..n] == s.log;
      }
    }
    WaitsUntilSettled(t.log, n, a);
    if k :| n <= k < |t.log| && Settles(t.log[k], a) {
      assert !t.log[k].Dropped?;
    }
  }

  // ----- clean passes -----

  predicate EndsClean(s: State, t: State)
  {
    |s.log| < |t.log| && LastIsClean(t.log)
  }

  /** Nothing durable is unmaterialized, nobody is held, nobody waits for a refresh. */
  predicate CaughtUp(t: State)
  {
    && (forall k :: 0 <= k < |t.journal| ==> t.journal[k].pos in t.catalog.applied)
    && (t.journal != [] ==> t.catalog.checkpoint == Some(t.journal[|t.journal| - 1].pos))
    && t.holds == [] && t.cursor.None? && t.refreshHolds == [] && t.pending == {}
  }

  lemma CleanFinish(s: State, kind: PassKind, t: State, out: ScanOutcome, now: int)
    requires PassSafe(s, kind, t, out)
    requires out.Completed? && out.report.holds == [] && t.refreshHolds == [] ==> t.pending == {}
    requires LastIsClean(FinishPass(t, kind, out, now).log)
    ensures CaughtUp(FinishPass(t, kind, out, now))
    ensures kind.PassPostIngest? ==> s.holds == [] && s.cursor.None?
  {
    hide FailureSignature, RecordFailure, RecordsSafeAt;
    RecordFailureFrame(t, kind, out, FailureSignature(out, t.refreshHolds), now);
    forall k | 0 <= k < |t.journal| ensures t.journal[k].pos in t.catalog.applied {
      assert !Held([], t.journal[k].account);
    }
  }

  lemma CleanPass(s: State, kind: PassKind, env: PassEnv)
    requires RecordsSafe(s) && RefreshSafe(s)
    ensures LastIsClean(RunAndFinish(s, kind, env).log) ==>
              CaughtUp(RunAndFinish(s, kind, env)) &&
              (kind.PassPostIngest? ==> s.holds == [] && s.cursor.None?)
  {
    hide DerivedPass, FinishPass, CaughtUp, RefreshSafe, RecordsSafe, PassSafe;
    DerivedPassKeepsRecordsSafe(s, kind, env);
    DerivedPassKeepsRefreshSafe(s, kind, env);
    var (t, out) := DerivedPass(s, kind, env);
    if LastIsClean(FinishPass(t, kind, out, env.now).log) {
      CleanFinish(s, kind, t, out, env.now);
    }
  }

  lemma AbortLogged(s: State, kind: PassKind, env: PassEnv)
    ensures DerivedPass(s, kind, env).1.Aborted? ==> !LastIsClean(DerivedPass(s, kind, env).0.log)
  {
    hide Pass, RefreshPending, SortedSet, Unheld;
  }

  /** A pass ends clean only after a scan from the checkpoint that was given no holds, and
      then everything in the durable prefix it read is materialized and no refresh waits,
      with or without a refresh function. */
  lemma CleanMeansCaughtUp(s: State, op: Op)
    requires Safe(s) && (op.CatchUp? || op.PostIngest? || op.Fire?)
    requires EndsClean(s, Step(s, op))
    ensures CaughtUp(Step(s, op))
    ensures op.PostIngest? ==> s.holds == [] && s.cursor.None?
  {
    hide RunAndFinish, DerivedPass, CaughtUp, RefreshSafe, RetrySafe, WarningsSafe, RecordsSafeAt;
    match op
    case CatchUp(env) =>
      CleanPass(s, PassCatchUp, env);
      AbortLogged(s, PassCatchUp, env);
      CatchUpIsRunAndFinish(s, env);
    case PostIngest(env) => CleanPass(s, PassPostIngest, env);
    case Fire(source, env) =>
      var s1 := s.(attached := s.attached - {source}, retrySource := None);
      assert RefreshSafe(s1) by {
        StepKeepsRefreshSafe(s, Stop);
        RefreshIgnoresTimers(s, s1);
      }
      CleanPass(s1, PassRetry, env);
  }

  lemma RefreshIgnoresTimers(s: State, t: State)
    requires RefreshSafe(s) && t.log == s.log && t.pending == s.pending && t.refreshHolds == s.refreshHolds
    ensures RefreshSafe(t)
  {
    hide NothingLost, RefreshesInOrder, HoldsPending;
  }

  lemma CatchUpIsRunAndFinish(s: State, env: PassEnv)
    ensures DerivedPass(s, PassCatchUp, env).1.Completed? ==> CatchUpStep(s, env) == RunAndFinish(s, PassCatchUp, env)
  {
    hide DerivedPass, FinishPass;
  }

  // ----- backoff -----

  /** The backoff is set only while no retry has failed, as its documentation asks. */
  ghost predicate BackoffSetEarly(s: State, ops: seq<Op>)
    decreases |ops|
  {
    ops == [] || ((ops[0].SetBackoff? ==> s.failureRun <= 1) && BackoffSetEarly(Step(s, ops[0]), ops[1..]))
  }

  lemma {:induction false} RunKeepsBackoff(s: State, ops: seq<Op>)
    requires Safe(s) && BackoffExact(s) && BackoffSetEarly(s, ops)
    ensures BackoffExact(Run(s, ops))
    decreases |ops|
  {
    hide Step, RefreshSafe, WarningsSafe, RecordsSafe, RetrySafe, BackoffExact;
    if ops != [] {
      StepKeepsSafe(s, ops[0]);
      StepKeepsBackoff(s, ops[0]);
      RunKeepsBackoff(Step(s, ops[0]), ops[1..]);
    }
  }

  /** On every such run the retry interval is min(max, initial * 2^(max(failures, 1) - 1)). */
  lemma EveryRunBacksOffExactly(ops: seq<Op>)
    requires BackoffSetEarly(Init(), ops)
    ensures BackoffExact(Run(Init(), ops))
  {
    RunKeepsBackoff(Init(), ops);
  }
}
