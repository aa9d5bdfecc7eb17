/** No refresh is lost, and no refresh runs ahead of the records it depends on. */
module MaterializationRefresh {
  import opened Basics
  import opened Catchup
  import opened MaterializationSpec
  import opened MaterializationSafety

  predicate Queues(e: Event, a: string)
  {
    e == Queued(a) || (e.Scanned? && a in e.report.materialized)
  }

  /** A successful refresh, or a pass that had no refresh function to call. */
  predicate Settles(e: Event, a: string)
  {
    e == Refreshed(a, true) || e == Dropped(a)
  }

  /** Was account a queued and not settled since? */
  predicate Awaits(log: seq<Event>, a: string)
  {
    var n := |log| - 1;
    log != [] && (Queues(log[n], a) || (!Settles(log[n], a) && Awaits(log[..n], a)))
  }

  /** The pending accounts are exactly those queued and not settled since. */
  ghost predicate NothingLost(log: seq<Event>, pending: set<string>)
  {
    forall a :: a in pending <==> Awaits(log, a)
  }

  lemma NothingLostStep(log: seq<Event>, pending: set<string>, e: Event, pending': set<string>)
    requires NothingLost(log, pending)
    requires forall a :: a in pending' <==> Queues(e, a) || (a in pending && !Settles(e, a))
    ensures NothingLost(log + [e], pending')
  {
    assert (log + [e])[..|log|] == log;
  }

  /** Whoever waits after n events still waits, or was settled by a later one. */
  lemma {:induction false} WaitsUntilSettled(log: seq<Event>, n: nat, a: string)
    requires n <= |log| && Awaits(log[..n], a)
    ensures Awaits(log, a) || exists k :: n <= k < |log| && Settles(log[k], a)
    decreases |log|
  {
    if n < |log| {
      var m := |log| - 1;
      assert log[..m][..n] == log[..n];
      WaitsUntilSettled(log[..m], n, a);
      if k :| n <= k < m && Settles(log[..m][k], a) {
        assert Settles(log[k], a);
      }
    } else {
      assert log[..n] == log;
    }
  }

  /** The report of the last completed scan. */
  function LastReport(log: seq<Event>): Option<Report>
  {
    if log == [] then None
    else if log[|log| - 1].Scanned? then Some(log[|log| - 1].report)
    else LastReport(log[..|log| - 1])
  }

  /** Extracted records that no completed scan has read yet. */
  predicate Unread(log: seq<Event>)
  {
    log != [] && !log[|log| - 1].Scanned? &&
    ((log[|log| - 1].Extracted? && log[|log| - 1].appended > 0) || Unread(log[..|log| - 1]))
  }

  /** May account a be refreshed now? */
  predicate Refreshable(log: seq<Event>, a: string)
  {
    LastReport(log).Some? && !Held(LastReport(log).value.holds, a) && !Unread(log)
  }

  predicate RefreshesInOrder(log: seq<Event>)
  {
    forall k :: 0 <= k < |log| && log[k].Refreshed? ==> Refreshable(log[..k], log[k].account)
  }

  lemma RefreshesInOrderStep(log: seq<Event>, e: Event)
    requires RefreshesInOrder(log)
    requires e.Refreshed? ==> Refreshable(log, e.account)
    ensures RefreshesInOrder(log + [e])
    ensures (log + [e])[..|log|] == log
  {
    var log' := log + [e];
    assert log'[..|log|] == log;
    forall k | 0 <= k < |log'| && log'[k].Refreshed? ensures Refreshable(log'[..k], log'[k].account) {
      if k < |log| {
        assert log'[..k] == log[..k] && log'[k] == log[k];
      }
    }
  }

  /** Refresh holds name distinct accounts, all of them still pending. */
  predicate HoldsPending(refreshHolds: seq<Hold>, pending: set<string>)
  {
    && HoldsDistinct(refreshHolds)
    && forall i :: 0 <= i < |refreshHolds| ==> refreshHolds[i].account in pending
  }

  ghost predicate RefreshSafe(s: State)
  {
    NothingLost(s.log, s.pending) && RefreshesInOrder(s.log) && HoldsPending(s.refreshHolds, s.pending)
  }

  /** One event that changes neither what is pending nor what may be refreshed. */
  lemma QuietEvent(s: State, e: Event)
    requires RefreshSafe(s)
    requires e.ScanAborted? || e.PassClean? || e.PassFailed? || e.Extracted?
    ensures RefreshSafe(s.(log := s.log + [e]))
  {
    NothingLostStep(s.log, s.pending, e, s.pending);
    RefreshesInOrderStep(s.log, e);
  }

  // ----- scans -----

  /** A scan that completes queues what it reports before anything else happens. */
  lemma ScanKeepsRefreshSafe(s: State, kind: PassKind, growth: seq<Draft>, env: ScanEnv)
    requires RefreshSafe(s)
    ensures var (t, out) := RunScan(s, kind, growth, env);
            && (out.Aborted? ==> RefreshSafe(t))
            && (out.Completed? ==>
                  && RefreshSafe(QueueMaterialized(t, out.report))
                  && LastReport(t.log) == Some(out.report) && !Unread(t.log)
                  && s.pending + out.report.materialized == QueueMaterialized(t, out.report).pending)
  {
    hide Pass, NothingLost, RefreshesInOrder;
    var (t, out) := RunScan(s, kind, growth, env);
    if out.Aborted? {
      QuietEvent(s, ScanAborted);
    } else {
      NothingLostStep(s.log, s.pending, Scanned(out.report), s.pending + out.report.materialized);
      RefreshesInOrderStep(s.log, Scanned(out.report));
    }
  }

  // ----- extraction -----

  /** The accounts still to be handled: pending and not yet refresh-held. */
  ghost predicate Todo(s: State, accounts: seq<string>)
  {
    Distinct(accounts) &&
    forall i :: 0 <= i < |accounts| ==> accounts[i] in s.pending && !Held(s.refreshHolds, accounts[i])
  }

  lemma AddRefreshHold(s: State, account: string, message: string)
    requires HoldsPending(s.refreshHolds, s.pending) && account in s.pending && !Held(s.refreshHolds, account)
    ensures HoldsPending(s.refreshHolds + [RefreshHold(account, message)], s.pending)
  {
    assert forall i :: 0 <= i < |s.refreshHolds| ==> s.refreshHolds[i].account != account;
  }

  lemma TodoTail(s: State, accounts: seq<string>, t: State)
    requires accounts != [] && Todo(s, accounts)
    requires t.pending == s.pending || t.pending == s.pending - {accounts[0]}
    requires t.refreshHolds == s.refreshHolds ||
             exists m :: t.refreshHolds == s.refreshHolds + [RefreshHold(accounts[0], m)]
    ensures Todo(t, accounts[1..])
  {
    forall i | 0 <= i < |accounts[1..]|
      ensures accounts[1..][i] in t.pending && !Held(t.refreshHolds, accounts[1..][i])
    {
      assert accounts[1..][i] == accounts[i + 1] && accounts[0] != accounts[i + 1];
      if t.refreshHolds != s.refreshHolds {
        var m :| t.refreshHolds == s.refreshHolds + [RefreshHold(accounts[0], m)];
      }
    }
  }

  lemma {:induction false} ExtractAllKeepsRefreshSafe(s: State, accounts: seq<string>, extract: string -> ExtractAnswer)
    requires RefreshSafe(s) && Todo(s, accounts)
    ensures var t := ExtractAll(s, accounts, extract);
            && RefreshSafe(t) && t.pending == s.pending
            && LastReport(t.log) == LastReport(s.log)
            && (!AppendedAny(accounts, extract) ==> Unread(t.log) == Unread(s.log))
    decreases |accounts|
  {
    hide NothingLost, RefreshesInOrder, HoldsPending;
    if accounts != [] {
      var answer := extract(accounts[0]);
      var t := ExtractOne(s, accounts[0], answer);
      var e := Extracted(accounts[0], answer.error.None?, |answer.appended|);
      QuietEvent(s, e);
      assert t.log[..|s.log|] == s.log;
      if answer.error.Some? {
        AddRefreshHold(s, accounts[0], "fact extraction failed: " + answer.error.value);
      }
      TodoTail(s, accounts, t);
      ExtractAllKeepsRefreshSafe(t, accounts[1..], extract);
      if !AppendedAny(accounts, extract) {
        assert answer.appended == [];
        assert forall i :: 0 <= i < |accounts[1..]| ==> accounts[1..][i] == accounts[i + 1];
      }
    }
  }

  // ----- refresh -----

  lemma {:induction false} RefreshAllKeepsRefreshSafe(s: State, accounts: seq<string>,
                                                      refresh: string -> Option<string>, report: Report)
    requires RefreshSafe(s) && Todo(s, accounts)
    requires LastReport(s.log) == Some(report) && !Unread(s.log)
    requires forall i :: 0 <= i < |accounts| ==> !Held(report.holds, accounts[i])
    ensures var t := RefreshAll(s, accounts, refresh);
            && RefreshSafe(t)
            && s.refreshHolds <= t.refreshHolds
            && t.pending <= s.pending
            && (t.refreshHolds == [] ==> t.pending == s.pending - SetOf(accounts))
    decreases |accounts|
  {
    hide NothingLost, RefreshesInOrder, HoldsPending, LastReport, Unread;
    if accounts == [] {
      assert s.pending - SetOf(accounts) == s.pending;
    } else {
      var a := accounts[0];
      var t := RefreshOne(s, a, refresh(a));
      RefreshOneKeepsRefreshSafe(s, a, refresh(a), report);
      TodoTail(s, accounts, t);
      assert forall i :: 0 <= i < |accounts[1..]| ==> accounts[1..][i] == accounts[i + 1];
      RefreshAllKeepsRefreshSafe(t, accounts[1..], refresh, report);
      assert SetOf(accounts) == {a} + SetOf(accounts[1..]) by {
        assert accounts == [a] + accounts[1..];
      }
    }
  }

  lemma RefreshOneKeepsRefreshSafe(s: State, a: string, error: Option<string>, report: Report)
    requires RefreshSafe(s) && a in s.pending && !Held(s.refreshHolds, a)
    requires LastReport(s.log) == Some(report) && !Unread(s.log) && !Held(report.holds, a)
    ensures var t := RefreshOne(s, a, error);
            RefreshSafe(t) && LastReport(t.log) == Some(report) && !Unread(t.log)
  {
    hide NothingLost, RefreshesInOrder;
    var t := RefreshOne(s, a, error);
    var e := Refreshed(a, error.None?);
    assert t.log[..|s.log|] == s.log;
    RefreshesInOrderStep(s.log, e);
    NothingLostStep(s.log, s.pending, e, t.pending);
    if error.Some? {
      AddRefreshHold(s, a, error.value);
    } else {
      assert forall i :: 0 <= i < |s.refreshHolds| ==> s.refreshHolds[i].account != a;
    }
  }

  lemma {:induction false} DropAllKeepsRefreshSafe(s: State, accounts: seq<string>)
    requires RefreshSafe(s) && Todo(s, accounts)
    ensures var t := DropAll(s, accounts);
            RefreshSafe(t) && t.refreshHolds == s.refreshHolds && t.pending == s.pending - SetOf(accounts)
    decreases |accounts|
  {
    hide NothingLost, RefreshesInOrder;
    if accounts == [] {
      assert s.pending - SetOf(accounts) == s.pending;
    } else {
      var a := accounts[0];
      var t := s.(pending := s.pending - {a}, log := s.log + [Dropped(a)]);
      NothingLostStep(s.log, s.pending, Dropped(a), t.pending);
      RefreshesInOrderStep(s.log, Dropped(a));
      assert forall i :: 0 <= i < |s.refreshHolds| ==> s.refreshHolds[i].account != a;
      TodoTail(s, accounts, t);
      DropAllKeepsRefreshSafe(t, accounts[1..]);
      assert SetOf(accounts) == {a} + SetOf(accounts[1..]) by {
        assert accounts == [a] + accounts[1..];
      }
    }
  }

  lemma UnheldTodo(s: State, report: Report)
    ensures Todo(s, SortedSet(Unheld(s, report)))
    ensures SetOf(SortedSet(Unheld(s, report))) == Unheld(s, report)
  {
    var us := Unheld(s, report);
    SortedSetMembers(us);
    forall i | 0 <= i < |SortedSet(us)| ensures SortedSet(us)[i] in us {
      assert SortedSet(us)[i] in SetOf(SortedSet(us));
    }
  }

  /** Refreshing keeps the books; when nobody ends up held, nobody is left pending. */
  lemma RefreshPendingKeepsRefreshSafe(s: State, report: Report, refresh: string -> Option<string>)
    requires RefreshSafe(s) && LastReport(s.log) == Some(report) && !Unread(s.log)
    ensures var t := RefreshPending(s, report, refresh);
            && RefreshSafe(t)
            && s.refreshHolds <= t.refreshHolds
            && (report.holds == [] && t.refreshHolds == [] ==> t.pending == {})
  {
    hide NothingLost, RefreshesInOrder, HoldsPending;
    var t := RefreshPending(s, report, refresh);
    if s.refreshInstalled {
      UnheldTodo(s, report);
      var accounts := SortedSet(Unheld(s, report));
      forall i | 0 <= i < |accounts| ensures !Held(report.holds, accounts[i]) {
        assert accounts[i] in SetOf(accounts);
      }
      RefreshAllKeepsRefreshSafe(s, accounts, refresh, report);
      if report.holds == [] && t.refreshHolds == [] {
        assert Unheld(s, report) == s.pending;
      }
    } else {
      var idle := set a | a in s.pending && !Held(s.refreshHolds, a);
      assert idle == Unheld(s, report.(holds := []));
      UnheldTodo(s, report.(holds := []));
      DropAllKeepsRefreshSafe(s, SortedSet(idle));
    }
  }

  // ----- whole passes -----

  lemma FollowUpKeepsRefreshSafe(s: State, kind: PassKind, env: PassEnv)
    requires RefreshSafe(s)
    ensures var (t, out) := FollowUp(s, kind, env);
            RefreshSafe(t) && (out.Completed? && out.report.holds == [] && t.refreshHolds == [] ==> t.pending == {})
  {
    hide RunScan, RefreshPending, RefreshSafe;
    var (s', out) := RunScan(s, kind, env.followUpGrowth, env.followUpScan);
    ScanKeepsRefreshSafe(s, kind, env.followUpGrowth, env.followUpScan);
    if out.Completed? {
      RefreshPendingKeepsRefreshSafe(QueueMaterialized(s', out.report), out.report, env.refresh);
    }
  }

  lemma AfterScanKeepsRefreshSafe(s: State, kind: PassKind, env: PassEnv, report: Report)
    requires RefreshSafe(QueueMaterialized(s, report)) && LastReport(s.log) == Some(report) && !Unread(s.log)
    ensures var (t, out) := AfterScan(s, kind, env, report);
            RefreshSafe(t) && (out.Completed? && out.report.holds == [] && t.refreshHolds == [] ==> t.pending == {})
  {
    hide RefreshPending, NothingLost, RefreshesInOrder, FollowUp, SortedSet, Unheld;
    var s2 := QueueMaterialized(s, report).(refreshHolds := []);
    assert RefreshSafe(s2);
    UnheldTodo(s2, report);
    ExtractAllKeepsRefreshSafe(s2, SortedSet(Unheld(s2, report)), env.extract);
    var (s3, appended) := ExtractPending(s2, report, env.extract);
    if appended {
      FollowUpKeepsRefreshSafe(s3, kind, env);
    } else {
      RefreshPendingKeepsRefreshSafe(s3, report, env.refresh);
    }
  }

  lemma DerivedPassKeepsRefreshSafe(s: State, kind: PassKind, env: PassEnv)
    requires RefreshSafe(s)
    ensures var (t, out) := DerivedPass(s, kind, env);
            RefreshSafe(t) && (out.Completed? && out.report.holds == [] && t.refreshHolds == [] ==> t.pending == {})
  {
    hide RunScan, AfterScan, RefreshSafe;
    var (s1, out) := RunScan(s, kind, env.growth, env.scan);
    ScanKeepsRefreshSafe(s, kind, env.growth, env.scan);
    if out.Completed? {
      AfterScanKeepsRefreshSafe(s1, kind, env, out.report);
    }
  }

  lemma FinishKeepsRefreshSafe(s: State, kind: PassKind, out: ScanOutcome, now: int)
    requires RefreshSafe(s)
    ensures RefreshSafe(FinishPass(s, kind, out, now))
    ensures FinishPass(s, kind, out, now).pending == s.pending
  {
    hide FailureSignature, RecordFailure, NothingLost, RefreshesInOrder, HoldsPending;
    var signature := FailureSignature(out, s.refreshHolds);
    QuietEvent(s, PassClean);
    QuietEvent(s, PassFailed(kind, out.Aborted?, signature, now, Warns(s, signature, now), s.stopped, Window(s)));
    RecordFailureFrame(s, kind, out, signature, now);
  }

  lemma PassKeepsRefreshSafe(s: State, kind: PassKind, env: PassEnv)
    requires RefreshSafe(s)
    ensures RefreshSafe(RunAndFinish(s, kind, env))
    ensures kind.PassCatchUp? ==> RefreshSafe(CatchUpStep(s, env))
  {
    hide DerivedPass, FinishPass, NothingLost, RefreshesInOrder, HoldsPending;
    var (t, out) := DerivedPass(s, kind, env);
    DerivedPassKeepsRefreshSafe(s, kind, env);
    FinishKeepsRefreshSafe(t, kind, out, env.now);
  }

  lemma StepKeepsRefreshSafe(s: State, op: Op)
    requires RefreshSafe(s)
    ensures RefreshSafe(Step(s, op))
  {
    hide RunAndFinish, CatchUpStep, NothingLost, RefreshesInOrder;
    match op
    case CatchUp(env) => PassKeepsRefreshSafe(s, PassCatchUp, env);
    case PostIngest(env) => PassKeepsRefreshSafe(s, PassPostIngest, env);
    case Fire(source, env) =>
      PassKeepsRefreshSafe(s.(attached := s.attached - {source}, retrySource := None), PassRetry, env);
    case QueueRefresh(account) =>
      if account != "" {
        NothingLostStep(s.log, s.pending, Queued(account), s.pending + {account});
        RefreshesInOrderStep(s.log, Queued(account));
      }
    case _ =>
  }

  /** Read off the log: a completed scan lies between any extraction that journaled
      records and any later refresh. */
  lemma {:induction false} ScanBetween(log: seq<Event>, i: nat, k: nat)
    requires RefreshesInOrder(log) && i < k < |log|
    requires log[i].Extracted? && log[i].appended > 0 && log[k].Refreshed?
    ensures exists m :: i < m < k && log[m].Scanned?
  {
    if forall m :: i < m < k ==> !log[m].Scanned? {
      UnreadUntilScan(log[..k], i);
    }
  }

  lemma {:induction false} UnreadUntilScan(log: seq<Event>, i: nat)
    requires i < |log| && log[i].Extracted? && log[i].appended > 0
    requires forall m :: i < m < |log| ==> !log[m].Scanned?
    ensures Unread(log)
  {
    if i < |log| - 1 {
      UnreadUntilScan(log[..|log| - 1], i);
    }
  }

  // ----- nothing is dropped while a refresh function is installed -----

  predicate NoDrops(from: seq<Event>, to: seq<Event>)
  {
    from <= to && forall k :: |from| <= k < |to| ==> !to[k].Dropped?
  }

  lemma {:induction false} ExtractAllDropsNothing(s: State, accounts: seq<string>, extract: string -> ExtractAnswer)
    ensures var t := ExtractAll(s, accounts, extract);
            NoDrops(s.log, t.log) && t.refreshInstalled == s.refreshInstalled
    decreases |accounts|
  {
    if accounts != [] {
      ExtractAllDropsNothing(ExtractOne(s, accounts[0], extract(accounts[0])), accounts[1..], extract);
    }
  }

  lemma {:induction false} RefreshAllDropsNothing(s: State, accounts: seq<string>, refresh: string -> Option<string>)
    ensures var t := RefreshAll(s, accounts, refresh);
            NoDrops(s.log, t.log) && t.refreshInstalled == s.refreshInstalled
    decreases |accounts|
  {
    if accounts != [] {
      RefreshAllDropsNothing(RefreshOne(s, accounts[0], refresh(accounts[0])), accounts[1..], refresh);
    }
  }

  lemma ScanDropsNothing(s: State, kind: PassKind, growth: seq<Draft>, env: ScanEnv)
    ensures var t := RunScan(s, kind, growth, env).0;
            NoDrops(s.log, t.log) && t.refreshInstalled == s.refreshInstalled
  {
    hide Pass;
  }

  lemma DerivedPassDropsNothing(s: State, kind: PassKind, env: PassEnv)
    requires s.refreshInstalled
    ensures var t := DerivedPass(s, kind, env).0; NoDrops(s.log, t.log) && t.refreshInstalled
  {
    hide RunScan, SortedSet, Unheld, ExtractAll, RefreshAll;
    var (s1, out) := RunScan(s, kind, env.growth, env.scan);
    ScanDropsNothing(s, kind, env.growth, env.scan);
    if out.Completed? {
      var s2 := QueueMaterialized(s1, out.report).(refreshHolds := []);
      ExtractAllDropsNothing(s2, SortedSet(Unheld(s2, out.report)), env.extract);
      var (s3, appended) := ExtractPending(s2, out.report, env.extract);
      if appended {
        var (s4, followUp) := RunScan(s3, kind, env.followUpGrowth, env.followUpScan);
        ScanDropsNothing(s3, kind, env.followUpGrowth, env.followUpScan);
        if followUp.Completed? {
          var s5 := QueueMaterialized(s4, followUp.report);
          RefreshAllDropsNothing(s5, SortedSet(Unheld(s5, followUp.report)), env.refresh);
        }
      } else {
        RefreshAllDropsNothing(s3, SortedSet(Unheld(s3, out.report)), env.refresh);
      }
    }
  }

  lemma PassDropsNothing(s: State, kind: PassKind, env: PassEnv)
    requires s.refreshInstalled
    ensures var t := RunAndFinish(s, kind, env); NoDrops(s.log, t.log) && t.refreshInstalled
    ensures var t := CatchUpStep(s, env); kind.PassCatchUp? ==> NoDrops(s.log, t.log) && t.refreshInstalled
  {
    hide DerivedPass, FailureSignature;
    DerivedPassDropsNothing(s, kind, env);
  }

  lemma StepDropsNothing(s: State, op: Op)
    requires s.refreshInstalled && op != SetRefresh(false)
    ensures NoDrops(s.log, Step(s, op).log) && Step(s, op).refreshInstalled
  {
    hide RunAndFinish, CatchUpStep;
    match op
    case CatchUp(env) => PassDropsNothing(s, PassCatchUp, env);
    case PostIngest(env) => PassDropsNothing(s, PassPostIngest, env);
    case Fire(source, env) =>
      PassDropsNothing(s.(attached := s.attached - {source}, retrySource := None), PassRetry, env);
    case _ =>
  }
}
