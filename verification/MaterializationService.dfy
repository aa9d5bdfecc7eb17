/**
 * The service object: fields updated in place under its lock, loops over arrays and the
 * pending table. Every method is proved to compute the state function of the same name in
 * MaterializationSpec, so the run theorems hold of it.
 */
module MaterializationService {
  import opened Basics
  import opened Catchup
  import opened MaterializationSpec
  import MaterializationSafety

  /** The struct's fields, grouped by the step that updates them together. */
  datatype RetryFields = RetryFields(source: Option<nat>, nextSource: nat, attached: set<nat>, initial: nat,
                                     max: nat, interval: nat, consecutiveFailures: nat)

  datatype HoldFields = HoldFields(aborted: bool, holds: seq<Hold>, cursor: Option<Position>)

  datatype WarnFields = WarnFields(signature: Option<string>, at: int)

  class DeliveryMaterialization {
    var journal: seq<Record>
    const store: CatalogStore
    var retry: RetryFields
    var held: HoldFields
    var warned: WarnFields
    var stopped: bool
    var refreshInstalled: bool
    var extractInstalled: bool
    var pending: set<string>
    var refreshHolds: seq<Hold>
    ghost var failureRun: nat
    ghost var log: seq<Event>

    ghost function View(): State
      reads this, store
    {
      State(journal, store.Contents(), retry.source, retry.nextSource, retry.attached, retry.initial, retry.max,
            retry.interval, retry.consecutiveFailures, failureRun, held.aborted, stopped, held.holds, held.cursor,
            refreshInstalled, extractInstalled, pending, refreshHolds, warned.signature, warned.at, log)
    }

    constructor ()
      ensures View() == Init() && fresh(store)
    {
      journal := [];
      store := new CatalogStore();
      retry := RetryFields(None, 0, {}, DEFAULT_RETRY_INITIAL_MS, DEFAULT_RETRY_MAX_MS, DEFAULT_RETRY_INITIAL_MS, 0);
      held := HoldFields(false, [], None);
      warned := WarnFields(None, 0);
      stopped, refreshInstalled, extractInstalled := false, false, false;
      pending, refreshHolds, failureRun, log := {}, [], 0, [];
    }

    method RunPass(kind: PassKind, growth: seq<Draft>, env: ScanEnv) returns (out: ScanOutcome)
      modifies this`journal, this`log, store
      ensures (View(), out) == RunScan(old(View()), kind, growth, env)
    {
      hide Pass, Extend;
      var resume := kind.PassPostIngest?;
      journal := Extend(journal, growth);
      out := MaterializeAccountInboxes(store, journal, if resume then held.cursor else None,
                                       if resume then held.holds else [], env);
      log := log + [if out.Completed? then Scanned(out.report) else ScanAborted];
    }

    method QueueMaterializedAccounts(report: Report)
      modifies this`pending
      ensures View() == QueueMaterialized(old(View()), report)
    {
      var rest := report.materialized;
      while rest != {}
        invariant rest <= report.materialized
        invariant pending == old(pending) + (report.materialized - rest)
        decreases rest
      {
        var account :| account in rest;
        pending := pending + {account};
        rest := rest - {account};
      }
    }

    method PendingUnheldAccounts(report: Report) returns (accounts: seq<string>)
      ensures accounts == SortedSet(Unheld(View(), report))
    {
      var found: seq<string> := [];
      var rest := pending;
      ghost var goal := Unheld(View(), report);
      while rest != {}
        invariant rest <= pending
        invariant multiset(found) == multiset(goal - rest)
        decreases rest
      {
        var account :| account in rest;
        var passHeld := IsAccountHeld(report.holds, account);
        var refreshHeld := IsAccountHeld(refreshHolds, account);
        if !passHeld && !refreshHeld {
          assert goal - (rest - {account}) == (goal - rest) + {account};
          found := found + [account];
        } else {
          assert goal - (rest - {account}) == goal - rest;
        }
        rest := rest - {account};
      }
      assert goal - rest == goal;
      SortedUnique(Sort(found), SortedSet(goal));
      accounts := Sort(found);
    }

    method ExtractAccount(account: string, answer: ExtractAnswer)
      modifies this`journal, this`refreshHolds, this`log
      ensures View() == ExtractOne(old(View()), account, answer)
    {
      journal := Extend(journal, answer.appended);
      if answer.error.Some? {
        refreshHolds := refreshHolds + [RefreshHold(account, "fact extraction failed: " + answer.error.value)];
      }
      log := log + [Extracted(account, answer.error.None?, |answer.appended|)];
    }

    method RefreshAccount(account: string, error: Option<string>)
      modifies this`pending, this`refreshHolds, this`log
      ensures View() == RefreshOne(old(View()), account, error)
    {
      if error.None? {
        pending := pending - {account};
      } else {
        refreshHolds := refreshHolds + [RefreshHold(account, error.value)];
      }
      log := log + [Refreshed(account, error.None?)];
    }

    method ExtractPendingFacts(report: Report, extract: string -> ExtractAnswer) returns (appendedAny: bool)
      modifies this`journal, this`refreshHolds, this`log
      ensures (View(), appendedAny) == ExtractPending(old(View()), report, extract)
    {
      hide Unheld, SortedSet, ExtractOne, AppendedAny;
      appendedAny := false;
      if !extractInstalled {
        return;
      }
      var accounts := PendingUnheldAccounts(report);
      ghost var goal := ExtractAll(View(), accounts, extract);
      var i := 0;
      AppendedAnyNone(extract);
      assert accounts[..0] == [] && accounts[0..] == accounts;
      while i < |accounts|
        invariant i <= |accounts|
        invariant appendedAny == AppendedAny(accounts[..i], extract)
        invariant goal == ExtractAll(View(), accounts[i..], extract)
      {
        var answer := extract(accounts[i]);
        assert accounts[i..][1..] == accounts[i + 1..];
        assert accounts[..i + 1] == accounts[..i] + [accounts[i]];
        AppendedAnyLast(accounts[..i], accounts[i], extract);
        ExtractAccount(accounts[i], answer);
        appendedAny := appendedAny || |answer.appended| > 0;
        i := i + 1;
      }
      assert accounts[..i] == accounts && accounts[i..] == [];
    }

    method RefreshPendingAccounts(report: Report, refresh: string -> Option<string>)
      modifies this`pending, this`refreshHolds, this`log
      ensures View() == RefreshPending(old(View()), report, refresh)
    {
      hide Unheld, SortedSet, RefreshOne, DropAll;
      if !refreshInstalled {
        DropIdleAccounts();
        return;
      }
      var accounts := PendingUnheldAccounts(report);
      ghost var goal := RefreshAll(View(), accounts, refresh);
      var i := 0;
      while i < |accounts|
        invariant i <= |accounts|
        invariant goal == RefreshAll(View(), accounts[i..], refresh)
      {
        var error := refresh(accounts[i]);
        assert accounts[i..][1..] == accounts[i + 1..];
        RefreshAccount(accounts[i], error);
        i := i + 1;
      }
    }

    method DropIdleAccounts()
      requires !refreshInstalled
      modifies this`pending, this`log
      ensures View() == DropAll(old(View()), SortedSet(set a | a in old(pending) && !Held(refreshHolds, a)))
    {
      hide SortedSet;
      ghost var idle := set a | a in pending && !Held(refreshHolds, a);
      var rest := pending;
      while rest != {}
        invariant rest <= old(pending)
        invariant forall a :: a in pending <==> a in old(pending) && (a in rest || Held(refreshHolds, a))
        decreases rest
      {
        var account :| account in rest;
        var refreshHeld := IsAccountHeld(refreshHolds, account);
        if !refreshHeld {
          pending := pending - {account};
        }
        rest := rest - {account};
      }
      SortedSetMembers(idle);
      MaterializationSafety.DropAllFrame(old(View()), SortedSet(idle));
      assert pending == old(pending) - idle;
      log := DropAll(old(View()), SortedSet(idle)).log;
    }

    method RunDerivedPass(kind: PassKind, env: PassEnv) returns (out: ScanOutcome)
      modifies this`journal, this`pending, this`refreshHolds, this`log, store
      ensures (View(), out) == DerivedPass(old(View()), kind, env)
    {
      hide RunScan, ExtractPending, RefreshPending;
      out := RunPass(kind, env.growth, env.scan);
      if out.Aborted? {
        return;
      }
      QueueMaterializedAccounts(out.report);
      refreshHolds := [];
      var appended := ExtractPendingFacts(out.report, env.extract);
      if appended {
        var followUp := RunPass(kind, env.followUpGrowth, env.followUpScan);
        if followUp.Aborted? {
          return followUp;
        }
        QueueMaterializedAccounts(followUp.report);
        out := followUp;
      }
      RefreshPendingAccounts(out.report, env.refresh);
    }

    method Signature(out: ScanOutcome) returns (signature: string)
      ensures signature == FailureSignature(out, refreshHolds)
    {
      if out.Aborted? {
        return AbortSignature(out.error);
      }
      var parts: seq<string> := [];
      var i := 0;
      while i < |out.report.holds|
        invariant i <= |out.report.holds|
        invariant parts == SignatureParts(out.report.holds[..i], [])
      {
        parts := parts + [HoldPart(out.report.holds[i])];
        i := i + 1;
      }
      assert out.report.holds[..i] == out.report.holds;
      i := 0;
      while i < |refreshHolds|
        invariant i <= |refreshHolds|
        invariant parts == SignatureParts(out.report.holds, refreshHolds[..i])
      {
        parts := parts + [RefreshPart(refreshHolds[i])];
        i := i + 1;
      }
      assert refreshHolds[..i] == refreshHolds;
      signature := Join(Sort(parts), RECORD_SEPARATOR);
    }

    method FinishCleanPass()
      modifies this`retry, this`held, this`warned, this`failureRun, this`log
      ensures View() == FinishClean(old(View()))
    {
      retry := retry.(consecutiveFailures := 0, interval := retry.initial, source := None);
      held := HoldFields(false, [], None);
      warned := warned.(signature := None);
      failureRun, log := 0, log + [PassClean];
    }

    method RecordHolds(out: ScanOutcome)
      modifies this`held
      ensures held.aborted == out.Aborted?
      ensures held.holds == if out.Completed? then out.report.holds else old(held.holds)
      ensures held.cursor == if out.Completed? && out.report.holds != [] then out.report.scannedThrough else None
    {
      held := held.(aborted := out.Aborted?, cursor := None);
      if out.Completed? {
        held := held.(holds := out.report.holds,
                      cursor := if |out.report.holds| > 0 then out.report.scannedThrough else None);
      }
    }

    method CountOneFailure(kind: PassKind)
      modifies this`retry, this`failureRun
      ensures View() == CountFailure(old(View()), kind)
    {
      if kind.PassRetry? {
        retry := retry.(consecutiveFailures := (retry.consecutiveFailures + 1) % GUINT_MODULUS,
                        interval := if retry.interval > retry.max / 2 then retry.max else retry.interval * 2);
        failureRun := failureRun + 1;
      } else {
        if retry.consecutiveFailures == 0 {
          retry := retry.(consecutiveFailures := 1);
        }
        failureRun := if failureRun == 0 then 1 else failureRun;
      }
    }

    method ScheduleRetryIfNone()
      modifies this`retry
      ensures View() == if !stopped && old(View()).retrySource.None? then ScheduleRetry(old(View())) else old(View())
    {
      if !stopped && retry.source.None? {
        retry := retry.(source := Some(retry.nextSource), attached := retry.attached + {retry.nextSource},
                        nextSource := retry.nextSource + 1);
      }
    }

    method LimitWarning(signature: string, now: int) returns (warn: bool)
      modifies this`warned
      ensures warn == Warns(old(View()), signature, now)
      ensures warned == if warn then WarnFields(Some(signature), now) else old(warned)
    {
      warn := stopped || warned.signature != Some(signature) || now - warned.at >= retry.max * MICROS_PER_MS;
      if warn {
        warned := WarnFields(Some(signature), now);
      }
    }

    method FinishFailedPass(kind: PassKind, out: ScanOutcome, now: int)
      modifies this`retry, this`held, this`warned, this`failureRun, this`log
      ensures View() == RecordFailure(old(View()), kind, out, FailureSignature(out, old(refreshHolds)), now)
    {
      hide FailureSignature;
      var signature := Signature(out);
      RecordHolds(out);
      CountOneFailure(kind);
      ScheduleRetryIfNone();
      var warn := LimitWarning(signature, now);
      log := log + [PassFailed(kind, out.Aborted?, signature, now, warn, stopped, retry.max * MICROS_PER_MS)];
    }

    method Finish(kind: PassKind, out: ScanOutcome, now: int)
      modifies this
      ensures View() == FinishPass(old(View()), kind, out, now)
    {
      hide RecordFailure, FailureSignature;
      if out.Completed? && |out.report.holds| == 0 && |refreshHolds| == 0 {
        FinishCleanPass();
      } else {
        FinishFailedPass(kind, out, now);
      }
    }

    method CatchUpNow(env: PassEnv) returns (ok: bool)
      modifies this, store
      ensures View() == Step(old(View()), CatchUp(env))
      ensures ok == DerivedPass(old(View()), PassCatchUp, env).1.Completed?
    {
      hide DerivedPass, FinishPass;
      var out := RunDerivedPass(PassCatchUp, env);
      if out.Aborted? {
        held := held.(cursor := None);
        return false;
      }
      Finish(PassCatchUp, out, env.now);
      return true;
    }

    method CatchUpOrScheduleRetry(env: PassEnv)
      modifies this, store
      ensures View() == Step(old(View()), PostIngest(env))
    {
      hide DerivedPass, FinishPass;
      var out := RunDerivedPass(PassPostIngest, env);
      Finish(PassPostIngest, out, env.now);
    }

    /** The main loop dispatches a timeout source it holds; the callback is one-shot. */
    method RetryCatchUp(source: nat, env: PassEnv)
      requires source in retry.attached
      modifies this, store
      ensures View() == Step(old(View()), Fire(source, env))
    {
      hide DerivedPass, FinishPass;
      if stopped || retry.source != Some(source) {
        retry := retry.(attached := retry.attached - {source});
        return;
      }
      retry := retry.(attached := retry.attached - {source}, source := None);
      var out := RunDerivedPass(PassRetry, env);
      Finish(PassRetry, out, env.now);
    }

    method StopRetries()
      modifies this`stopped, this`retry
      ensures View() == Step(old(View()), Stop)
    {
      stopped := true;
      retry := retry.(source := None);
    }

    method SetRetryBackoff(initial: nat, max: nat)
      modifies this`retry
      ensures View() == Step(old(View()), SetBackoff(initial, max))
    {
      if 0 < initial <= max < GUINT_MODULUS {
        retry := retry.(initial := initial, max := max, interval := initial);
      }
    }

    method QueueAccount(account: string)
      modifies this`pending, this`log
      ensures View() == Step(old(View()), QueueRefresh(account))
    {
      if account != "" {
        pending := pending + {account};
        log := log + [Queued(account)];
      }
    }

    /** Held accounts first, then those held only at refresh. */
    method HeldAccountList() returns (accounts: seq<string>)
      ensures accounts == HeldAccounts(View())
    {
      accounts := [];
      var i := 0;
      while i < |held.holds|
        invariant i <= |held.holds|
        invariant accounts == Accounts(held.holds[..i])
      {
        accounts := accounts + [held.holds[i].account];
        i := i + 1;
      }
      assert held.holds[..i] == held.holds;
      i := 0;
      ghost var goal := HeldAccounts(View());
      while i < |refreshHolds|
        invariant i <= |refreshHolds|
        invariant goal == accounts + Unlisted(held.holds, refreshHolds[i..])
      {
        var listed := IsAccountHeld(held.holds, refreshHolds[i].account);
        assert refreshHolds[i..][1..] == refreshHolds[i + 1..];
        if !listed {
          accounts := accounts + [refreshHolds[i].account];
        }
        i := i + 1;
      }
    }
  }

  lemma AppendedAnyNone(extract: string -> ExtractAnswer)
    ensures !AppendedAny([], extract)
  {
  }

  lemma AppendedAnyLast(accounts: seq<string>, a: string, extract: string -> ExtractAnswer)
    ensures AppendedAny(accounts + [a], extract) <==> AppendedAny(accounts, extract) || |extract(a).appended| > 0
  {
    var all := accounts + [a];
    assert all[|accounts|] == a;
    forall i | 0 <= i < |accounts| ensures all[i] == accounts[i] {
    }
  }
}
