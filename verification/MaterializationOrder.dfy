/**
 * The order in which held accounts are published: pass holds in journal order, or not, and
 * then the accounts held only at refresh.
 */
module MaterializationOrder {
  import opened Basics
  import opened Catchup
  import opened MaterializationSpec
  import opened MaterializationSafety
  import opened MaterializationRefresh
  import opened MaterializationWarnings
  import opened MaterializationRuns
  import opened MaterializationStatus

  // ----- the published list -----

  /** Whatever a and b are held at, a lies before b. */
  predicate HeldBefore(holds: seq<Hold>, a: string, b: string)
  {
    forall m, n :: 0 <= m < |holds| && 0 <= n < |holds| && holds[m].account == a && holds[n].account == b ==>
      holds[m].pos.offset < holds[n].pos.offset
  }

  /** The published list names pass-held accounts in the journal order of their holds. */
  predicate PublishedInOrder(s: State)
  {
    var list := HeldAccounts(s);
    forall i, k :: 0 <= i < k < |list| ==> HeldBefore(s.holds, list[i], list[k])
  }

  lemma NotHeldNames(holds: seq<Hold>, names: seq<string>)
    ensures forall i :: 0 <= i < |NotHeld(holds, names)| ==> !Held(holds, NotHeld(holds, names)[i])
  {
    KeepMembers(names, a => !Held(holds, a));
    assert forall i :: 0 <= i < |NotHeld(holds, names)| ==> NotHeld(holds, names)[i] in NotHeld(holds, names);
  }

  lemma PublishedInOrderIff(s: State)
    requires HoldsDistinct(s.holds)
    ensures PublishedInOrder(s) <==> HoldsOrdered(s.holds)
  {
    hide Unlisted, NotHeld;
    var list, h := HeldAccounts(s), s.holds;
    UnlistedNames(h, s.refreshHolds);
    NotHeldNames(h, Accounts(s.refreshHolds));
    assert forall i :: 0 <= i < |h| ==> list[i] == h[i].account;
    assert forall i :: |h| <= i < |list| ==> !Held(h, list[i]);
    if PublishedInOrder(s) {
      forall i, k | 0 <= i < k < |h| ensures h[i].pos.offset < h[k].pos.offset {
        assert HeldBefore(h, list[i], list[k]);
      }
    }
    if HoldsOrdered(h) {
      forall i, k | 0 <= i < k < |list| ensures HeldBefore(h, list[i], list[k]) {
        HoldsAscend(h, list[i], list[k], i, k);
      }
    }
  }

  lemma HoldsAscend(h: seq<Hold>, a: string, b: string, i: nat, k: nat)
    requires HoldsDistinct(h) && HoldsOrdered(h) && i < k
    requires if i < |h| then h[i].account == a else !Held(h, a)
    requires if k < |h| then h[k].account == b else !Held(h, b)
    ensures HeldBefore(h, a, b)
  {
  }

  // ----- where the holds lie -----

  /** Each hold names a record of its account, at or before a present cursor. */
  predicate HoldsPlaced(s: State)
  {
    HoldsNamed(s.journal, s.holds) && (s.cursor.Some? ==> HoldsWithin(s.holds, s.cursor.value.offset))
  }

  lemma NamedGrows(j: seq<Record>, j': seq<Record>, holds: seq<Hold>)
    requires j <= j' && HoldsNamed(j, holds)
    ensures HoldsNamed(j', holds)
  {
    forall m | 0 <= m < |holds| ensures NamesRecord(j', holds[m]) {
      assert NamesRecord(j, holds[m]);
      var k :| 0 <= k < |j| && j[k].pos == holds[m].pos && j[k].account == holds[m].account;
      assert j'[k] == j[k];
    }
  }

  lemma {:induction false} ExtractAllGrows(s: State, accounts: seq<string>, extract: string -> ExtractAnswer)
    requires Ordered(s.journal)
    ensures s.journal <= ExtractAll(s, accounts, extract).journal
    decreases |accounts|
  {
    if accounts != [] {
      ExtendOrdered(s.journal, extract(accounts[0]).appended);
      ExtractAllGrows(ExtractOne(s, accounts[0], extract(accounts[0])), accounts[1..], extract);
    }
  }

  lemma ScanKeepsPlaced(s: State, kind: PassKind, growth: seq<Draft>, env: ScanEnv)
    requires RecordsSafe(s) && HoldsPlaced(s)
    ensures var (t, out) := RunScan(s, kind, growth, env);
            HoldsPlaced(t) && (out.Completed? ==> ReportPlaced(t.journal, out.report))
  {
    hide Pass, HoldsNamed, RecordsSafeAt;
    var j := Extend(s.journal, growth);
    GrowthKeepsRecordsSafe(s, growth);
    OrderedJournal(s.(journal := j));
    OrderedJournal(s);
    ExtendOrdered(s.journal, growth);
    NamedGrows(s.journal, j, s.holds);
    NothingNamed(j);
    PassReportPlaced(j, s.catalog, if kind.PassPostIngest? then s.cursor else None,
                     if kind.PassPostIngest? then s.holds else [], env);
  }

  lemma NothingNamed(j: seq<Record>)
    ensures HoldsNamed(j, [])
  {
  }

  lemma OrderedJournal(s: State)
    requires RecordsSafe(s)
    ensures Ordered(s.journal)
  {
  }

  lemma FollowUpKeepsPlaced(s: State, kind: PassKind, env: PassEnv)
    requires RecordsSafe(s) && HoldsPlaced(s)
    ensures var (t, out) := FollowUp(s, kind, env);
            HoldsPlaced(t) && (out.Completed? ==> ReportPlaced(t.journal, out.report))
  {
    hide RunScan, RefreshPending, RecordsSafeAt, HoldsNamed, HoldsWithin;
    var (s', out) := RunScan(s, kind, env.followUpGrowth, env.followUpScan);
    ScanKeepsPlaced(s, kind, env.followUpGrowth, env.followUpScan);
    if out.Completed? {
      RefreshPendingFrame(QueueMaterialized(s', out.report), out.report, env.refresh);
    }
  }

  lemma AfterScanKeepsPlaced(s: State, kind: PassKind, env: PassEnv, report: Report)
    requires RecordsSafe(s) && HoldsPlaced(s) && ReportPlaced(s.journal, report)
    ensures var (t, out) := AfterScan(s, kind, env, report);
            HoldsPlaced(t) && (out.Completed? ==> ReportPlaced(t.journal, out.report))
  {
    hide RunScan, RefreshPending, RecordsSafeAt, HoldsNamed, HoldsWithin, FollowUp, ExtractAll, SortedSet, Unheld;
    OrderedJournal(s);
    var s2 := QueueMaterialized(s, report).(refreshHolds := []);
    var accounts := SortedSet(Unheld(s2, report));
    var (s3, appended) := ExtractPending(s2, report, env.extract);
    ExtractAllKeepsRecordsSafe(s2, accounts, env.extract);
    ExtractAllGrows(s2, accounts, env.extract);
    NamedGrows(s.journal, s3.journal, s.holds);
    NamedGrows(s.journal, s3.journal, report.holds);
    if appended {
      FollowUpKeepsPlaced(s3, kind, env);
    } else {
      RefreshPendingFrame(s3, report, env.refresh);
    }
  }

  lemma DerivedPassKeepsPlaced(s: State, kind: PassKind, env: PassEnv)
    requires RecordsSafe(s) && HoldsPlaced(s)
    ensures var (t, out) := DerivedPass(s, kind, env);
            HoldsPlaced(t) && (out.Completed? ==> ReportPlaced(t.journal, out.report))
  {
    hide RunScan, AfterScan, RecordsSafeAt, HoldsNamed, HoldsWithin;
    var (s1, out) := RunScan(s, kind, env.growth, env.scan);
    ScanKeepsRecordsSafe(s, kind, env.growth, env.scan);
    ScanKeepsPlaced(s, kind, env.growth, env.scan);
    if out.Completed? {
      AfterScanKeepsPlaced(s1, kind, env, out.report);
    }
  }

  lemma PassKeepsPlaced(s: State, kind: PassKind, env: PassEnv)
    requires RecordsSafe(s) && HoldsPlaced(s)
    ensures HoldsPlaced(RunAndFinish(s, kind, env))
    ensures kind.PassCatchUp? ==> HoldsPlaced(CatchUpStep(s, env))
  {
    hide DerivedPass, RecordFailure, FailureSignature, RecordsSafeAt, HoldsNamed, HoldsWithin;
    DerivedPassKeepsPlaced(s, kind, env);
    var (t, out) := DerivedPass(s, kind, env);
    RecordFailureFrame(t, kind, out, FailureSignature(out, t.refreshHolds), env.now);
    NothingNamed(t.journal);
  }

  lemma StepKeepsPlaced(s: State, op: Op)
    requires RecordsSafe(s) && HoldsPlaced(s)
    ensures HoldsPlaced(Step(s, op))
  {
    hide RunAndFinish, CatchUpStep, RecordsSafeAt, HoldsNamed, HoldsWithin;
    match op
    case Append(drafts) =>
      OrderedJournal(s);
      ExtendOrdered(s.journal, drafts);
      NamedGrows(s.journal, Extend(s.journal, drafts), s.holds);
    case CatchUp(env) => PassKeepsPlaced(s, PassCatchUp, env);
    case PostIngest(env) => PassKeepsPlaced(s, PassPostIngest, env);
    case Fire(source, env) =>
      PassKeepsPlaced(s.(attached := s.attached - {source}, retrySource := None), PassRetry, env);
    case _ =>
  }

  // ----- keeping the order -----

  /** Every record the next post-ingest pass may newly hold lies behind the holds. */
  predicate Ready(s: State)
  {
    var i := Seek(s.journal, Start(s.catalog, s.cursor));
    i.Some? && Ahead(s.journal, i.value, s.holds)
  }

  lemma ReadyGrows(s: State, drafts: seq<Draft>)
    requires RecordsSafe(s) && HoldsPlaced(s) && Ready(s)
    ensures Ready(s.(journal := Extend(s.journal, drafts)))
  {
    hide IndexOf;
    var j, j' := s.journal, Extend(s.journal, drafts);
    ExtendOrdered(j, drafts);
    var start := Start(s.catalog, s.cursor);
    if start.Some? {
      IndexOfPrefix(j, j', start.value);
    }
    var i := Seek(j, start).value;
    assert Seek(j', start) == Some(i);
    forall k, m | i <= k < |j'| && 0 <= m < |s.holds| && !Held(s.holds, j'[k].account)
      ensures s.holds[m].pos.offset < j'[k].pos.offset
    {
      if k < |j| {
        assert j'[k] == j[k];
      } else {
        assert NamesRecord(j, s.holds[m]);
        var n :| 0 <= n < |j| && j[n].pos == s.holds[m].pos;
        assert j'[n] == j[n];
      }
    }
  }

  lemma ScanKeepsReady(s: State, growth: seq<Draft>, env: ScanEnv)
    requires RecordsSafe(s) && HoldsPlaced(s) && Ready(s)
    ensures Ready(RunScan(s, PassPostIngest, growth, env).0)
  {
    hide Scan, IndexOf, RecordsSafeAt, HoldsPlaced;
    ReadyGrows(s, growth);
    var t := RunScan(s, PassPostIngest, growth, env).0;
    if s.holds == [] {
      ScanKeepsRecordsSafe(s, PassPostIngest, growth, env);
      AlwaysSeekable(t);
    } else {
      var j := Extend(s.journal, growth);
      var i := Seek(j, Start(s.catalog, s.cursor));
      ScanKeepsCheckpoint(j, i.value, s.cursor.None? || s.cursor == s.catalog.checkpoint,
                          ScanState(s.catalog, s.holds, {}), env.verdict);
    }
  }

  lemma AlwaysSeekable(s: State)
    requires RecordsSafe(s)
    ensures Seek(s.journal, Start(s.catalog, s.cursor)).Some?
  {
    StartCovered(s.journal, s.catalog, s.cursor, s.holds);
  }

  lemma ScanKeepsOrder(s: State, kind: PassKind, growth: seq<Draft>, env: ScanEnv)
    requires RecordsSafe(s) && HoldsPlaced(s) && HoldsOrdered(s.holds) && (kind.PassPostIngest? ==> Ready(s))
    ensures var out := RunScan(s, kind, growth, env).1; out.Completed? ==> HoldsOrdered(out.report.holds)
  {
    hide Pass, IndexOf, RecordsSafeAt, HoldsNamed, Ahead;
    var j := Extend(s.journal, growth);
    OrderedJournal(s);
    ExtendOrdered(s.journal, growth);
    NamedGrows(s.journal, j, s.holds);
    NothingNamed(j);
    if kind.PassPostIngest? {
      ReadyGrows(s, growth);
      PassHoldsOrdered(j, s.catalog, s.cursor, s.holds, env);
    } else {
      PassHoldsOrdered(j, s.catalog, None, [], env);
    }
  }

  lemma DerivedPassKeepsOrder(s: State, kind: PassKind, env: PassEnv)
    requires RecordsSafe(s) && HoldsPlaced(s) && HoldsOrdered(s.holds) && (kind.PassPostIngest? ==> Ready(s))
    ensures var out := DerivedPass(s, kind, env).1; out.Completed? ==> HoldsOrdered(out.report.holds)
  {
    hide RunScan, RefreshPending, SortedSet, RecordsSafeAt, Unheld, ExtractAll, Ready, HoldsPlaced, HoldsOrdered;
    var (s1, out) := RunScan(s, kind, env.growth, env.scan);
    ScanKeepsRecordsSafe(s, kind, env.growth, env.scan);
    ScanKeepsPlaced(s, kind, env.growth, env.scan);
    ScanKeepsOrder(s, kind, env.growth, env.scan);
    if out.Completed? {
      var s2 := QueueMaterialized(s1, out.report).(refreshHolds := []);
      var accounts := SortedSet(Unheld(s2, out.report));
      ExtractAllKeepsRecordsSafe(s2, accounts, env.extract);
      var s3 := ExtractPending(s2, out.report, env.extract).0;
      if kind.PassPostIngest? {
        ScanKeepsReady(s, env.growth, env.scan);
      }
      SameReadiness(s1, s2);
      ExtractAllKeepsReady(s2, accounts, env.extract);
      ScanKeepsOrder(s3, kind, env.followUpGrowth, env.followUpScan);
    }
  }

  lemma SameReadiness(s: State, t: State)
    requires t.journal == s.journal && t.catalog == s.catalog && t.cursor == s.cursor && t.holds == s.holds
    ensures Ready(t) == Ready(s) && HoldsPlaced(t) == HoldsPlaced(s)
  {
  }

  lemma {:induction false} ExtractAllKeepsReady(s: State, accounts: seq<string>, extract: string -> ExtractAnswer)
    requires RecordsSafe(s) && HoldsPlaced(s)
    ensures HoldsPlaced(ExtractAll(s, accounts, extract))
    ensures Ready(s) ==> Ready(ExtractAll(s, accounts, extract))
    decreases |accounts|
  {
    hide RecordsSafeAt, Ready, HoldsNamed, HoldsWithin;
    if accounts != [] {
      var answer := extract(accounts[0]);
      var g := s.(journal := Extend(s.journal, answer.appended));
      var t := ExtractOne(s, accounts[0], answer);
      GrowthKeepsRecordsSafe(s, answer.appended);
      OrderedJournal(s);
      ExtendOrdered(s.journal, answer.appended);
      NamedGrows(s.journal, t.journal, s.holds);
      if Ready(s) {
        ReadyGrows(s, answer.appended);
      }
      SameReadiness(g, t);
      ExtractAllKeepsReady(t, accounts[1..], extract);
    }
  }

  // ----- when a post-ingest pass keeps the order -----

  /** Some record after the checkpoint, of an account not held, lies before the last hold. */
  predicate EarlierUnheld(s: State)
  {
    var i := Seek(s.journal, s.catalog.checkpoint);
    s.holds != [] && i.Some? &&
    exists k :: i.value <= k < |s.journal| && !Held(s.holds, s.journal[k].account) &&
      s.journal[k].pos.offset < s.holds[|s.holds| - 1].pos.offset
  }

  /** No pass from here can hold an account ahead of one already held. */
  predicate Harmless(s: State)
  {
    s.cursor.Some? || s.holds == [] || !Scannable(s) || !EarlierUnheld(s)
  }

  lemma HarmlessIsReady(s: State)
    requires RecordsSafe(s) && HoldsPlaced(s) && HoldsOrdered(s.holds)
    requires s.cursor.Some? || s.holds == [] || !EarlierUnheld(s)
    ensures Ready(s)
  {
    hide HoldsNamed;
    AlwaysSeekable(s);
    var j, h := s.journal, s.holds;
    var i := Seek(j, Start(s.catalog, s.cursor)).value;
    forall k, m | i <= k < |j| && 0 <= m < |h| && !Held(h, j[k].account) ensures h[m].pos.offset < j[k].pos.offset {
      if s.cursor.Some? {
        assert j[i - 1].pos == s.cursor.value;
      } else {
        NotAtLastHold(j, k, h);
        assert h[m].pos.offset <= h[|h| - 1].pos.offset;
      }
    }
  }

  lemma NotAtLastHold(j: seq<Record>, k: nat, h: seq<Hold>)
    requires Ordered(j) && k < |j| && h != [] && HoldsNamed(j, h) && !Held(h, j[k].account)
    ensures j[k].pos.offset != h[|h| - 1].pos.offset
  {
    var last := h[|h| - 1];
    assert NamesRecord(j, last);
    var n :| 0 <= n < |j| && j[n].pos == last.pos && j[n].account == last.account;
    assert j[n].account == h[|h| - 1].account;
    assert n != k;
  }

  lemma PostIngestKeepsOrder(s: State, env: PassEnv)
    requires RecordsSafe(s) && HoldsPlaced(s) && HoldsOrdered(s.holds) && Harmless(s)
    ensures HoldsOrdered(Step(s, PostIngest(env)).holds)
  {
    hide AfterScan, RunScan, RecordFailure, FailureSignature, RecordsSafeAt, Ready, HoldsPlaced, EarlierUnheld, Scannable;
    DerivedPassKeepsRecordsSafe(s, PassPostIngest, env);
    if s.cursor.Some? || s.holds == [] || !EarlierUnheld(s) {
      HarmlessIsReady(s);
      DerivedPassKeepsOrder(s, PassPostIngest, env);
    } else {
      UnscannableAborts(s, PassPostIngest, env.growth, env.scan);
    }
    var (t, out) := DerivedPass(s, PassPostIngest, env);
    RecordFailureFrame(t, PassPostIngest, out, FailureSignature(out, t.refreshHolds), env.now);
  }

  /** A pass whose extractions journal nothing ends with what its one scan reported. */
  lemma QuietPass(s: State, kind: PassKind, env: PassEnv)
    requires RecordsSafe(s) && forall a :: env.extract(a).appended == []
    requires var out := RunScan(s, kind, env.growth, env.scan).1; out.Completed? && out.report.holds != []
    ensures var (s1, out) := RunScan(s, kind, env.growth, env.scan);
            var t := RunAndFinish(s, kind, env);
            && DerivedPass(s, kind, env).1 == out
            && t.holds == out.report.holds && t.cursor == out.report.scannedThrough
            && t.journal == s1.journal && t.catalog == s1.catalog
  {
    hide RunScan, RefreshPending, RecordsSafeAt, ExtractAll, SortedSet, Unheld, RecordFailure, FailureSignature;
    ScanKeepsRecordsSafe(s, kind, env.growth, env.scan);
    var (s1, out) := RunScan(s, kind, env.growth, env.scan);
    var s2 := QueueMaterialized(s1, out.report).(refreshHolds := []);
    var accounts := SortedSet(Unheld(s2, out.report));
    ExtractAllKeepsRecordsSafe(s2, accounts, env.extract);
    var s3 := ExtractPending(s2, out.report, env.extract).0;
    assert !AppendedAny(accounts, env.extract);
    RefreshPendingFrame(s3, out.report, env.refresh);
    var t := RefreshPending(s3, out.report, env.refresh);
    RecordFailureFrame(t, kind, out, FailureSignature(out, t.refreshHolds), env.now);
  }

  /** Rejects every run; extraction and refresh do nothing. */
  function RejectingEnv(): PassEnv
  {
    var scan := ScanEnv(None, true, p => Rejects("missing object"));
    PassEnv([], scan, a => ExtractAnswer(None, []), [], scan, a => None, 0)
  }

  lemma RejectingScan(s: State)
    requires RecordsSafe(s) && s.cursor.None? && Scannable(s) && EarlierUnheld(s)
    ensures var out := RunScan(s, PassPostIngest, [], RejectingEnv().scan).1;
            out.Completed? && s.holds <= out.report.holds && !HoldsOrdered(out.report.holds)
  {
    hide IndexOf, RecordsSafeAt, Scan;
    var j, i := s.journal, Seek(s.journal, s.catalog.checkpoint).value;
    OrderedJournal(s);
    assert Extend(j, []) == j;
    var k :| i <= k < |j| && !Held(s.holds, j[k].account) && j[k].pos.offset < s.holds[|s.holds| - 1].pos.offset;
    ScanRejectingAll(j, i, true, ScanState(s.catalog, s.holds, {}), RejectingEnv().scan.verdict, k);
    var h := RunScan(s, PassPostIngest, [], RejectingEnv().scan).1.report.holds;
    var m :| |s.holds| <= m < |h| && h[m].pos.offset <= j[k].pos.offset;
    assert h[|s.holds| - 1] == s.holds[|s.holds| - 1];
  }

  lemma RejectingBreaksOrder(s: State)
    requires RecordsSafe(s) && s.cursor.None? && Scannable(s) && EarlierUnheld(s)
    ensures !HoldsOrdered(Step(s, PostIngest(RejectingEnv())).holds)
  {
    hide RunAndFinish, RunScan, RecordsSafeAt, HoldsOrdered;
    RejectingScan(s);
    QuietPass(s, PassPostIngest, RejectingEnv());
  }

  /** From a state in order, every post-ingest pass publishes in order exactly when there is a
      cursor, or nobody is held, or no scan gets past the journal, or no account not held has a
      record after the checkpoint and before the last hold. */
  lemma PostIngestPublishesInOrderIff(s: State)
    requires RecordsSafe(s) && HoldsPlaced(s) && PublishedInOrder(s)
    ensures (forall env :: PublishedInOrder(Step(s, PostIngest(env)))) <==> Harmless(s)
  {
    hide Step, RecordsSafeAt, PublishedInOrder, HoldsPlaced, HoldsOrdered, EarlierUnheld, Scannable;
    DistinctHolds(s);
    PublishedInOrderIff(s);
    forall env ensures PublishedInOrder(Step(s, PostIngest(env))) <==> HoldsOrdered(Step(s, PostIngest(env)).holds) {
      StepKeepsRecordsSafe(s, PostIngest(env));
      DistinctHolds(Step(s, PostIngest(env)));
      PublishedInOrderIff(Step(s, PostIngest(env)));
    }
    if Harmless(s) {
      forall env ensures PublishedInOrder(Step(s, PostIngest(env))) {
        PostIngestKeepsOrder(s, env);
      }
    } else {
      RejectingBreaksOrder(s);
      assert !PublishedInOrder(Step(s, PostIngest(RejectingEnv())));
    }
  }

  lemma DistinctHolds(s: State)
    requires RecordsSafe(s)
    ensures HoldsDistinct(s.holds)
  {
  }

  // ----- runs -----

  lemma {:induction false} RunKeepsPlaced(s: State, ops: seq<Op>)
    requires RecordsSafe(s) && HoldsPlaced(s)
    ensures RecordsSafe(Run(s, ops)) && HoldsPlaced(Run(s, ops))
    decreases |ops|
  {
    hide Step, RecordsSafe, HoldsPlaced;
    if ops != [] {
      StepKeepsRecordsSafe(s, ops[0]);
      StepKeepsPlaced(s, ops[0]);
      RunKeepsPlaced(Step(s, ops[0]), ops[1..]);
    }
  }

  /** In every reachable state each hold names a record of its account. */
  lemma EveryRunPlacesHolds(ops: seq<Op>)
    ensures RecordsSafe(Run(Init(), ops)) && HoldsPlaced(Run(Init(), ops))
  {
    hide Step;
    RunKeepsPlaced(Init(), ops);
  }

  lemma StepKeepsOrder(s: State, op: Op)
    requires RecordsSafe(s) && HoldsPlaced(s) && HoldsOrdered(s.holds) && (op.PostIngest? ==> Harmless(s))
    ensures HoldsOrdered(Step(s, op).holds)
  {
    hide RunAndFinish, CatchUpStep, RecordsSafeAt, HoldsOrdered, HoldsPlaced;
    match op
    case CatchUp(env) => FullPassKeepsOrder(s, PassCatchUp, env);
    case PostIngest(env) => PostIngestKeepsOrder(s, env);
    case Fire(source, env) =>
      var s1 := s.(attached := s.attached - {source}, retrySource := None);
      SameReadiness(s, s1);
      FullPassKeepsOrder(s1, PassRetry, env);
    case _ =>
  }

  lemma FullPassKeepsOrder(s: State, kind: PassKind, env: PassEnv)
    requires RecordsSafe(s) && HoldsPlaced(s) && HoldsOrdered(s.holds) && !kind.PassPostIngest?
    ensures HoldsOrdered(RunAndFinish(s, kind, env).holds) && HoldsOrdered(CatchUpStep(s, env).holds)
  {
    hide DerivedPass, RecordFailure, FailureSignature, RecordsSafeAt, HoldsPlaced;
    DerivedPassKeepsRecordsSafe(s, kind, env);
    DerivedPassKeepsOrder(s, kind, env);
    var (t, out) := DerivedPass(s, kind, env);
    RecordFailureFrame(t, kind, out, FailureSignature(out, t.refreshHolds), env.now);
    DerivedPassKeepsRecordsSafe(s, PassCatchUp, env);
    DerivedPassKeepsOrder(s, PassCatchUp, env);
    var (t', out') := DerivedPass(s, PassCatchUp, env);
    RecordFailureFrame(t', PassCatchUp, out', FailureSignature(out', t'.refreshHolds), env.now);
  }

  /** Every post-ingest pass of the run starts in a harmless state. */
  ghost predicate HarmlessRun(s: State, ops: seq<Op>)
    decreases |ops|
  {
    ops == [] || ((ops[0].PostIngest? ==> Harmless(s)) && HarmlessRun(Step(s, ops[0]), ops[1..]))
  }

  lemma {:induction false} RunKeepsOrder(s: State, ops: seq<Op>)
    requires RecordsSafe(s) && HoldsPlaced(s) && HoldsOrdered(s.holds) && HarmlessRun(s, ops)
    ensures HoldsOrdered(Run(s, ops).holds)
    decreases |ops|
  {
    hide Step, RecordsSafe, HoldsPlaced, HoldsOrdered, Harmless;
    if ops != [] {
      StepKeepsRecordsSafe(s, ops[0]);
      StepKeepsPlaced(s, ops[0]);
      StepKeepsOrder(s, ops[0]);
      RunKeepsOrder(Step(s, ops[0]), ops[1..]);
    }
  }

  /** A run whose post-ingest passes all start harmless publishes in journal order. */
  lemma HeldAccountsStayInJournalOrder(ops: seq<Op>)
    requires HarmlessRun(Init(), ops)
    ensures PublishedInOrder(Run(Init(), ops))
  {
    hide Step, RecordsSafeAt, HarmlessRun, HoldsPlaced;
    EveryRunPlacesHolds([]);
    RunNothing(Init());
    RunKeepsOrder(Init(), ops);
    EveryRunPlacesHolds(ops);
    DistinctHolds(Run(Init(), ops));
    PublishedInOrderIff(Run(Init(), ops));
  }

  // ----- accounts held only at refresh -----

  /** Ascending names followed by ascending names. */
  predicate TwoAscendingRuns(names: seq<string>)
  {
    exists n :: 0 <= n <= |names| && Sorted(names[..n]) && Sorted(names[n..])
  }

  lemma JoinAscending(a: seq<string>, b: seq<string>)
    requires Sorted(a) && Sorted(b)
    ensures TwoAscendingRuns(a + b)
  {
    assert (a + b)[..|a|] == a && (a + b)[|a|..] == b;
  }

  lemma KeepAscending(names: seq<string>, p: string -> bool)
    requires TwoAscendingRuns(names)
    ensures TwoAscendingRuns(Keep(names, p))
  {
    var n :| 0 <= n <= |names| && Sorted(names[..n]) && Sorted(names[n..]);
    assert names == names[..n] + names[n..];
    KeepConcat(names[..n], names[n..], p);
    KeepMembers(names[..n], p);
    KeepMembers(names[n..], p);
    JoinAscending(Keep(names[..n], p), Keep(names[n..], p));
  }

  function Refusing(accounts: seq<string>, refresh: string -> Option<string>): seq<string>
  {
    Keep(accounts, a => refresh(a).Some?)
  }

  lemma {:induction false} RefreshHoldsAre(s: State, accounts: seq<string>, refresh: string -> Option<string>)
    ensures Accounts(RefreshAll(s, accounts, refresh).refreshHolds) ==
            Accounts(s.refreshHolds) + Refusing(accounts, refresh)
    decreases |accounts|
  {
    if accounts != [] {
      var a := accounts[0];
      var t := RefreshOne(s, a, refresh(a));
      RefreshHoldsAre(t, accounts[1..], refresh);
      assert Accounts(t.refreshHolds) == Accounts(s.refreshHolds) + if refresh(a).Some? then [a] else [];
    }
  }

  /** What refreshing adds to the refresh holds: the refused accounts, ascending. */
  lemma RefreshAddsAscending(s: State, report: Report, refresh: string -> Option<string>)
    ensures exists more :: Sorted(more) &&
              Accounts(RefreshPending(s, report, refresh).refreshHolds) == Accounts(s.refreshHolds) + more
  {
    hide SortedSet, Unheld, RefreshAll, DropAll, Keep;
    var t := RefreshPending(s, report, refresh);
    if s.refreshInstalled {
      var accounts := SortedSet(Unheld(s, report));
      RefreshHoldsAre(s, accounts, refresh);
      KeepMembers(accounts, a => refresh(a).Some?);
      assert Accounts(t.refreshHolds) == Accounts(s.refreshHolds) + Refusing(accounts, refresh);
    } else {
      DropAllFrame(s, SortedSet(set a | a in s.pending && !Held(s.refreshHolds, a)));
      assert Sorted([]) && Accounts(t.refreshHolds) == Accounts(s.refreshHolds) + [];
    }
  }

  lemma AfterScanNames(s: State, kind: PassKind, env: PassEnv, report: Report)
    requires RecordsSafe(s)
    ensures TwoAscendingRuns(Accounts(AfterScan(s, kind, env, report).0.refreshHolds))
  {
    hide SortedSet, Unheld, ExtractAll, RefreshPending, RunScan, Keep, TwoAscendingRuns, RecordsSafeAt;
    var s2 := QueueMaterialized(s, report).(refreshHolds := []);
    var accounts := SortedSet(Unheld(s2, report));
    var (s3, appended) := ExtractPending(s2, report, env.extract);
    ExtractionHolds(s2, accounts, env.extract);
    KeepMembers(accounts, a => env.extract(a).error.Some?);
    var failed := Accounts(s3.refreshHolds);
    assert Sorted(failed) by {
      assert s2.extractInstalled ==> failed == [] + Failing(accounts, env.extract);
      assert !s2.extractInstalled ==> failed == [];
    }
    ExtractAllKeepsRecordsSafe(s2, accounts, env.extract);
    JoinAscending(failed, []);
    assert failed + [] == failed;
    if appended {
      var (s4, out) := RunScan(s3, kind, env.followUpGrowth, env.followUpScan);
      ScanKeepsRecordsSafe(s3, kind, env.followUpGrowth, env.followUpScan);
      if out.Completed? {
        var s5 := QueueMaterialized(s4, out.report);
        RefreshAddsAscending(s5, out.report, env.refresh);
        var more :| Sorted(more) &&
          Accounts(RefreshPending(s5, out.report, env.refresh).refreshHolds) == Accounts(s5.refreshHolds) + more;
        JoinAscending(failed, more);
      }
    } else {
      RefreshAddsAscending(s3, report, env.refresh);
      var more :| Sorted(more) &&
        Accounts(RefreshPending(s3, report, env.refresh).refreshHolds) == Accounts(s3.refreshHolds) + more;
      JoinAscending(failed, more);
    }
  }

  lemma DerivedPassNames(s: State, kind: PassKind, env: PassEnv)
    requires RecordsSafe(s) && TwoAscendingRuns(Accounts(s.refreshHolds))
    ensures TwoAscendingRuns(Accounts(DerivedPass(s, kind, env).0.refreshHolds))
  {
    hide RunScan, AfterScan, RecordsSafeAt, TwoAscendingRuns;
    var (s1, out) := RunScan(s, kind, env.growth, env.scan);
    ScanKeepsRecordsSafe(s, kind, env.growth, env.scan);
    if out.Completed? {
      AfterScanNames(s1, kind, env, out.report);
    }
  }

  lemma PassNames(s: State, kind: PassKind, env: PassEnv)
    requires RecordsSafe(s) && TwoAscendingRuns(Accounts(s.refreshHolds))
    ensures TwoAscendingRuns(Accounts(RunAndFinish(s, kind, env).refreshHolds))
    ensures kind.PassCatchUp? ==> TwoAscendingRuns(Accounts(CatchUpStep(s, env).refreshHolds))
  {
    hide DerivedPass, RecordFailure, FailureSignature, RecordsSafeAt, TwoAscendingRuns;
    DerivedPassNames(s, kind, env);
    var (t, out) := DerivedPass(s, kind, env);
    RecordFailureFrame(t, kind, out, FailureSignature(out, t.refreshHolds), env.now);
  }

  lemma {:induction false} RunNames(s: State, ops: seq<Op>)
    requires RecordsSafe(s) && TwoAscendingRuns(Accounts(s.refreshHolds))
    ensures TwoAscendingRuns(Accounts(Run(s, ops).refreshHolds))
    decreases |ops|
  {
    hide RunAndFinish, CatchUpStep, RecordsSafeAt, TwoAscendingRuns;
    if ops != [] {
      StepKeepsRecordsSafe(s, ops[0]);
      match ops[0] {
        case CatchUp(env) => PassNames(s, PassCatchUp, env);
        case PostIngest(env) => PassNames(s, PassPostIngest, env);
        case Fire(source, env) => PassNames(s.(attached := s.attached - {source}, retrySource := None), PassRetry, env);
        case _ =>
      }
      RunNames(Step(s, ops[0]), ops[1..]);
    }
  }

  /** In every reachable state the accounts held only at refresh follow the pass holds: those
      whose extraction failed in name order, then those whose refresh failed in name order. */
  lemma RefreshOnlyAccountsFollow(ops: seq<Op>)
    ensures var s := Run(Init(), ops);
            HeldAccounts(s)[..|s.holds|] == Accounts(s.holds) && TwoAscendingRuns(HeldAccounts(s)[|s.holds|..])
  {
    hide Step, Unlisted, TwoAscendingRuns, RecordsSafeAt;
    var s := Run(Init(), ops);
    NoNames();
    EveryRunPlacesHolds([]);
    RunNothing(Init());
    RunNames(Init(), ops);
    UnlistedNames(s.holds, s.refreshHolds);
    KeepAscending(Accounts(s.refreshHolds), a => !Held(s.holds, a));
    assert HeldAccounts(s)[|s.holds|..] == Unlisted(s.holds, s.refreshHolds);
  }

  lemma NoNames()
    ensures TwoAscendingRuns(Accounts(Init().refreshHolds))
  {
    JoinAscending([], []);
    assert Accounts(Init().refreshHolds) == [] + [];
  }

  /** Extraction fails for b, refresh for a. */
  function CrossedEnv(): PassEnv
  {
    var scan := ScanEnv(None, true, p => Applies);
    PassEnv([], scan, a => ExtractAnswer(if a == "b" then Some("no header") else None, []), [], scan,
            a => if a == "a" then Some("view is gone") else None, 0)
  }

  function CrossedRun(): seq<Op>
  {
    [SetExtract(true), SetRefresh(true), QueueRefresh("a"), QueueRefresh("b")]
  }

  lemma CrossedStart()
    ensures var s := Run(Init(), CrossedRun());
            s == Init().(extractInstalled := true, refreshInstalled := true, pending := {"a", "b"}, log := s.log)
  {
    var ops := CrossedRun();
    assert ops[1..] == [ops[1], ops[2], ops[3]] && ops[1..][1..] == [ops[2], ops[3]];
    assert ops[1..][1..][1..] == [ops[3]] && ops[1..][1..][1..][1..] == [];
    var s1 := Step(Init(), ops[0]);
    var s2 := Step(s1, ops[1]);
    var s3 := Step(s2, ops[2]);
    var s4 := Step(s3, ops[3]);
    assert s3.pending + {"b"} == {"a", "b"};
    assert Run(s3, [ops[3]]) == Run(s4, []) == s4;
    assert Run(s2, [ops[2], ops[3]]) == s4;
    assert Run(s1, [ops[1], ops[2], ops[3]]) == s4;
  }

  lemma CrossedPass(s: State)
    requires s.journal == [] && s.catalog == Catalog(None, {}) && s.pending == {"a", "b"}
    requires s.extractInstalled && s.refreshInstalled
    ensures var (t, out) := DerivedPass(s, PassCatchUp, CrossedEnv());
            out == Completed(Report([], 0, None, {})) && Accounts(t.refreshHolds) == ["b", "a"]
  {
    hide SortedSet, ExtractAll, RefreshAll, Keep;
    var env, report := CrossedEnv(), Report([], 0, None, {});
    assert Extend([], []) == [];
    var (s1, out) := RunScan(s, PassCatchUp, [], env.scan);
    assert out == Completed(report);
    var s2 := QueueMaterialized(s1, report).(refreshHolds := []);
    assert Unheld(s2, report) == {"a", "b"};
    var first := SortedSet({"a", "b"});
    SortedSetMembers({"a", "b"});
    assert !AppendedAny(first, env.extract);
    ExtractionHolds(s2, first, env.extract);
    assert "b" in first by {
      assert "b" in SetOf(first);
    }
    KeepOne(first, a => env.extract(a).error.Some?, "b");
    var s3 := ExtractAll(s2, first, env.extract);
    assert Accounts(s3.refreshHolds) == ["b"];
    assert s3.refreshHolds[0].account == Accounts(s3.refreshHolds)[0];
    ExtractAllPending(s2, first, env.extract);
    assert Unheld(s3, report) == {"a"};
    var second := SortedSet({"a"});
    SortedSetMembers({"a"});
    RefreshHoldsAre(s3, second, env.refresh);
    assert "a" in second by {
      assert "a" in SetOf(second);
    }
    KeepOne(second, a => env.refresh(a).Some?, "a");
    assert ["b"] + ["a"] == ["b", "a"];
  }

  lemma {:induction false} ExtractAllPending(s: State, accounts: seq<string>, extract: string -> ExtractAnswer)
    ensures var t := ExtractAll(s, accounts, extract); t.pending == s.pending && t.refreshInstalled == s.refreshInstalled
    decreases |accounts|
  {
    if accounts != [] {
      ExtractAllPending(ExtractOne(s, accounts[0], extract(accounts[0])), accounts[1..], extract);
    }
  }

  /** Two runs and not one: b, whose extraction failed, is listed before a. */
  lemma RefreshOnlyAccountsCanLeaveNameOrder()
    ensures HeldAccounts(Run(Init(), CrossedRun() + [CatchUp(CrossedEnv())])) == ["b", "a"]
  {
    hide DerivedPass, FailureSignature, RecordFailure, CrossedEnv, CrossedRun;
    CrossedStart();
    var s := Run(Init(), CrossedRun());
    RunAppend(Init(), CrossedRun(), CatchUp(CrossedEnv()));
    CrossedPass(s);
    var (t, out) := DerivedPass(s, PassCatchUp, CrossedEnv());
    assert |t.refreshHolds| == |Accounts(t.refreshHolds)| == 2;
    RecordFailureFrame(t, PassCatchUp, out, FailureSignature(out, t.refreshHolds), CrossedEnv().now);
    var u := Step(s, CatchUp(CrossedEnv()));
    assert u.holds == [];
    UnlistedNames([], t.refreshHolds);
    KeepAll(Accounts(t.refreshHolds), a => !Held([], a));
    assert [] + ["b", "a"] == ["b", "a"];
  }

  lemma {:induction false} KeepAll(names: seq<string>, p: string -> bool)
    requires forall i :: 0 <= i < |names| ==> p(names[i])
    ensures Keep(names, p) == names
  {
    if names != [] {
      KeepAll(names[1..], p);
    }
  }

  // ----- a run that leaves the order -----

  /** The first full pass rejects all but the second of three deliveries. */
  function MiddleEnv(): PassEnv
  {
    var scan := ScanEnv(None, true, (p: Position) => if p.offset == 1 then Applies else Rejects("missing object"));
    PassEnv([], scan, a => ExtractAnswer(None, []), [], scan, a => None, 0)
  }

  /** Deliveries to x, a and b. */
  function ThreeDeliveries(): seq<Draft>
  {
    [Draft("x", Delivery, 0, 0), Draft("a", Delivery, 0, 0), Draft("b", Delivery, 0, 0)]
  }

  function ThreeRecords(): seq<Record>
  {
    [Record(Position(0, 1), "x", Delivery), Record(Position(1, 2), "a", Delivery), Record(Position(2, 3), "b", Delivery)]
  }

  lemma ThreeAppended()
    ensures Extend([], ThreeDeliveries()) == ThreeRecords()
  {
    var d, r := ThreeDeliveries(), ThreeRecords();
    assert d[1..] == [d[1], d[2]] && d[1..][1..] == [d[2]] && d[1..][1..][1..] == [];
    assert [] + [NextRecord([], d[0])] == r[..1];
    assert r[..1] + [NextRecord(r[..1], d[1])] == r[..2];
    assert r[..2] + [NextRecord(r[..2], d[2])] == r;
    assert Extend(r[..2], [d[2]]) == Extend(r, []) == r;
    assert Extend(r[..1], [d[1], d[2]]) == Extend(r[..2], [d[2]]);
  }

  lemma MiddleScan(c: Catalog)
    requires c == Catalog(None, {})
    ensures Pass(ThreeRecords(), c, None, [], MiddleEnv().scan) ==
            (Catalog(None, {Position(1, 2)}),
             Completed(Report([Hold("x", Position(0, 1), "missing object"), Hold("b", Position(2, 3), "missing object")],
                              3, Some(Position(2, 3)), {"a"})))
  {
    var j, v := ThreeRecords(), MiddleEnv().scan.verdict;
    var x, b := Hold("x", Position(0, 1), "missing object"), Hold("b", Position(2, 3), "missing object");
    assert RunEnd(j, 0, 0) == 1 && RunEnd(j, 1, 1) == 2 && RunEnd(j, 2, 2) == 3;
    var s0 := ScanState(c, [], {});
    var s1 := s0.(holds := [x]);
    var s2 := AfterRun(s1, j[1..2], true);
    assert j[1..2] == [j[1]];
    assert s2.catalog == Catalog(None, {Position(1, 2)}) && s2.materialized == {"a"};
    var s3 := s2.(holds := [x, b]);
    assert Scan(j, 3, true, s3, v) == ScanResult(s3, None);
    assert s2.holds + [b] == [x, b];
    assert Scan(j, 2, true, s2, v) == ScanResult(s3, None);
    assert Scan(j, 1, true, s1, v) == ScanResult(s3, None);
    assert [] + [x] == [x];
    assert Scan(j, 0, true, s0, v) == ScanResult(s3, None);
  }

  /** Two accounts held with one applied between them, then an abort. */
  function LeavingRun(): seq<Op>
  {
    [Append(ThreeDeliveries()), CatchUp(MiddleEnv()), PostIngest(BlockedEnv())]
  }

  lemma AfterMiddle(s: State)
    requires s == Init().(journal := ThreeRecords())
    ensures var t := Step(s, CatchUp(MiddleEnv()));
            && t.journal == s.journal && t.catalog == Catalog(None, {Position(1, 2)})
            && t.holds == [Hold("x", Position(0, 1), "missing object"), Hold("b", Position(2, 3), "missing object")]
  {
    hide Pass, DerivedPass, FinishPass;
    assert RecordsSafe(s);
    MiddleScan(s.catalog);
    assert Extend(s.journal, []) == s.journal;
    QuietPass(s, PassCatchUp, MiddleEnv());
    CatchUpIsRunAndFinish(s, MiddleEnv());
  }

  lemma AfterAbort(s: State)
    requires RecordsSafe(s)
    ensures var t := Step(s, PostIngest(BlockedEnv()));
            t.journal == s.journal && t.catalog == s.catalog && t.holds == s.holds && t.cursor.None?
  {
    hide Scan, AfterScan, RecordFailure, FailureSignature;
    assert Extend(s.journal, []) == s.journal;
    var (t, out) := DerivedPass(s, PassPostIngest, BlockedEnv());
    RecordFailureFrame(t, PassPostIngest, out, FailureSignature(out, t.refreshHolds), BlockedEnv().now);
  }

  lemma LeavingState()
    ensures var s := Run(Init(), LeavingRun());
            && s.journal == ThreeRecords() && s.catalog == Catalog(None, {Position(1, 2)}) && s.cursor.None?
            && s.holds == [Hold("x", Position(0, 1), "missing object"), Hold("b", Position(2, 3), "missing object")]
  {
    hide RunAndFinish, CatchUpStep, MiddleEnv, BlockedEnv, ThreeDeliveries, ThreeRecords, RecordsSafe;
    ThreeAppended();
    var a, b, c := Append(ThreeDeliveries()), CatchUp(MiddleEnv()), PostIngest(BlockedEnv());
    assert [a, b, c][1..] == [b, c] && [b, c][1..] == [c] && [c][1..] == [];
    var s1 := Step(Init(), a);
    var s2 := Step(s1, b);
    var s3 := Step(s2, c);
    AfterMiddle(s1);
    EveryRunIsSafe([a, b]);
    assert [a, b][1..] == [b] && [b][1..] == [];
    assert Run(s2, []) == s2 && Run(s1, [b]) == Run(s2, []) && Run(Init(), [a, b]) == Run(s1, [b]);
    AfterAbort(s2);
    assert Run(s3, []) == s3 && Run(s2, [c]) == Run(s3, []) && Run(s1, [b, c]) == Run(s2, [c]);
  }

  /** So the header's promise fails on a run: a delivery between two holds is newly rejected
      after an abort and listed behind both. */
  lemma HoldsCanLeaveJournalOrder()
    ensures PublishedInOrder(Run(Init(), LeavingRun()))
    ensures !PublishedInOrder(Run(Init(), LeavingRun() + [PostIngest(RejectingEnv())]))
  {
    hide Step, RecordsSafe, RejectingEnv, LeavingRun, Run, ThreeRecords, EarlierUnheld, Scannable, HoldsOrdered,
      PublishedInOrder, HoldsPlaced;
    LeavingState();
    var s := Run(Init(), LeavingRun());
    EveryRunPlacesHolds(LeavingRun());
    RunAppend(Init(), LeavingRun(), PostIngest(RejectingEnv()));
    LeavingFacts(s);
    DistinctHolds(s);
    PublishedInOrderIff(s);
    RejectingBreaksOrder(s);
    var t := Step(s, PostIngest(RejectingEnv()));
    StepKeepsRecordsSafe(s, PostIngest(RejectingEnv()));
    DistinctHolds(t);
    PublishedInOrderIff(t);
  }

  lemma LeavingFacts(s: State)
    requires s.journal == ThreeRecords() && s.catalog.checkpoint.None?
    requires s.holds == [Hold("x", Position(0, 1), "missing object"), Hold("b", Position(2, 3), "missing object")]
    ensures HoldsOrdered(s.holds) && Scannable(s) && EarlierUnheld(s)
  {
    assert s.journal[1].account == "a" && !Held(s.holds, "a") && s.journal[1].pos.offset == 1;
  }
}
