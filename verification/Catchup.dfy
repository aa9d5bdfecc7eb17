/**
 * The delivery catch-up pass: replays journal records after a start position,
 * groups consecutive deliveries of one account into runs, commits or holds each
 * run, and advances the persisted checkpoint only over work that is committed.
 */
module Catchup {
  import opened Basics

  datatype Position = Position(offset: nat, sequence: nat)

  /** Mutation stands for flag changes, expunges, copies, moves and fact records. */
  datatype Kind = Delivery | Appended | MembershipChange | Mutation

  datatype Record = Record(pos: Position, account: string, kind: Kind)

  datatype Hold = Hold(account: string, pos: Position, message: string)

  datatype Error = Error(domain: string, code: string, message: string)

  datatype Report = Report(holds: seq<Hold>, recordsScanned: nat,
                           scannedThrough: Option<Position>, materialized: set<string>)

  datatype ScanOutcome = Completed(report: Report) | Aborted(error: Error)

  /** Rejects: a raw object check or an INVALID_DATA apply failure. Breaks: any other failure. */
  datatype Verdict = Applies | Rejects(message: string) | Breaks(error: Error)

  /** What the world answers during one pass; a run is identified by its first record. */
  datatype ScanEnv = ScanEnv(blocked: Option<Error>, rootUsable: bool, verdict: Position -> Verdict)

  datatype Catalog = Catalog(checkpoint: Option<Position>, applied: set<Position>)

  datatype ScanState = ScanState(catalog: Catalog, holds: seq<Hold>, materialized: set<string>)

  datatype ScanResult = ScanResult(state: ScanState, error: Option<Error>)

  /** Journal order: offsets and sequences strictly increase. */
  predicate Ordered(j: seq<Record>)
  {
    forall i, k :: 0 <= i < k < |j| ==>
      j[i].pos.offset < j[k].pos.offset && j[i].pos.sequence < j[k].pos.sequence
  }

  predicate Held(holds: seq<Hold>, account: string)
  {
    exists i :: 0 <= i < |holds| && holds[i].account == account
  }

  predicate HoldsDistinct(holds: seq<Hold>)
  {
    forall i, k :: 0 <= i < k < |holds| ==> holds[i].account != holds[k].account
  }

  /** Journal order of the holds themselves. */
  predicate HoldsOrdered(holds: seq<Hold>)
  {
    forall i, k :: 0 <= i < k < |holds| ==> holds[i].pos.offset < holds[k].pos.offset
  }

  function IndexOf(j: seq<Record>, p: Position): (r: Option<nat>)
    ensures r.Some? ==> r.value < |j| && j[r.value].pos == p
    ensures r.None? ==> forall k :: 0 <= k < |j| ==> j[k].pos != p
  {
    if j == [] then None
    else if j[|j| - 1].pos == p then Some(|j| - 1)
    else IndexOf(j[..|j| - 1], p)
  }

  lemma IndexOfRecord(j: seq<Record>, k: nat)
    requires Ordered(j) && k < |j|
    ensures IndexOf(j, j[k].pos) == Some(k)
  {
    var r := IndexOf(j, j[k].pos);
    assert r.Some?;
    assert j[r.value].pos.offset == j[k].pos.offset;
  }

  /** The first record after a position; None when the position is not in the journal. */
  function Seek(j: seq<Record>, start: Option<Position>): (r: Option<nat>)
    ensures r.Some? ==> r.value <= |j|
  {
    if start.None? then Some(0)
    else
      var k := IndexOf(j, start.value);
      if k.None? then None else Some(k.value + 1)
  }

  /** One past the run that begins at first: further deliveries of the same account only. */
  function RunEnd(j: seq<Record>, first: nat, end: nat): (r: nat)
    requires first <= end <= |j| && first < |j|
    requires forall k :: first <= k < end ==> j[k].account == j[first].account
    ensures end <= r <= |j| && first < r
    ensures forall k :: first <= k < r ==> j[k].account == j[first].account
    decreases |j| - end
  {
    if end < |j| && InRun(j, first, end) then RunEnd(j, first, end + 1) else end
  }

  predicate InRun(j: seq<Record>, first: nat, k: nat)
    requires first < |j| && k < |j|
  {
    j[k].account == j[first].account &&
    (k == first || (j[k].kind.Delivery? && j[first].kind.Delivery?))
  }

  /** The records of a run become materialized in one transaction. */
  function CommitRun(c: Catalog, run: seq<Record>, advance: bool): Catalog
    requires run != []
  {
    Catalog(if advance then Some(run[|run| - 1].pos) else c.checkpoint,
            c.applied + set k | 0 <= k < |run| :: run[k].pos)
  }

  function AfterRun(st: ScanState, run: seq<Record>, fromCheckpoint: bool): ScanState
    requires run != []
  {
    st.(catalog := CommitRun(st.catalog, run, fromCheckpoint && st.holds == []),
        materialized := st.materialized + if run[0].kind.MembershipChange? then {} else {run[0].account})
  }

  /** The scan loop from record i on. */
  function Scan(j: seq<Record>, i: nat, fromCheckpoint: bool, st: ScanState,
                verdict: Position -> Verdict): ScanResult
    requires i <= |j|
    decreases |j| - i
  {
    if i == |j| then ScanResult(st, None)
    else
      var end := RunEnd(j, i, i);
      if Held(st.holds, j[i].account) then Scan(j, end, fromCheckpoint, st, verdict)
      else
        match verdict(j[i].pos)
        case Applies => Scan(j, end, fromCheckpoint, AfterRun(st, j[i..end], fromCheckpoint), verdict)
        case Rejects(m) =>
          Scan(j, end, fromCheckpoint, st.(holds := st.holds + [Hold(j[i].account, j[i].pos, m)]), verdict)
        case Breaks(e) => ScanResult(st, Some(e))
  }

  predicate LacksAccount(j: seq<Record>, from: nat)
  {
    exists k :: from <= k < |j| && j[k].account == ""
  }

  predicate HasMessage(j: seq<Record>, from: nat)
  {
    exists k :: from <= k < |j| && (j[k].kind.Delivery? || j[k].kind.Appended?)
  }

  function SeekError(): Error
  {
    Error("g-io-error-quark", "0", "journal position does not match")
  }

  function Start(c: Catalog, resume: Option<Position>): Option<Position>
  {
    if resume.Some? then resume else c.checkpoint
  }

  /** One catch-up pass; also the catalog it leaves when it aborts. */
  function Pass(j: seq<Record>, c: Catalog, resume: Option<Position>, prior: seq<Hold>, env: ScanEnv)
    : (Catalog, ScanOutcome)
  {
    if env.blocked.Some? then (c, Aborted(env.blocked.value))
    else
      var i := Seek(j, Start(c, resume));
      if i.None? then (c, Aborted(SeekError()))
      else if LacksAccount(j, i.value) then
        (c, Aborted(Error("g-io-error-quark", "13", "journaled delivery has no account identity")))
      else if HasMessage(j, i.value) && !env.rootUsable then
        (c, Aborted(Error("g-io-error-quark", "1", "object store root is not usable")))
      else
        var r := Scan(j, i.value, resume.None? || resume == c.checkpoint, ScanState(c, prior, {}), env.verdict);
        if r.error.Some? then (r.state.catalog, Aborted(r.error.value))
        else
          (r.state.catalog,
           Completed(Report(r.state.holds, |j| - i.value,
                            if i.value < |j| then Some(j[|j| - 1].pos) else resume,
                            r.state.materialized)))
  }

  // ----- what a pass keeps -----

  /** Every record before n is materialized or belongs to a held account. */
  predicate Covered(j: seq<Record>, n: nat, applied: set<Position>, holds: seq<Hold>)
    requires n <= |j|
  {
    forall k :: 0 <= k < n ==> j[k].pos in applied || Held(holds, j[k].account)
  }

  /** The checkpoint names a journal record and never leads an unmaterialized one. */
  predicate CheckpointSound(j: seq<Record>, c: Catalog)
  {
    c.checkpoint.Some? ==>
      var k := IndexOf(j, c.checkpoint.value);
      k.Some? && Covered(j, k.value + 1, c.applied, [])
  }

  /** Every record a scan newly materialized is in the journal range it read, not of a
      prior hold's account, and reported unless it is a view membership change. */
  predicate Accounted(j: seq<Record>, i: nat, st: ScanState, r: ScanState)
    requires i <= |j|
  {
    forall p :: p in r.catalog.applied && p !in st.catalog.applied ==>
      exists k :: i <= k < |j| && j[k].pos == p && !Held(st.holds, j[k].account) &&
        (!j[k].kind.MembershipChange? ==> j[k].account in r.materialized)
  }

  lemma {:induction false} HeldPrefix(a: seq<Hold>, b: seq<Hold>, account: string)
    requires a <= b && Held(a, account)
    ensures Held(b, account)
  {
    var i :| 0 <= i < |a| && a[i].account == account;
    assert b[i] == a[i];
  }

  lemma {:induction false} ScanSound(j: seq<Record>, i: nat, fromCheckpoint: bool, st: ScanState,
                                     verdict: Position -> Verdict)
    requires Ordered(j) && i <= |j|
    requires CheckpointSound(j, st.catalog)
    requires Covered(j, i, st.catalog.applied, st.holds)
    ensures var r := Scan(j, i, fromCheckpoint, st, verdict);
            && CheckpointSound(j, r.state.catalog)
            && st.catalog.applied <= r.state.catalog.applied
            && st.holds <= r.state.holds
            && st.materialized <= r.state.materialized
            && (r.error.None? ==> Covered(j, |j|, r.state.catalog.applied, r.state.holds))
            && (HoldsDistinct(st.holds) ==> HoldsDistinct(r.state.holds))
    decreases |j| - i
  {
    if i < |j| {
      var end := RunEnd(j, i, i);
      if Held(st.holds, j[i].account) {
        ScanSound(j, end, fromCheckpoint, st, verdict);
      } else {
        match verdict(j[i].pos)
        case Applies =>
          var st' := AfterRun(st, j[i..end], fromCheckpoint);
          CommitSound(j, i, end, fromCheckpoint, st);
          ScanSound(j, end, fromCheckpoint, st', verdict);
        case Rejects(m) =>
          var st' := st.(holds := st.holds + [Hold(j[i].account, j[i].pos, m)]);
          assert st'.holds[|st.holds|].account == j[i].account;
          assert Held(st'.holds, j[i].account);
          forall k | 0 <= k < end ensures j[k].pos in st'.catalog.applied || Held(st'.holds, j[k].account) {
            if k < i && j[k].pos !in st.catalog.applied {
              HeldPrefix(st.holds, st'.holds, j[k].account);
            }
          }
          ScanSound(j, end, fromCheckpoint, st', verdict);
        case Breaks(e) =>
      }
    }
  }

  lemma CommitSound(j: seq<Record>, i: nat, end: nat, fromCheckpoint: bool, st: ScanState)
    requires Ordered(j) && i < end <= |j|
    requires CheckpointSound(j, st.catalog)
    requires Covered(j, i, st.catalog.applied, st.holds)
    ensures var st' := AfterRun(st, j[i..end], fromCheckpoint);
            CheckpointSound(j, st'.catalog) && Covered(j, end, st'.catalog.applied, st.holds)
  {
    var st' := AfterRun(st, j[i..end], fromCheckpoint);
    var run := j[i..end];
    forall k | i <= k < end ensures j[k].pos in st'.catalog.applied {
      assert run[k - i] == j[k];
    }
    IndexOfRecord(j, end - 1);
    assert run[|run| - 1] == j[end - 1];
  }

  lemma {:induction false} ScanAccounted(j: seq<Record>, i: nat, fromCheckpoint: bool, st: ScanState,
                                         verdict: Position -> Verdict)
    requires Ordered(j) && i <= |j|
    ensures Accounted(j, i, st, Scan(j, i, fromCheckpoint, st, verdict).state)
    ensures st.materialized <= Scan(j, i, fromCheckpoint, st, verdict).state.materialized
    decreases |j| - i
  {
    if i < |j| {
      var end := RunEnd(j, i, i);
      var r := Scan(j, i, fromCheckpoint, st, verdict).state;
      if Held(st.holds, j[i].account) {
        ScanAccounted(j, end, fromCheckpoint, st, verdict);
      } else {
        match verdict(j[i].pos)
        case Applies =>
          var st' := AfterRun(st, j[i..end], fromCheckpoint);
          ScanAccounted(j, end, fromCheckpoint, st', verdict);
          RunKinds(j, i, i);
          forall p | p in r.catalog.applied && p !in st.catalog.applied
            ensures exists k :: i <= k < |j| && j[k].pos == p && !Held(st.holds, j[k].account) &&
                      (!j[k].kind.MembershipChange? ==> j[k].account in r.materialized)
          {
            if p in st'.catalog.applied {
              var k :| 0 <= k < end - i && j[i..end][k].pos == p;
              assert j[i + k].pos == p && InRun(j, i, i + k);
              assert j[i..end][0] == j[i];
            }
          }
        case Rejects(m) =>
          var st' := st.(holds := st.holds + [Hold(j[i].account, j[i].pos, m)]);
          ScanAccounted(j, end, fromCheckpoint, st', verdict);
          forall p | p in r.catalog.applied && p !in st.catalog.applied
            ensures exists k :: i <= k < |j| && j[k].pos == p && !Held(st.holds, j[k].account) &&
                      (!j[k].kind.MembershipChange? ==> j[k].account in r.materialized)
          {
            var k :| end <= k < |j| && j[k].pos == p && !Held(st'.holds, j[k].account) &&
              (!j[k].kind.MembershipChange? ==> j[k].account in r.materialized);
            if Held(st.holds, j[k].account) {
              HeldPrefix(st.holds, st'.holds, j[k].account);
            }
          }
        case Breaks(e) =>
      }
    }
  }

  /** A run of more than one record holds deliveries only. */
  lemma {:induction false} RunKinds(j: seq<Record>, first: nat, end: nat)
    requires first <= end <= |j| && first < |j|
    requires forall k :: first <= k < end ==> InRun(j, first, k) && j[k].account == j[first].account
    ensures forall k :: first <= k < RunEnd(j, first, end) ==> InRun(j, first, k)
    decreases |j| - end
  {
    if end < |j| && InRun(j, first, end) {
      RunKinds(j, first, end + 1);
    }
  }

  /** Every record from i on that may still be held lies behind all the holds. */
  predicate Ahead(j: seq<Record>, i: nat, holds: seq<Hold>)
  {
    forall k, m :: i <= k < |j| && 0 <= m < |holds| && !Held(holds, j[k].account) ==>
      holds[m].pos.offset < j[k].pos.offset
  }

  /** New holds follow the journal: they stay in journal order when each record that may be
      newly held lies behind the holds passed in. */
  lemma {:induction false} ScanHoldsOrdered(j: seq<Record>, i: nat, fromCheckpoint: bool, st: ScanState,
                                            verdict: Position -> Verdict)
    requires Ordered(j) && i <= |j| && HoldsOrdered(st.holds) && Ahead(j, i, st.holds)
    ensures HoldsOrdered(Scan(j, i, fromCheckpoint, st, verdict).state.holds)
    decreases |j| - i
  {
    if i < |j| {
      var end := RunEnd(j, i, i);
      if Held(st.holds, j[i].account) {
        ScanHoldsOrdered(j, end, fromCheckpoint, st, verdict);
      } else {
        match verdict(j[i].pos)
        case Applies =>
          ScanHoldsOrdered(j, end, fromCheckpoint, AfterRun(st, j[i..end], fromCheckpoint), verdict);
        case Rejects(m) =>
          var h := Hold(j[i].account, j[i].pos, m);
          AheadGrows(j, i, end, st.holds, h);
          ScanHoldsOrdered(j, end, fromCheckpoint, st.(holds := st.holds + [h]), verdict);
        case Breaks(e) =>
      }
    }
  }

  lemma AheadGrows(j: seq<Record>, i: nat, end: nat, holds: seq<Hold>, h: Hold)
    requires Ordered(j) && i < end <= |j| && Ahead(j, i, holds) && h.pos == j[i].pos
    ensures Ahead(j, end, holds + [h])
  {
    var all := holds + [h];
    forall k, m | end <= k < |j| && 0 <= m < |all| && !Held(all, j[k].account)
      ensures all[m].pos.offset < j[k].pos.offset
    {
      if Held(holds, j[k].account) {
        HeldPrefix(holds, all, j[k].account);
      }
    }
  }

  /** Each hold names a record of its account. */
  predicate HoldsNamed(j: seq<Record>, holds: seq<Hold>)
  {
    forall m :: 0 <= m < |holds| ==> NamesRecord(j, holds[m])
  }

  predicate NamesRecord(j: seq<Record>, h: Hold)
  {
    exists k :: 0 <= k < |j| && j[k].pos == h.pos && j[k].account == h.account
  }

  lemma {:induction false} ScanHoldsNamed(j: seq<Record>, i: nat, fromCheckpoint: bool, st: ScanState,
                                          verdict: Position -> Verdict)
    requires i <= |j| && HoldsNamed(j, st.holds)
    ensures HoldsNamed(j, Scan(j, i, fromCheckpoint, st, verdict).state.holds)
    decreases |j| - i
  {
    if i < |j| {
      var end := RunEnd(j, i, i);
      if Held(st.holds, j[i].account) {
        ScanHoldsNamed(j, end, fromCheckpoint, st, verdict);
      } else {
        match verdict(j[i].pos)
        case Applies =>
          ScanHoldsNamed(j, end, fromCheckpoint, AfterRun(st, j[i..end], fromCheckpoint), verdict);
        case Rejects(m) =>
          var h := Hold(j[i].account, j[i].pos, m);
          assert NamesRecord(j, h);
          ScanHoldsNamed(j, end, fromCheckpoint, st.(holds := st.holds + [h]), verdict);
        case Breaks(e) =>
      }
    }
  }

  /** With holds carried in, the checkpoint stays where it is. */
  lemma {:induction false} ScanKeepsCheckpoint(j: seq<Record>, i: nat, fromCheckpoint: bool, st: ScanState,
                                               verdict: Position -> Verdict)
    requires i <= |j| && st.holds != []
    ensures Scan(j, i, fromCheckpoint, st, verdict).state.catalog.checkpoint == st.catalog.checkpoint
    decreases |j| - i
  {
    if i < |j| {
      var end := RunEnd(j, i, i);
      var st' := if Held(st.holds, j[i].account) then st
                 else match verdict(j[i].pos)
                   case Applies => AfterRun(st, j[i..end], fromCheckpoint)
                   case Rejects(m) => st.(holds := st.holds + [Hold(j[i].account, j[i].pos, m)])
                   case Breaks(e) => st;
      ScanKeepsCheckpoint(j, end, fromCheckpoint, st', verdict);
    }
  }

  /** A scan that rejects everything holds each account it read and did not carry, at or
      before each of its records. */
  lemma {:induction false} ScanRejectingAll(j: seq<Record>, i: nat, fromCheckpoint: bool, st: ScanState,
                                            verdict: Position -> Verdict, k: nat)
    requires Ordered(j) && i <= |j| && forall p :: verdict(p).Rejects?
    ensures var r := Scan(j, i, fromCheckpoint, st, verdict);
            && r.error.None? && st.holds <= r.state.holds
            && r.state.catalog == st.catalog
            && (i <= k < |j| && !Held(st.holds, j[k].account) ==>
                  exists m :: |st.holds| <= m < |r.state.holds| && r.state.holds[m].pos.offset <= j[k].pos.offset)
    decreases |j| - i
  {
    if i < |j| {
      var end := RunEnd(j, i, i);
      if Held(st.holds, j[i].account) {
        ScanRejectingAll(j, end, fromCheckpoint, st, verdict, k);
      } else {
        var h := Hold(j[i].account, j[i].pos, verdict(j[i].pos).message);
        var st' := st.(holds := st.holds + [h]);
        ScanRejectingAll(j, end, fromCheckpoint, st', verdict, k);
        var r := Scan(j, i, fromCheckpoint, st, verdict).state;
        assert r.holds[|st.holds|] == h;
        assert i <= k < |j| ==> h.pos.offset <= j[k].pos.offset;
      }
    }
  }

  /** The scan position of a pass is sound: everything before it is materialized or held. */
  predicate ResumeSound(j: seq<Record>, c: Catalog, resume: Option<Position>, prior: seq<Hold>)
  {
    resume.Some? ==>
      var k := IndexOf(j, resume.value);
      k.Some? && Covered(j, k.value + 1, c.applied, prior)
  }

  lemma StartCovered(j: seq<Record>, c: Catalog, resume: Option<Position>, prior: seq<Hold>)
    requires CheckpointSound(j, c) && ResumeSound(j, c, resume, prior)
    ensures var i := Seek(j, Start(c, resume));
            i.Some? && Covered(j, i.value, c.applied, prior)
  {
    if resume.None? && c.checkpoint.Some? {
      var k := IndexOf(j, c.checkpoint.value).value;
      forall n | 0 <= n <= k ensures j[n].pos in c.applied {
        assert !Held([], j[n].account);
      }
    }
  }

  /**
   * The contract of a pass, aborted or not: materialized records stay materialized and
   * the checkpoint never moves past uncommitted work. A completed pass carries the holds
   * passed in, and leaves every record of the journal it read materialized or held.
   */
  lemma PassSound(j: seq<Record>, c: Catalog, resume: Option<Position>, prior: seq<Hold>, env: ScanEnv)
    requires Ordered(j) && CheckpointSound(j, c) && ResumeSound(j, c, resume, prior)
    ensures var (c', out) := Pass(j, c, resume, prior, env);
            && CheckpointSound(j, c') && c.applied <= c'.applied
            && (out.Completed? ==>
                  && prior <= out.report.holds
                  && (HoldsDistinct(prior) ==> HoldsDistinct(out.report.holds))
                  && Covered(j, |j|, c'.applied, out.report.holds)
                  && ResumeSound(j, c', out.report.scannedThrough, out.report.holds))
  {
    hide Scan;
    StartCovered(j, c, resume, prior);
    var i := Seek(j, Start(c, resume)).value;
    var from := resume.None? || resume == c.checkpoint;
    ScanSound(j, i, from, ScanState(c, prior, {}), env.verdict);
    if 0 < |j| {
      IndexOfRecord(j, |j| - 1);
    }
  }

  lemma {:induction false} ScanReachesEnd(j: seq<Record>, i: nat, st: ScanState, verdict: Position -> Verdict)
    requires Ordered(j) && i < |j|
    requires Scan(j, i, true, st, verdict).error.None? && Scan(j, i, true, st, verdict).state.holds == []
    ensures Scan(j, i, true, st, verdict).state.catalog.checkpoint == Some(j[|j| - 1].pos)
    decreases |j| - i
  {
    ScanHoldsGrow(j, i, true, st, verdict);
    var end := RunEnd(j, i, i);
    var st' := AfterRun(st, j[i..end], true);
    if verdict(j[i].pos).Rejects? {
      ScanHoldsGrow(j, end, true, st.(holds := st.holds + [Hold(j[i].account, j[i].pos, verdict(j[i].pos).message)]), verdict);
    }
    assert j[i..end][end - i - 1] == j[end - 1];
    if end < |j| {
      ScanReachesEnd(j, end, st', verdict);
    }
  }

  lemma {:induction false} ScanHoldsGrow(j: seq<Record>, i: nat, fromCheckpoint: bool, st: ScanState,
                                         verdict: Position -> Verdict)
    requires i <= |j|
    ensures st.holds <= Scan(j, i, fromCheckpoint, st, verdict).state.holds
    decreases |j| - i
  {
    if i < |j| {
      var end := RunEnd(j, i, i);
      if Held(st.holds, j[i].account) {
        ScanHoldsGrow(j, end, fromCheckpoint, st, verdict);
      } else {
        match verdict(j[i].pos)
        case Applies =>
          ScanHoldsGrow(j, end, fromCheckpoint, AfterRun(st, j[i..end], fromCheckpoint), verdict);
        case Rejects(m) =>
          ScanHoldsGrow(j, end, fromCheckpoint,
                        st.(holds := st.holds + [Hold(j[i].account, j[i].pos, m)]), verdict);
        case Breaks(e) =>
      }
    }
  }

  /** A pass from the checkpoint that holds nobody moves the checkpoint to the journal's end. */
  lemma CleanPassReachesEnd(j: seq<Record>, c: Catalog, prior: seq<Hold>, env: ScanEnv)
    requires Ordered(j) && CheckpointSound(j, c)
    requires Pass(j, c, None, prior, env).1.Completed? && Pass(j, c, None, prior, env).1.report.holds == []
    ensures j != [] ==> Pass(j, c, None, prior, env).0.checkpoint == Some(j[|j| - 1].pos)
  {
    var i := Seek(j, c.checkpoint).value;
    if i < |j| {
      ScanReachesEnd(j, i, ScanState(c, prior, {}), env.verdict);
    }
  }

  /** A position reported by a pass over an append-only journal never fails to seek. */
  lemma ScanCursorNeverAborts(j: seq<Record>, c: Catalog, resume: Option<Position>, prior: seq<Hold>, env: ScanEnv)
    requires Ordered(j) && CheckpointSound(j, c) && ResumeSound(j, c, resume, prior)
    ensures Pass(j, c, resume, prior, env).1 == Aborted(SeekError()) ==>
              env.blocked == Some(SeekError()) || exists p :: env.verdict(p) == Breaks(SeekError())
  {
    StartCovered(j, c, resume, prior);
    var i := Seek(j, Start(c, resume)).value;
    ScanErrorSource(j, i, resume.None? || resume == c.checkpoint, ScanState(c, prior, {}), env.verdict);
  }

  lemma {:induction false} ScanErrorSource(j: seq<Record>, i: nat, fromCheckpoint: bool, st: ScanState,
                                           verdict: Position -> Verdict)
    requires i <= |j|
    ensures var r := Scan(j, i, fromCheckpoint, st, verdict);
            r.error.Some? ==> exists p :: verdict(p) == Breaks(r.error.value)
    decreases |j| - i
  {
    if i < |j| {
      var end := RunEnd(j, i, i);
      if Held(st.holds, j[i].account) {
        ScanErrorSource(j, end, fromCheckpoint, st, verdict);
      } else {
        match verdict(j[i].pos)
        case Applies =>
          ScanErrorSource(j, end, fromCheckpoint, AfterRun(st, j[i..end], fromCheckpoint), verdict);
        case Rejects(m) =>
          ScanErrorSource(j, end, fromCheckpoint,
                          st.(holds := st.holds + [Hold(j[i].account, j[i].pos, m)]), verdict);
        case Breaks(e) =>
      }
    }
  }

  /** No record of an account held on entry is materialized, and every newly materialized
      record outside view membership changes has its account in the report. */
  lemma PassAccounted(j: seq<Record>, c: Catalog, resume: Option<Position>, prior: seq<Hold>, env: ScanEnv)
    requires Ordered(j)
    ensures var (c', out) := Pass(j, c, resume, prior, env);
            forall p :: p in c'.applied && p !in c.applied ==>
              exists k :: 0 <= k < |j| && j[k].pos == p && !Held(prior, j[k].account) &&
                (out.Completed? && !j[k].kind.MembershipChange? ==> j[k].account in out.report.materialized)
  {
    var i := Seek(j, Start(c, resume));
    if i.Some? {
      ScanAccounted(j, i.value, resume.None? || resume == c.checkpoint, ScanState(c, prior, {}), env.verdict);
    }
  }

  /** A scan that applies everything holds nobody and reports every account it read. */
  lemma {:induction false} ScanApplyingAll(j: seq<Record>, i: nat, fromCheckpoint: bool, st: ScanState,
                                           verdict: Position -> Verdict)
    requires i <= |j| && st.holds == [] && forall p :: verdict(p) == Applies
    ensures var r := Scan(j, i, fromCheckpoint, st, verdict);
            && r.error.None? && r.state.holds == [] && st.materialized <= r.state.materialized
            && forall k :: i <= k < |j| && !j[k].kind.MembershipChange? ==> j[k].account in r.state.materialized
    decreases |j| - i
  {
    if i < |j| {
      var end := RunEnd(j, i, i);
      assert !Held(st.holds, j[i].account);
      ScanApplyingAll(j, end, fromCheckpoint, AfterRun(st, j[i..end], fromCheckpoint), verdict);
      RunKinds(j, i, i);
      forall k | i <= k < end && !j[k].kind.MembershipChange?
        ensures j[k].account in AfterRun(st, j[i..end], fromCheckpoint).materialized
      {
        assert InRun(j, i, k);
        assert j[i..end][0] == j[i];
      }
    }
  }

  predicate HoldsWithin(holds: seq<Hold>, offset: nat)
  {
    forall k :: 0 <= k < |holds| ==> holds[k].pos.offset <= offset
  }

  lemma NothingBehind(j: seq<Record>, i: nat)
    ensures Ahead(j, i, [])
  {
  }

  /** The reported holds name records, and they stay in journal order when each record that
      may be newly held lies behind the holds carried in. */
  lemma PassHoldsOrdered(j: seq<Record>, c: Catalog, resume: Option<Position>, prior: seq<Hold>, env: ScanEnv)
    requires Ordered(j) && HoldsNamed(j, prior)
    ensures var out := Pass(j, c, resume, prior, env).1;
            out.Completed? ==>
              && HoldsNamed(j, out.report.holds)
              && (prior == [] ==> HoldsOrdered(out.report.holds))
              && (HoldsOrdered(prior) && Ahead(j, Seek(j, Start(c, resume)).value, prior) ==>
                    HoldsOrdered(out.report.holds))
  {
    hide Scan, IndexOf, Ahead;
    var i := Seek(j, Start(c, resume));
    var from := resume.None? || resume == c.checkpoint;
    if i.Some? {
      ScanHoldsNamed(j, i.value, from, ScanState(c, prior, {}), env.verdict);
      NothingBehind(j, i.value);
      if HoldsOrdered(prior) && Ahead(j, i.value, prior) {
        ScanHoldsOrdered(j, i.value, from, ScanState(c, prior, {}), env.verdict);
      }
    }
  }

  /** What a completed scan reports: holds that name records up to where it read. */
  predicate ReportPlaced(j: seq<Record>, report: Report)
  {
    && HoldsNamed(j, report.holds)
    && (report.scannedThrough.Some? ==> HoldsWithin(report.holds, report.scannedThrough.value.offset))
  }

  lemma NamedWithin(j: seq<Record>, holds: seq<Hold>)
    requires Ordered(j) && HoldsNamed(j, holds) && j != []
    ensures HoldsWithin(holds, j[|j| - 1].pos.offset)
  {
    forall m | 0 <= m < |holds| ensures holds[m].pos.offset <= j[|j| - 1].pos.offset {
      assert NamesRecord(j, holds[m]);
    }
  }

  lemma PassReportPlaced(j: seq<Record>, c: Catalog, resume: Option<Position>, prior: seq<Hold>, env: ScanEnv)
    requires Ordered(j) && HoldsNamed(j, prior) && (resume.Some? ==> HoldsWithin(prior, resume.value.offset))
    ensures var out := Pass(j, c, resume, prior, env).1; out.Completed? ==> ReportPlaced(j, out.report)
  {
    hide IndexOf, HoldsNamed, HoldsWithin;
    var i := Seek(j, Start(c, resume));
    if i.Some? {
      PassHoldsOrdered(j, c, resume, prior, env);
      var out := Pass(j, c, resume, prior, env).1;
      if out.Completed? && i.value < |j| {
        NamedWithin(j, out.report.holds);
      }
    }
  }

  // ----- the pass as the daemon runs it, against the catalog in place -----

  class CatalogStore {
    var checkpoint: Option<Position>
    var applied: set<Position>

    function Contents(): Catalog
      reads this
    {
      Catalog(checkpoint, applied)
    }

    constructor ()
      ensures Contents() == Catalog(None, {})
    {
      checkpoint, applied := None, {};
    }

    method Commit(run: seq<Record>, advance: bool)
      requires run != []
      modifies this
      ensures Contents() == CommitRun(old(Contents()), run, advance)
    {
      applied := applied + set k | 0 <= k < |run| :: run[k].pos;
      if advance {
        checkpoint := Some(run[|run| - 1].pos);
      }
    }
  }

  method IsAccountHeld(holds: seq<Hold>, account: string) returns (held: bool)
    ensures held == Held(holds, account)
  {
    var i := 0;
    while i < |holds|
      invariant i <= |holds|
      invariant forall k :: 0 <= k < i ==> holds[k].account != account
    {
      if holds[i].account == account {
        return true;
      }
      i := i + 1;
    }
    return false;
  }

  method AnyRecordLacksAccount(j: seq<Record>, from: nat) returns (lacks: bool)
    requires from <= |j|
    ensures lacks == LacksAccount(j, from)
  {
    var i := from;
    while i < |j|
      invariant from <= i <= |j|
      invariant forall k :: from <= k < i ==> j[k].account != ""
    {
      if j[i].account == "" {
        return true;
      }
      i := i + 1;
    }
    return false;
  }

  method HasDeliveryRecord(j: seq<Record>, from: nat) returns (found: bool)
    requires from <= |j|
    ensures found == HasMessage(j, from)
  {
    var i := from;
    while i < |j|
      invariant from <= i <= |j|
      invariant forall k :: from <= k < i ==> !j[k].kind.Delivery? && !j[k].kind.Appended?
    {
      if j[i].kind.Delivery? || j[i].kind.Appended? {
        return true;
      }
      i := i + 1;
    }
    return false;
  }

  method CollectRun(j: seq<Record>, runStart: nat) returns (runEnd: nat)
    requires runStart < |j|
    ensures runEnd == RunEnd(j, runStart, runStart)
  {
    runEnd := runStart;
    while runEnd < |j| && InRun(j, runStart, runEnd)
      invariant runStart <= runEnd <= |j|
      invariant forall k :: runStart <= k < runEnd ==> j[k].account == j[runStart].account
      invariant RunEnd(j, runStart, runStart) == RunEnd(j, runStart, runEnd)
    {
      runEnd := runEnd + 1;
    }
  }

  method MaterializeRuns(store: CatalogStore, j: seq<Record>, from: nat, fromCheckpoint: bool,
                         prior: seq<Hold>, verdict: Position -> Verdict)
    returns (holds: seq<Hold>, materialized: set<string>, error: Option<Error>)
    requires from <= |j|
    modifies store
    ensures Scan(j, from, fromCheckpoint, ScanState(old(store.Contents()), prior, {}), verdict) ==
            ScanResult(ScanState(store.Contents(), holds, materialized), error)
  {
    holds, materialized, error := prior, {}, None;
    var runStart := from;
    ghost var goal := Scan(j, from, fromCheckpoint, ScanState(store.Contents(), prior, {}), verdict);
    while runStart < |j|
      invariant from <= runStart <= |j| && error.None?
      invariant goal == Scan(j, runStart, fromCheckpoint,
                             ScanState(store.Contents(), holds, materialized), verdict)
    {
      var first := j[runStart];
      var runEnd := CollectRun(j, runStart);
      var run := j[runStart..runEnd];
      var held := IsAccountHeld(holds, first.account);
      assert run[0] == first && materialized + {} == materialized;
      if !held {
        match verdict(first.pos)
        case Applies =>
          store.Commit(run, fromCheckpoint && |holds| == 0);
          if !first.kind.MembershipChange? {
            materialized := materialized + {first.account};
          }
        case Rejects(message) =>
          holds := holds + [Hold(first.account, first.pos, message)];
        case Breaks(e) =>
          error := Some(e);
          return;
      }
      runStart := runEnd;
    }
  }

  method MaterializeAccountInboxes(store: CatalogStore, j: seq<Record>, resume: Option<Position>,
                                   prior: seq<Hold>, env: ScanEnv)
    returns (outcome: ScanOutcome)
    modifies store
    ensures Pass(j, old(store.Contents()), resume, prior, env) == (store.Contents(), outcome)
  {
    hide Scan, IndexOf;
    if env.blocked.Some? {
      return Aborted(env.blocked.value);
    }
    var fromCheckpoint := resume.None? || resume == store.checkpoint;
    var start := Seek(j, if resume.Some? then resume else store.checkpoint);
    if start.None? {
      return Aborted(SeekError());
    }
    var lacks := AnyRecordLacksAccount(j, start.value);
    if lacks {
      return Aborted(Error("g-io-error-quark", "13", "journaled delivery has no account identity"));
    }
    var message := HasDeliveryRecord(j, start.value);
    if message && !env.rootUsable {
      return Aborted(Error("g-io-error-quark", "1", "object store root is not usable"));
    }
    var holds, materialized, error := MaterializeRuns(store, j, start.value, fromCheckpoint, prior, env.verdict);
    if error.Some? {
      return Aborted(error.value);
    }
    var through := if start.value < |j| then Some(j[|j| - 1].pos) else resume;
    return Completed(Report(holds, |j| - start.value, through, materialized));
  }
}
