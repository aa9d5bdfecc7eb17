/**
 * What a catch-up scan decides, said record by record and without the loop: which runs it
 * gets to, and what the verdict on each of them does to holds, catalog, report and outcome.
 */
module CatchupDecisions {
  import opened Basics
  import opened Catchup

  /** A scan of journal j from record start on, with the holds carried in. */
  datatype Input = Input(j: seq<Record>, start: nat, holds: seq<Hold>, verdict: Position -> Verdict)

  /** A delivery right behind another one of the same account belongs to the same run. */
  predicate Joined(j: seq<Record>, k: nat)
    requires 0 < k < |j|
  {
    j[k - 1].account == j[k].account && j[k - 1].kind.Delivery? && j[k].kind.Delivery?
  }

  predicate Starts(q: Input, k: nat)
  {
    q.start <= k < |q.j| && (k == q.start || !Joined(q.j, k))
  }

  predicate SameRun(j: seq<Record>, k: nat, n: nat)
  {
    k <= n < |j| && forall x :: k < x <= n ==> Joined(j, x)
  }

  /** The account of record k is held on entry, or since an earlier run of it was rejected. */
  predicate HeldAt(q: Input, k: nat)
    requires k < |q.j|
  {
    Held(q.holds, q.j[k].account) ||
    exists x: nat :: x < k && Starts(q, x) && q.j[x].account == q.j[k].account && q.verdict(q.j[x].pos).Rejects?
  }

  predicate Breaking(q: Input, k: nat)
  {
    Starts(q, k) && !HeldAt(q, k) && q.verdict(q.j[k].pos).Breaks?
  }

  /** The scan asks for a verdict on the run that starts at k. */
  predicate Decided(q: Input, k: nat)
  {
    Starts(q, k) && !HeldAt(q, k) && forall x :: q.start <= x < k ==> !Breaking(q, x)
  }

  // ----- runs -----

  lemma {:induction false} RunEndIsMaximal(j: seq<Record>, first: nat, end: nat)
    requires first < end <= |j|
    requires forall k :: first <= k < end ==> j[k].account == j[first].account
    requires forall k :: first < k < end ==> j[k].kind.Delivery? && j[first].kind.Delivery?
    ensures var r := RunEnd(j, first, end);
            && (forall k :: first < k < r ==> Joined(j, k))
            && (r < |j| ==> !Joined(j, r))
    decreases |j| - end
  {
    if end < |j| && InRun(j, first, end) {
      RunEndIsMaximal(j, first, end + 1);
    }
  }

  lemma RunBounds(j: seq<Record>, i: nat)
    requires i < |j|
    ensures var end := RunEnd(j, i, i);
            && (forall k :: i < k < end ==> Joined(j, k))
            && (end < |j| ==> !Joined(j, end))
  {
    assert InRun(j, i, i) && RunEnd(j, i, i) == RunEnd(j, i, i + 1);
    RunEndIsMaximal(j, i, i + 1);
  }

  /** The input of the rest of a scan once the run at its start is dealt with. */
  function Rest(q: Input): Input
    requires q.start < |q.j|
  {
    var first := q.j[q.start];
    var v := q.verdict(first.pos);
    q.(start := RunEnd(q.j, q.start, q.start),
       holds := if !Held(q.holds, first.account) && v.Rejects?
                then q.holds + [Hold(first.account, first.pos, v.message)] else q.holds)
  }

  lemma StartsShift(q: Input, k: nat)
    requires q.start < |q.j|
    ensures Starts(q, k) <==> k == q.start || Starts(Rest(q), k)
    ensures SameRun(q.j, q.start, k) <==> q.start <= k < RunEnd(q.j, q.start, q.start)
  {
    hide RunEnd;
    RunBounds(q.j, q.start);
    var end := RunEnd(q.j, q.start, q.start);
    if end < |q.j| && k >= end {
      assert !Joined(q.j, end);
    }
  }

  lemma HeldShift(q: Input, k: nat)
    requires q.start < |q.j| && Starts(Rest(q), k)
    ensures HeldAt(q, k) <==> HeldAt(Rest(q), k)
  {
    hide RunEnd, Starts;
    var r := Rest(q);
    var first := q.j[q.start];
    RestAhead(q, k);
    assert Held(r.holds, q.j[k].account) <==>
           Held(q.holds, q.j[k].account) ||
           (r.holds != q.holds && first.account == q.j[k].account) by {
      HeldAppend(q.holds, r.holds, first, q.j[k].account);
    }
    if HeldAt(q, k) && !Held(q.holds, q.j[k].account) {
      var x: nat :| x < k && Starts(q, x) && q.j[x].account == q.j[k].account && q.verdict(q.j[x].pos).Rejects?;
      StartsShift(q, x);
    }
    if HeldAt(r, k) && !Held(r.holds, q.j[k].account) {
      var x: nat :| x < k && Starts(r, x) && q.j[x].account == q.j[k].account && q.verdict(q.j[x].pos).Rejects?;
      StartsShift(q, x);
    }
    if r.holds != q.holds && first.account == q.j[k].account {
      StartsShift(q, q.start);
      assert Starts(q, q.start);
    }
  }

  lemma RestAhead(q: Input, k: nat)
    requires q.start < |q.j| && Starts(Rest(q), k)
    ensures q.start < k < |q.j|
  {
  }

  lemma HeldAppend(holds: seq<Hold>, more: seq<Hold>, first: Record, account: string)
    requires more == holds || exists m :: more == holds + [Hold(first.account, first.pos, m)]
    ensures Held(more, account) <==> Held(holds, account) || (more != holds && first.account == account)
  {
    if more != holds {
      var m :| more == holds + [Hold(first.account, first.pos, m)];
      assert more[|holds|].account == first.account;
      if Held(holds, account) {
        HeldPrefix(holds, more, account);
      }
    }
  }

  lemma FirstDecided(q: Input)
    requires q.start < |q.j|
    ensures Decided(q, q.start) <==> !Held(q.holds, q.j[q.start].account)
    ensures Breaking(q, q.start) <==>
            !Held(q.holds, q.j[q.start].account) && q.verdict(q.j[q.start].pos).Breaks?
  {
  }

  lemma BreakingShift(q: Input, k: nat)
    requires q.start < |q.j|
    ensures Breaking(q, k) <==> (k == q.start && Breaking(q, k)) || Breaking(Rest(q), k)
  {
    hide Starts, HeldAt, RunEnd;
    StartsShift(q, k);
    if Starts(Rest(q), k) {
      HeldShift(q, k);
      RestAhead(q, k);
    }
  }

  /** Past the run at the start, the rest of the scan decides what the whole decides. */
  lemma DecidedShift(q: Input, k: nat)
    requires q.start < |q.j|
    ensures Decided(q, k) <==>
            (k == q.start && Decided(q, k)) || (!Breaking(q, q.start) && Decided(Rest(q), k))
  {
    hide HeldAt, RunEnd, Breaking;
    StartsShift(q, k);
    if Starts(Rest(q), k) {
      HeldShift(q, k);
      RestAhead(q, k);
      forall x | q.start <= x < k
        ensures Breaking(q, x) <==> (x == q.start && Breaking(q, x)) || (x >= Rest(q).start && Breaking(Rest(q), x))
      {
        BreakingShift(q, x);
        BreakingInside(Rest(q), x);
      }
    }
  }

  lemma BreakingInside(q: Input, k: nat)
    ensures Breaking(q, k) ==> q.start <= k < |q.j|
  {
  }

  // ----- what a scan does -----

  function ScanOf(q: Input, fromCheckpoint: bool, st: ScanState): ScanResult
    requires q.start <= |q.j|
  {
    Scan(q.j, q.start, fromCheckpoint, st, q.verdict)
  }

  /** The state after the run at the start. */
  function AfterFirst(q: Input, fromCheckpoint: bool, st: ScanState): ScanState
    requires q.start < |q.j|
  {
    var first := q.j[q.start];
    if !Held(st.holds, first.account) && q.verdict(first.pos).Applies?
    then AfterRun(st, q.j[q.start..RunEnd(q.j, q.start, q.start)], fromCheckpoint)
    else st.(holds := Rest(q).holds)
  }

  lemma ScanUnfolds(q: Input, fromCheckpoint: bool, st: ScanState)
    requires q.start < |q.j| && st.holds == q.holds
    ensures Breaking(q, q.start) ==>
              ScanOf(q, fromCheckpoint, st) == ScanResult(st, Some(q.verdict(q.j[q.start].pos).error))
    ensures !Breaking(q, q.start) ==>
              && ScanOf(q, fromCheckpoint, st) == ScanOf(Rest(q), fromCheckpoint, AfterFirst(q, fromCheckpoint, st))
              && AfterFirst(q, fromCheckpoint, st).holds == Rest(q).holds
  {
    hide Breaking, RunEnd;
    FirstDecided(q);
  }

  /** A scan fails exactly when it gets to a run whose verdict breaks it, and with that verdict's error. */
  lemma {:induction false} ScanFailsIff(q: Input, fromCheckpoint: bool, st: ScanState)
    requires q.start <= |q.j| && st.holds == q.holds
    ensures var r := ScanOf(q, fromCheckpoint, st);
            && (r.error.None? <==> forall k: nat :: !Breaking(q, k))
            && (r.error.Some? ==> exists k: nat :: Decided(q, k) && q.verdict(q.j[k].pos) == Breaks(r.error.value))
    decreases |q.j| - q.start
  {
    hide RunEnd, HeldAt, AfterRun;
    if q.start < |q.j| {
      ScanUnfolds(q, fromCheckpoint, st);
      FirstDecided(q);
      hide Breaking, Decided, ScanOf, AfterFirst;
      var rest := Rest(q);
      var st' := AfterFirst(q, fromCheckpoint, st);
      var r := ScanOf(q, fromCheckpoint, st);
      if !Breaking(q, q.start) {
        ScanFailsIff(rest, fromCheckpoint, st');
        forall k: nat ensures Breaking(q, k) <==> Breaking(rest, k) {
          BreakingShift(q, k);
        }
        if r.error.Some? {
          var k: nat :| Decided(rest, k) && q.verdict(q.j[k].pos) == Breaks(r.error.value);
          DecidedShift(q, k);
        }
      }
    } else {
      forall k: nat ensures !Breaking(q, k) {
        BreakingInside(q, k);
      }
    }
  }

  /** The hold that a rejected run at k leaves. */
  predicate HoldFrom(q: Input, k: nat, h: Hold)
  {
    Decided(q, k) && k < |q.j| && q.verdict(q.j[k].pos) == Rejects(h.message) &&
    h.pos == q.j[k].pos && h.account == q.j[k].account
  }

  /** The new holds are exactly those of the rejected runs the scan gets to, in journal order. */
  lemma {:induction false} ScanHoldsExactly(q: Input, fromCheckpoint: bool, st: ScanState)
    requires Ordered(q.j) && q.start <= |q.j| && st.holds == q.holds
    ensures var holds := ScanOf(q, fromCheckpoint, st).state.holds;
            && q.holds <= holds
            && (forall h :: h in holds[|q.holds|..] <==> exists k: nat :: HoldFrom(q, k, h))
            && HoldsOrdered(holds[|q.holds|..])
    decreases |q.j| - q.start
  {
    hide RunEnd, HeldAt, AfterRun, Ordered;
    if q.start == |q.j| {
      assert ScanOf(q, fromCheckpoint, st).state == st;
      assert st.holds[|q.holds|..] == [];
    } else {
      ScanUnfolds(q, fromCheckpoint, st);
      FirstDecided(q);
      var st' := AfterFirst(q, fromCheckpoint, st);
      var first := q.j[q.start];
      var own := Rest(q).holds[|q.holds|..];
      assert Rest(q).holds == q.holds + own;
      if Breaking(q, q.start) {
        assert st.holds[|q.holds|..] == [];
        forall h, k: nat ensures !HoldFrom(q, k, h) {
          DecidedShift(q, k);
        }
      } else {
        ScanHoldsExactly(Rest(q), fromCheckpoint, st');
        var holds := ScanOf(q, fromCheckpoint, st).state.holds;
        var later := holds[|Rest(q).holds|..];
        assert holds[|q.holds|..] == own + later;
        forall h ensures h in own + later <==> exists k: nat :: HoldFrom(q, k, h) {
          HoldSplits(q, own, later, h);
        }
        NewHoldsAscend(q, own, later);
      }
    }
  }

  lemma HoldSplits(q: Input, own: seq<Hold>, later: seq<Hold>, h: Hold)
    requires q.start < |q.j| && !Breaking(q, q.start) && own == Rest(q).holds[|q.holds|..]
    requires h in later <==> exists k: nat :: HoldFrom(Rest(q), k, h)
    ensures h in own + later <==> exists k: nat :: HoldFrom(q, k, h)
  {
    hide RunEnd, HeldAt, Breaking, Decided;
    FirstDecided(q);
    forall k: nat ensures HoldFrom(q, k, h) <==> (k == q.start && HoldFrom(q, k, h)) || HoldFrom(Rest(q), k, h) {
      DecidedShift(q, k);
    }
    assert h in own <==> HoldFrom(q, q.start, h);
    if HoldFrom(q, q.start, h) {
      assert h in own + later;
    }
  }

  lemma NewHoldsAscend(q: Input, own: seq<Hold>, later: seq<Hold>)
    requires Ordered(q.j) && q.start < |q.j| && own == Rest(q).holds[|q.holds|..] && HoldsOrdered(later)
    requires forall h :: h in later ==> exists k: nat :: HoldFrom(Rest(q), k, h)
    ensures HoldsOrdered(own + later)
  {
    hide RunEnd, HeldAt, Decided;
    forall m | 0 <= m < |later| ensures q.j[q.start].pos.offset < later[m].pos.offset {
      assert later[m] in later;
      var k: nat :| HoldFrom(Rest(q), k, later[m]);
      DecidedStarts(Rest(q), k);
      RestAhead(q, k);
    }
    assert |own| <= 1 && (own != [] ==> own[0].pos == q.j[q.start].pos);
  }

  lemma DecidedStarts(q: Input, k: nat)
    requires Decided(q, k)
    ensures Starts(q, k)
  {
  }

  /** Record n is in a run the scan gets to and applies. */
  predicate AppliedAt(q: Input, k: nat, n: nat)
  {
    Decided(q, k) && k < |q.j| && q.verdict(q.j[k].pos).Applies? && SameRun(q.j, k, n)
  }

  predicate AppliedPos(q: Input, p: Position)
  {
    exists k: nat, n: nat :: k <= n < |q.j| && AppliedAt(q, k, n) && q.j[n].pos == p
  }

  predicate ReportedAccount(q: Input, a: string)
  {
    exists k: nat :: k < |q.j| && AppliedAt(q, k, k) && !q.j[k].kind.MembershipChange? && q.j[k].account == a
  }

  /** A scan materializes exactly the runs it gets to and applies, and reports their accounts. */
  lemma {:induction false} ScanAppliesExactly(q: Input, fromCheckpoint: bool, st: ScanState)
    requires q.start <= |q.j| && st.holds == q.holds
    ensures var r := ScanOf(q, fromCheckpoint, st).state;
            && (forall p :: p in r.catalog.applied <==> p in st.catalog.applied || AppliedPos(q, p))
            && (forall a :: a in r.materialized <==> a in st.materialized || ReportedAccount(q, a))
    decreases |q.j| - q.start
  {
    hide RunEnd, HeldAt, AfterRun, AppliedPos, ReportedAccount;
    if q.start == |q.j| {
      assert ScanOf(q, fromCheckpoint, st).state == st;
      NothingDecided(q);
    } else {
      ScanUnfolds(q, fromCheckpoint, st);
      var st' := AfterFirst(q, fromCheckpoint, st);
      if Breaking(q, q.start) {
        BreakAppliesNothing(q);
      } else {
        ScanAppliesExactly(Rest(q), fromCheckpoint, st');
        forall p ensures p in st'.catalog.applied || AppliedPos(Rest(q), p) <==>
                         p in st.catalog.applied || AppliedPos(q, p) {
          FirstRunApplies(q, fromCheckpoint, st, p);
        }
        forall a ensures a in st'.materialized || ReportedAccount(Rest(q), a) <==>
                         a in st.materialized || ReportedAccount(q, a) {
          FirstRunReports(q, fromCheckpoint, st, a);
        }
      }
    }
  }

  lemma NothingDecided(q: Input)
    requires q.start == |q.j|
    ensures forall p :: !AppliedPos(q, p)
    ensures forall a :: !ReportedAccount(q, a)
  {
  }

  lemma BreakAppliesNothing(q: Input)
    requires q.start < |q.j| && Breaking(q, q.start)
    ensures forall p :: !AppliedPos(q, p)
    ensures forall a :: !ReportedAccount(q, a)
  {
    hide RunEnd, HeldAt, Decided;
    forall k: nat, n: nat ensures !AppliedAt(q, k, n) {
      DecidedShift(q, k);
    }
  }

  lemma AppliedShift(q: Input, k: nat, n: nat)
    requires q.start < |q.j| && !Breaking(q, q.start)
    ensures AppliedAt(q, k, n) <==> (k == q.start && AppliedAt(q, k, n)) || AppliedAt(Rest(q), k, n)
  {
    hide RunEnd, HeldAt, Decided, Breaking, SameRun;
    DecidedShift(q, k);
  }

  lemma FirstRunApplies(q: Input, fromCheckpoint: bool, st: ScanState, p: Position)
    requires q.start < |q.j| && st.holds == q.holds && !Breaking(q, q.start)
    ensures p in AfterFirst(q, fromCheckpoint, st).catalog.applied || AppliedPos(Rest(q), p) <==>
            p in st.catalog.applied || AppliedPos(q, p)
  {
    hide RunEnd, HeldAt, Decided, Breaking, SameRun;
    var end := RunEnd(q.j, q.start, q.start);
    var run := q.j[q.start..end];
    FirstDecided(q);
    forall k: nat, n: nat ensures AppliedAt(q, k, n) <==> (k == q.start && AppliedAt(q, k, n)) || AppliedAt(Rest(q), k, n) {
      AppliedShift(q, k, n);
    }
    forall n: nat ensures SameRun(q.j, q.start, n) <==> q.start <= n < end {
      StartsShift(q, n);
    }
    var st' := AfterFirst(q, fromCheckpoint, st);
    if p in st'.catalog.applied && p !in st.catalog.applied {
      var x :| 0 <= x < |run| && run[x].pos == p;
      assert AppliedAt(q, q.start, q.start + x) && q.j[q.start + x].pos == p;
    }
    if AppliedPos(q, p) && !AppliedPos(Rest(q), p) {
      var k: nat, n: nat :| k <= n < |q.j| && AppliedAt(q, k, n) && q.j[n].pos == p;
      assert k == q.start && run[n - q.start].pos == p;
    }
  }

  lemma FirstRunReports(q: Input, fromCheckpoint: bool, st: ScanState, a: string)
    requires q.start < |q.j| && st.holds == q.holds && !Breaking(q, q.start)
    ensures a in AfterFirst(q, fromCheckpoint, st).materialized || ReportedAccount(Rest(q), a) <==>
            a in st.materialized || ReportedAccount(q, a)
  {
    hide RunEnd, HeldAt, Decided, Breaking;
    FirstDecided(q);
    assert q.j[q.start..RunEnd(q.j, q.start, q.start)][0] == q.j[q.start];
    forall k: nat ensures AppliedAt(q, k, k) <==> (k == q.start && AppliedAt(q, k, k)) || AppliedAt(Rest(q), k, k) {
      AppliedShift(q, k, k);
    }
  }

  /** Every run before n is applied, and n is the end of the journal or a run that is not. */
  predicate AppliedUpTo(q: Input, n: nat)
  {
    && q.start <= n <= |q.j|
    && (forall k: nat :: k < n && Starts(q, k) ==> q.verdict(q.j[k].pos).Applies?)
    && (n < |q.j| ==> Starts(q, n) && !q.verdict(q.j[n].pos).Applies?)
  }

  /** Without holds carried in, a scan from the checkpoint moves it over exactly the runs applied
      before the first one that is not. */
  lemma {:induction false} ScanMovesCheckpoint(q: Input, st: ScanState)
    requires q.start <= |q.j| && st.holds == q.holds == []
    ensures exists n: nat :: AppliedUpTo(q, n) &&
              ScanOf(q, true, st).state.catalog.checkpoint ==
              if n == q.start then st.catalog.checkpoint else Some(q.j[n - 1].pos)
    decreases |q.j| - q.start
  {
    hide RunEnd, HeldAt;
    if q.start == |q.j| {
      assert AppliedUpTo(q, q.start);
    } else {
      ScanUnfolds(q, true, st);
      FirstDecided(q);
      assert !Held([], q.j[q.start].account);
      var end := RunEnd(q.j, q.start, q.start);
      var st' := AfterFirst(q, true, st);
      if q.verdict(q.j[q.start].pos).Applies? {
        assert q.j[q.start..end][end - q.start - 1] == q.j[end - 1];
        ScanMovesCheckpoint(Rest(q), st');
        var n: nat :| AppliedUpTo(Rest(q), n) &&
          ScanOf(Rest(q), true, st').state.catalog.checkpoint ==
          if n == end then st'.catalog.checkpoint else Some(q.j[n - 1].pos);
        UpToShift(q, n);
      } else {
        assert AppliedUpTo(q, q.start);
        if !Breaking(q, q.start) {
          ScanKeepsCheckpoint(q.j, end, true, st', q.verdict);
        }
      }
    }
  }

  lemma UpToShift(q: Input, n: nat)
    requires q.start < |q.j| && q.verdict(q.j[q.start].pos).Applies? && AppliedUpTo(Rest(q), n)
    ensures AppliedUpTo(q, n)
  {
    hide RunEnd, Starts;
    forall k: nat | k < n && Starts(q, k) ensures q.verdict(q.j[k].pos).Applies? {
      StartsShift(q, k);
    }
    StartsShift(q, n);
    StartInside(q);
  }

  lemma StartInside(q: Input)
    ensures forall k: nat :: Starts(q, k) ==> k < |q.j|
  {
  }

  // ----- what a pass does -----

  /** When a pass aborts, and with which error once its scan has begun. */
  lemma PassAbortsIff(j: seq<Record>, c: Catalog, resume: Option<Position>, prior: seq<Hold>, env: ScanEnv)
    ensures var out := Pass(j, c, resume, prior, env).1;
            var start := if resume.Some? then resume else c.checkpoint;
            out.Aborted? <==>
            || env.blocked.Some?
            || (start.Some? && forall k :: 0 <= k < |j| ==> j[k].pos != start.value)
            || var i := Seek(j, start).value;
               || (exists k :: i <= k < |j| && j[k].account == "")
               || (!env.rootUsable && exists k :: i <= k < |j| && (j[k].kind.Delivery? || j[k].kind.Appended?))
               || exists k: nat :: Breaking(Input(j, i, prior, env.verdict), k)
  {
    hide Scan, IndexOf, Breaking;
    var start := Start(c, resume);
    var i := Seek(j, start);
    if i.Some? {
      var q := Input(j, i.value, prior, env.verdict);
      ScanFailsIff(q, resume.None? || resume == c.checkpoint, ScanState(c, prior, {}));
    }
  }

  /** The first run a pass gets to whose verdict breaks it decides its error. */
  lemma BreakDecidesError(j: seq<Record>, c: Catalog, resume: Option<Position>, prior: seq<Hold>, env: ScanEnv, k: nat)
    requires env.blocked.None? && env.rootUsable && Seek(j, Start(c, resume)).Some?
    requires !LacksAccount(j, Seek(j, Start(c, resume)).value)
    requires var q := Input(j, Seek(j, Start(c, resume)).value, prior, env.verdict);
             Decided(q, k) && env.verdict(j[k].pos).Breaks?
    ensures Pass(j, c, resume, prior, env).1 == Aborted(env.verdict(j[k].pos).error)
  {
    hide Scan, IndexOf, HeldAt;
    var q := Input(j, Seek(j, Start(c, resume)).value, prior, env.verdict);
    var from := resume.None? || resume == c.checkpoint;
    ScanFailsIff(q, from, ScanState(c, prior, {}));
    assert Breaking(q, k);
    var e := ScanOf(q, from, ScanState(c, prior, {})).error.value;
    var m: nat :| Decided(q, m) && q.verdict(j[m].pos) == Breaks(e);
    assert Breaking(q, m);
    assert m == k;
  }

  /** A completed pass reports the holds carried in and then exactly those of the runs it rejected,
      the accounts of the runs it applied, and the end of the journal as read. */
  lemma PassReportsExactly(j: seq<Record>, c: Catalog, resume: Option<Position>, prior: seq<Hold>, env: ScanEnv)
    requires Ordered(j) && Pass(j, c, resume, prior, env).1.Completed?
    ensures var (c', out) := Pass(j, c, resume, prior, env);
            var q := Input(j, Seek(j, Start(c, resume)).value, prior, env.verdict);
            && prior <= out.report.holds
            && (forall h :: h in out.report.holds[|prior|..] <==> exists k: nat :: HoldFrom(q, k, h))
            && HoldsOrdered(out.report.holds[|prior|..])
            && (forall a :: a in out.report.materialized <==> ReportedAccount(q, a))
            && (forall p :: p in c'.applied <==> p in c.applied || AppliedPos(q, p))
            && out.report.recordsScanned == |j| - q.start
            && out.report.scannedThrough == if q.start < |j| then Some(j[|j| - 1].pos) else resume
  {
    hide Scan, IndexOf, HoldFrom, ReportedAccount, AppliedPos, Ordered;
    var q := Input(j, Seek(j, Start(c, resume)).value, prior, env.verdict);
    var from := resume.None? || resume == c.checkpoint;
    ScanHoldsExactly(q, from, ScanState(c, prior, {}));
    ScanAppliesExactly(q, from, ScanState(c, prior, {}));
  }

  /** Where the scan of a pass begins, if the pass gets that far. */
  function Begins(j: seq<Record>, c: Catalog, resume: Option<Position>, prior: seq<Hold>, env: ScanEnv): Option<Input>
  {
    var i := Seek(j, Start(c, resume));
    if env.blocked.Some? || i.None? || LacksAccount(j, i.value) || (HasMessage(j, i.value) && !env.rootUsable) then None
    else Some(Input(j, i.value, prior, env.verdict))
  }

  /** What a pass leaves in the catalog, aborted or not: the runs its scan got to and applied, and
      a checkpoint that moves only without holds carried in, over the runs applied first. */
  lemma PassCommitsExactly(j: seq<Record>, c: Catalog, resume: Option<Position>, prior: seq<Hold>, env: ScanEnv)
    ensures var c' := Pass(j, c, resume, prior, env).0;
            match Begins(j, c, resume, prior, env)
            case None => c' == c && Pass(j, c, resume, prior, env).1.Aborted?
            case Some(q) =>
              && (forall p :: p in c'.applied <==> p in c.applied || AppliedPos(q, p))
              && (prior != [] ==> c'.checkpoint == c.checkpoint)
              && (prior == [] && resume.None? ==>
                    exists n: nat :: AppliedUpTo(q, n) &&
                      c'.checkpoint == if n == q.start then c.checkpoint else Some(j[n - 1].pos))
    ensures env.blocked.Some? ==> Pass(j, c, resume, prior, env).1 == Aborted(env.blocked.value)
  {
    hide Scan, IndexOf, AppliedPos, AppliedUpTo, LacksAccount, HasMessage;
    var b := Begins(j, c, resume, prior, env);
    if b.Some? {
      var q := b.value;
      var from := resume.None? || resume == c.checkpoint;
      ScanAppliesExactly(q, from, ScanState(c, prior, {}));
      if prior != [] {
        ScanKeepsCheckpoint(j, q.start, from, ScanState(c, prior, {}), env.verdict);
      } else if resume.None? {
        ScanMovesCheckpoint(q, ScanState(c, prior, {}));
      }
    }
  }
}
