/** The warning rate limiter over whole traces, and what the failure signature identifies. */
module MaterializationWarnings {
  import opened Basics
  import opened Catchup
  import opened MaterializationSpec

  /** The last warning since the last clean pass. */
  function LastWarning(log: seq<Event>): Option<(string, int)>
  {
    if log == [] then None
    else
      var e := log[|log| - 1];
      if e.PassClean? then None
      else if e.PassFailed? && e.warned then Some((e.signature, e.at))
      else LastWarning(log[..|log| - 1])
  }

  /** Must failure e be warned about, given the last warning? */
  predicate MustWarn(e: Event, last: Option<(string, int)>)
    requires e.PassFailed?
  {
    e.stopped || last.None? || last.value.0 != e.signature || e.at - last.value.1 >= e.window
  }

  predicate WarningsLimited(log: seq<Event>)
  {
    forall k :: 0 <= k < |log| && log[k].PassFailed? ==>
      (log[k].warned <==> MustWarn(log[k], LastWarning(log[..k])))
  }

  predicate WarningsSafe(s: State)
  {
    && WarningsLimited(s.log)
    && LastWarning(s.log) ==
       (if s.warnedSignature.Some? then Some((s.warnedSignature.value, s.warnedAt)) else None)
  }

  lemma WarningsLimitedStep(log: seq<Event>, e: Event)
    requires WarningsLimited(log)
    requires e.PassFailed? ==> (e.warned <==> MustWarn(e, LastWarning(log)))
    ensures WarningsLimited(log + [e])
    ensures (log + [e])[..|log|] == log
  {
    var log' := log + [e];
    assert log'[..|log|] == log;
    forall k | 0 <= k < |log'| && log'[k].PassFailed?
      ensures log'[k].warned <==> MustWarn(log'[k], LastWarning(log'[..k]))
    {
      if k < |log| {
        assert log'[..k] == log[..k] && log'[k] == log[k];
      }
    }
  }

  /** Everything but the end of a pass leaves the limiter alone. */
  lemma SilentEvent(s: State, e: Event)
    requires WarningsSafe(s) && !e.PassClean? && !e.PassFailed?
    ensures WarningsSafe(s.(log := s.log + [e]))
  {
    WarningsLimitedStep(s.log, e);
  }

  predicate SameLimiter(s: State, t: State)
  {
    t.warnedSignature == s.warnedSignature && t.warnedAt == s.warnedAt && t.stopped == s.stopped
  }

  lemma ScanKeepsWarnings(s: State, kind: PassKind, growth: seq<Draft>, env: ScanEnv)
    requires WarningsSafe(s)
    ensures WarningsSafe(RunScan(s, kind, growth, env).0) && SameLimiter(s, RunScan(s, kind, growth, env).0)
  {
    hide Pass, WarningsLimited;
    var (t, out) := RunScan(s, kind, growth, env);
    SilentEvent(s, if out.Completed? then Scanned(out.report) else ScanAborted);
  }

  lemma {:induction false} ExtractAllKeepsWarnings(s: State, accounts: seq<string>, extract: string -> ExtractAnswer)
    requires WarningsSafe(s)
    ensures var t := ExtractAll(s, accounts, extract); WarningsSafe(t) && SameLimiter(s, t)
    decreases |accounts|
  {
    hide WarningsLimited;
    if accounts != [] {
      var answer := extract(accounts[0]);
      SilentEvent(s, Extracted(accounts[0], answer.error.None?, |answer.appended|));
      ExtractAllKeepsWarnings(ExtractOne(s, accounts[0], answer), accounts[1..], extract);
    }
  }

  lemma {:induction false} RefreshAllKeepsWarnings(s: State, accounts: seq<string>, refresh: string -> Option<string>)
    requires WarningsSafe(s)
    ensures var t := RefreshAll(s, accounts, refresh); WarningsSafe(t) && SameLimiter(s, t)
    decreases |accounts|
  {
    hide WarningsLimited;
    if accounts != [] {
      SilentEvent(s, Refreshed(accounts[0], refresh(accounts[0]).None?));
      RefreshAllKeepsWarnings(RefreshOne(s, accounts[0], refresh(accounts[0])), accounts[1..], refresh);
    }
  }

  lemma {:induction false} DropAllKeepsWarnings(s: State, accounts: seq<string>)
    requires WarningsSafe(s)
    ensures var t := DropAll(s, accounts); WarningsSafe(t) && SameLimiter(s, t)
    decreases |accounts|
  {
    hide WarningsLimited;
    if accounts != [] {
      SilentEvent(s, Dropped(accounts[0]));
      DropAllKeepsWarnings(s.(pending := s.pending - {accounts[0]}, log := s.log + [Dropped(accounts[0])]), accounts[1..]);
    }
  }

  lemma RefreshPendingKeepsWarnings(s: State, report: Report, refresh: string -> Option<string>)
    requires WarningsSafe(s)
    ensures var t := RefreshPending(s, report, refresh); WarningsSafe(t) && SameLimiter(s, t)
  {
    hide WarningsSafe, RefreshAll, DropAll, SortedSet;
    RefreshAllKeepsWarnings(s, SortedSet(Unheld(s, report)), refresh);
    DropAllKeepsWarnings(s, SortedSet(set a | a in s.pending && !Held(s.refreshHolds, a)));
  }

  lemma FollowUpKeepsWarnings(s: State, kind: PassKind, env: PassEnv)
    requires WarningsSafe(s)
    ensures WarningsSafe(FollowUp(s, kind, env).0) && SameLimiter(s, FollowUp(s, kind, env).0)
  {
    hide RunScan, RefreshPending, WarningsLimited;
    var (s', out) := RunScan(s, kind, env.followUpGrowth, env.followUpScan);
    ScanKeepsWarnings(s, kind, env.followUpGrowth, env.followUpScan);
    if out.Completed? {
      RefreshPendingKeepsWarnings(QueueMaterialized(s', out.report), out.report, env.refresh);
    }
  }

  lemma DerivedPassKeepsWarnings(s: State, kind: PassKind, env: PassEnv)
    requires WarningsSafe(s)
    ensures WarningsSafe(DerivedPass(s, kind, env).0) && SameLimiter(s, DerivedPass(s, kind, env).0)
  {
    hide RunScan, RefreshPending, FollowUp, WarningsLimited, SortedSet, ExtractAll;
    var (s1, out) := RunScan(s, kind, env.growth, env.scan);
    ScanKeepsWarnings(s, kind, env.growth, env.scan);
    if out.Completed? {
      var s2 := QueueMaterialized(s1, out.report).(refreshHolds := []);
      ExtractAllKeepsWarnings(s2, SortedSet(Unheld(s2, out.report)), env.extract);
      var (s3, appended) := ExtractPending(s2, out.report, env.extract);
      FollowUpKeepsWarnings(s3, kind, env);
      RefreshPendingKeepsWarnings(s3, out.report, env.refresh);
    }
  }

  lemma FinishKeepsWarnings(s: State, kind: PassKind, out: ScanOutcome, now: int)
    requires WarningsSafe(s)
    ensures WarningsSafe(FinishPass(s, kind, out, now))
  {
    hide FailureSignature, WarningsSafe, RecordFailure, FinishClean;
    RecordFailureKeepsWarnings(s, kind, out, FailureSignature(out, s.refreshHolds), now);
    CleanKeepsWarnings(s);
  }

  lemma CleanKeepsWarnings(s: State)
    requires WarningsSafe(s)
    ensures WarningsSafe(FinishClean(s))
  {
    hide WarningsLimited;
    WarningsLimitedStep(s.log, PassClean);
  }

  lemma RecordFailureLimiter(s: State, kind: PassKind, out: ScanOutcome, signature: string, now: int)
    ensures var t := RecordFailure(s, kind, out, signature, now);
            var warn := Warns(s, signature, now);
            && t.warnedSignature == (if warn then Some(signature) else s.warnedSignature)
            && t.warnedAt == (if warn then now else s.warnedAt)
            && t.log == s.log + [PassFailed(kind, out.Aborted?, signature, now, warn, s.stopped, Window(s))]
  {
  }

  lemma RecordFailureKeepsWarnings(s: State, kind: PassKind, out: ScanOutcome, signature: string, now: int)
    requires WarningsSafe(s)
    ensures WarningsSafe(RecordFailure(s, kind, out, signature, now))
  {
    hide WarningsLimited, RecordFailure;
    var e := PassFailed(kind, out.Aborted?, signature, now, Warns(s, signature, now), s.stopped, Window(s));
    WarningsLimitedStep(s.log, e);
    RecordFailureLimiter(s, kind, out, signature, now);
  }

  lemma PassKeepsWarnings(s: State, kind: PassKind, env: PassEnv)
    requires WarningsSafe(s)
    ensures WarningsSafe(RunAndFinish(s, kind, env))
    ensures kind.PassCatchUp? ==> WarningsSafe(CatchUpStep(s, env))
  {
    hide DerivedPass, FinishPass, WarningsLimited;
    var (t, out) := DerivedPass(s, kind, env);
    DerivedPassKeepsWarnings(s, kind, env);
    FinishKeepsWarnings(t, kind, out, env.now);
  }

  lemma StepKeepsWarnings(s: State, op: Op)
    requires WarningsSafe(s)
    ensures WarningsSafe(Step(s, op))
  {
    hide RunAndFinish, CatchUpStep, WarningsLimited;
    match op
    case CatchUp(env) => PassKeepsWarnings(s, PassCatchUp, env);
    case PostIngest(env) => PassKeepsWarnings(s, PassPostIngest, env);
    case Fire(source, env) =>
      PassKeepsWarnings(s.(attached := s.attached - {source}, retrySource := None), PassRetry, env);
    case QueueRefresh(account) => SilentEvent(s, Queued(account));
    case _ =>
  }

  predicate IsWarning(e: Event)
  {
    e.PassFailed? && e.warned
  }

  lemma {:induction false} LastWarningIs(log: seq<Event>, i: nat)
    requires i < |log| && IsWarning(log[i])
    requires forall m :: i < m < |log| ==> !IsWarning(log[m]) && !log[m].PassClean?
    ensures LastWarning(log) == Some((log[i].signature, log[i].at))
  {
    if i < |log| - 1 {
      LastWarningIs(log[..|log| - 1], i);
    }
  }

  /** Consecutive warnings with one signature, no clean pass between, while the service runs. */
  predicate RepeatsWarning(log: seq<Event>, i: nat, k: nat)
  {
    && i < k < |log| && IsWarning(log[i]) && IsWarning(log[k])
    && log[i].signature == log[k].signature && !log[k].stopped
    && forall m :: i < m < k ==> !IsWarning(log[m]) && !log[m].PassClean?
  }

  /** Two consecutive warnings of the same failure, with no clean pass between them and the
      service running, are at least the window apart. */
  lemma RepeatedWarningsAreSpaced(log: seq<Event>, i: nat, k: nat)
    requires WarningsLimited(log) && RepeatsWarning(log, i, k)
    ensures log[k].at - log[i].at >= log[k].window
  {
    LastWarningIs(log[..k], i);
  }

  /** A failure with a signature different from the last warning's always warns. */
  lemma ChangedFailureWarns(log: seq<Event>, i: nat, k: nat)
    requires WarningsLimited(log) && i < k < |log| && log[k].PassFailed?
    requires IsWarning(log[i]) && log[i].signature != log[k].signature
    requires forall m :: i < m < k ==> !IsWarning(log[m])
    ensures log[k].warned
  {
    if forall m :: i < m < k ==> !log[m].PassClean? {
      LastWarningIs(log[..k], i);
    } else {
      var m :| i < m < k && log[m].PassClean?;
      FirstAfterClean(log[..k], m);
    }
  }

  /** So does the first failure after a clean pass, and the first one ever. */
  lemma FirstFailureWarns(log: seq<Event>, c: int, k: nat)
    requires WarningsLimited(log) && -1 <= c < k < |log| && log[k].PassFailed?
    requires c >= 0 ==> log[c].PassClean?
    requires forall m :: c < m < k ==> !log[m].PassFailed?
    ensures log[k].warned
  {
    if c >= 0 {
      FirstAfterClean(log[..k], c);
    } else {
      NoFailureNoWarning(log[..k]);
    }
  }

  lemma {:induction false} FirstAfterClean(log: seq<Event>, c: nat)
    requires c < |log| && log[c].PassClean?
    requires forall m :: c < m < |log| ==> !IsWarning(log[m])
    ensures LastWarning(log).None?
  {
    if c < |log| - 1 {
      FirstAfterClean(log[..|log| - 1], c);
    }
  }

  lemma {:induction false} NoFailureNoWarning(log: seq<Event>)
    requires forall m :: 0 <= m < |log| ==> !log[m].PassFailed?
    ensures LastWarning(log).None?
  {
    if log != [] {
      NoFailureNoWarning(log[..|log| - 1]);
    }
  }

  // ----- the signature -----

  /** What a signature identifies: who is held at which stage with which error. */
  datatype Fault = HoldFault(account: string, message: string) | RefreshFault(account: string, message: string)

  function Faults(holds: seq<Hold>, refreshHolds: seq<Hold>): seq<Fault>
  {
    seq(|holds|, i requires 0 <= i < |holds| => HoldFault(holds[i].account, holds[i].message)) +
    seq(|refreshHolds|, i requires 0 <= i < |refreshHolds| =>
        RefreshFault(refreshHolds[i].account, refreshHolds[i].message))
  }

  function FaultPart(f: Fault): string
  {
    match f
    case HoldFault(a, m) => a + [UNIT_SEPARATOR] + m
    case RefreshFault(a, m) => "refresh" + [UNIT_SEPARATOR] + a + [UNIT_SEPARATOR] + m
  }

  function FaultParts(fs: seq<Fault>): seq<string>
  {
    seq(|fs|, i requires 0 <= i < |fs| => FaultPart(fs[i]))
  }

  lemma SignatureOfFaults(holds: seq<Hold>, refreshHolds: seq<Hold>)
    ensures SignatureParts(holds, refreshHolds) == FaultParts(Faults(holds, refreshHolds))
  {
  }

  lemma {:induction false} PartsOfPermutation(a: seq<Fault>, b: seq<Fault>)
    requires multiset(a) == multiset(b)
    ensures multiset(FaultParts(a)) == multiset(FaultParts(b))
    decreases |a|
  {
    hide FaultPart, FaultParts, Without;
    assert |a| == |multiset(a)| && |b| == |multiset(b)|;
    if a != [] {
      var k := MatchingPart(a, b);
      PartCount(a);
      PartCount(b);
      PartAt(a, 0);
      PartAt(b, k);
      PartsWithout(a, 0);
      PartsWithout(b, k);
      SameRemoval(FaultParts(a), 0, FaultParts(b), k);
      SameRemoval(a, 0, b, k);
      PartsOfPermutation(Without(a, 0), Without(b, k));
    } else {
      PartCount(a);
      PartCount(b);
    }
  }

  /** The signature does not depend on hold order or journal position. */
  lemma SignatureIgnoresOrder(h1: seq<Hold>, r1: seq<Hold>, h2: seq<Hold>, r2: seq<Hold>)
    requires multiset(Faults(h1, r1)) == multiset(Faults(h2, r2))
    ensures HoldSignature(h1, r1) == HoldSignature(h2, r2)
  {
    SignatureOfFaults(h1, r1);
    SignatureOfFaults(h2, r2);
    PartsOfPermutation(Faults(h1, r1), Faults(h2, r2));
    SortedUnique(Sort(SignatureParts(h1, r1)), Sort(SignatureParts(h2, r2)));
  }

  /** Account ids and messages are free of the two separators. */
  predicate Plain(s: string)
  {
    UNIT_SEPARATOR !in s && RECORD_SEPARATOR !in s
  }

  predicate PlainFault(f: Fault)
  {
    Plain(f.account) && Plain(f.message)
  }

  lemma FaultPartInjective(f: Fault, g: Fault)
    requires PlainFault(f) && PlainFault(g) && FaultPart(f) == FaultPart(g)
    ensures f == g
  {
    var u := UNIT_SEPARATOR;
    match (f, g)
    case (HoldFault(a, m), HoldFault(b, n)) => FirstCut(a, m, b, n, u);
    case (RefreshFault(a, m), RefreshFault(b, n)) =>
      assert FaultPart(f) == "refresh" + [u] + (a + [u] + m) && FaultPart(g) == "refresh" + [u] + (b + [u] + n);
      FirstCut("refresh", a + [u] + m, "refresh", b + [u] + n, u);
      FirstCut(a, m, b, n, u);
    case (HoldFault(a, m), RefreshFault(b, n)) =>
      assert FaultPart(g) == "refresh" + [u] + (b + [u] + n);
      FirstCut(a, m, "refresh", b + [u] + n, u);
      NoCut(m, b, n, u);
      assert false;
    case (RefreshFault(a, m), HoldFault(b, n)) =>
      assert FaultPart(f) == "refresh" + [u] + (a + [u] + m);
      FirstCut("refresh", a + [u] + m, b, n, u);
      NoCut(n, a, m, u);
      assert false;
  }

  lemma {:induction false} JoinInjective(a: seq<string>, b: seq<string>, r: char)
    requires forall i :: 0 <= i < |a| ==> a[i] != "" && r !in a[i]
    requires forall i :: 0 <= i < |b| ==> b[i] != "" && r !in b[i]
    requires Join(a, r) == Join(b, r)
    ensures a == b
    decreases |a|
  {
    if |a| > 1 && |b| > 1 {
      FirstCut(a[0], Join(a[1..], r), b[0], Join(b[1..], r), r);
      JoinInjective(a[1..], b[1..], r);
      assert a == [a[0]] + a[1..] && b == [b[0]] + b[1..];
    } else if |a| > 1 && |b| == 1 {
      NoCut(b[0], a[0], Join(a[1..], r), r);
      assert false;
    } else if |b| > 1 && |a| == 1 {
      NoCut(a[0], b[0], Join(b[1..], r), r);
      assert false;
    } else if |a| == 1 && |b| == 1 {
      assert a == [a[0]] && b == [b[0]];
    }
  }

  lemma PartsWithout(b: seq<Fault>, k: nat)
    requires k < |b|
    ensures k < |FaultParts(b)| && FaultParts(Without(b, k)) == Without(FaultParts(b), k)
  {
  }

  lemma {:induction false} PermutationOfParts(a: seq<Fault>, b: seq<Fault>)
    requires forall f :: f in a || f in b ==> PlainFault(f)
    requires multiset(FaultParts(a)) == multiset(FaultParts(b))
    ensures multiset(a) == multiset(b)
    decreases |a|
  {
    hide FaultPart, PlainFault, FaultParts, Without;
    PartCount(a);
    PartCount(b);
    if a != [] {
      var k := MatchingPart(FaultParts(a), FaultParts(b));
      PartAt(a, 0);
      PartAt(b, k);
      assert a[0] in a && b[k] in b;
      FaultPartInjective(a[0], b[k]);
      PartsWithout(a, 0);
      PartsWithout(b, k);
      SameRemoval(FaultParts(a), 0, FaultParts(b), k);
      SameRemoval(a, 0, b, k);
      PermutationOfParts(Without(a, 0), Without(b, k));
    }
  }

  lemma PartCount(a: seq<Fault>)
    ensures |a| == |FaultParts(a)| == |multiset(FaultParts(a))|
  {
  }

  lemma PartAt(a: seq<Fault>, k: nat)
    requires k < |a|
    ensures k < |FaultParts(a)| && FaultParts(a)[k] == FaultPart(a[k])
  {
  }

  lemma MatchingPart<T>(p: seq<T>, q: seq<T>) returns (k: nat)
    requires p != [] && multiset(p) == multiset(q)
    ensures k < |q| && q[k] == p[0]
  {
    assert p[0] in multiset(q) by {
      assert p[0] in multiset(p);
    }
    k :| 0 <= k < |q| && q[k] == p[0];
  }

  lemma PlainPart(f: Fault)
    requires PlainFault(f)
    ensures FaultPart(f) != "" && RECORD_SEPARATOR !in FaultPart(f)
  {
  }

  lemma PlainParts(fs: seq<Fault>, sorted: seq<string>)
    requires forall f :: f in fs ==> PlainFault(f)
    requires multiset(sorted) == multiset(FaultParts(fs))
    ensures forall i :: 0 <= i < |sorted| ==> sorted[i] != "" && RECORD_SEPARATOR !in sorted[i]
  {
    hide FaultPart, PlainFault;
    var parts := FaultParts(fs);
    forall i | 0 <= i < |sorted| ensures sorted[i] != "" && RECORD_SEPARATOR !in sorted[i] {
      assert sorted[i] in multiset(sorted);
      var k :| 0 <= k < |parts| && parts[k] == sorted[i];
      assert fs[k] in fs;
      PlainPart(fs[k]);
    }
  }

  /** For separator-free ids and messages the signature is exactly the multiset of faults. */
  lemma SignatureIsTheMultiset(h1: seq<Hold>, r1: seq<Hold>, h2: seq<Hold>, r2: seq<Hold>)
    requires forall f :: f in Faults(h1, r1) || f in Faults(h2, r2) ==> PlainFault(f)
    ensures HoldSignature(h1, r1) == HoldSignature(h2, r2) <==>
            multiset(Faults(h1, r1)) == multiset(Faults(h2, r2))
  {
    if multiset(Faults(h1, r1)) == multiset(Faults(h2, r2)) {
      SignatureIgnoresOrder(h1, r1, h2, r2);
    }
    if HoldSignature(h1, r1) == HoldSignature(h2, r2) {
      SignatureOfFaults(h1, r1);
      SignatureOfFaults(h2, r2);
      PlainParts(Faults(h1, r1), Sort(SignatureParts(h1, r1)));
      PlainParts(Faults(h2, r2), Sort(SignatureParts(h2, r2)));
      JoinInjective(Sort(SignatureParts(h1, r1)), Sort(SignatureParts(h2, r2)), RECORD_SEPARATOR);
      PermutationOfParts(Faults(h1, r1), Faults(h2, r2));
    }
  }

  /** With separators inside a message, two failures of different accounts can look like one. */
  lemma SeparatorsPrintAlike()
    ensures var two := [Hold("a", Position(0, 1), "m"), Hold("b", Position(1, 2), "n")];
            var one := [Hold("a", Position(0, 1), "m" + [RECORD_SEPARATOR] + "b" + [UNIT_SEPARATOR] + "n")];
            HoldSignature(two, []) == HoldSignature(one, []) && multiset(Faults(two, [])) != multiset(Faults(one, []))
  {
    var two := [Hold("a", Position(0, 1), "m"), Hold("b", Position(1, 2), "n")];
    var one := [Hold("a", Position(0, 1), "m" + [RECORD_SEPARATOR] + "b" + [UNIT_SEPARATOR] + "n")];
    var p, q := HoldPart(two[0]), HoldPart(two[1]);
    hide Sort, Join;
    assert SignatureParts(two, []) == [p, q];
    assert SignatureParts(one, []) == [p + [RECORD_SEPARATOR] + q] by {
      assert HoldPart(one[0]) == p + [RECORD_SEPARATOR] + q;
    }
    assert p[0] < q[0];
    JoinedIsOne(p, q);
    assert |multiset(Faults(two, []))| == |Faults(two, [])| == 2 && |multiset(Faults(one, []))| == |Faults(one, [])| == 1;
  }

  lemma JoinedIsOne(p: string, q: string)
    requires p != "" && q != "" && p[0] < q[0]
    ensures Join(Sort([p, q]), RECORD_SEPARATOR) == Join(Sort([p + [RECORD_SEPARATOR] + q]), RECORD_SEPARATOR)
  {
    hide Sort;
    var one := [p + [RECORD_SEPARATOR] + q];
    assert Sorted([p, q]) && Sorted(one);
    SortedUnique(Sort([p, q]), [p, q]);
    SortedUnique(Sort(one), one);
    assert [p, q][1..] == [q];
  }
}
