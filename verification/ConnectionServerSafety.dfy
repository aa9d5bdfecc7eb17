/** The invariant of the connection server and its preservation by every step. */
module ConnectionServerSafety {
  import opened Basics
  import opened ConnectionServer

  // ----- counting -----

  function Sum(ps: seq<Phase>, w: Phase -> nat): nat
  {
    if ps == [] then 0 else Sum(ps[..|ps| - 1], w) + w(ps[|ps| - 1])
  }

  lemma SumAppend(ps: seq<Phase>, p: Phase, w: Phase -> nat)
    ensures Sum(ps + [p], w) == Sum(ps, w) + w(p)
  {
    assert (ps + [p])[..|ps|] == ps;
  }

  lemma {:induction false} SumUpdate(ps: seq<Phase>, i: nat, p: Phase, w: Phase -> nat)
    requires i < |ps|
    ensures Sum(ps[i := p], w) + w(ps[i]) == Sum(ps, w) + w(p)
  {
    var n := |ps| - 1;
    if i == n {
      assert ps[i := p][..n] == ps[..n];
    } else {
      assert ps[i := p][..n] == ps[..n][i := p];
      SumUpdate(ps[..n], i, p, w);
    }
  }

  lemma {:induction false} SumZero(ps: seq<Phase>, w: Phase -> nat)
    ensures Sum(ps, w) == 0 <==> forall i :: 0 <= i < |ps| ==> w(ps[i]) == 0
  {
    if ps != [] {
      var n := |ps| - 1;
      SumZero(ps[..n], w);
      assert forall i :: 0 <= i < n ==> ps[..n][i] == ps[i];
    }
  }

  lemma {:induction false} SumAtLeast(ps: seq<Phase>, i: nat, w: Phase -> nat)
    requires i < |ps|
    ensures Sum(ps, w) >= w(ps[i])
  {
    if i < |ps| - 1 {
      SumAtLeast(ps[..|ps| - 1], i, w);
    }
  }

  // ----- the invariant -----

  function One(b: bool): nat
  {
    if b then 1 else 0
  }

  /** References held outside worker contexts: server, accept context, accept in progress. */
  function MainShared(s: State): nat
  {
    One(s.serverShared) + One(s.handlerShared) +
    One(s.main.AcceptShared? || s.main.AcceptTracker? || s.main.AcceptListed? || s.main.AcceptCounted?)
  }

  function MainTracker(s: State): nat
  {
    One(s.serverTracker) + One(s.handlerTracker) +
    One(s.main.AcceptTracker? || s.main.AcceptListed? || s.main.AcceptCounted?)
  }

  predicate Sound(o: Object)
  {
    o.faults == 0 && o.frees == One(o.refs == 0) && (o.frees == 1 <==> o.freedBy.Some?)
  }

  /** Reference counts equal the references held, so nothing is freed early, twice or used later. */
  predicate CountsSafe(s: State)
  {
    && Sound(s.shared) && Sound(s.tracker) && !s.assertFailed
    && s.shared.refs == MainShared(s) + Sum(s.sessions, SharedHeld)
    && s.tracker.refs == MainTracker(s) + Sum(s.sessions, TrackerHeld)
    && s.inFlight == Sum(s.sessions, Running) + One(s.main.AcceptCounted?)
  }

  /** The server's own references last until its finalizer drops them. */
  predicate MainSafe(s: State)
  {
    && (s.serverShared <==> !(s.main.FinalizeTracker? || s.main.Gone?))
    && (s.serverTracker <==> !s.main.Gone?)
    && (s.handlerShared <==> !Finalizing(s.main))
    && (s.handlerTracker <==> !Finalizing(s.main) || s.main.FinalizeHandler?)
    && (Finalizing(s.main) || s.main.FinalizeListener? ==> !s.listening)
  }

  predicate Finalizing(m: Main)
  {
    m.FinalizeHandler? || m.FinalizeHandlerTracker? || (m.Shutting? && m.finalizing) ||
    m.FinalizeShared? || m.FinalizeTracker? || m.Gone?
  }

  predicate Listed(s: State, i: nat)
  {
    if i < |s.sessions| then Rank(s.sessions[i]) < 4
    else i == |s.sessions| && (s.main.AcceptListed? || s.main.AcceptCounted?)
  }

  ghost predicate ListSafe(s: State)
  {
    && Distinct(s.connections)
    && forall i: nat :: i in s.connections <==> Listed(s, i)
  }

  /** Past the shutdown snapshot every session has closed its own connection, or its
      connection is shut down or still ahead in the snapshot. */
  predicate ShutdownSafe(s: State)
  {
    && (s.main.Shutting? ==> s.main.next <= |s.main.snapshot|)
    && (s.main.Shutting? ==>
          forall i :: 0 <= i < |s.sessions| && Rank(s.sessions[i]) < 3 ==>
            i in s.shut || i in s.main.snapshot[s.main.next..])
    && (s.main.Waiting? || s.main.FinalizeShared? ==>
          forall i :: 0 <= i < |s.sessions| && Rank(s.sessions[i]) < 3 ==> i in s.shut)
  }

  /** Once drained, only the main thread can free the shared state. */
  predicate DrainSafe(s: State)
  {
    s.drained ==>
      && Sum(s.sessions, SharedHeld) == 0 && Sum(s.sessions, Running) == 0
      && (s.shared.frees == 1 ==> s.shared.freedBy == Some(MainThread))
      && !(s.main.AcceptShared? || s.main.AcceptTracker? || s.main.AcceptListed? || s.main.AcceptCounted?)
  }

  ghost predicate Safe(s: State)
  {
    CountsSafe(s) && MainSafe(s) && ListSafe(s) && ShutdownSafe(s) && DrainSafe(s)
  }

  /** How one session's step moves each sum. */
  predicate SumsMove(ps: seq<Phase>, i: nat, w: Phase -> nat)
    requires i < |ps|
  {
    && Sum(ps[i := NextPhase(ps[i])], w) + w(ps[i]) == Sum(ps, w) + w(NextPhase(ps[i]))
    && Sum(ps, w) >= w(ps[i])
  }

  lemma SessionSums(ps: seq<Phase>, i: nat)
    requires i < |ps|
    ensures SumsMove(ps, i, SharedHeld) && SumsMove(ps, i, TrackerHeld) && SumsMove(ps, i, Running)
  {
    var p := NextPhase(ps[i]);
    SumUpdate(ps, i, p, SharedHeld);
    SumUpdate(ps, i, p, TrackerHeld);
    SumUpdate(ps, i, p, Running);
    SumAtLeast(ps, i, SharedHeld);
    SumAtLeast(ps, i, TrackerHeld);
    SumAtLeast(ps, i, Running);
  }

  lemma WorkKeepsCounts(s: State, i: nat)
    requires CountsSafe(s) && i < |s.sessions|
    ensures CountsSafe(WorkStep(s, i))
  {
    hide Sum, RemoveConnection;
    SessionSums(s.sessions, i);
  }

  lemma WorkKeepsDrain(s: State, i: nat)
    requires CountsSafe(s) && DrainSafe(s) && i < |s.sessions|
    ensures DrainSafe(WorkStep(s, i))
  {
    hide Sum, RemoveConnection, CountsSafe;
    SessionSums(s.sessions, i);
  }

  lemma {:induction false} CutFinds(cs: seq<nat>, c: nat)
    ensures Cut(cs, c) == |cs| ==> c !in cs
    ensures Cut(cs, c) < |cs| ==> cs[Cut(cs, c)] == c
  {
    if cs != [] && cs[0] != c {
      CutFinds(cs[1..], c);
      assert cs == [cs[0]] + cs[1..];
    }
  }

  lemma RemoveFromDistinct(cs: seq<nat>, c: nat)
    requires Distinct(cs)
    ensures Distinct(RemoveConnection(cs, c))
    ensures forall i :: i in RemoveConnection(cs, c) <==> i in cs && i != c
  {
    CutFinds(cs, c);
    var k := Cut(cs, c);
    if k < |cs| {
      var r := cs[..k] + cs[k + 1..];
      assert forall n :: 0 <= n < |r| ==> r[n] == if n < k then cs[n] else cs[n + 1];
      forall i | i in cs && i != c ensures i in r {
        var n :| 0 <= n < |cs| && cs[n] == i;
        assert r[if n < k then n else n - 1] == i;
      }
    }
  }

  lemma WorkKeepsList(s: State, i: nat)
    requires ListSafe(s) && i < |s.sessions|
    ensures ListSafe(WorkStep(s, i))
  {
    hide RemoveConnection, WorkOnShared, WorkOnTracker;
    RemoveFromDistinct(s.connections, i);
    var t := WorkStep(s, i);
    forall k: nat ensures k in t.connections <==> Listed(t, k) {
      assert Listed(t, k) <==> Listed(s, k) && !(k == i && s.sessions[i] == Closed);
    }
  }

  lemma WorkKeepsShutdown(s: State, i: nat)
    requires ShutdownSafe(s) && MainSafe(s) && i < |s.sessions|
    ensures ShutdownSafe(WorkStep(s, i)) && MainSafe(WorkStep(s, i))
  {
    hide WorkOnShared, WorkOnTracker, RemoveConnection;
    var t := WorkStep(s, i);
    forall k | 0 <= k < |t.sessions| && Rank(t.sessions[k]) < 3 ensures Rank(s.sessions[k]) < 3 {
    }
  }

  lemma MainKeepsCounts(s: State)
    requires CountsSafe(s) && MainSafe(s)
    ensures CountsSafe(MainStep(s))
  {
    hide CountsSafe, MainSafe, MainStep;
    if s.main.AcceptCounted? {
      SpawnKeepsCounts(s);
    } else if s.main.AcceptShared? || s.main.AcceptTracker? || s.main.AcceptListed? {
      AcceptKeepsCounts(s);
    } else {
      CallStepsKeepCounts(s);
    }
  }

  lemma SpawnKeepsCounts(s: State)
    requires CountsSafe(s) && MainSafe(s) && s.main.AcceptCounted?
    ensures CountsSafe(MainStep(s))
  {
    hide Sum;
    SumAppend(s.sessions, Spawned, SharedHeld);
    SumAppend(s.sessions, Spawned, TrackerHeld);
    SumAppend(s.sessions, Spawned, Running);
  }

  lemma AcceptKeepsCounts(s: State)
    requires CountsSafe(s) && MainSafe(s)
    requires s.main.AcceptShared? || s.main.AcceptTracker? || s.main.AcceptListed?
    ensures CountsSafe(MainStep(s))
  {
    hide Sum;
  }

  lemma CallStepsKeepCounts(s: State)
    requires CountsSafe(s) && MainSafe(s)
    requires !(s.main.AcceptShared? || s.main.AcceptTracker? || s.main.AcceptListed? || s.main.AcceptCounted?)
    ensures CountsSafe(MainStep(s))
  {
    hide Sum;
  }

  lemma MainKeepsMain(s: State)
    requires MainSafe(s)
    ensures MainSafe(MainStep(s))
  {
    hide MainOnShared, MainOnTracker;
  }

  lemma MainKeepsDrain(s: State)
    requires Safe(s)
    ensures DrainSafe(MainStep(s))
  {
    hide ListSafe, ShutdownSafe;
    if s.main.Waiting? && s.inFlight == 0 {
      NothingRunning(s.sessions);
    }
  }

  /** A finished session holds no shared-state reference. */
  lemma NothingRunning(ps: seq<Phase>)
    requires Sum(ps, Running) == 0
    ensures Sum(ps, SharedHeld) == 0
    ensures forall i :: 0 <= i < |ps| ==> SharedHeld(ps[i]) == 0
  {
    SumZero(ps, Running);
    forall i | 0 <= i < |ps| ensures SharedHeld(ps[i]) == 0 {
      assert Running(ps[i]) == 0;
    }
    SumZero(ps, SharedHeld);
  }

  lemma MainKeepsList(s: State)
    requires ListSafe(s)
    ensures ListSafe(MainStep(s))
  {
    hide MainOnShared, MainOnTracker;
    var t := MainStep(s);
    if s.main.AcceptTracker? {
      assert !Listed(s, |s.sessions|);
    }
    forall i: nat ensures i in t.connections <==> Listed(t, i) {
      assert i in s.connections <==> Listed(s, i);
    }
  }

  lemma MainKeepsShutdown(s: State)
    requires ListSafe(s) && ShutdownSafe(s)
    ensures ShutdownSafe(MainStep(s))
  {
    hide MainOnShared, MainOnTracker, ListSafe, Rank;
    if s.main.StopListening? || s.main.FinalizeHandlerTracker? {
      SnapshotCovers(s);
    } else if s.main.Shutting? {
      ShutNext(s);
    }
  }

  lemma ShutNext(s: State)
    requires ShutdownSafe(s) && s.main.Shutting?
    ensures ShutdownSafe(MainStep(s))
  {
    hide MainOnShared, MainOnTracker, Rank;
    var m := s.main;
    if m.next < |m.snapshot| {
      assert m.snapshot[m.next..] == [m.snapshot[m.next]] + m.snapshot[m.next + 1..];
    }
  }

  lemma SnapshotCovers(s: State)
    requires ListSafe(s)
    ensures forall i :: 0 <= i < |s.sessions| && Rank(s.sessions[i]) < 3 ==> i in s.connections[0..]
  {
    forall i | 0 <= i < |s.sessions| && Rank(s.sessions[i]) < 3 ensures i in s.connections[0..] {
      assert Listed(s, i);
      assert s.connections[0..] == s.connections;
    }
  }

  lemma StepKeepsSafe(s: State, a: Action)
    requires Safe(s)
    ensures Safe(Step(s, a))
  {
    match a
    case Work(i) =>
      hide WorkStep, CountsSafe, MainSafe, ListSafe, ShutdownSafe, DrainSafe;
      if i < |s.sessions| {
        WorkKeepsCounts(s, i);
        WorkKeepsDrain(s, i);
        WorkKeepsList(s, i);
        WorkKeepsShutdown(s, i);
      }
    case Next =>
      hide MainStep, CountsSafe, MainSafe, ListSafe, ShutdownSafe, DrainSafe;
      MainKeepsCounts(s);
      MainKeepsDrain(s);
      MainKeepsList(s);
      MainKeepsMain(s);
      MainKeepsShutdown(s);
    case _ => CallKeepsSafe(s, a);
  }

  lemma CallKeepsSafe(s: State, a: Action)
    requires Safe(s) && !a.Work? && !a.Next?
    ensures Safe(Step(s, a))
  {
    hide Sum;
    var t := Step(s, a);
    assert t.sessions == s.sessions && t.connections == s.connections;
    assert forall i: nat :: Listed(t, i) <==> Listed(s, i);
  }

  lemma {:induction false} RunKeepsSafe(s: State, actions: seq<Action>)
    requires Safe(s)
    ensures Safe(Run(s, actions))
    decreases |actions|
  {
    hide Step, Safe;
    if actions != [] {
      StepKeepsSafe(s, actions[0]);
      RunKeepsSafe(Step(s, actions[0]), actions[1..]);
    }
  }

  lemma InitSafe()
    ensures Safe(Init())
  {
  }
}
