/** What holds in every state that some interleaving of accepts, sessions and stops reaches. */
module ConnectionServerRuns {
  import opened Basics
  import opened ConnectionServer
  import opened ConnectionServerSafety

  // ----- what every interleaving keeps -----

  /** No use after free, no double free, no failed assertion, and each object is freed
      exactly when its last holder is gone. */
  lemma EveryRunIsMemorySafe(actions: seq<Action>)
    ensures var s := Run(Init(), actions);
            && s.shared.faults == 0 && s.tracker.faults == 0 && !s.assertFailed
            && s.shared.frees <= 1 && s.tracker.frees <= 1
            && (s.shared.frees == 1 <==>
                  MainShared(s) == 0 && forall i :: 0 <= i < |s.sessions| ==> SharedHeld(s.sessions[i]) == 0)
            && (s.tracker.frees == 1 <==>
                  MainTracker(s) == 0 && forall i :: 0 <= i < |s.sessions| ==> TrackerHeld(s.sessions[i]) == 0)
  {
    RunKeepsSafe(Init(), actions);
    var s := Run(Init(), actions);
    SumZero(s.sessions, SharedHeld);
    SumZero(s.sessions, TrackerHeld);
  }

  /** Number of sessions whose worker has not reported its exit. */
  function Unfinished(ps: seq<Phase>): nat
  {
    |set i | 0 <= i < |ps| && Rank(ps[i]) < 6|
  }

  lemma {:induction false} RunningCounts(ps: seq<Phase>)
    ensures Sum(ps, Running) == Unfinished(ps)
  {
    var all := set i | 0 <= i < |ps| && Rank(ps[i]) < 6;
    if ps == [] {
      assert all == {};
    } else {
      var n := |ps| - 1;
      RunningCounts(ps[..n]);
      var init := set i | 0 <= i < n && Rank(ps[..n][i]) < 6;
      assert init == set i | 0 <= i < |ps[..n]| && Rank(ps[..n][i]) < 6;
      if Rank(ps[n]) < 6 {
        assert all == init + {n};
      } else {
        assert all == init;
      }
    }
  }

  /** The tracker's counter is the number of unfinished sessions, and the connections of
      unfinished sessions not yet shut down were closed by their own threads. */
  lemma EveryRunCountsSessions(actions: seq<Action>)
    ensures var s := Run(Init(), actions);
            && s.inFlight == Unfinished(s.sessions) + One(s.main.AcceptCounted?)
            && (s.main.Waiting? ==>
                  forall i :: 0 <= i < |s.sessions| && Rank(s.sessions[i]) < 6 ==>
                    i in s.shut || Rank(s.sessions[i]) >= 3)
  {
    RunKeepsSafe(Init(), actions);
    RunningCounts(Run(Init(), actions).sessions);
  }

  /** The step that ends a stop's wait returns the number of unfinished sessions, in time or at
      the deadline. */
  lemma WaitReturnsUnfinished(actions: seq<Action>, a: Action)
    requires Run(Init(), actions).main.Waiting? && Step(Run(Init(), actions), a).main.Idle?
    ensures var s := Run(Init(), actions); Step(s, a).lastWait == Some(Unfinished(s.sessions))
  {
    hide Run, Unfinished, WorkOnShared, WorkOnTracker, RemoveConnection;
    EveryRunCountsSessions(actions);
  }

  /** When a stop's wait ends with 0, no session thread holds the shared state: only the server
      and its accept context do. */
  lemma DrainedStopLeavesNoHolder(actions: seq<Action>, a: Action)
    requires Run(Init(), actions).main.Waiting? && Step(Run(Init(), actions), a).main.Idle?
    requires Step(Run(Init(), actions), a).lastWait == Some(0)
    ensures var t := Step(Run(Init(), actions), a);
            && t.shared.refs == One(t.serverShared) + One(t.handlerShared)
            && forall i :: 0 <= i < |t.sessions| ==> SharedHeld(t.sessions[i]) == 0
  {
    hide Run, MainSafe, ListSafe, ShutdownSafe, WorkStep, Sum;
    var s := Run(Init(), actions);
    var t := Step(s, a);
    InitSafe();
    RunKeepsSafe(Init(), actions);
    StepKeepsSafe(s, a);
    WaitReturnsUnfinished(actions, a);
    ZeroMeansDrained(s, a);
    NothingRunning(t.sessions);
  }

  /** A wait that ends with 0 found nobody in flight. */
  lemma ZeroMeansDrained(s: State, a: Action)
    requires s.main.Waiting? && Step(s, a).main.Idle? && Step(s, a).lastWait == Some(0)
    ensures Step(s, a).drained
  {
    hide WorkOnShared, WorkOnTracker, RemoveConnection, MainOnShared, MainOnTracker, NextPhase;
    OnlyMainEndsWait(s, a);
  }

  lemma OnlyMainEndsWait(s: State, a: Action)
    requires s.main.Waiting? && Step(s, a).main.Idle?
    ensures (a.Next? && s.inFlight == 0) || (a.TimeOut? && s.inFlight > 0)
  {
    hide WorkOnShared, WorkOnTracker, RemoveConnection, MainOnShared, MainOnTracker, NextPhase, Ref, Touch;
    assert a.Work? ==> Step(s, a).main == s.main;
  }

  lemma {:induction false} StaysDrained(s: State, actions: seq<Action>)
    requires s.drained && forall k :: 0 <= k < |actions| ==> !actions[k].Accept?
    ensures Run(s, actions).drained
    decreases |actions|
  {
    hide WorkOnShared, WorkOnTracker, RemoveConnection, MainOnShared, MainOnTracker, NextMain;
    if actions != [] {
      assert !actions[0].Accept?;
      StaysDrained(Step(s, actions[0]), actions[1..]);
    }
  }

  /** So whatever happens after such a stop, short of accepting again, the request adapter is
      released once, on the calling thread. */
  lemma DrainedServerFreesOnMainThread(actions: seq<Action>, a: Action, more: seq<Action>)
    requires Run(Init(), actions).main.Waiting? && Step(Run(Init(), actions), a).main.Idle?
    requires Step(Run(Init(), actions), a).lastWait == Some(0)
    requires forall k :: 0 <= k < |more| ==> !more[k].Accept?
    requires Run(Step(Run(Init(), actions), a), more).main.Gone?
    ensures var u := Run(Step(Run(Init(), actions), a), more); u.shared.frees == 1 && u.shared.freedBy == Some(MainThread)
  {
    hide Run, Step, ListSafe, ShutdownSafe;
    var s := Run(Init(), actions);
    InitSafe();
    RunKeepsSafe(Init(), actions);
    StepKeepsSafe(s, a);
    RunKeepsSafe(Step(s, a), more);
    ZeroMeansDrained(s, a);
    StaysDrained(Step(s, a), more);
  }

  /** Not listening and not in the middle of an accept. */
  predicate Deaf(s: State)
  {
    !s.listening && !(s.main.AcceptShared? || s.main.AcceptTracker? || s.main.AcceptListed? || s.main.AcceptCounted?)
  }

  lemma DeafStep(s: State, a: Action)
    requires Deaf(s) && !a.Start?
    ensures Deaf(Step(s, a)) && |Step(s, a).sessions| == |s.sessions|
  {
    hide WorkOnShared, WorkOnTracker, RemoveConnection, MainOnShared, MainOnTracker, NextPhase;
  }

  /** After a stop no connection is accepted until the server is started again. */
  lemma {:induction false} StoppedServerAcceptsNothing(s: State, actions: seq<Action>)
    requires Deaf(s) && forall k :: 0 <= k < |actions| ==> !actions[k].Start?
    ensures |Run(s, actions).sessions| == |s.sessions|
    decreases |actions|
  {
    hide Step, Deaf;
    if actions != [] {
      assert !actions[0].Start?;
      DeafStep(s, actions[0]);
      StoppedServerAcceptsNothing(Step(s, actions[0]), actions[1..]);
    }
  }

  // ----- draining -----

  function WorksOn(actions: seq<Action>, i: nat): nat
    decreases |actions|
  {
    if actions == [] then 0 else One(actions[0] == Work(i)) + WorksOn(actions[1..], i)
  }

  function Capped(n: nat): nat
  {
    if n < 7 then n else 7
  }

  /** This step ends a stop's wait with nobody left running. */
  predicate ReturnsZero(s: State, a: Action)
  {
    s.main.Waiting? && Step(s, a).main.Idle? && Step(s, a).lastWait == Some(0)
  }

  /** The stop waits on until one of the actions ends its wait with 0. */
  predicate Drains(s: State, actions: seq<Action>)
    decreases |actions|
  {
    actions != [] &&
    (ReturnsZero(s, actions[0]) || (Step(s, actions[0]).main.Waiting? && Drains(Step(s, actions[0]), actions[1..])))
  }

  /** While a stop waits, nothing but the deadline and the sessions' own steps has an effect. */
  lemma StepWhileWaiting(s: State, a: Action, i: nat)
    requires s.main.Waiting? && !a.TimeOut?
    ensures ReturnsZero(s, a) || (Step(s, a).main.Waiting? && |Step(s, a).sessions| == |s.sessions|)
    ensures !ReturnsZero(s, a) && i < |s.sessions| ==>
              Rank(Step(s, a).sessions[i]) == Capped(Rank(s.sessions[i]) + One(a == Work(i)))
  {
    hide WorkOnShared, WorkOnTracker, MainOnShared, MainOnTracker, RemoveConnection;
  }

  /** How far each session has come, at least, if the wait is still on after the actions. */
  predicate Advanced(s: State, actions: seq<Action>, t: State)
  {
    && t.main.Waiting? && |t.sessions| == |s.sessions|
    && forall i :: 0 <= i < |s.sessions| ==> Rank(t.sessions[i]) >= Capped(Rank(s.sessions[i]) + WorksOn(actions, i))
  }

  lemma {:induction false} WaitGoesOn(s: State, actions: seq<Action>, more: seq<Action>)
    requires s.main.Waiting? && forall k :: 0 <= k < |actions| ==> !actions[k].TimeOut?
    ensures Drains(s, actions + more) ||
            (Advanced(s, actions, Run(s, actions)) && !Drains(Run(s, actions), more))
    decreases |actions|
  {
    hide Step, ReturnsZero, Rank;
    if actions == [] {
      assert actions + more == more;
      forall i | 0 <= i < |s.sessions| ensures Rank(s.sessions[i]) <= 7 {
        RankBound(s.sessions[i]);
      }
    } else {
      var t := Step(s, actions[0]);
      assert (actions + more)[0] == actions[0] && (actions + more)[1..] == actions[1..] + more;
      StepWhileWaiting(s, actions[0], 0);
      if !ReturnsZero(s, actions[0]) {
        WaitGoesOn(t, actions[1..], more);
        forall i | 0 <= i < |s.sessions| ensures Rank(t.sessions[i]) == Capped(Rank(s.sessions[i]) + One(actions[0] == Work(i))) {
          StepWhileWaiting(s, actions[0], i);
        }
      }
    }
  }

  lemma RankBound(p: Phase)
    ensures Rank(p) <= 7
  {
  }

  lemma WaitReturnsZero(s: State)
    requires CountsSafe(s) && s.main.Waiting? && Sum(s.sessions, Running) == 0
    ensures Drains(s, [Next])
  {
    hide Sum;
    assert ReturnsZero(s, Next);
  }

  /** A waiting stop returns 0 under every schedule, of whatever actions of whichever threads,
      that gives each session six steps and the main thread a last one before the deadline. */
  lemma FairScheduleDrains(before: seq<Action>, actions: seq<Action>)
    requires Run(Init(), before).main.Waiting?
    requires forall k :: 0 <= k < |actions| ==> !actions[k].TimeOut?
    requires forall i :: 0 <= i < |Run(Init(), before).sessions| ==> WorksOn(actions, i) >= 6
    ensures Drains(Run(Init(), before), actions + [Next])
  {
    hide Step, CountsSafe, MainSafe, ListSafe, ShutdownSafe, DrainSafe, Run, Drains;
    InitSafe();
    var s := Run(Init(), before);
    RunKeepsSafe(Init(), before);
    RunKeepsSafe(s, actions);
    WaitGoesOn(s, actions, [Next]);
    if !Drains(s, actions + [Next]) {
      var t := Run(s, actions);
      forall i | 0 <= i < |t.sessions| ensures Running(t.sessions[i]) == 0 {
        assert Rank(t.sessions[i]) >= Capped(Rank(s.sessions[i]) + WorksOn(actions, i));
      }
      SumZero(t.sessions, Running);
      WaitReturnsZero(t);
      assert false;
    }
  }
}
