/**
 * The connection server as an interleaving of its main thread and one worker thread per
 * session. Each action is one access to shared memory: a reference taken or dropped, a
 * critical section, a socket shutdown. Using freed memory is a fault, never an impossibility.
 */
module ConnectionServer {
  import opened Basics

  datatype Thread = MainThread | WorkerThread(session: nat)

  /** A reference-counted object: live references, times freed, uses after the free. */
  datatype Object = Object(refs: nat, frees: nat, faults: nat, freedBy: Option<Thread>)

  function Touch(o: Object): Object
  {
    if o.refs == 0 then o.(faults := o.faults + 1) else o
  }

  function Ref(o: Object): Object
  {
    var t := Touch(o);
    t.(refs := t.refs + 1)
  }

  function Unref(o: Object, thread: Thread): Object
  {
    if o.refs == 0 then Touch(o)
    else if o.refs == 1 then o.(refs := 0, frees := o.frees + 1, freedBy := Some(thread))
    else o.(refs := o.refs - 1)
  }

  /** How far a session's worker has come. */
  datatype Phase =
    | Spawned      // runner context holds both objects
    | InSession    // the session object holds a second shared-state reference
    | SessionDone  // the session object is gone
    | Closed       // the worker closed its own connection
    | Removed      // the connection is off the list
    | Dropped      // the context's shared-state reference is gone
    | Finished     // reported to the tracker
    | Released     // the context is freed

  function Rank(p: Phase): nat
  {
    match p
    case Spawned => 0
    case InSession => 1
    case SessionDone => 2
    case Closed => 3
    case Removed => 4
    case Dropped => 5
    case Finished => 6
    case Released => 7
  }

  function SharedHeld(p: Phase): nat
  {
    if p == InSession then 2 else if Rank(p) <= 4 then 1 else 0
  }

  function TrackerHeld(p: Phase): nat
  {
    if p == Released then 0 else 1
  }

  function Running(p: Phase): nat
  {
    if Rank(p) < 6 then 1 else 0
  }

  /** Where the main thread is. Accepts, stop and finalize all run on it. */
  datatype Main =
    | Idle
    | AcceptShared | AcceptTracker | AcceptListed | AcceptCounted
    | StopListening
    | Shutting(snapshot: seq<nat>, next: nat, finalizing: bool)
    | Waiting
    | FinalizeListener | FinalizeHandler | FinalizeHandlerTracker
    | FinalizeShared | FinalizeTracker
    | Gone

  datatype State = State(
    shared: Object,
    tracker: Object,
    inFlight: nat,
    assertFailed: bool,        // session_finished with nothing in flight
    connections: seq<nat>,
    shut: set<nat>,
    sessions: seq<Phase>,
    main: Main,
    listening: bool,
    handlerShared: bool,       // the accept context's references
    handlerTracker: bool,
    serverShared: bool,        // the server object's references
    serverTracker: bool,
    lastWait: Option<nat>,     // what the last stop's wait returned
    drained: bool)             // history: a wait returned 0 and nothing was accepted since

  function Init(): State
  {
    State(Object(2, 0, 0, None), Object(2, 0, 0, None), 0, false, [], {}, [], Idle, false,
          true, true, true, true, None, false)
  }

  datatype Action =
    | Start | Accept | StopCall | Finalize
    | Next            // the main thread's next step inside accept, stop or finalize
    | TimeOut         // the drain deadline passes
    | Work(session: nat)

  function RemoveConnection(cs: seq<nat>, c: nat): seq<nat>
  {
    var k := Cut(cs, c);
    if k == |cs| then cs else cs[..k] + cs[k + 1..]
  }

  // What the main thread's next step does to each part of the state.

  function MainOnShared(o: Object, m: Main): Object
  {
    match m
    case AcceptTracker => Touch(o)
    case StopListening => Touch(o)
    case FinalizeListener => Unref(o, MainThread)
    case FinalizeHandlerTracker => Touch(o)
    case FinalizeShared => Unref(o, MainThread)
    case _ => o
  }

  function MainOnTracker(o: Object, m: Main): Object
  {
    match m
    case AcceptShared => Ref(o)
    case AcceptListed => Touch(o)
    case Waiting => Touch(o)
    case FinalizeHandler => Unref(o, MainThread)
    case FinalizeTracker => Unref(o, MainThread)
    case _ => o
  }

  function NextMain(m: Main, connections: seq<nat>, inFlight: nat): Main
  {
    match m
    case Idle => Idle
    case AcceptShared => AcceptTracker
    case AcceptTracker => AcceptListed
    case AcceptListed => AcceptCounted
    case AcceptCounted => Idle
    case StopListening => Shutting(connections, 0, false)
    case Shutting(snapshot, next, finalizing) =>
      if next < |snapshot| then Shutting(snapshot, next + 1, finalizing)
      else if finalizing then FinalizeShared else Waiting
    case Waiting => if inFlight > 0 then Waiting else Idle
    case FinalizeListener => FinalizeHandler
    case FinalizeHandler => FinalizeHandlerTracker
    case FinalizeHandlerTracker => Shutting(connections, 0, true)
    case FinalizeShared => FinalizeTracker
    case FinalizeTracker => Gone
    case Gone => Gone
  }

  function MainStep(s: State): State
  {
    var m := s.main;
    var idle := m.Waiting? && s.inFlight == 0;
    s.(shared := MainOnShared(s.shared, m),
       tracker := MainOnTracker(s.tracker, m),
       inFlight := if m.AcceptListed? then s.inFlight + 1 else s.inFlight,
       connections := if m.AcceptTracker? then s.connections + [|s.sessions|] else s.connections,
       shut := if m.Shutting? && m.next < |m.snapshot| then s.shut + {m.snapshot[m.next]} else s.shut,
       sessions := if m.AcceptCounted? then s.sessions + [Spawned] else s.sessions,
       main := NextMain(m, s.connections, s.inFlight),
       handlerShared := s.handlerShared && !m.FinalizeListener?,
       handlerTracker := s.handlerTracker && !m.FinalizeHandler?,
       serverShared := s.serverShared && !m.FinalizeShared?,
       serverTracker := s.serverTracker && !m.FinalizeTracker?,
       lastWait := if idle then Some(0) else s.lastWait,
       drained := s.drained || idle)
  }

  // What a worker's next step does to each part of the state.

  function WorkOnShared(o: Object, p: Phase, thread: Thread): Object
  {
    match p
    case Spawned => Ref(o)
    case InSession => Unref(o, thread)
    case Closed => Touch(o)
    case Removed => Unref(o, thread)
    case _ => o
  }

  function WorkOnTracker(o: Object, p: Phase, thread: Thread): Object
  {
    match p
    case Dropped => Touch(o)
    case Finished => Unref(o, thread)
    case _ => o
  }

  function NextPhase(p: Phase): Phase
  {
    match p
    case Spawned => InSession
    case InSession => SessionDone
    case SessionDone => Closed
    case Closed => Removed
    case Removed => Dropped
    case Dropped => Finished
    case Finished => Released
    case Released => Released
  }

  function WorkStep(s: State, i: nat): State
    requires i < |s.sessions|
  {
    var p := s.sessions[i];
    s.(shared := WorkOnShared(s.shared, p, WorkerThread(i)),
       tracker := WorkOnTracker(s.tracker, p, WorkerThread(i)),
       assertFailed := s.assertFailed || (p == Dropped && s.inFlight == 0),
       inFlight := if p == Dropped && s.inFlight > 0 then s.inFlight - 1 else s.inFlight,
       connections := if p == Closed then RemoveConnection(s.connections, i) else s.connections,
       sessions := s.sessions[i := NextPhase(p)])
  }

  /** One step of one thread; an action that is not enabled leaves the state alone. */
  function Step(s: State, a: Action): State
  {
    match a
    case Start => if s.main.Idle? then s.(listening := true) else s
    case Accept =>
      if s.main.Idle? && s.listening then
        s.(shared := Ref(s.shared), main := AcceptShared, drained := false)
      else s
    case StopCall => if s.main.Idle? then s.(listening := false, main := StopListening) else s
    case Finalize => if s.main.Idle? then s.(listening := false, main := FinalizeListener) else s
    case Next => MainStep(s)
    case TimeOut =>
      if s.main.Waiting? && s.inFlight > 0 then
        s.(tracker := Touch(s.tracker), main := Idle, lastWait := Some(s.inFlight))
      else s
    case Work(i) => if i < |s.sessions| then WorkStep(s, i) else s
  }

  function Run(s: State, actions: seq<Action>): State
    decreases |actions|
  {
    if actions == [] then s else Run(Step(s, actions[0]), actions[1..])
  }
}
