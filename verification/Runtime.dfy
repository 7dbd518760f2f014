/**
 The launch and shutdown protocol of the replication runtime
 (control-plane/replication/runtime/runtime.go): concurrent Start and Close calls, the watcher and
 the replicator goroutine, each critical section one step.
 */
module RuntimeProtocol {
  import Runs

  /** The fields under the mutex, the two channels, and what has been launched so far. */
  datatype Flags = Flags(
    started: bool, starting: bool, closed: bool, replicationStart: bool, attempt: nat,
    watcherDone: bool, launches: nat, running: bool, doneCloses: nat)

  /** What the first critical section of Start tells its caller to do. */
  datatype Entered = ReturnClosed | ReturnStarted | WaitFor(attempt: nat) | Connect

  /** How connecting and loading the saved progress went. */
  datatype Outcome = ConnectFailed | ProgressFailed | Connected

  /** New: without a replicator its done channel is closed from the start. */
  function Created(hasReplicator: bool): Flags {
    Flags(false, false, false, false, 0, false, 0, false, if hasReplicator then 0 else 1)
  }

  function StartEntered(f: Flags): (Flags, Entered) {
    if f.closed then (f, ReturnClosed)
    else if f.started then (f, ReturnStarted)
    else if f.starting then (f, WaitFor(f.attempt))
    else (f.(starting := true, attempt := f.attempt + 1), Connect)
  }

  function StartFinished(f: Flags, hasReplicator: bool, outcome: Outcome): Flags {
    var g := f.(starting := false);
    if outcome.ConnectFailed? || g.closed then g
    else if !hasReplicator then g.(started := true, replicationStart := true)
    else if outcome.ProgressFailed? then g.(started := false)
    else g.(started := true, replicationStart := true, launches := g.launches + 1, running := true)
  }

  /** Where a caller of Start or Close stands. */
  datatype Caller =
    | StartCalled | StartWaiting(attempt: nat) | StartConnecting | StartReturned
    | CloseCalled | AwaitWatcher | CheckLaunched | AwaitReplication | CloseReturned(first: bool)

  datatype State = State(flags: Flags, callers: map<nat, Caller>)

  datatype Event =
    | CallStart(id: nat)
    | EnterStart(id: nat)
    | AttemptOver(id: nat)
    | GiveUpWaiting(id: nat)
    | FinishStart(id: nat, outcome: Outcome)
    | CallClose(id: nat)
    | EnterClose(id: nat)
    | WatcherStops
    | SeeWatcher(id: nat)
    | Check(id: nat)
    | ReplicatorExits
    | SeeReplicator(id: nat)

  predicate At(s: State, id: nat, c: Caller) { id in s.callers && s.callers[id] == c }

  function Move(s: State, id: nat, c: Caller): State { s.(callers := s.callers[id := c]) }

  function Next(hasReplicator: bool, s: State, e: Event): State {
    match e
    case CallStart(id) => if id in s.callers then s else Move(s, id, StartCalled)
    case EnterStart(id) =>
      if !At(s, id, StartCalled) then s else
      var (flags, entered) := StartEntered(s.flags);
      Move(s.(flags := flags), id, match entered
                                   case Connect => StartConnecting
                                   case WaitFor(n) => StartWaiting(n)
                                   case _ => StartReturned)
    case AttemptOver(id) =>
      if id in s.callers && s.callers[id].StartWaiting?
         && !(s.flags.starting && s.flags.attempt == s.callers[id].attempt)
      then Move(s, id, StartCalled) else s
    case GiveUpWaiting(id) =>
      if id in s.callers && s.callers[id].StartWaiting? then Move(s, id, StartReturned) else s
    case FinishStart(id, outcome) =>
      if !At(s, id, StartConnecting) then s else
      Move(s.(flags := StartFinished(s.flags, hasReplicator, outcome)), id, StartReturned)
    case CallClose(id) => if id in s.callers then s else Move(s, id, CloseCalled)
    case EnterClose(id) =>
      if !At(s, id, CloseCalled) then s
      else if s.flags.closed then Move(s, id, CloseReturned(false))
      else Move(s.(flags := s.flags.(closed := true)), id, AwaitWatcher)
    case WatcherStops => if s.flags.closed then s.(flags := s.flags.(watcherDone := true)) else s
    case SeeWatcher(id) => if At(s, id, AwaitWatcher) && s.flags.watcherDone then Move(s, id, CheckLaunched) else s
    case Check(id) =>
      if !At(s, id, CheckLaunched) then s else
      Move(s, id, if s.flags.replicationStart then AwaitReplication else CloseReturned(true))
    case ReplicatorExits =>
      if s.flags.running then s.(flags := s.flags.(running := false, doneCloses := s.flags.doneCloses + 1)) else s
    case SeeReplicator(id) =>
      if At(s, id, AwaitReplication) && s.flags.doneCloses > 0 then Move(s, id, CloseReturned(true)) else s
  }

  function Stepper(hasReplicator: bool): (State, Event) -> State {
    (s: State, e: Event) => Next(hasReplicator, s, e)
  }

  function Run(hasReplicator: bool, s: State, events: seq<Event>): State {
    Runs.Run(Stepper(hasReplicator), s, events)
  }

  function Init(hasReplicator: bool): State { State(Created(hasReplicator), map[]) }

  // ----- the invariant

  predicate FlagsOk(hasReplicator: bool, f: Flags) {
    && f.launches == (if hasReplicator && f.replicationStart then 1 else 0)
    && f.replicationStart == f.started
    && (f.running ==> f.launches == 1)
    && f.doneCloses == (if !hasReplicator then 1 else f.launches - (if f.running then 1 else 0))
  }

  /** Only one caller connects at a time, and nobody once started; Close callers have set the flag. */
  predicate CallerOk(s: State, id: nat) {
    id in s.callers ==>
      match s.callers[id]
      case StartConnecting => s.flags.starting && !s.flags.started
      case AwaitWatcher => s.flags.closed
      case CheckLaunched => s.flags.closed && s.flags.watcherDone
      case AwaitReplication => s.flags.closed && s.flags.watcherDone
      case CloseReturned(first) => s.flags.closed && (first ==> !s.flags.running && s.flags.watcherDone)
      case _ => true
  }

  ghost predicate Inv(hasReplicator: bool, s: State) {
    && FlagsOk(hasReplicator, s.flags)
    && (forall id :: id in s.callers ==> CallerOk(s, id))
    && (forall i, j :: At(s, i, StartConnecting) && At(s, j, StartConnecting) ==> i == j)
  }

  lemma NextKeepsInv(hasReplicator: bool, s: State, e: Event)
    requires Inv(hasReplicator, s)
    ensures Inv(hasReplicator, Next(hasReplicator, s, e))
    ensures s.flags.closed ==> Next(hasReplicator, s, e).flags.closed
    ensures s.flags.closed ==> Next(hasReplicator, s, e).flags.launches == s.flags.launches
  {
    hide Next, FlagsOk, CallerOk;
    var t := Next(hasReplicator, s, e);
    FlagsStayOk(hasReplicator, s, e);
    forall id | id in t.callers
      ensures CallerOk(t, id)
    {
      CallerStaysOk(hasReplicator, s, e, id);
    }
    forall i, j | At(t, i, StartConnecting) && At(t, j, StartConnecting)
      ensures i == j
    {
      OneConnects(hasReplicator, s, e, i, j);
    }
  }

  lemma FlagsStayOk(hasReplicator: bool, s: State, e: Event)
    requires Inv(hasReplicator, s)
    ensures var t := Next(hasReplicator, s, e);
      && FlagsOk(hasReplicator, t.flags)
      && (s.flags.closed ==> t.flags.closed && t.flags.launches == s.flags.launches)
  {
    if e.FinishStart? {
      assert e.id in s.callers ==> CallerOk(s, e.id);
    }
  }

  lemma CallerStaysOk(hasReplicator: bool, s: State, e: Event, id: nat)
    requires Inv(hasReplicator, s) && id in Next(hasReplicator, s, e).callers
    ensures CallerOk(Next(hasReplicator, s, e), id)
  {
    assert id in s.callers ==> CallerOk(s, id);
    if e.FinishStart? {
      assert e.id in s.callers ==> CallerOk(s, e.id);
      assert At(s, id, StartConnecting) && At(s, e.id, StartConnecting) ==> e.id == id;
    }
  }

  lemma OneConnects(hasReplicator: bool, s: State, e: Event, i: nat, j: nat)
    requires Inv(hasReplicator, s)
    requires At(Next(hasReplicator, s, e), i, StartConnecting) && At(Next(hasReplicator, s, e), j, StartConnecting)
    ensures i == j
  {
    assert At(s, i, StartConnecting) || (e.EnterStart? && e.id == i && !s.flags.starting);
    assert At(s, j, StartConnecting) || (e.EnterStart? && e.id == j && !s.flags.starting);
    assert At(s, i, StartConnecting) ==> CallerOk(s, i);
    assert At(s, j, StartConnecting) ==> CallerOk(s, j);
  }

  lemma {:induction false} RunKeepsInv(hasReplicator: bool, s: State, events: seq<Event>)
    requires Inv(hasReplicator, s)
    ensures Inv(hasReplicator, Run(hasReplicator, s, events))
    ensures s.flags.closed ==> Run(hasReplicator, s, events).flags.launches == s.flags.launches
    decreases |events|
  {
    hide Next, Inv;
    if events != [] {
      NextKeepsInv(hasReplicator, s, events[0]);
      RunKeepsInv(hasReplicator, Next(hasReplicator, s, events[0]), events[1..]);
    }
  }

  lemma InitIsInv(hasReplicator: bool)
    ensures Inv(hasReplicator, Init(hasReplicator))
  {
  }

  /**
   Over all interleavings: at most one launch, and none without a replicator; the done channel is closed
   at most once; and when a Close that found the runtime open has returned, no replicator is running and the
   watcher has stopped.
   */
  lemma LaunchedAtMostOnce(hasReplicator: bool, events: seq<Event>)
    ensures var s := Run(hasReplicator, Init(hasReplicator), events);
      && s.flags.launches <= (if hasReplicator then 1 else 0)
      && s.flags.doneCloses <= 1
      && forall id :: At(s, id, CloseReturned(true)) ==> !s.flags.running && s.flags.watcherDone
  {
    InitIsInv(hasReplicator);
    RunKeepsInv(hasReplicator, Init(hasReplicator), events);
    var s := Run(hasReplicator, Init(hasReplicator), events);
    forall id | At(s, id, CloseReturned(true))
      ensures !s.flags.running && s.flags.watcherDone
    {
      assert CallerOk(s, id);
    }
  }

  /** Whatever happens after closed is set, nothing more is launched. */
  lemma NothingLaunchedAfterClose(hasReplicator: bool, before: seq<Event>, after: seq<Event>)
    requires Run(hasReplicator, Init(hasReplicator), before).flags.closed
    ensures Run(hasReplicator, Init(hasReplicator), before + after).flags.launches
         == Run(hasReplicator, Init(hasReplicator), before).flags.launches
  {
    InitIsInv(hasReplicator);
    RunKeepsInv(hasReplicator, Init(hasReplicator), before);
    Runs.RunInTwo(Stepper(hasReplicator), Init(hasReplicator), before, after);
    RunKeepsInv(hasReplicator, Run(hasReplicator, Init(hasReplicator), before), after);
  }

  /** A run in which a Close has returned and the replicator is running. */
  predicate ReturnsEarly(hasReplicator: bool, events: seq<Event>, id: nat, first: bool) {
    var s := Run(hasReplicator, Init(hasReplicator), events);
    At(s, id, CloseReturned(first)) && s.flags.running
  }

  /**
   A Close that returns means that no replicator is running, in every run, if and only if it was the one
   that found the runtime open.
   */
  lemma CloseWaitsIff(first: bool)
    ensures first <==>
      forall hasReplicator: bool, events: seq<Event>, id: nat :: !ReturnsEarly(hasReplicator, events, id, first)
  {
    if first {
      forall hasReplicator: bool, events: seq<Event>, id: nat
        ensures !ReturnsEarly(hasReplicator, events, id, true)
      {
        LaunchedAtMostOnce(hasReplicator, events);
      }
    } else {
      var events, id := SecondCloseReturnsEarly();
    }
  }

  lemma SecondCloseReturnsEarly() returns (events: seq<Event>, id: nat)
    ensures ReturnsEarly(true, events, id, false)
  {
    hide Runs.Run;
    var next, s0 := Stepper(true), Init(true);
    Runs.RunOfNothing(next, s0);
    var run := Runs.Extend(next, s0, [], CallStart(0));
    run := Runs.Extend(next, s0, run, EnterStart(0));
    run := Runs.Extend(next, s0, run, FinishStart(0, Connected));
    run := Runs.Extend(next, s0, run, CallClose(1));
    run := Runs.Extend(next, s0, run, EnterClose(1));
    run := Runs.Extend(next, s0, run, CallClose(2));
    run := Runs.Extend(next, s0, run, EnterClose(2));
    events, id := run, 2;
  }

  // ----- what an attempt to start does

  /**
   A caller of Start goes on to connect if and only if the runtime is open, not started, and nobody else is
   connecting; it waits if and only if somebody is.
   */
  lemma StartConnectsIff(hasReplicator: bool, s: State, id: nat)
    requires At(s, id, StartCalled)
    ensures var t := Next(hasReplicator, s, EnterStart(id));
      && (At(t, id, StartConnecting) <==> !s.flags.closed && !s.flags.started && !s.flags.starting)
      && (At(t, id, StartWaiting(s.flags.attempt)) <==> !s.flags.closed && !s.flags.started && s.flags.starting)
      && (At(t, id, StartReturned) <==> s.flags.closed || s.flags.started)
      && t.flags == (if At(t, id, StartConnecting)
                     then s.flags.(starting := true, attempt := s.flags.attempt + 1) else s.flags)
  {
  }

  /** A waiting caller tries again if and only if the attempt it waits for is over, or gives up when it likes. */
  lemma WaiterRetriesIff(hasReplicator: bool, s: State, id: nat)
    requires id in s.callers && s.callers[id].StartWaiting?
    ensures At(Next(hasReplicator, s, AttemptOver(id)), id, StartCalled) <==>
      !s.flags.starting || s.flags.attempt != s.callers[id].attempt
    ensures At(Next(hasReplicator, s, GiveUpWaiting(id)), id, StartReturned)
  {
  }

  /** Nobody else is moved by either. */
  lemma OnlyWaitersMove(hasReplicator: bool, s: State, id: nat)
    requires id in s.callers && !s.callers[id].StartWaiting?
    ensures Next(hasReplicator, s, AttemptOver(id)) == s && Next(hasReplicator, s, GiveUpWaiting(id)) == s
  {
  }

  /**
   The attempt starts the runtime if and only if it is still open and everything it needs was there: the
   connection, and with a replicator the saved progress. Only then, and only with one, it launches. Either way
   the next caller may try.
   */
  lemma AttemptStartsIff(hasReplicator: bool, s: State, id: nat, outcome: Outcome)
    requires Inv(hasReplicator, s) && At(s, id, StartConnecting)
    ensures var t := Next(hasReplicator, s, FinishStart(id, outcome));
      && !t.flags.starting && At(t, id, StartReturned)
      && (t.flags.started <==>
            !s.flags.closed && (outcome == Connected || (outcome == ProgressFailed && !hasReplicator)))
      && (t.flags.launches == s.flags.launches + 1 <==> t.flags.started && hasReplicator)
      && (t.flags.running <==> s.flags.running || (t.flags.started && hasReplicator))
  {
    assert CallerOk(s, id);
  }

  /** Whatever is launched was launched by an attempt that connected and loaded the progress. */
  lemma {:induction false} LaunchedAfterConnecting(hasReplicator: bool, s: State, events: seq<Event>)
    requires Inv(hasReplicator, s) && s.flags.launches < Run(hasReplicator, s, events).flags.launches
    ensures exists id :: FinishStart(id, Connected) in events
    decreases |events|
  {
    hide Next, Inv;
    if events != [] {
      var e, t := events[0], Next(hasReplicator, s, events[0]);
      NextKeepsInv(hasReplicator, s, e);
      if t.flags.launches == s.flags.launches {
        LaunchedAfterConnecting(hasReplicator, t, events[1..]);
        var id :| FinishStart(id, Connected) in events[1..];
        assert FinishStart(id, Connected) in events;
      } else {
        LaunchIsConnected(hasReplicator, s, e);
        assert FinishStart(e.id, Connected) in events;
      }
    }
  }

  lemma LaunchIsConnected(hasReplicator: bool, s: State, e: Event)
    requires Next(hasReplicator, s, e).flags.launches != s.flags.launches
    ensures e.FinishStart? && e.outcome == Connected
  {
  }

  // ----- the critical sections as the code has them

  class Runtime {
    const hasReplicator: bool
    var started: bool
    var starting: bool
    var closed: bool
    var replicationStart: bool
    var attempt: nat
    ghost var watcherDone: bool
    ghost var launches: nat
    ghost var running: bool
    ghost var doneCloses: nat

    ghost function Fields(): Flags
      reads this
    {
      Flags(started, starting, closed, replicationStart, attempt, watcherDone, launches, running, doneCloses)
    }

    constructor (hasReplicator: bool)
      ensures this.hasReplicator == hasReplicator && Fields() == Created(hasReplicator)
    {
      this.hasReplicator := hasReplicator;
      started, starting, closed, replicationStart, attempt := false, false, false, false, 0;
      watcherDone, launches, running, doneCloses := false, 0, false, if hasReplicator then 0 else 1;
    }

    method StartSection() returns (r: Entered)
      modifies this
      ensures (Fields(), r) == StartEntered(old(Fields()))
    {
      if closed {
        return ReturnClosed;
      }
      if started {
        return ReturnStarted;
      }
      if starting {
        return WaitFor(attempt);
      }
      starting, attempt := true, attempt + 1;
      return Connect;
    }

    method FinishSection(connected: bool, progressLoads: bool) returns (launched: bool)
      modifies this
      ensures Fields() == StartFinished(old(Fields()), hasReplicator,
        if !connected then ConnectFailed else if progressLoads then Connected else ProgressFailed)
      ensures launched ==> !closed
    {
      launched := false;
      starting := false;
      if connected && !closed {
        started := true;
        if hasReplicator {
          if !progressLoads {
            started := false;
          } else {
            replicationStart, launched := true, true;
            launches, running := launches + 1, true;
          }
        } else {
          replicationStart := true;
        }
      }
    }

    method CloseSection() returns (first: bool)
      modifies this
      ensures first == !old(closed) && Fields() == old(Fields()).(closed := true)
    {
      first := !closed;
      closed := true;
    }
  }
}
