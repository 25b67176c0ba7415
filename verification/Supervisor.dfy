/**
 The kernel process supervisor: a caller that starts and stops processes, and for each process a goroutine that
 waits for its end.  They share `cmd`, `waitDone`, `running` and `pid` under a lock; every lock section is one
 step here, and the steps of the caller, the goroutines and the processes may interleave in any way.  Calls do not
 overlap, because the Manager holds its own lock around them.
 */
module Supervisor {
  import opened Text

  type ProcessId = nat
  type Channel = nat

  // The goroutine of a process: not yet launched, in Wait, out of Wait but not yet through its lock section, done.
  datatype Waiter = NotLaunched | Waiting | Reaping | Finished

  datatype Process = Process(alive: bool, waiter: Waiter)

  // A channel that has been closed, and the process whose goroutine closed it.
  datatype Close = Close(channel: Channel, closer: ProcessId)

  datatype Result = Stopped | StopError | Started | StartError

  // Where the caller is; `start` says whether the stop is the first part of a start.
  datatype Caller =
    | Idle(last: Option<Result>)
    | Stopping(start: bool)
    | NothingToStop(start: bool)
    | Interrupted(start: bool, process: ProcessId, channel: Option<Channel>)
    | Killed(start: bool, process: ProcessId, channel: Option<Channel>)
    | SeenClosed(start: bool, process: ProcessId)
    | Clear
    | Spawned(process: ProcessId)
    | Published(process: ProcessId)

  datatype State = State(
    cmd: Option<ProcessId>, waitDone: Option<Channel>, running: bool, pid: Option<ProcessId>,
    processes: seq<Process>, owners: seq<ProcessId>, closes: seq<Close>,
    caller: Caller)

  const INITIAL := State(None, None, false, None, [], [], [], Idle(None))

  datatype Action =
    | CallStop | CallStart | RefuseStart            // a stop, a start, a start refused before it stops anything
    | ReadFields | ApplyNothing | SeeClosed | KillAfterTimeout(ok: bool) | FinishStop
    | SpawnFails | Spawn | Publish | Launch
    | Exit(process: ProcessId)                      // a process ends
    | WaitReturns(process: ProcessId) | Reap(process: ProcessId)

  predicate ClosedChannel(s: State, c: Channel) {
    exists k :: 0 <= k < |s.closes| && s.closes[k].channel == c
  }

  /* ----- the steps ----- */

  predicate Enabled(s: State, a: Action) {
    match a
    case CallStop | CallStart | RefuseStart => s.caller.Idle?
    case ReadFields => s.caller.Stopping?
    case ApplyNothing => s.caller.NothingToStop?
    case SeeClosed =>
      || (s.caller.Interrupted? && s.caller.channel.Some? && ClosedChannel(s, s.caller.channel.value))
      || (s.caller.Killed? && (s.caller.channel.Some? ==> ClosedChannel(s, s.caller.channel.value)))
    case KillAfterTimeout(_) => s.caller.Interrupted?
    case FinishStop => s.caller.SeenClosed?
    case SpawnFails | Spawn => s.caller.Clear?
    case Publish => s.caller.Spawned?
    case Launch => s.caller.Published?
    case Exit(p) => p < |s.processes| && s.processes[p].alive
    case WaitReturns(p) => p < |s.processes| && !s.processes[p].alive && s.processes[p].waiter == Waiting
    case Reap(p) => p < |s.processes| && s.processes[p].waiter == Reaping
  }

  // `setApplied(false, _)`
  function NotApplied(s: State): State { s.(running := false, pid := None) }

  function StopReturns(s: State, start: bool): State {
    s.(caller := if start then Clear else Idle(Some(Stopped)))
  }

  function WithProcess(s: State, p: ProcessId, process: Process): State
    requires p < |s.processes|
  {
    s.(processes := s.processes[p := process])
  }

  // The goroutine's lock section: it closes whatever channel it finds.
  function Reaped(s: State, p: ProcessId): State
    requires p < |s.processes|
  {
    var t := WithProcess(s, p, s.processes[p].(waiter := Finished));
    var u := if s.waitDone.Some? then t.(closes := s.closes + [Close(s.waitDone.value, p)], waitDone := None) else t;
    if s.cmd == Some(p) then u.(cmd := None, running := false, pid := None) else u
  }

  function Step(s: State, a: Action): State
    requires Enabled(s, a)
  {
    match a
    case CallStop => s.(caller := Stopping(false))
    case CallStart => s.(caller := Stopping(true))
    case RefuseStart => NotApplied(s).(caller := Idle(Some(StartError)))
    case ReadFields =>
      if s.cmd.None? then s.(caller := NothingToStop(s.caller.start))
      else s.(caller := Interrupted(s.caller.start, s.cmd.value, s.waitDone))
    case ApplyNothing => StopReturns(NotApplied(s), s.caller.start)
    case SeeClosed => s.(caller := SeenClosed(s.caller.start, s.caller.process))
    case KillAfterTimeout(ok) =>
      if ok then s.(caller := Killed(s.caller.start, s.caller.process, s.caller.channel))
      else NotApplied(s).(caller := Idle(Some(if s.caller.start then StartError else StopError)))
    case FinishStop =>
      var t := if s.cmd == Some(s.caller.process) then s.(cmd := None) else s;
      StopReturns(t.(waitDone := None, running := false, pid := None), s.caller.start)
    case SpawnFails => NotApplied(s).(caller := Idle(Some(StartError)))
    case Spawn => s.(processes := s.processes + [Process(true, NotLaunched)], caller := Spawned(|s.processes|))
    case Publish =>
      s.(cmd := Some(s.caller.process), waitDone := Some(|s.owners|), owners := s.owners + [s.caller.process],
         running := true, pid := Some(s.caller.process), caller := Published(s.caller.process))
    case Launch =>
      var p := s.caller.process;
      var t := s.(caller := Idle(Some(Started)));
      if p < |s.processes| then WithProcess(t, p, s.processes[p].(waiter := Waiting)) else t
    case Exit(p) => WithProcess(s, p, s.processes[p].(alive := false))
    case WaitReturns(p) => WithProcess(s, p, s.processes[p].(waiter := Reaping))
    case Reap(p) => Reaped(s, p)
  }

  function AllButLast(actions: seq<Action>): seq<Action>
    requires actions != []
  {
    actions[..|actions| - 1]
  }

  function Last(actions: seq<Action>): Action
    requires actions != []
  {
    actions[|actions| - 1]
  }

  predicate Leads(s: State, a: Action, t: State) {
    Enabled(s, a) && t == Step(s, a)
  }

  /** The interleaving `actions` leads from the initial state to `s`. */
  ghost predicate Reachable(s: State, actions: seq<Action>)
    decreases |actions|
  {
    if actions == [] then s == INITIAL
    else exists before: State :: Reachable(before, AllButLast(actions)) && Leads(before, Last(actions), s)
  }

  /* ----- what holds in every state ----- */

  predicate Unfinished(s: State, p: ProcessId) {
    p < |s.processes| && s.processes[p].waiter != Finished
  }

  // The process the shared fields are about: published, with its own open channel.
  ghost predicate FieldsAgree(s: State) {
    && (s.cmd.Some? <==> s.waitDone.Some?)
    && (s.cmd.Some? ==>
          && s.cmd.value < |s.processes| && s.waitDone.value < |s.owners|
          && s.owners[s.waitDone.value] == s.cmd.value)
    && (s.running ==> s.cmd.Some? && s.pid == s.cmd)
  }

  // An unfinished process is the published one, unless the caller has just spawned it.
  ghost predicate OneUnfinished(s: State) {
    && (forall p: nat :: Unfinished(s, p) ==> s.cmd == Some(p) || s.caller == Spawned(p))
    && (s.cmd.Some? ==> Unfinished(s, s.cmd.value))
    && (forall p: nat :: Unfinished(s, p) && s.processes[p].waiter == NotLaunched ==> s.caller == Spawned(p) || s.caller == Published(p))
    && (forall p :: 0 <= p < |s.processes| && s.processes[p].alive ==> s.processes[p].waiter == NotLaunched || s.processes[p].waiter == Waiting)
  }

  ghost predicate ClosesRight(s: State) {
    && (forall k :: 0 <= k < |s.closes| ==> s.closes[k].channel < |s.owners| && s.owners[s.closes[k].channel] == s.closes[k].closer)
    && (forall j, k :: 0 <= j < k < |s.closes| ==> s.closes[j].channel != s.closes[k].channel)
    && (forall c :: 0 <= c < |s.owners| ==> s.owners[c] < |s.processes|)
    && (forall c :: 0 <= c < |s.owners| ==> (ClosedChannel(s, c) <==> !Unfinished(s, s.owners[c])))
    && (forall c, d :: 0 <= c < d < |s.owners| ==> s.owners[c] != s.owners[d])
  }

  ghost predicate CallerRight(s: State) {
    match s.caller
    case Idle(last) => last == Some(Stopped) ==> s.cmd.None?
    case Stopping(_) => true
    case NothingToStop(_) => s.cmd.None?
    case Interrupted(_, p, channel) => Watching(s, p, channel)
    case Killed(_, p, channel) => Watching(s, p, channel)
    case SeenClosed(_, p) => s.cmd.None?
    case Clear => s.cmd.None?
    case Spawned(p) => s.cmd.None? && Unfinished(s, p) && s.processes[p].waiter == NotLaunched && p !in s.owners
    case Published(p) => s.cmd == Some(p) && Unfinished(s, p) && s.processes[p].waiter == NotLaunched
  }

  // The caller holds the channel of the process it waits for.
  ghost predicate Watching(s: State, p: ProcessId, channel: Option<Channel>)  {
    && channel.Some? && channel.value < |s.owners| && s.owners[channel.value] == p
    && (s.cmd == Some(p) || s.cmd.None?)
  }

  ghost predicate Inv(s: State) {
    FieldsAgree(s) && OneUnfinished(s) && ClosesRight(s) && CallerRight(s)
  }

  lemma InitialInv()
    ensures Inv(INITIAL)
  {}

  // Steps of the caller that leave processes, channels and `cmd` alone.
  predicate Quiet(a: Action) {
    match a
    case CallStop | CallStart | RefuseStart | ReadFields | ApplyNothing | SeeClosed | KillAfterTimeout(_) | SpawnFails => true
    case _ => false
  }

  lemma QuietShape(s: State, a: Action)
    requires Enabled(s, a) && Quiet(a)
    ensures var t := Step(s, a);
      && t.processes == s.processes && t.owners == s.owners && t.closes == s.closes && t.cmd == s.cmd && t.waitDone == s.waitDone
      && (t.running ==> s.running && t.pid == s.pid)
  {}

  lemma QuietStep(s: State, a: Action)
    requires Inv(s) && Enabled(s, a) && Quiet(a)
    ensures Inv(Step(s, a))
  {
    var t := Step(s, a);
    QuietShape(s, a);
    hide Step;
    assert forall p: nat :: Unfinished(t, p) <==> Unfinished(s, p);
    assert forall c :: ClosedChannel(t, c) <==> ClosedChannel(s, c);
  }

  lemma FinishStopStep(s: State)
    requires Inv(s) && Enabled(s, FinishStop)
    ensures Inv(Step(s, FinishStop))
  {
    var t := Step(s, FinishStop);
    assert forall p: nat :: Unfinished(t, p) <==> Unfinished(s, p);
    assert forall c :: ClosedChannel(t, c) <==> ClosedChannel(s, c);
  }

  lemma SpawnStep(s: State)
    requires Inv(s) && Enabled(s, Spawn)
    ensures Inv(Step(s, Spawn))
  {
    var t, n := Step(s, Spawn), |s.processes|;
    assert forall p: nat :: Unfinished(t, p) <==> Unfinished(s, p) || p == n;
    assert forall c :: ClosedChannel(t, c) <==> ClosedChannel(s, c);
    assert forall c :: 0 <= c < |s.owners| ==> s.owners[c] != n;
  }

  lemma PublishStep(s: State)
    requires Inv(s) && Enabled(s, Publish)
    ensures Inv(Step(s, Publish))
  {
    var t := Step(s, Publish);
    assert forall p: nat :: Unfinished(t, p) <==> Unfinished(s, p);
    assert forall c :: ClosedChannel(t, c) <==> ClosedChannel(s, c);
    assert forall c :: 0 <= c < |s.owners| ==> s.owners[c] in s.owners;
  }

  lemma LaunchStep(s: State)
    requires Inv(s) && Enabled(s, Launch)
    ensures Inv(Step(s, Launch))
  {
    var t := Step(s, Launch);
    assert forall p: nat :: Unfinished(t, p) <==> Unfinished(s, p);
    assert forall c :: ClosedChannel(t, c) <==> ClosedChannel(s, c);
  }

  lemma ProcessStep(s: State, a: Action)
    requires Inv(s) && Enabled(s, a) && (a.Exit? || a.WaitReturns?)
    ensures Inv(Step(s, a))
  {
    var t := Step(s, a);
    assert forall p: nat :: Unfinished(t, p) <==> Unfinished(s, p);
    assert forall c :: ClosedChannel(t, c) <==> ClosedChannel(s, c);
  }

  // The goroutine that gets through is that of the published process, and closes that process's channel.
  lemma ReapEffect(s: State, p: ProcessId)
    requires Inv(s) && Enabled(s, Reap(p))
    ensures p < |s.processes| && s.processes[p].waiter == Reaping
    ensures s.cmd == Some(p) && s.waitDone.Some? && !ClosedChannel(s, s.waitDone.value)
    ensures var t := Step(s, Reap(p));
      && t == s.(processes := s.processes[p := s.processes[p].(waiter := Finished)],
                 closes := s.closes + [Close(s.waitDone.value, p)],
                 cmd := None, waitDone := None, running := false, pid := None)
      && (forall d :: ClosedChannel(t, d) <==> ClosedChannel(s, d) || d == s.waitDone.value)
      && (forall q: nat :: Unfinished(t, q) <==> Unfinished(s, q) && q != p)
  {
    var t := Step(s, Reap(p));
    assert Unfinished(s, p);
    var c := s.waitDone.value;
    assert t.closes == s.closes + [Close(c, p)];
    forall d
      ensures ClosedChannel(t, d) <==> ClosedChannel(s, d) || d == c
    {
      assert t.closes[|s.closes|].channel == c;
      if ClosedChannel(s, d) {
        var k :| 0 <= k < |s.closes| && s.closes[k].channel == d;
        assert t.closes[k].channel == d;
      }
    }
  }

  lemma ReapStep(s: State, p: ProcessId)
    requires Inv(s) && Enabled(s, Reap(p))
    ensures Inv(Step(s, Reap(p)))
  {
    hide Step, Enabled;
    var t := Step(s, Reap(p));
    ReapEffect(s, p);
    assert OneUnfinished(t) by { hide ClosesRight, CallerRight; }
    assert ClosesRight(t) by {
      hide CallerRight;
      assert forall k :: 0 <= k < |s.closes| ==> ClosedChannel(s, s.closes[k].channel);
    }
    assert CallerRight(t) by { hide ClosesRight; }
  }

  lemma StepInv(s: State, a: Action)
    requires Inv(s) && Enabled(s, a)
    ensures Inv(Step(s, a))
  {
    hide Inv, Step, Enabled;
    match a {
      case FinishStop => FinishStopStep(s);
      case Spawn => SpawnStep(s);
      case Publish => PublishStep(s);
      case Launch => LaunchStep(s);
      case Exit(_) => ProcessStep(s, a);
      case WaitReturns(_) => ProcessStep(s, a);
      case Reap(p) => ReapStep(s, p);
      case _ => QuietStep(s, a);
    }
  }

  lemma {:induction false} ReachableInv(s: State, actions: seq<Action>)
    requires Reachable(s, actions)
    ensures Inv(s)
    decreases |actions|
  {
    hide Inv, Step, Enabled;
    if actions == [] {
      InitialInv();
    } else {
      var front, last := AllButLast(actions), Last(actions);
      var before: State :| Reachable(before, front) && Leads(before, last, s);
      ReachableInv(before, front);
      StepInv(before, last);
    }
  }

  /* ----- safety ----- */

  /** No two processes are unfinished at the same time, in any interleaving. */
  lemma AtMostOneUnfinished(s: State, actions: seq<Action>, p: ProcessId, q: ProcessId)
    requires Reachable(s, actions)
    requires Unfinished(s, p) && Unfinished(s, q)
    ensures p == q
  {
    ReachableInv(s, actions);
  }

  /** A channel is closed once, by the goroutine of the process it was made for, and by the time that is through. */
  lemma ChannelsClosedOnce(s: State, actions: seq<Action>, c: Channel)
    requires Reachable(s, actions) && c < |s.owners|
    ensures forall j, k :: 0 <= j < |s.closes| && 0 <= k < |s.closes| && s.closes[j].channel == c && s.closes[k].channel == c ==> j == k
    ensures forall k :: 0 <= k < |s.closes| && s.closes[k].channel == c ==> s.closes[k].closer == s.owners[c]
    ensures ClosedChannel(s, c) <==> !Unfinished(s, s.owners[c])
  {
    ReachableInv(s, actions);
  }

  /** `cmd` and `waitDone` are set together, and a kernel that counts as running shows the pid of its process. */
  lemma FieldsAgreeAlways(s: State, actions: seq<Action>)
    requires Reachable(s, actions)
    ensures s.cmd.None? <==> s.waitDone.None?
    ensures s.running ==> s.cmd.Some? && s.pid == s.cmd
  {
    ReachableInv(s, actions);
  }

  /** When a stop has returned without error, no process is alive, until the next start. */
  lemma StoppedMeansDead(s: State, actions: seq<Action>, p: ProcessId)
    requires Reachable(s, actions) && s.caller == Idle(Some(Stopped)) && p < |s.processes|
    ensures !s.processes[p].alive && !Unfinished(s, p) && !s.running
  {
    ReachableInv(s, actions);
    assert Unfinished(s, p) ==> s.cmd == Some(p);
  }

  /** A kill that fails is reported as an error and leaves the process, which the shared fields still name. */
  lemma FailedKillKeepsProcess(s: State, actions: seq<Action>)
    requires Reachable(s, actions) && s.caller.Interrupted? && Unfinished(s, s.caller.process)
    ensures var t := Step(s, KillAfterTimeout(false));
      t.cmd == Some(s.caller.process) && t.waitDone == s.waitDone && !t.running && Unfinished(t, s.caller.process)
  {
    ReachableInv(s, actions);
  }

  /* ----- what is shown ----- */

  // After a start that succeeded the kernel counts as running as long as there is a process; after anything else it
  // does not, and a kernel that does not run shows no pid.
  ghost predicate Shown(s: State) {
    && (!s.running ==> s.pid.None?)
    && match s.caller
       case Idle(last) => if last == Some(Started) then s.running <==> s.cmd.Some? else !s.running
       case Published(p) => s.running && s.pid == Some(p)
       case _ => true
  }

  lemma StepShown(s: State, a: Action)
    requires Inv(s) && Shown(s) && Enabled(s, a)
    ensures Shown(Step(s, a))
  {
    hide OneUnfinished, ClosesRight;
    if a.Reap? {
      ReapIsOfCmd(s, a.process);
    }
  }

  lemma ReapIsOfCmd(s: State, p: ProcessId)
    requires Inv(s) && Enabled(s, Reap(p))
    ensures s.cmd == Some(p) && s.caller != Published(p)
    ensures var t := Step(s, Reap(p)); t.cmd == None && !t.running && t.pid == None && t.caller == s.caller
    ensures !s.caller.Published?
  {
    hide Step;
    ReapEffect(s, p);
  }

  lemma {:induction false} ReachableShown(s: State, actions: seq<Action>)
    requires Reachable(s, actions)
    ensures Shown(s)
    decreases |actions|
  {
    hide Inv, Step, Enabled;
    if actions != [] {
      hide Shown;
      var front, last := AllButLast(actions), Last(actions);
      var before: State :| Reachable(before, front) && Leads(before, last, s);
      ReachableShown(before, front);
      ReachableInv(before, front);
      StepShown(before, last);
    }
  }

  /**
   After a start that succeeded, in any interleaving, the kernel counts as running exactly as long as its process has
   not been waited for, and shows the pid of that process; a process that is alive is the one shown.
   */
  lemma StartedIsShown(s: State, actions: seq<Action>, p: ProcessId)
    requires Reachable(s, actions) && s.caller == Idle(Some(Started))
    ensures s.running <==> s.cmd.Some?
    ensures s.cmd.Some? ==> s.pid == s.cmd
    ensures p < |s.processes| && s.processes[p].alive ==> s.running && s.pid == Some(p)
  {
    ReachableInv(s, actions);
    ReachableShown(s, actions);
    assert p < |s.processes| && s.processes[p].alive ==> Unfinished(s, p);
  }

  /** After a stop, and after a start or stop that failed, the kernel does not count as running and shows no pid. */
  lemma NothingElseIsShown(s: State, actions: seq<Action>)
    requires Reachable(s, actions) && s.caller.Idle? && s.caller.last != Some(Started)
    ensures !s.running && s.pid == None
  {
    ReachableShown(s, actions);
  }

  /** A start reports success only by the step that launches the goroutine of the process it has just published. */
  lemma StartedWasLaunched(s: State, actions: seq<Action>, a: Action)
    requires Reachable(s, actions) && Enabled(s, a) && !s.caller.Idle? && Step(s, a).caller == Idle(Some(Started))
    ensures s.caller.Published?
    ensures var p, t := s.caller.process, Step(s, a);
      t.running && t.cmd == Some(p) && t.pid == Some(p) && p < |t.processes| && t.processes[p].waiter == Waiting
  {
    hide OneUnfinished, ClosesRight;
    ReachableInv(s, actions);
    ReachableShown(s, actions);
  }

  /** A stop reports success only when no process is left that the shared fields name. */
  lemma StopReported(s: State, actions: seq<Action>, a: Action)
    requires Reachable(s, actions) && Enabled(s, a) && !s.caller.Idle? && Step(s, a).caller == Idle(Some(Stopped))
    ensures s.caller.NothingToStop? || s.caller.SeenClosed?
    ensures Step(s, a).cmd == None && !Step(s, a).running
  {
    hide OneUnfinished, ClosesRight;
    ReachableInv(s, actions);
  }

  const START := [CallStart, ReadFields, ApplyNothing] + [Spawn, Publish, Launch]

  function StepAll(s: State, actions: seq<Action>): Option<State> {
    if actions == [] then Some(s)
    else
      var before := StepAll(s, AllButLast(actions));
      if before.Some? && Enabled(before.value, Last(actions)) then Some(Step(before.value, Last(actions))) else None
  }

  lemma {:induction false} StepAllReaches(actions: seq<Action>)
    ensures StepAll(INITIAL, actions).Some? ==> Reachable(StepAll(INITIAL, actions).value, actions)
    decreases |actions|
  {
    hide Step, Enabled;
    if actions != [] {
      var front := AllButLast(actions);
      StepAllReaches(front);
      var before := StepAll(INITIAL, front);
      if before.Some? && Enabled(before.value, Last(actions)) {
        assert Reachable(before.value, front) && Leads(before.value, Last(actions), Step(before.value, Last(actions)));
      }
    }
  }

  lemma OneStep(front: seq<Action>, a: Action, s: State, t: State)
    requires StepAll(INITIAL, front) == Some(s) && Leads(s, a, t)
    ensures StepAll(INITIAL, front + [a]) == Some(t)
  {
    hide Step, Enabled;
    assert AllButLast(front + [a]) == front;
  }

  lemma ThreeSteps(front: seq<Action>, a: Action, b: Action, c: Action, s: State, t: State, u: State, v: State)
    requires StepAll(INITIAL, front) == Some(s) && Leads(s, a, t) && Leads(t, b, u) && Leads(u, c, v)
    ensures StepAll(INITIAL, front + [a, b, c]) == Some(v)
  {
    hide StepAll, Leads;
    OneStep(front, a, s, t);
    OneStep(front + [a], b, t, u);
    OneStep(front + [a] + [b], c, u, v);
    assert front + [a] + [b] + [c] == front + [a, b, c];
  }

  const CLEAR := INITIAL.(caller := Clear)
  const RUNS := State(Some(0), Some(0), true, Some(0), [Process(true, Waiting)], [0], [], Idle(Some(Started)))

  // The first start, up to its spawning a process, and as a whole.
  lemma NothingToStopFirst()
    ensures StepAll(INITIAL, [CallStart, ReadFields, ApplyNothing]) == Some(CLEAR)
  {
    var s1, s2 := INITIAL.(caller := Stopping(true)), INITIAL.(caller := NothingToStop(true));
    assert Leads(INITIAL, CallStart, s1) && Leads(s1, ReadFields, s2) && Leads(s2, ApplyNothing, CLEAR);
    hide Leads;
    assert StepAll(INITIAL, []) == Some(INITIAL);
    ThreeSteps([], CallStart, ReadFields, ApplyNothing, INITIAL, s1, s2, CLEAR);
    assert [] + [CallStart, ReadFields, ApplyNothing] == [CallStart, ReadFields, ApplyNothing];
  }

  lemma FirstStart()
    ensures StepAll(INITIAL, START) == Some(RUNS)
  {
    hide StepAll;
    NothingToStopFirst();
    var s4 := CLEAR.(processes := [Process(true, NotLaunched)], caller := Spawned(0));
    var s5 := s4.(cmd := Some(0), waitDone := Some(0), owners := [0], running := true, pid := Some(0), caller := Published(0));
    assert Leads(CLEAR, Spawn, s4) && Leads(s4, Publish, s5);
    assert s5.processes[0 := Process(true, Waiting)] == [Process(true, Waiting)];
    assert Leads(s5, Launch, RUNS);
    hide Leads;
    ThreeSteps([CallStart, ReadFields, ApplyNothing], Spawn, Publish, Launch, CLEAR, s4, s5, RUNS);
  }

  /** A start refused for want of an executable leaves the process of the last start alive, and no longer shown. */
  lemma RefusedStartHidesProcess()
    ensures StepAll(INITIAL, START + [RefuseStart]).Some?
    ensures var s := StepAll(INITIAL, START + [RefuseStart]).value;
      Reachable(s, START + [RefuseStart]) && s.processes == [Process(true, Waiting)] && s.cmd == Some(0) && !s.running && s.pid == None
  {
    hide StepAll, Reachable;
    FirstStart();
    var s := RUNS.(running := false, pid := None, caller := Idle(Some(StartError)));
    assert Leads(RUNS, RefuseStart, s);
    OneStep(START, RefuseStart, RUNS, s);
    StepAllReaches(START + [RefuseStart]);
  }
}
