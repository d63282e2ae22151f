/**
 Startup, stop and teardown of one supervisor node (internal/supervisor/node.go, internal/supervisor/stop.go,
 internal/supervisor/children.go).

 Start, any number of Stop calls, the watcher of Pi's transport, the handoff watchdog and CreateChild
 run concurrently; each function is one critical section of one of them. Teardown's body runs under a
 sync.Once, so whoever enters first runs it and everybody else waits for it.
*/
module Teardown {

  datatype Cleanup = Live | Cleaning | Cleaned

  /** Where the one Start call stands. */
  datatype Startup = NotStarted | Preflight | Provisioning | Connecting | Broken | Failing | Returned

  /** Where the one run of finish stands; `waiting` are the registered children it found. */
  datatype Finish = NotEntered | StoppingChildren(waiting: set<string>) | StoppingRPC | Destroying | Closing | Done

  datatype NodeState = Pending | Started | Stopping | Stopped | Failed | Completed

  /** `provisioned` and `destroyed` count the Resources values returned by and passed to the provisioner. */
  datatype State = State(
    state: NodeState,
    stopRequested: bool,
    startup: Startup,
    startupDone: bool,
    resources: bool,
    children: map<string, Cleanup>,
    finalizer: bool,
    watcher: bool,
    finish: Finish,
    terminal: NodeState,
    captured: bool,
    provisioned: nat,
    destroyed: nat)

  function New(): State {
    State(Pending, false, NotStarted, false, false, map[], false, false, NotEntered, Pending, false, 0, 0)
  }

  function Registered(children: map<string, Cleanup>): set<string> {
    set id | id in children && children[id] != Cleaned
  }

  function Untouched(children: map<string, Cleanup>): set<string> {
    set id | id in children && children[id] == Live
  }

  // ---------------------------------------------------------------- critical sections

  function StartHold(s: State): (State, bool) {
    if s.startup != NotStarted || s.stopRequested then (s, false)
    else (s.(startup := Preflight), true)
  }

  /** finish: admission closes before the registry is read, and the resources are those known now. */
  function Enter(s: State, terminal: NodeState): State {
    if s.finish != NotEntered then s
    else
      s.(stopRequested := true, captured := s.resources, terminal := terminal,
         finish := StoppingChildren(Registered(s.children)))
  }

  /** The provisioner returned: maybe resources, maybe an error, maybe both. */
  function ProvisionedHold(s: State, got: bool, failed: bool): State {
    var t := s.(resources := s.resources || got, provisioned := s.provisioned + if got then 1 else 0);
    if s.stopRequested then t.(startup := Returned, startupDone := true)
    else if failed || !got then t.(startup := Broken)
    else t.(startup := Connecting, state := Started)
  }

  datatype Connection = PublishFailed | ConnectFailed | Bound

  function ConnectedHold(s: State, connection: Connection): State {
    match connection
    case PublishFailed => s.(startup := Broken)
    case ConnectFailed => if s.stopRequested then s.(startup := Returned, startupDone := true) else s.(startup := Broken)
    case Bound => s.(startup := Returned, startupDone := true, watcher := !s.stopRequested)
  }

  function RequestStopHold(s: State): State {
    s.(stopRequested := true,
       state := if s.state != Stopped && s.state != Failed then Stopping else s.state,
       startupDone := s.startupDone || s.startup == NotStarted,
       finalizer := s.finalizer || !s.stopRequested)
  }

  function WatchHold(s: State, handoffAccepted: bool): State {
    var t := s.(watcher := false);
    if s.stopRequested then t else Enter(t, if handoffAccepted then Completed else Failed)
  }

  function RegisterHold(s: State, id: string): (State, bool) {
    if s.stopRequested || s.state in {Stopping, Stopped, Failed} then (s, false)
    else if !s.resources then (s, false)
    else if id in s.children && s.children[id] != Cleaned then (s, false)
    else (s.(children := s.children[id := Live]), true)
  }

  class Node {
    var state: NodeState
    var stopRequested: bool
    var startup: Startup
    var startupDone: bool
    var resources: bool
    var children: map<string, Cleanup>
    var finalizer: bool
    var watcher: bool
    var finish: Finish
    var terminal: NodeState
    var captured: bool
    ghost var provisioned: nat
    ghost var destroyed: nat

    ghost function Abs(): State
      reads this
    {
      State(state, stopRequested, startup, startupDone, resources, children, finalizer, watcher, finish, terminal,
            captured, provisioned, destroyed)
    }

    constructor ()
      ensures Abs() == New()
    {
      state, stopRequested, startup, startupDone, resources := Pending, false, NotStarted, false, false;
      children, finalizer, watcher, finish, terminal, captured := map[], false, false, NotEntered, Pending, false;
      provisioned, destroyed := 0, 0;
    }

    method Start() returns (ok: bool)
      modifies this
      ensures (Abs(), ok) == StartHold(old(Abs()))
      ensures ok <==> old(startup) == NotStarted && !old(stopRequested)
      ensures !ok ==> Abs() == old(Abs())
    {
      if startup != NotStarted {
        return false;
      }
      if stopRequested {
        return false;
      }
      startup := Preflight;
      ok := true;
    }

    method Provisioned(got: bool, failed: bool)
      modifies this
      ensures Abs() == ProvisionedHold(old(Abs()), got, failed)
      ensures resources <==> old(resources) || got
      ensures startup == Connecting <==> got && !failed && !stopRequested
      ensures startupDone <==> old(startupDone) || stopRequested
      ensures startup in {Connecting, Broken, Returned} && (startup == Returned <==> stopRequested)
      ensures state == if startup == Connecting then Started else old(state)
      ensures stopRequested == old(stopRequested) && finish == old(finish) && children == old(children)
    {
      if got {
        resources := true;
        provisioned := provisioned + 1;
      }
      if !failed && got && !stopRequested {
        state := Started;
      }
      if stopRequested {
        startup, startupDone := Returned, true;
      } else {
        startup := if failed || !got then Broken else Connecting;
      }
    }

    /** A connection that failed under a stop is the stop's business; any other failure is Start's. */
    method Connected(connection: Connection)
      modifies this
      ensures Abs() == ConnectedHold(old(Abs()), connection)
      ensures startup == Broken <==> connection == PublishFailed || (connection == ConnectFailed && !stopRequested)
      ensures startup != Broken ==> startup == Returned && startupDone
      ensures startup == Broken ==> startupDone == old(startupDone)
      ensures watcher == if connection == Bound then !stopRequested else old(watcher)
      ensures stopRequested == old(stopRequested) && state == old(state) && finish == old(finish)
    {
      match connection
      case PublishFailed =>
        startup := Broken;
      case ConnectFailed =>
        if stopRequested {
          startup, startupDone := Returned, true;
        } else {
          startup := Broken;
        }
      case Bound =>
        startup, startupDone := Returned, true;
        watcher := !stopRequested;
    }

    method RequestStop()
      modifies this
      ensures Abs() == RequestStopHold(old(Abs()))
      ensures stopRequested && state == if old(state) in {Stopped, Failed} then old(state) else Stopping
      ensures startupDone <==> old(startupDone) || startup == NotStarted
      ensures startup == old(startup) && resources == old(resources) && watcher == old(watcher)
      ensures finalizer <==> old(finalizer) || !old(stopRequested)
      ensures finish == old(finish) && children == old(children)
    {
      var firstRequest := !stopRequested;
      stopRequested := true;
      if state != Stopped && state != Failed {
        state := Stopping;
      }
      if startup == NotStarted {
        startupDone := true;
      }
      if firstRequest {
        finalizer := true;
      }
    }

    method EnterFinish(terminal: NodeState)
      modifies this
      ensures Abs() == Enter(old(Abs()), terminal)
      ensures old(finish) != NotEntered ==> Abs() == old(Abs())
      ensures old(finish) == NotEntered ==>
                && stopRequested && (captured <==> resources) && finish == StoppingChildren(Registered(children))
                && this.terminal == terminal
      ensures state == old(state) && children == old(children) && resources == old(resources)
    {
      if finish != NotEntered {
        return;
      }
      stopRequested := true;
      captured := resources;
      this.terminal := terminal;
      finish := StoppingChildren(Registered(children));
    }

    method WatchRPC(handoffAccepted: bool)
      modifies this
      ensures Abs() == WatchHold(old(Abs()), handoffAccepted)
      ensures !watcher && (old(finish) == NotEntered ==> stopRequested)
      ensures old(stopRequested) ==> finish == old(finish)
      ensures !old(stopRequested) ==> finish != NotEntered
      ensures !old(stopRequested) && old(finish) == NotEntered ==> terminal == if handoffAccepted then Completed else Failed
    {
      watcher := false;
      if stopRequested {
        return;
      }
      EnterFinish(if handoffAccepted then Completed else Failed);
    }

    method RegisterChild(id: string) returns (ok: bool)
      modifies this`children
      ensures (Abs(), ok) == RegisterHold(old(Abs()), id)
      ensures ok ==> Registered(children) == Registered(old(children)) + {id} && id !in Registered(old(children))
      ensures ok <==> !stopRequested && state !in {Stopping, Stopped, Failed} && resources && id !in old(Registered(children))
      ensures !ok ==> Abs() == old(Abs())
    {
      if stopRequested || state in {Stopping, Stopped, Failed} {
        return false;
      }
      if !resources {
        return false;
      }
      if id in children && children[id] != Cleaned {
        return false;
      }
      children := children[id := Live];
      ok := true;
    }
  }

  // ---------------------------------------------------------------- runs

  datatype Action =
    | BeginStart
    | PassPreflight(ok: bool)                 // the socket and the worker's model
    | ProvisionReturns(got: bool, failed: bool)
    | Connect(connection: Connection)
    | FailStart                               // Start enters finish
    | FailedStartReturns
    | RequestStop
    | Finalize                                // the goroutine of the first stop
    | TransportDies(handoffAccepted: bool)
    | WatchdogFires                           // after an accepted handoff
    | RegisterChild(id: string)
    | BeginCleanup(id: string)                // whoever is first inside the child's sync.Once
    | EndCleanup(id: string)
    | ChildrenStopped
    | RPCStopped
    | Destroy
    | Close

  predicate Enabled(s: State, a: Action) {
    match a
    case PassPreflight(_) => s.startup == Preflight
    case ProvisionReturns(_, _) => s.startup == Provisioning
    case Connect(_) => s.startup == Connecting
    case FailStart => s.startup == Broken
    case FailedStartReturns => s.startup == Failing && s.finish == Done
    case Finalize => s.finalizer && s.startupDone
    case TransportDies(_) => s.watcher
    case WatchdogFires => s.startup == Connecting || s.watcher
    case BeginCleanup(id) => id in s.children && s.children[id] == Live
    case EndCleanup(id) => id in s.children && s.children[id] == Cleaning
    case ChildrenStopped => s.finish.StoppingChildren? && s.finish.waiting !! Registered(s.children)
    case RPCStopped => s.finish == StoppingRPC
    case Destroy => s.finish == Destroying
    case Close => s.finish == Closing
    case _ => true
  }

  /** A step that cannot happen now changes nothing. */
  function Step(s: State, a: Action): State {
    if !Enabled(s, a) then s
    else match a
      case BeginStart => StartHold(s).0
      case PassPreflight(ok) => s.(startup := if ok then Provisioning else Broken)
      case ProvisionReturns(got, failed) => ProvisionedHold(s, got, failed)
      case Connect(connection) => ConnectedHold(s, connection)
      case FailStart => Enter(s, Failed).(startup := Failing)
      case FailedStartReturns => s.(startup := Returned, startupDone := true)
      case RequestStop => RequestStopHold(s)
      case Finalize => Enter(s, Stopped)
      case TransportDies(accepted) => WatchHold(s, accepted)
      case WatchdogFires => Enter(s, Completed)
      case RegisterChild(id) => RegisterHold(s, id).0
      case BeginCleanup(id) => s.(children := s.children[id := Cleaning])
      case EndCleanup(id) => s.(children := s.children[id := Cleaned])
      case ChildrenStopped => s.(finish := StoppingRPC)
      case RPCStopped => s.(finish := Destroying)
      case Destroy => s.(finish := Closing, destroyed := s.destroyed + if s.captured then 1 else 0)
      case Close => s.(finish := Done, state := s.terminal)
  }

  function Run(s: State, actions: seq<Action>): State
    decreases |actions|
  {
    if actions == [] then s else Run(Step(s, actions[0]), actions[1..])
  }

  // ---------------------------------------------------------------- what every run keeps

  predicate StartupInv(s: State) {
    && (s.startup in {NotStarted, Preflight, Provisioning} ==> !s.resources && s.provisioned == 0)
    && (s.startup in {Preflight, Provisioning} ==> s.finish == NotEntered && !s.startupDone)
    && (s.startup in {Connecting, Broken, Failing} ==> !s.startupDone)
    && (s.startup == NotStarted && s.startupDone ==> s.stopRequested)
    && (s.startup == Failing ==> s.finish != NotEntered)
    && (s.startup == Returned ==> s.startupDone)
    && (s.startup == Connecting ==> s.resources)
    && (s.finalizer ==> s.stopRequested && (s.startup == NotStarted ==> s.startupDone))
    && (s.watcher ==> s.startup == Returned)
    && (s.startup == NotStarted ==> !s.watcher && (s.finish != NotEntered ==> s.stopRequested))
    && s.provisioned == if s.resources then 1 else 0
  }

  predicate FinishInv(s: State) {
    && (s.finish != NotEntered ==> s.stopRequested && (s.captured <==> s.resources))
    && (s.finish.StoppingChildren? ==> Registered(s.children) <= s.finish.waiting)
    && (s.finish !in {NotEntered} && !s.finish.StoppingChildren? ==> Registered(s.children) == {})
    && s.destroyed == (if s.finish in {Closing, Done} && s.captured then 1 else 0)
  }

  predicate Inv(s: State) { StartupInv(s) && FinishInv(s) }

  lemma StartupKeepsInv(s: State, a: Action)
    requires Inv(s)
    requires a.BeginStart? || a.PassPreflight? || a.ProvisionReturns? || a.Connect? || a.FailStart? || a.FailedStartReturns?
    ensures Inv(Step(s, a))
  {
    hide Registered;
  }

  lemma StopKeepsInv(s: State, a: Action)
    requires Inv(s)
    requires a.RequestStop? || a.Finalize? || a.TransportDies? || a.WatchdogFires?
    ensures Inv(Step(s, a))
  {
    hide Registered;
  }

  lemma ChildrenKeepInv(s: State, a: Action)
    requires Inv(s) && (a.RegisterChild? || a.BeginCleanup? || a.EndCleanup?)
    ensures Inv(Step(s, a))
  {
    hide StartupInv;
    assert StartupInv(Step(s, a)) by { ChildrenKeepStartup(s, a); }
    if !a.RegisterChild? && Enabled(s, a) {
      CleanupOnlyRemoves(s.children, a.id, if a.BeginCleanup? then Cleaning else Cleaned);
      hide Registered;
    }
  }

  lemma ChildrenKeepStartup(s: State, a: Action)
    requires StartupInv(s) && (a.RegisterChild? || a.BeginCleanup? || a.EndCleanup?)
    ensures StartupInv(Step(s, a))
  {
  }

  lemma FinishKeepsInv(s: State, a: Action)
    requires Inv(s) && (a.ChildrenStopped? || a.RPCStopped? || a.Destroy? || a.Close?)
    ensures Inv(Step(s, a))
  {
    hide Registered;
  }

  lemma StepKeepsInv(s: State, a: Action)
    requires Inv(s)
    ensures Inv(Step(s, a))
  {
    hide Inv, Step;
    if a.BeginStart? || a.PassPreflight? || a.ProvisionReturns? || a.Connect? || a.FailStart? || a.FailedStartReturns? {
      StartupKeepsInv(s, a);
    } else if a.RequestStop? || a.Finalize? || a.TransportDies? || a.WatchdogFires? {
      StopKeepsInv(s, a);
    } else if a.RegisterChild? || a.BeginCleanup? || a.EndCleanup? {
      ChildrenKeepInv(s, a);
    } else {
      FinishKeepsInv(s, a);
    }
  }

  lemma {:induction false} EveryRunKeepsInv(s: State, actions: seq<Action>)
    requires Inv(s)
    ensures Inv(Run(s, actions))
    decreases |actions|
  {
    if actions != [] {
      StepKeepsInv(s, actions[0]);
      EveryRunKeepsInv(Step(s, actions[0]), actions[1..]);
    }
  }

  /**
   In every run: what was provisioned is destroyed exactly once before the node is done, and only
   after every registered child's cleanup returned.
  */
  lemma DestroyedExactlyOnce(actions: seq<Action>)
    ensures var s := Run(New(), actions);
            && s.destroyed <= s.provisioned <= 1
            && (s.destroyed == 1 ==> Registered(s.children) == {})
            && (s.finish == Done ==> s.destroyed == s.provisioned)
  {
    EveryRunKeepsInv(New(), actions);
  }

  // ---------------------------------------------------------------- the state a node ends in

  /** The terminal state each way into finish gives. */
  function Ending(a: Action): NodeState {
    match a
    case FailStart => Failed
    case Finalize => NodeState.Stopped
    case TransportDies(handoffAccepted) => if handoffAccepted then Completed else Failed
    case _ => Completed
  }

  lemma StartupStaysOut(s: State, a: Action)
    requires s.finish == NotEntered
    requires a.BeginStart? || a.PassPreflight? || a.ProvisionReturns? || a.Connect? || a.FailedStartReturns?
    ensures Step(s, a).finish == NotEntered
  {
    hide Registered;
  }

  lemma ChildrenStayOut(s: State, a: Action)
    requires s.finish == NotEntered
    requires a.RequestStop? || a.RegisterChild? || a.BeginCleanup? || a.EndCleanup?
    ensures Step(s, a).finish == NotEntered
  {
    hide Registered;
  }

  lemma EntryDecides(s: State, a: Action)
    requires s.finish == NotEntered && Step(s, a).finish != NotEntered
    ensures a.FailStart? || a.Finalize? || a.WatchdogFires? || (a.TransportDies? && !s.stopRequested)
    ensures Step(s, a).terminal == Ending(a) && Step(s, a).stopRequested && Step(s, a).finish.StoppingChildren?
  {
    hide Registered;
    if a.BeginStart? || a.PassPreflight? || a.ProvisionReturns? || a.Connect? || a.FailedStartReturns? {
      StartupStaysOut(s, a);
    } else if a.RequestStop? || a.RegisterChild? || a.BeginCleanup? || a.EndCleanup? {
      ChildrenStayOut(s, a);
    }
  }

  /** What a step may do to a node that is in finish. */
  predicate Later(s: State, a: Action, t: State) {
    && t.stopRequested && t.terminal == s.terminal && t.finish != NotEntered && (s.finish == Done ==> t.finish == Done)
    && t.state ==
       (if a.Close? && s.finish == Closing then s.terminal
        else if a.RequestStop? && s.state !in {NodeState.Stopped, Failed} then Stopping
        else s.state)
  }

  lemma LaterStartup(s: State, a: Action)
    requires s.stopRequested && s.finish != NotEntered
    requires a.BeginStart? || a.PassPreflight? || a.ProvisionReturns? || a.Connect? || a.FailStart? || a.FailedStartReturns?
    ensures Later(s, a, Step(s, a))
  {
    hide Registered;
  }

  lemma LaterStop(s: State, a: Action)
    requires s.stopRequested && s.finish != NotEntered
    requires a.RequestStop? || a.Finalize? || a.TransportDies? || a.WatchdogFires?
    ensures Later(s, a, Step(s, a))
  {
    hide Registered;
  }

  lemma LaterStep(s: State, a: Action)
    requires s.stopRequested && s.finish != NotEntered
    ensures Later(s, a, Step(s, a))
  {
    if a.BeginStart? || a.PassPreflight? || a.ProvisionReturns? || a.Connect? || a.FailStart? || a.FailedStartReturns? {
      LaterStartup(s, a);
    } else if a.RequestStop? || a.Finalize? || a.TransportDies? || a.WatchdogFires? {
      LaterStop(s, a);
    } else {
      hide Registered;
    }
  }

  /** Whoever enters first decides, whatever else is asked of the node or happens to it afterwards. */
  lemma {:induction false} FirstDecides(s: State, actions: seq<Action>)
    requires Inv(s) && s.finish != NotEntered
    ensures Run(s, actions).terminal == s.terminal && Run(s, actions).finish != NotEntered
    decreases |actions|
  {
    if actions != [] {
      StepKeepsInv(s, actions[0]);
      LaterStep(s, actions[0]);
      FirstDecides(Step(s, actions[0]), actions[1..]);
    }
  }

  /** A node that is done shows the terminal state, save that a stop that comes after a completion turns it into Stopping. */
  predicate Ended(s: State) {
    && (s.finish != NotEntered ==> s.terminal in {NodeState.Stopped, Failed, Completed})
    && (s.finish == Done ==> s.state == s.terminal || (s.terminal == Completed && s.state == Stopping))
  }

  lemma StepKeepsEnded(s: State, a: Action)
    requires Inv(s) && Ended(s)
    ensures Ended(Step(s, a))
  {
    if s.finish != NotEntered {
      LaterStep(s, a);
      assert Step(s, a).finish == Done ==> s.finish == Done || (a.Close? && s.finish == Closing) by { hide Registered; }
    } else if Step(s, a).finish != NotEntered {
      EntryDecides(s, a);
    }
  }

  lemma {:induction false} EveryRunEnds(s: State, actions: seq<Action>)
    requires Inv(s) && Ended(s)
    ensures Ended(Run(s, actions))
    decreases |actions|
  {
    if actions != [] {
      StepKeepsInv(s, actions[0]);
      StepKeepsEnded(s, actions[0]);
      EveryRunEnds(Step(s, actions[0]), actions[1..]);
    }
  }

  lemma {:induction false} RunConcat(s: State, first: seq<Action>, then_: seq<Action>)
    ensures Run(s, first + then_) == Run(Run(s, first), then_)
    decreases |first|
  {
    if first == [] {
      assert first + then_ == then_;
    } else {
      assert (first + then_)[1..] == first[1..] + then_ && (first + then_)[0] == first[0];
      RunConcat(Step(s, first[0]), first[1..], then_);
    }
  }

  /**
   In every run: the first entrance into finish decides what the node ends as; later failures, stops and
   timers leave that alone, and a node that is done shows it, save for a stop after a completion.
  */
  lemma FirstEntranceDecides(before: seq<Action>, a: Action, after: seq<Action>)
    requires Run(New(), before).finish == NotEntered && Run(New(), before + [a]).finish != NotEntered
    ensures var t := Run(New(), before + [a] + after);
            && t.terminal == Ending(a)
            && (t.finish == Done ==> t.state == Ending(a) || (Ending(a) == Completed && t.state == Stopping))
  {
    var s := Run(New(), before);
    EveryRunKeepsInv(New(), before);
    RunConcat(New(), before, [a]);
    assert Run(s, [a]) == Step(s, a) by { assert [a][1..] == []; }
    EntryDecides(s, a);
    StepKeepsInv(s, a);
    RunConcat(New(), before + [a], after);
    FirstDecides(Step(s, a), after);
    EveryRunEnds(New(), before + [a] + after);
  }

  /** What a node that is done shows afterwards, exactly. */
  lemma {:induction false} DoneShowsExactly(s: State, actions: seq<Action>)
    requires Inv(s) && s.finish == Done
    ensures Run(s, actions).finish == Done
    ensures Run(s, actions).state ==
            if RequestStop in actions && s.state !in {NodeState.Stopped, Failed} then Stopping else s.state
    decreases |actions|
  {
    if actions != [] {
      StepKeepsInv(s, actions[0]);
      LaterStep(s, actions[0]);
      DoneShowsExactly(Step(s, actions[0]), actions[1..]);
      assert actions == [actions[0]] + actions[1..];
    }
  }

  const STARTS: seq<Action> := [BeginStart, PassPreflight(true), ProvisionReturns(true, false), Connect(Bound)]
  const COMPLETES: seq<Action> := STARTS + [TransportDies(true), ChildrenStopped, RPCStopped, Destroy, Close]

  lemma RunCons(s: State, a: Action, rest: seq<Action>)
    ensures Run(s, [a] + rest) == Run(Step(s, a), rest)
  {
    assert ([a] + rest)[1..] == rest;
  }

  lemma Starts()
    ensures Run(New(), STARTS) ==
            New().(state := Started, startup := Returned, startupDone := true, resources := true, watcher := true, provisioned := 1)
  {
    var s1 := Step(New(), BeginStart);
    var s2 := Step(s1, PassPreflight(true));
    var s3 := Step(s2, ProvisionReturns(true, false));
    var s4 := Step(s3, Connect(Bound));
    assert s4 ==
           New().(state := Started, startup := Returned, startupDone := true, resources := true, watcher := true, provisioned := 1);
    assert Run(s4, []) == s4;
    hide Step, Run;
    RunCons(s3, Connect(Bound), []);
    RunCons(s2, ProvisionReturns(true, false), [Connect(Bound)]);
    RunCons(s1, PassPreflight(true), [ProvisionReturns(true, false), Connect(Bound)]);
    RunCons(New(), BeginStart, [PassPreflight(true), ProvisionReturns(true, false), Connect(Bound)]);
    assert STARTS == [BeginStart] + [PassPreflight(true), ProvisionReturns(true, false), Connect(Bound)];
  }

  lemma TearStep(s: State)
    ensures s.finish == StoppingRPC ==> Step(s, RPCStopped) == s.(finish := Destroying)
    ensures s.finish == Destroying ==> Step(s, Destroy) == s.(finish := Closing, destroyed := Step(s, Destroy).destroyed)
    ensures s.finish == Closing ==> Step(s, Close) == s.(finish := Done, state := s.terminal)
  {
    hide Registered;
  }

  lemma TearsDown(s: State)
    requires s.finish.StoppingChildren? && s.children == map[]
    ensures var t := Run(s, [ChildrenStopped, RPCStopped, Destroy, Close]); t.finish == Done && t.state == s.terminal
  {
    var s1 := Step(s, ChildrenStopped);
    assert s1 == s.(finish := StoppingRPC) by { assert Registered(s.children) == {}; }
    hide Step, Registered;
    var s2 := Step(s1, RPCStopped);
    var s3 := Step(s2, Destroy);
    var s4 := Step(s3, Close);
    TearStep(s1);
    TearStep(s2);
    TearStep(s3);
    assert Run(s4, []) == s4;
    hide Run;
    RunCons(s3, Close, []);
    RunCons(s2, Destroy, [Close]);
    RunCons(s1, RPCStopped, [Destroy, Close]);
    RunCons(s, ChildrenStopped, [RPCStopped, Destroy, Close]);
  }

  lemma Completes()
    ensures Run(New(), COMPLETES).finish == Done && Run(New(), COMPLETES).state == Completed
  {
    Starts();
    var s := Run(New(), STARTS);
    var t := Step(s, TransportDies(true));
    assert t.finish.StoppingChildren? && t.children == map[] && t.terminal == Completed;
    hide Step, Registered;
    TearsDown(t);
    RunCons(s, TransportDies(true), [ChildrenStopped, RPCStopped, Destroy, Close]);
    RunConcat(New(), STARTS, [TransportDies(true), ChildrenStopped, RPCStopped, Destroy, Close]);
  }

  /** A completed node that is stopped once more reports stopping for good, although its teardown is over. */
  lemma CompletedThenStopped(after: seq<Action>)
    ensures var t := Run(New(), COMPLETES + [RequestStop] + after); t.finish == Done && t.state == Stopping
  {
    Completes();
    EveryRunKeepsInv(New(), COMPLETES);
    assert COMPLETES + [RequestStop] + after == COMPLETES + ([RequestStop] + after);
    RunConcat(New(), COMPLETES, [RequestStop] + after);
    DoneShowsExactly(Run(New(), COMPLETES), [RequestStop] + after);
  }

  /** Behind the barrier no child is registered any more and nothing is provisioned. */
  lemma {:induction false} BarrierHolds(s: State, actions: seq<Action>)
    requires Inv(s) && s.finish != NotEntered
    ensures var t := Run(s, actions);
            && t.finish != NotEntered
            && Registered(t.children) <= Registered(s.children)
            && t.provisioned == s.provisioned
    decreases |actions|
  {
    if actions != [] {
      StepKeepsInv(s, actions[0]);
      BarrierStep(s, actions[0]);
      BarrierHolds(Step(s, actions[0]), actions[1..]);
    }
  }

  lemma CleanupOnlyRemoves(children: map<string, Cleanup>, id: string, next: Cleanup)
    requires id in children && children[id] != Cleaned
    ensures Registered(children[id := next]) <= Registered(children)
  {
  }

  lemma BarrierStep(s: State, a: Action)
    requires Inv(s) && s.finish != NotEntered
    ensures var t := Step(s, a);
            t.finish != NotEntered && Registered(t.children) <= Registered(s.children) && t.provisioned == s.provisioned
  {
    match a
    case BeginCleanup(id) =>
      if Enabled(s, a) { CleanupOnlyRemoves(s.children, id, Cleaning); }
    case EndCleanup(id) =>
      if Enabled(s, a) { CleanupOnlyRemoves(s.children, id, Cleaned); }
    case _ =>
      hide Registered;
  }

  // ---------------------------------------------------------------- a stop gets there

  /** Steps nobody outside has to take: the environment's answers and the goroutines' own moves. */
  predicate Internal(a: Action) {
    !a.BeginStart? && !a.RequestStop? && !a.RegisterChild? && !a.TransportDies? && !a.WatchdogFires?
  }

  function StartupRank(startup: Startup): nat {
    match startup
    case NotStarted => 0
    case Preflight => 5
    case Provisioning => 4
    case Connecting => 3
    case Broken => 2
    case Failing => 1
    case Returned => 0
  }

  function FinishRank(finish: Finish): nat {
    match finish
    case NotEntered => 5
    case StoppingChildren(_) => 4
    case StoppingRPC => 3
    case Destroying => 2
    case Closing => 1
    case Done => 0
  }

  function Measure(s: State): nat {
    StartupRank(s.startup) + FinishRank(s.finish) + |Registered(s.children)| + |Untouched(s.children)|
  }

  lemma CleanupShrinks(children: map<string, Cleanup>, id: string)
    requires id in Registered(children)
    ensures children[id] == Live ==>
              && Registered(children[id := Cleaning]) == Registered(children)
              && |Untouched(children[id := Cleaning])| < |Untouched(children)|
    ensures children[id] == Cleaning ==>
              && |Registered(children[id := Cleaned])| < |Registered(children)|
              && Untouched(children[id := Cleaned]) == Untouched(children)
  {
    if children[id] == Live {
      assert Untouched(children[id := Cleaning]) == Untouched(children) - {id};
    } else {
      assert Registered(children[id := Cleaned]) == Registered(children) - {id};
    }
  }

  /** While a stopped or finishing node is not done, some internal step brings it closer. */
  lemma StopMoves(s: State) returns (a: Action)
    requires Inv(s) && (s.finalizer || s.finish != NotEntered) && s.finish != Done
    ensures Internal(a) && Measure(Step(s, a)) < Measure(s)
    ensures Step(s, a).finalizer || Step(s, a).finish != NotEntered
  {
    if s.finish.StoppingChildren? {
      a := ChildrenMove(s);
    } else if s.finish != NotEntered {
      hide Registered, Untouched;
      a := if s.finish == StoppingRPC then RPCStopped else if s.finish == Destroying then Destroy else Close;
    } else if s.startupDone {
      hide Registered, Untouched;
      a := Finalize;
    } else {
      hide Registered, Untouched;
      a := match s.startup
           case Preflight => PassPreflight(true)
           case Provisioning => ProvisionReturns(false, true)
           case Connecting => Connect(ConnectFailed)
           case _ => FailStart;
    }
  }

  lemma ChildrenMove(s: State) returns (a: Action)
    requires s.finish.StoppingChildren?
    ensures Internal(a) && Measure(Step(s, a)) < Measure(s) && Step(s, a).finish != NotEntered
  {
    if id :| id in Registered(s.children) {
      a := ChildMoves(s, id);
    } else {
      a := ChildrenStopped;
    }
  }

  lemma ChildMoves(s: State, id: string) returns (a: Action)
    requires id in Registered(s.children)
    ensures Internal(a) && Measure(Step(s, a)) < Measure(s) && Step(s, a).finish == s.finish
  {
    CleanupShrinks(s.children, id);
    a := if s.children[id] == Live then BeginCleanup(id) else EndCleanup(id);
    hide Registered, Untouched, StartupRank, FinishRank;
  }

  /** From every reachable state a requested stop can still complete, and completing means everything was destroyed. */
  lemma {:induction false} StopReachesDone(s: State) returns (schedule: seq<Action>)
    requires Inv(s) && (s.finalizer || s.finish != NotEntered)
    ensures forall a | a in schedule :: Internal(a)
    ensures Run(s, schedule).finish == Done && Run(s, schedule).destroyed == Run(s, schedule).provisioned
    decreases Measure(s)
  {
    if s.finish == Done {
      schedule := [];
    } else {
      var a := StopMoves(s);
      StepKeepsInv(s, a);
      var rest := StopReachesDone(Step(s, a));
      schedule := [a] + rest;
      assert schedule[1..] == rest;
    }
  }

  lemma StartupDescends(s: State, a: Action)
    requires Inv(s) && Internal(a) && Step(s, a) != s
    requires a.PassPreflight? || a.ProvisionReturns? || a.Connect? || a.FailStart? || a.FailedStartReturns? || a.Finalize?
    ensures Measure(Step(s, a)) < Measure(s)
  {
    hide Registered, Untouched;
  }

  lemma FinishDescends(s: State, a: Action)
    requires Inv(s) && Internal(a) && Step(s, a) != s
    requires a.ChildrenStopped? || a.RPCStopped? || a.Destroy? || a.Close?
    ensures Measure(Step(s, a)) < Measure(s)
  {
    hide Registered, Untouched;
  }

  /** Every internal step that does anything brings the node closer, whoever takes it and whatever is answered. */
  lemma InternalStepsDescend(s: State, a: Action)
    requires Inv(s) && Internal(a) && Step(s, a) != s
    ensures Measure(Step(s, a)) < Measure(s)
    ensures s.finalizer || s.finish != NotEntered ==> Step(s, a).finalizer || Step(s, a).finish != NotEntered
  {
    match a
    case BeginCleanup(id) => CleanupShrinks(s.children, id);
    case EndCleanup(id) => CleanupShrinks(s.children, id);
    case ChildrenStopped => FinishDescends(s, a);
    case RPCStopped => FinishDescends(s, a);
    case Destroy => FinishDescends(s, a);
    case Close => FinishDescends(s, a);
    case _ => StartupDescends(s, a);
  }

  /** A run of internal steps each of which does something. */
  ghost predicate Effective(s: State, schedule: seq<Action>)
    decreases |schedule|
  {
    schedule != [] ==>
      Internal(schedule[0]) && Step(s, schedule[0]) != s && Effective(Step(s, schedule[0]), schedule[1..])
  }

  /** No internal step does anything any more. */
  ghost predicate Stuck(s: State) {
    forall a: Action | Internal(a) :: Step(s, a) == s
  }

  /**
   However a stopped node's internal steps are scheduled and whatever they are answered, there are finitely
   many, and when none is left the node is done and everything it provisioned was destroyed.
  */
  lemma {:induction false} EveryInternalRunReachesDone(s: State, schedule: seq<Action>)
    requires Inv(s) && (s.finalizer || s.finish != NotEntered) && Effective(s, schedule)
    ensures var t := Run(s, schedule);
            && |schedule| + Measure(t) <= Measure(s)
            && (Stuck(t) ==> t.finish == Done && t.destroyed == t.provisioned)
    decreases |schedule|
  {
    hide Step, Measure, Internal, Registered;
    if schedule == [] {
      if s.finish != Done {
        var a := StopMoves(s);
      }
    } else {
      StepKeepsInv(s, schedule[0]);
      InternalStepsDescend(s, schedule[0]);
      EveryInternalRunReachesDone(Step(s, schedule[0]), schedule[1..]);
    }
  }
}
