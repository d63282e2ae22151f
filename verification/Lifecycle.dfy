/**
 Lifecycle reconciliation of one session (internal/supervisor/local.go,
 internal/supervisor/lifecycle.go).

 Pi's transport numbers every record. Activity events are drained in that order by one goroutine,
 while accepted prompt responses are reconciled by their callers whenever those get to run, and
 Bind's own response is reconciled at some point too. A schedule is any interleaving of the three.
*/
module Lifecycle {

  datatype Phase =
    | Provisioning | Starting | Ready | Running | AwaitingHandoff | Completed | Failed | Stopping | Stopped

  predicate Legal(from: Phase, next: Phase) {
    match from
    case Provisioning => next in {Starting, Failed, Stopping}
    case Starting => next in {Ready, Failed, Stopping}
    case Ready => next in {Running, Completed, Failed, Stopping}
    case Running => next in {Ready, AwaitingHandoff, Completed, Failed, Stopping}
    case AwaitingHandoff => next in {Running, Completed, Failed, Stopping}
    case Completed => next == Stopping
    case Failed => next == Stopping
    case Stopping => next == Stopped
    case Stopped => false
  }

  datatype Kind = Root | Read | Write

  datatype Activity = AgentStart | AgentSettled

  /** `lastActivity` is meaningful once `lastSeq` is positive. */
  datatype Session = Session(kind: Kind, phase: Phase, responseSeq: nat, lastSeq: nat, lastActivity: Activity)

  // ---------------------------------------------------------------- what each critical section does

  function Fresh(kind: Kind): Session { Session(kind, Starting, 0, 0, AgentStart) }

  function MarkedRunning(phase: Phase): Phase {
    if phase == Ready || phase == AwaitingHandoff then Running else phase
  }

  function Applied(kind: Kind, phase: Phase, activity: Activity): Phase {
    match activity
    case AgentStart => MarkedRunning(phase)
    case AgentSettled =>
      match kind
      case Root => if phase == Running then Ready else phase
      case Read => if phase == Ready || phase == Running then Completed else phase
      case Write => if phase == Ready || phase == Running then AwaitingHandoff else phase
  }

  /** Bind's last section; its transition to ready may be refused. */
  function Bound(s: Session, responseSeq: nat, streaming: bool): Session {
    var t := s.(responseSeq := responseSeq);
    if !Legal(s.phase, Ready) then t
    else if s.lastSeq > responseSeq then t.(phase := Applied(s.kind, Ready, s.lastActivity))
    else if streaming then t.(phase := Running)
    else t.(phase := Ready)
  }

  /** An accepted prompt or follow_up response. */
  function Reconciled(s: Session, responseSeq: nat): Session {
    s.(responseSeq := if responseSeq > s.responseSeq then responseSeq else s.responseSeq,
       phase := if s.lastSeq <= responseSeq then MarkedRunning(s.phase) else s.phase)
  }

  /** One drained activity event. */
  function Drained(s: Session, seqNo: nat, activity: Activity): Session {
    var t := if seqNo > s.lastSeq then s.(lastSeq := seqNo, lastActivity := activity) else s;
    if seqNo > s.responseSeq then t.(phase := Applied(s.kind, s.phase, activity)) else t
  }

  function Terminated(phase: Phase): Phase {
    if phase in {Starting, Ready, Running, AwaitingHandoff} then Failed else phase
  }

  function HandedOff(phase: Phase): Phase {
    if phase == Running || phase == AwaitingHandoff then Completed else phase
  }

  class LocalSession {
    const kind: Kind
    var phase: Phase
    var lifecycleResponseSeq: nat
    var lastActivitySeq: nat
    var lastActivity: Activity

    ghost function Abs(): Session
      reads this
    {
      Session(kind, phase, lifecycleResponseSeq, lastActivitySeq, lastActivity)
    }

    constructor (kind: Kind)
      ensures Abs() == Fresh(kind)
    {
      this.kind := kind;
      phase, lifecycleResponseSeq, lastActivitySeq, lastActivity := Starting, 0, 0, AgentStart;
    }

    method Transition(next: Phase) returns (ok: bool)
      modifies this`phase
      ensures ok == Legal(old(phase), next)
      ensures phase == if ok then next else old(phase)
    {
      ok := Legal(phase, next);
      if ok {
        phase := next;
      }
    }

    /** The transition errors this method and the next drop can never occur. */
    method MarkRunningLocked()
      modifies this`phase
      ensures phase == MarkedRunning(old(phase))
      ensures phase == if old(phase) == Ready || old(phase) == AwaitingHandoff then Running else old(phase)
    {
      if phase == Ready || phase == AwaitingHandoff {
        var ok := Transition(Running);
        assert ok;
      }
    }

    method ApplyActivityLocked(activity: Activity)
      modifies this`phase
      ensures phase == Applied(kind, old(phase), activity)
      ensures activity == AgentStart ==> phase == if old(phase) in {Ready, AwaitingHandoff} then Running else old(phase)
      ensures activity == AgentSettled ==>
                phase == if old(phase) == Running || (old(phase) == Ready && kind != Root)
                         then (if kind == Root then Ready else if kind == Read then Completed else AwaitingHandoff)
                         else old(phase)
    {
      match activity {
        case AgentStart => MarkRunningLocked();
        case AgentSettled =>
          if phase == Ready && kind != Root {
            MarkRunningLocked();
          }
          if phase != Running {
            return;
          }
          var ok;
          match kind {
            case Root => ok := Transition(Ready);
            case Read => ok := Transition(Completed);
            case Write => ok := Transition(AwaitingHandoff);
          }
          assert ok;
      }
    }

    method BindSection(responseSeq: nat, streaming: bool) returns (ok: bool)
      modifies this
      ensures Abs() == Bound(old(Abs()), responseSeq, streaming)
      ensures ok <==> old(phase) in {Starting, Running}
      ensures lifecycleResponseSeq == responseSeq && lastActivitySeq == old(lastActivitySeq)
      ensures phase == if !ok then old(phase)
                       else if lastActivitySeq > responseSeq then Applied(kind, Ready, lastActivity)
                       else if streaming then Running else Ready
    {
      lifecycleResponseSeq := responseSeq;
      ok := Transition(Ready);
      if !ok {
        return;
      }
      if lastActivitySeq > responseSeq {
        ApplyActivityLocked(lastActivity);
      } else if streaming {
        MarkRunningLocked();
      }
    }

    method ReconcilePrompt(responseSeq: nat)
      modifies this
      ensures Abs() == Reconciled(old(Abs()), responseSeq)
      ensures lifecycleResponseSeq >= responseSeq && lifecycleResponseSeq >= old(lifecycleResponseSeq)
      ensures lifecycleResponseSeq == responseSeq || lifecycleResponseSeq == old(lifecycleResponseSeq)
      ensures phase == if lastActivitySeq <= responseSeq && old(phase) in {Ready, AwaitingHandoff} then Running else old(phase)
    {
      if responseSeq > lifecycleResponseSeq {
        lifecycleResponseSeq := responseSeq;
      }
      if lastActivitySeq <= responseSeq {
        MarkRunningLocked();
      }
    }

    method HandleActivity(seqNo: nat, activity: Activity)
      modifies this
      ensures Abs() == Drained(old(Abs()), seqNo, activity)
      ensures lastActivitySeq >= seqNo && lastActivitySeq >= old(lastActivitySeq)
      ensures lastActivitySeq == seqNo || lastActivitySeq == old(lastActivitySeq)
      ensures lastActivity == if seqNo > old(lastActivitySeq) then activity else old(lastActivity)
      ensures phase == if seqNo > lifecycleResponseSeq then Applied(kind, old(phase), activity) else old(phase)
    {
      if seqNo > lastActivitySeq {
        lastActivitySeq, lastActivity := seqNo, activity;
      }
      if seqNo > lifecycleResponseSeq {
        ApplyActivityLocked(activity);
      }
    }

    method HandleRPCTermination()
      modifies this`phase
      ensures phase == Terminated(old(phase))
      ensures phase == if old(phase) == Starting || old(phase) == Ready || old(phase) == Running || old(phase) == AwaitingHandoff
                       then Failed else old(phase)
      ensures phase != old(phase) ==> Legal(old(phase), phase)
    {
      if phase in {Starting, Ready, Running, AwaitingHandoff} {
        var ok := Transition(Failed);
      }
    }

    method CompleteHandoff()
      modifies this`phase
      ensures phase == HandedOff(old(phase))
      ensures phase == if old(phase) == Running || old(phase) == AwaitingHandoff then Completed else old(phase)
      ensures phase != old(phase) ==> Legal(old(phase), phase)
    {
      if phase == Running || phase == AwaitingHandoff {
        var ok := Transition(Completed);
      }
    }

    /** StopRPC's first section: from every phase but stopped the session ends up stopping. */
    method BeginStop() returns (already: bool)
      modifies this`phase
      ensures already <==> old(phase) == Stopped
      ensures phase == if already then Stopped else Stopping
    {
      if phase == Stopped {
        return true;
      }
      if phase != Stopping {
        var ok := Transition(Stopping);
        assert ok;
      }
      already := false;
    }

    /** StopRPC's last section, after the drain: it can fail only if another stop got here first. */
    method EndStop() returns (ok: bool)
      requires phase == Stopping || phase == Stopped
      modifies this`phase
      ensures phase == Stopped && (ok <==> old(phase) == Stopping)
    {
      ok := Transition(Stopped);
    }
  }

  // ---------------------------------------------------------------- schedules

  datatype Record = Record(seqNo: nat, activity: Activity)

  /** What the transport carried: activity events in wire order, Bind's response, accepted prompt responses. */
  datatype Wire = Wire(kind: Kind, bindSeq: nat, streaming: bool, events: seq<Record>, responses: seq<nat>)

  /** Numbers are distinct and increasing in wire order, and prompts follow Bind. */
  ghost predicate WellNumbered(w: Wire) {
    && 0 < w.bindSeq
    && (forall i | 0 <= i < |w.events| :: 0 < w.events[i].seqNo && w.events[i].seqNo != w.bindSeq)
    && (forall i, j | 0 <= i < j < |w.events| :: w.events[i].seqNo < w.events[j].seqNo)
    && (forall i | 0 <= i < |w.responses| :: w.bindSeq < w.responses[i])
    && (forall i, j | 0 <= i < |w.events| && 0 <= j < |w.responses| :: w.events[i].seqNo != w.responses[j])
  }

  datatype Action = BindNow | DrainNext | Reconcile(index: nat)

  datatype Progress = Progress(session: Session, bound: bool, drained: nat, reconciled: set<nat>)

  function Start(w: Wire): Progress { Progress(Fresh(w.kind), false, 0, {}) }

  /** An action that is not possible yet, or no longer, changes nothing. */
  function Step(w: Wire, p: Progress, action: Action): Progress {
    match action
    case BindNow =>
      if p.bound then p else p.(session := Bound(p.session, w.bindSeq, w.streaming), bound := true)
    case DrainNext =>
      if p.drained >= |w.events| then p
      else
        var e := w.events[p.drained];
        p.(session := Drained(p.session, e.seqNo, e.activity), drained := p.drained + 1)
    case Reconcile(i) =>
      if !p.bound || i >= |w.responses| || i in p.reconciled then p
      else p.(session := Reconciled(p.session, w.responses[i]), reconciled := p.reconciled + {i})
  }

  function Run(w: Wire, p: Progress, schedule: seq<Action>): Progress
    decreases |schedule|
  {
    if schedule == [] then p else Run(w, Step(w, p, schedule[0]), schedule[1..])
  }

  predicate Complete(w: Wire, p: Progress) {
    p.bound && p.drained == |w.events| && forall i | 0 <= i < |w.responses| :: i in p.reconciled
  }

  /** The greatest of Bind's response and the reconciled responses. */
  ghost predicate IsLatestResponse(w: Wire, reconciled: set<nat>, latest: nat) {
    && (forall i | i in reconciled && i < |w.responses| :: w.responses[i] <= latest)
    && (latest == w.bindSeq || exists i :: i in reconciled && i < |w.responses| && w.responses[i] == latest)
    && w.bindSeq <= latest
  }

  /**
   What the greatest drained activity and the greatest reconciled response decide: the later of
   the two wins, and a prompt response means running.
  */
  function Decided(w: Wire, drained: nat, latestResponse: nat): Phase
    requires drained <= |w.events|
  {
    if drained > 0 && w.events[drained - 1].seqNo > latestResponse then
      (match w.events[drained - 1].activity
       case AgentStart => Running
       case AgentSettled => match w.kind case Root => Ready case Read => Completed case Write => AwaitingHandoff)
    else if latestResponse > w.bindSeq || w.streaming then Running
    else Ready
  }

  /** The drain position is remembered, and before Bind nothing moves the session. */
  ghost predicate Positioned(w: Wire, p: Progress) {
    && p.session.kind == w.kind
    && p.drained <= |w.events|
    && p.session.lastSeq == (if p.drained == 0 then 0 else w.events[p.drained - 1].seqNo)
    && p.session.lastActivity == (if p.drained == 0 then AgentStart else w.events[p.drained - 1].activity)
    && (forall i | i in p.reconciled :: i < |w.responses|)
    && if p.bound then IsLatestResponse(w, p.reconciled, p.session.responseSeq)
       else p.session.phase == Starting && p.session.responseSeq == 0 && p.reconciled == {}
  }

  lemma StepKeepsPosition(w: Wire, p: Progress, action: Action)
    requires WellNumbered(w) && Positioned(w, p)
    ensures Positioned(w, Step(w, p, action))
  {
    match action
    case BindNow =>
    case DrainNext =>
    case Reconcile(i) =>
      if p.bound && i < |w.responses| && i !in p.reconciled {
        var q := Step(w, p, action);
        assert i in q.reconciled;
        if q.session.responseSeq == p.session.responseSeq && p.session.responseSeq != w.bindSeq {
          var k :| k in p.reconciled && k < |w.responses| && w.responses[k] == p.session.responseSeq;
          assert k in q.reconciled;
        }
      }
  }

  /** The settlements a reader must not see before its prompts: those that follow Bind. */
  ghost predicate SettlesAfterBind(w: Wire) {
    exists i | 0 <= i < |w.events| :: w.events[i].activity == AgentSettled && w.events[i].seqNo > w.bindSeq
  }

  lemma StepKeepsDecision(w: Wire, p: Progress, action: Action)
    requires WellNumbered(w) && Positioned(w, p) && (w.kind != Read || !SettlesAfterBind(w))
    requires p.bound ==> p.session.phase == Decided(w, p.drained, p.session.responseSeq)
    ensures var q := Step(w, p, action);
            q.bound ==> q.drained <= |w.events| && q.session.phase == Decided(w, q.drained, q.session.responseSeq)
  {
  }

  /**
   For roots and writers, and for readers that never settle, under every schedule and at every
   moment after Bind, the lifecycle is fixed by the greatest drained activity against the greatest
   reconciled response.
  */
  lemma {:induction false} LifecycleIsDecided(w: Wire, p: Progress, schedule: seq<Action>)
    requires WellNumbered(w) && Positioned(w, p) && (w.kind != Read || !SettlesAfterBind(w))
    requires p.bound ==> p.session.phase == Decided(w, p.drained, p.session.responseSeq)
    ensures var q := Run(w, p, schedule);
            Positioned(w, q) && (q.bound ==> q.session.phase == Decided(w, q.drained, q.session.responseSeq))
    decreases |schedule|
  {
    if schedule != [] {
      StepKeepsPosition(w, p, schedule[0]);
      StepKeepsDecision(w, p, schedule[0]);
      LifecycleIsDecided(w, Step(w, p, schedule[0]), schedule[1..]);
    }
  }

  lemma LatestIsUnique(w: Wire, p: Progress, q: Progress, a: nat, b: nat)
    requires Complete(w, p) && Complete(w, q)
    requires IsLatestResponse(w, p.reconciled, a) && IsLatestResponse(w, q.reconciled, b)
    ensures a == b
  {
  }

  /**
   Confluence: once every record has been processed, any two schedules leave a root or a writer,
   or a reader that never settles, in the same state.
  */
  lemma Confluence(w: Wire, one: seq<Action>, other: seq<Action>)
    requires WellNumbered(w) && (w.kind != Read || !SettlesAfterBind(w))
    requires Complete(w, Run(w, Start(w), one)) && Complete(w, Run(w, Start(w), other))
    ensures Run(w, Start(w), one).session == Run(w, Start(w), other).session
  {
    LifecycleIsDecided(w, Start(w), one);
    LifecycleIsDecided(w, Start(w), other);
    var p, q := Run(w, Start(w), one), Run(w, Start(w), other);
    LatestIsUnique(w, p, q, p.session.responseSeq, q.session.responseSeq);
  }

  // ---------------------------------------------------------------- readers

  /** A reader ends in Completed under every schedule when its last record is a settlement that outruns every response. */
  ghost predicate SettlesLast(w: Wire) {
    && w.events != []
    && var last := w.events[|w.events| - 1];
       && last.activity == AgentSettled
       && last.seqNo > w.bindSeq
       && forall i | 0 <= i < |w.responses| :: w.responses[i] < last.seqNo
  }

  ghost predicate Agree(w: Wire) {
    forall one: seq<Action>, other: seq<Action> ::
      Complete(w, Run(w, Start(w), one)) && Complete(w, Run(w, Start(w), other)) ==>
        Run(w, Start(w), one).session.phase == Run(w, Start(w), other).session.phase
  }

  ghost predicate ReaderPhase(w: Wire, p: Progress) {
    && Positioned(w, p)
    && (p.bound ==> p.session.phase in {Ready, Running, Completed})
  }

  lemma StepKeepsReaderPhase(w: Wire, p: Progress, action: Action)
    requires WellNumbered(w) && w.kind == Read && ReaderPhase(w, p)
    ensures ReaderPhase(w, Step(w, p, action))
    ensures p.bound && p.session.phase == Completed ==> Step(w, p, action).session.phase == Completed
    ensures p.bound ==> Step(w, p, action).bound
  {
    StepKeepsPosition(w, p, action);
  }

  lemma {:induction false} CompletedAbsorbs(w: Wire, p: Progress, schedule: seq<Action>)
    requires WellNumbered(w) && w.kind == Read && ReaderPhase(w, p)
    ensures ReaderPhase(w, Run(w, p, schedule))
    ensures p.bound && p.session.phase == Completed ==> Run(w, p, schedule).session.phase == Completed
    decreases |schedule|
  {
    if schedule != [] {
      StepKeepsReaderPhase(w, p, schedule[0]);
      CompletedAbsorbs(w, Step(w, p, schedule[0]), schedule[1..]);
    }
  }

  lemma {:induction false} SettlesLastCompletes(w: Wire, p: Progress, schedule: seq<Action>)
    requires WellNumbered(w) && w.kind == Read && SettlesLast(w) && ReaderPhase(w, p)
    requires p.bound && p.drained == |w.events| ==> p.session.phase == Completed
    ensures Complete(w, Run(w, p, schedule)) ==> Run(w, p, schedule).session.phase == Completed
    decreases |schedule|
  {
    if schedule != [] {
      StepKeepsReaderPhase(w, p, schedule[0]);
      SettlesLastCompletes(w, Step(w, p, schedule[0]), schedule[1..]);
    }
  }

  lemma {:induction false} RunConcat(w: Wire, p: Progress, one: seq<Action>, other: seq<Action>)
    ensures Run(w, p, one + other) == Run(w, Run(w, p, one), other)
    decreases |one|
  {
    if one == [] {
      assert one + other == other;
    } else {
      assert (one + other)[1..] == one[1..] + other;
      RunConcat(w, Step(w, p, one[0]), one[1..], other);
    }
  }

  function Drains(n: nat): seq<Action> {
    if n == 0 then [] else [DrainNext] + Drains(n - 1)
  }

  function Reconciles(first: nat, end: nat): seq<Action>
    requires first <= end
    decreases end - first
  {
    if first == end then [] else [Reconcile(first)] + Reconciles(first + 1, end)
  }

  lemma DrainOne(w: Wire, p: Progress)
    requires WellNumbered(w) && w.kind == Read && ReaderPhase(w, p) && p.drained < |w.events|
    ensures var q := Step(w, p, DrainNext); var e := w.events[p.drained];
            && q.drained == p.drained + 1 && q.bound == p.bound && q.reconciled == p.reconciled
            && q.session.responseSeq == p.session.responseSeq
            && (p.bound && e.activity == AgentSettled && e.seqNo > p.session.responseSeq ==> q.session.phase == Completed)
            && (e.seqNo <= p.session.responseSeq ==> q.session.phase == p.session.phase)
  {
  }

  lemma ReconcileOne(w: Wire, p: Progress, i: nat)
    requires WellNumbered(w) && w.kind == Read && ReaderPhase(w, p) && p.bound && i < |w.responses| && i !in p.reconciled
    ensures var q := Step(w, p, Reconcile(i));
            && q.bound && q.drained == p.drained && q.reconciled == p.reconciled + {i}
            && (p.session.phase == Completed <==> q.session.phase == Completed)
  {
  }

  lemma BindOne(w: Wire, p: Progress)
    requires Positioned(w, p) && w.kind == Read && !p.bound
    ensures var q := Step(w, p, BindNow);
            && q.bound && q.drained == p.drained && q.reconciled == {}
            && (p.session.lastActivity == AgentStart ==> q.session.phase != Completed)
  {
  }

  /** Draining the rest of the wire before anything else happens. */
  lemma {:induction false} DrainRest(w: Wire, p: Progress)
    requires WellNumbered(w) && w.kind == Read && ReaderPhase(w, p)
    ensures var q := Run(w, p, Drains(|w.events| - p.drained));
            && ReaderPhase(w, q)
            && q.drained == |w.events| && q.bound == p.bound && q.reconciled == p.reconciled
            && q.session.responseSeq == p.session.responseSeq
            && (p.bound && (exists i | p.drained <= i < |w.events| ::
                  w.events[i].activity == AgentSettled && w.events[i].seqNo > p.session.responseSeq) ==>
                q.session.phase == Completed)
            && ((forall i | p.drained <= i < |w.events| :: w.events[i].seqNo <= p.session.responseSeq) ==>
                q.session.phase == p.session.phase)
    decreases |w.events| - p.drained
  {
    hide Step, Drained, Bound, Reconciled, IsLatestResponse;
    if p.drained < |w.events| {
      var n := |w.events| - p.drained;
      assert Drains(n) == [DrainNext] + Drains(n - 1);
      assert Drains(n)[1..] == Drains(n - 1);
      var q := Step(w, p, DrainNext);
      StepKeepsReaderPhase(w, p, DrainNext);
      DrainOne(w, p);
      DrainRest(w, q);
      if p.bound && q.session.phase == Completed {
        CompletedAbsorbs(w, q, Drains(n - 1));
      }
    }
  }

  /** Reconciling the remaining responses before anything else happens. */
  lemma {:induction false} ReconcileRest(w: Wire, p: Progress, first: nat)
    requires WellNumbered(w) && w.kind == Read && ReaderPhase(w, p) && p.bound && first <= |w.responses|
    requires forall i | 0 <= i < |w.responses| :: i in p.reconciled <==> i < first
    ensures var q := Run(w, p, Reconciles(first, |w.responses|));
            && ReaderPhase(w, q) && q.bound && q.drained == p.drained
            && (forall i | 0 <= i < |w.responses| :: i in q.reconciled)
            && (p.session.phase != Completed ==> q.session.phase != Completed)
            && (p.session.phase == Completed ==> q.session.phase == Completed)
    decreases |w.responses| - first
  {
    hide Step, Drained, Bound, Reconciled, Positioned;
    if first < |w.responses| {
      var rest := Reconciles(first + 1, |w.responses|);
      assert Reconciles(first, |w.responses|) == [Reconcile(first)] + rest;
      assert Reconciles(first, |w.responses|)[1..] == rest;
      StepKeepsReaderPhase(w, p, Reconcile(first));
      ReconcileOne(w, p, first);
      ReconcileRest(w, Step(w, p, Reconcile(first)), first + 1);
    }
  }

  /** Bind, then the whole wire, then the responses. */
  function EventsFirst(w: Wire): seq<Action> {
    [BindNow] + (Drains(|w.events|) + Reconciles(0, |w.responses|))
  }

  /** Bind, then the responses, then the whole wire. */
  function ResponsesFirst(w: Wire): seq<Action> {
    [BindNow] + (Reconciles(0, |w.responses|) + Drains(|w.events|))
  }

  /** The whole wire, then Bind, then the responses. */
  function BindLate(w: Wire): seq<Action> {
    Drains(|w.events|) + ([BindNow] + Reconciles(0, |w.responses|))
  }

  lemma EventsFirstCompletes(w: Wire)
    requires WellNumbered(w) && w.kind == Read && SettlesAfterBind(w)
    ensures Complete(w, Run(w, Start(w), EventsFirst(w)))
    ensures Run(w, Start(w), EventsFirst(w)).session.phase == Completed
  {
    var rest := Drains(|w.events|) + Reconciles(0, |w.responses|);
    assert EventsFirst(w)[1..] == rest;
    var p := Step(w, Start(w), BindNow);
    StepKeepsReaderPhase(w, Start(w), BindNow);
    BindOne(w, Start(w));
    RunConcat(w, p, Drains(|w.events|), Reconciles(0, |w.responses|));
    DrainRest(w, p);
    ReconcileRest(w, Run(w, p, Drains(|w.events|)), 0);
  }

  lemma ResponsesFirstStaysOpen(w: Wire)
    requires WellNumbered(w) && w.kind == Read
    requires forall i | 0 <= i < |w.events| :: exists j :: 0 <= j < |w.responses| && w.events[i].seqNo < w.responses[j]
    ensures Complete(w, Run(w, Start(w), ResponsesFirst(w)))
    ensures Run(w, Start(w), ResponsesFirst(w)).session.phase != Completed
  {
    hide Step, Drained, Bound, Reconciled;
    var rest := Reconciles(0, |w.responses|) + Drains(|w.events|);
    assert ResponsesFirst(w)[1..] == rest;
    var p := Step(w, Start(w), BindNow);
    StepKeepsReaderPhase(w, Start(w), BindNow);
    BindOne(w, Start(w));
    RunConcat(w, p, Reconciles(0, |w.responses|), Drains(|w.events|));
    ReconcileRest(w, p, 0);
    var q := Run(w, p, Reconciles(0, |w.responses|));
    AllOutrun(w, q);
    hide Positioned, IsLatestResponse, Reconciles, Drains, Run;
    DrainRest(w, q);
  }

  lemma AllOutrun(w: Wire, q: Progress)
    requires Positioned(w, q) && q.bound && forall i | 0 <= i < |w.responses| :: i in q.reconciled
    requires forall i | 0 <= i < |w.events| :: exists j :: 0 <= j < |w.responses| && w.events[i].seqNo < w.responses[j]
    ensures forall i | 0 <= i < |w.events| :: w.events[i].seqNo <= q.session.responseSeq
  {
    forall i | 0 <= i < |w.events| ensures w.events[i].seqNo <= q.session.responseSeq {
      var j :| 0 <= j < |w.responses| && w.events[i].seqNo < w.responses[j];
      assert j in q.reconciled;
    }
  }

  lemma BindLateStaysOpen(w: Wire)
    requires WellNumbered(w) && w.kind == Read
    requires w.events != [] && w.events[|w.events| - 1].activity == AgentStart
    ensures Complete(w, Run(w, Start(w), BindLate(w)))
    ensures Run(w, Start(w), BindLate(w)).session.phase != Completed
  {
    hide Step, Drained, Bound, Reconciled, IsLatestResponse;
    var rest := [BindNow] + Reconciles(0, |w.responses|);
    RunConcat(w, Start(w), Drains(|w.events|), rest);
    DrainRest(w, Start(w));
    var p := Run(w, Start(w), Drains(|w.events|));
    assert rest[1..] == Reconciles(0, |w.responses|);
    StepKeepsReaderPhase(w, p, BindNow);
    BindOne(w, p);
    ReconcileRest(w, Step(w, p, BindNow), 0);
  }

  /**
   A reader's Completed phase absorbs, so its schedules agree exactly when no settlement follows
   Bind, or when the wire ends in a settlement that is later than Bind and every prompt response.
  */
  lemma ReadersAgreeExactly(w: Wire)
    requires WellNumbered(w) && w.kind == Read
    ensures Agree(w) <==> !SettlesAfterBind(w) || SettlesLast(w)
  {
    if !SettlesAfterBind(w) {
      forall one: seq<Action>, other: seq<Action> |
        Complete(w, Run(w, Start(w), one)) && Complete(w, Run(w, Start(w), other))
        ensures Run(w, Start(w), one).session.phase == Run(w, Start(w), other).session.phase
      {
        Confluence(w, one, other);
      }
    } else if SettlesLast(w) {
      forall one: seq<Action> | Complete(w, Run(w, Start(w), one))
        ensures Run(w, Start(w), one).session.phase == Completed
      {
        SettlesLastCompletes(w, Start(w), one);
      }
    } else {
      EventsFirstCompletes(w);
      if w.events[|w.events| - 1].activity == AgentStart {
        BindLateStaysOpen(w);
        assert Run(w, Start(w), EventsFirst(w)).session.phase != Run(w, Start(w), BindLate(w)).session.phase;
      } else {
        LastSettlementIsOutrun(w);
        ResponsesFirstStaysOpen(w);
        assert Run(w, Start(w), EventsFirst(w)).session.phase != Run(w, Start(w), ResponsesFirst(w)).session.phase;
      }
    }
  }

  lemma LastSettlementIsOutrun(w: Wire)
    requires WellNumbered(w) && SettlesAfterBind(w) && !SettlesLast(w)
    requires w.events[|w.events| - 1].activity == AgentSettled
    ensures forall i | 0 <= i < |w.events| :: exists j :: 0 <= j < |w.responses| && w.events[i].seqNo < w.responses[j]
  {
    var last := w.events[|w.events| - 1];
    var k :| 0 <= k < |w.events| && w.events[k].activity == AgentSettled && w.events[k].seqNo > w.bindSeq;
    assert last.seqNo >= w.events[k].seqNo;
    var j :| 0 <= j < |w.responses| && last.seqNo <= w.responses[j];
    forall i | 0 <= i < |w.events| ensures w.events[i].seqNo < w.responses[j] {
      assert w.events[i].seqNo <= last.seqNo;
    }
  }

  /** A settlement at 2 and a prompt response at 3: draining first completes the reader, reconciling first leaves it running. */
  lemma ReaderCounterexample()
    ensures exists w: Wire :: WellNumbered(w) && w.kind == Read && !Agree(w)
  {
    var w := Wire(Read, 1, false, [Record(2, AgentSettled)], [3]);
    assert w.events[0].activity == AgentSettled;
    assert SettlesAfterBind(w);
    assert w.responses[0] == 3;
    ReadersAgreeExactly(w);
  }

  // ---------------------------------------------------------------- wire order

  /** The wire number of the record an action processes. */
  function Number(w: Wire, p: Progress, action: Action): nat {
    match action
    case BindNow => w.bindSeq
    case DrainNext => if p.drained < |w.events| then w.events[p.drained].seqNo else 0
    case Reconcile(i) => if i < |w.responses| then w.responses[i] else 0
  }

  predicate Possible(w: Wire, p: Progress, action: Action) {
    match action
    case BindNow => !p.bound
    case DrainNext => p.drained < |w.events|
    case Reconcile(i) => p.bound && i < |w.responses| && i !in p.reconciled
  }

  /** Each action is possible when its turn comes, and the numbers never go down. */
  predicate InWireOrder(w: Wire, p: Progress, schedule: seq<Action>, floor: nat)
    decreases |schedule|
  {
    schedule != [] ==>
      && Possible(w, p, schedule[0]) && floor <= Number(w, p, schedule[0])
      && InWireOrder(w, Step(w, p, schedule[0]), schedule[1..], Number(w, p, schedule[0]))
  }

  /** The unreconciled response with the least number, among the first `n`. */
  function LeastResponse(w: Wire, reconciled: set<nat>, n: nat): (least: int)
    requires n <= |w.responses|
    ensures -1 <= least < n
    ensures least >= 0 ==> least !in reconciled
    ensures forall i | 0 <= i < n && i !in reconciled :: least >= 0 && w.responses[least] <= w.responses[i]
  {
    if n == 0 then -1
    else
      var earlier := LeastResponse(w, reconciled, n - 1);
      if n - 1 in reconciled then earlier
      else if earlier >= 0 && w.responses[earlier] <= w.responses[n - 1] then earlier
      else n - 1
  }

  /** The unprocessed record with the least number. */
  function NextInWire(w: Wire, p: Progress): Action {
    var least := LeastResponse(w, p.reconciled, |w.responses|);
    if !p.bound then
      if p.drained < |w.events| && w.events[p.drained].seqNo < w.bindSeq then DrainNext else BindNow
    else if p.drained < |w.events| && (least < 0 || w.events[p.drained].seqNo < w.responses[least]) then DrainNext
    else if least >= 0 then Reconcile(least)
    else DrainNext
  }

  function Unreconciled(w: Wire, p: Progress): set<nat> {
    set i: nat | i < |w.responses| && i !in p.reconciled
  }

  function Left(w: Wire, p: Progress): nat {
    (if p.bound then 0 else 1) + (if p.drained < |w.events| then |w.events| - p.drained else 0) + |Unreconciled(w, p)|
  }

  lemma NextIsPossible(w: Wire, p: Progress)
    requires Positioned(w, p) && !Complete(w, p)
    ensures Possible(w, p, NextInWire(w, p)) && Left(w, Step(w, p, NextInWire(w, p))) < Left(w, p)
  {
    var a := NextInWire(w, p);
    if a.Reconcile? {
      assert Unreconciled(w, Step(w, p, a)) == Unreconciled(w, p) - {a.index};
    } else {
      assert Unreconciled(w, Step(w, p, a)) == Unreconciled(w, p);
    }
  }

  /** Processing every record in the order of the wire. */
  ghost function WireOrder(w: Wire, p: Progress): seq<Action>
    requires WellNumbered(w) && Positioned(w, p)
    decreases Left(w, p)
  {
    if Complete(w, p) then []
    else
      NextIsPossible(w, p);
      StepKeepsPosition(w, p, NextInWire(w, p));
      [NextInWire(w, p)] + WireOrder(w, Step(w, p, NextInWire(w, p)))
  }

  /** Everything unprocessed is past `floor`. */
  ghost predicate Above(w: Wire, p: Progress, floor: nat) {
    && (!p.bound ==> floor <= w.bindSeq)
    && (p.drained < |w.events| ==> floor <= w.events[p.drained].seqNo)
    && (forall i | 0 <= i < |w.responses| && i !in p.reconciled :: floor <= w.responses[i])
  }

  lemma NextRaises(w: Wire, p: Progress, floor: nat)
    requires WellNumbered(w) && Positioned(w, p) && !Complete(w, p) && Above(w, p, floor)
    ensures var a := NextInWire(w, p);
            floor <= Number(w, p, a) && Above(w, Step(w, p, a), Number(w, p, a))
  {
    NextIsPossible(w, p);
    hide Positioned, Left, Drained, Bound, Reconciled;
  }

  lemma {:induction false} WireOrderCompletes(w: Wire, p: Progress, floor: nat)
    requires WellNumbered(w) && Positioned(w, p) && Above(w, p, floor)
    ensures Complete(w, Run(w, p, WireOrder(w, p))) && InWireOrder(w, p, WireOrder(w, p), floor)
    decreases Left(w, p)
  {
    if !Complete(w, p) {
      var a := NextInWire(w, p);
      NextIsPossible(w, p);
      StepKeepsPosition(w, p, a);
      NextRaises(w, p, floor);
      var rest := WireOrder(w, Step(w, p, a));
      assert WireOrder(w, p) == [a] + rest && ([a] + rest)[1..] == rest;
      hide Positioned, Above, Complete, NextInWire, Left, Step;
      WireOrderCompletes(w, Step(w, p, a), Number(w, p, a));
    }
  }

  /** The wire order is a complete schedule, and processes records by their numbers. */
  lemma WireOrderIsSchedule(w: Wire)
    requires WellNumbered(w)
    ensures Complete(w, Run(w, Start(w), WireOrder(w, Start(w))))
    ensures InWireOrder(w, Start(w), WireOrder(w, Start(w)), 0)
  {
    WireOrderCompletes(w, Start(w), 0);
  }

  /** Once every record has been processed, any schedule has done what processing in wire order does. */
  lemma EndsAsInWireOrder(w: Wire, schedule: seq<Action>)
    requires WellNumbered(w) && (w.kind != Read || !SettlesAfterBind(w))
    requires Complete(w, Run(w, Start(w), schedule))
    ensures Run(w, Start(w), schedule).session == Run(w, Start(w), WireOrder(w, Start(w))).session
  {
    WireOrderIsSchedule(w);
    Confluence(w, schedule, WireOrder(w, Start(w)));
  }

  ghost predicate AllEndAsInWireOrder(w: Wire)
    requires WellNumbered(w)
  {
    forall schedule: seq<Action> | Complete(w, Run(w, Start(w), schedule)) ::
      Run(w, Start(w), schedule).session.phase == Run(w, Start(w), WireOrder(w, Start(w))).session.phase
  }

  /** For readers every complete schedule ends in the phase of the wire order exactly under the reader's condition. */
  lemma ReadersEndAsInWireOrderExactly(w: Wire)
    requires WellNumbered(w) && w.kind == Read
    ensures AllEndAsInWireOrder(w) <==> !SettlesAfterBind(w) || SettlesLast(w)
  {
    ReadersAgreeExactly(w);
    WireOrderIsSchedule(w);
    hide Run, SettlesAfterBind, SettlesLast, Complete;
    if AllEndAsInWireOrder(w) {
      forall one: seq<Action>, other: seq<Action> |
        Complete(w, Run(w, Start(w), one)) && Complete(w, Run(w, Start(w), other))
        ensures Run(w, Start(w), one).session.phase == Run(w, Start(w), other).session.phase
      {
      }
      assert Agree(w);
    }
  }

  // ---------------------------------------------------------------- stopping

  predicate Over(phase: Phase) { phase in {Completed, Failed, Stopping, Stopped} }

  /** Neither late activity nor late responses nor the transport's end revive a session that is over. */
  lemma OverStaysOver(s: Session, seqNo: nat, activity: Activity, streaming: bool)
    requires Over(s.phase)
    ensures Bound(s, seqNo, streaming).phase == s.phase
    ensures Drained(s, seqNo, activity).phase == s.phase
    ensures Reconciled(s, seqNo).phase == s.phase
    ensures Terminated(s.phase) == s.phase && HandedOff(s.phase) == s.phase
  {
  }
}
