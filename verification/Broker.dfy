/**
 The event broker of one supervisor (internal/supervisor/events.go).

 `State` is the abstract value of a broker: its ring, its subscribers, the publication that holds
 the publish lock, and the history of everything it ever published. `Step` gives every critical
 section, so `Run` over any list of actions is one interleaving of publishers, subscribers,
 mailbox dispatchers and Close; an action that is not enabled changes nothing. The class carries
 the same fields, its eviction and delivery loops, and is proved against those steps.
*/
module Broker {
  import opened Events
  import Mailboxes

  type Box = Mailboxes.State<Event>

  /** mailByteCap always equals byteCap, as in every constructor of the source. */
  datatype Config = Config(ringCap: nat, byteCap: nat, mailCap: nat) {
    predicate Acceptable() { mailCap > 0 || byteCap > 0 }
    function MailLimits(): Mailboxes.Limits { Mailboxes.Limits(mailCap, byteCap) }
  }

  /** `first` and `cut` locate the replay in the history; no code reads them. */
  datatype Subscriber = Subscriber(replay: seq<Event>, first: int, cut: nat, box: Box) {
    /** What the receiver has been handed so far. */
    function Stream(): seq<Event> { replay + box.delivered }
    /** How far into the history the subscription has been served. */
    function Reach(): nat { cut + |box.accepted| }
  }

  /** The publication holding the publish lock, between its own critical sections. */
  datatype Flight =
    | Idle
    | Delivering(event: Event, todo: set<nat>, failed: set<nat>)
    | Aborting(failed: set<nat>)

  datatype State = State(
    config: Config,
    ring: seq<Event>,
    ringBytes: int,
    nextSeq: nat,
    sourceSeq: map<string, nat>,
    nextSubId: nat,
    subs: set<nat>,
    boxes: map<nat, Subscriber>,
    closing: set<nat>,
    closed: bool,
    flight: Flight,
    history: seq<Event>,
    foreign: set<string>)      // sessions of forwarded events

  function SourceOf(sourceSeq: map<string, nat>, session: string): nat {
    if session in sourceSeq then sourceSeq[session] else 0
  }

  function Initial(config: Config): State {
    State(config, [], 0, 0, map[], 0, {}, map[], {}, false, Idle, [], {})
  }

  /** The ring a broker must hold after publishing `history`. */
  function RingOf(history: seq<Event>, config: Config): seq<Event> {
    if config.ringCap > 0 || config.byteCap > 0
    then LongestFit(history, config.ringCap, config.byteCap)
    else []
  }

  // ---------------------------------------------------------------- critical sections

  function Retain(s: State, event: Event): State {
    var e := event.(seqNo := s.nextSeq + 1);
    var ring := if s.config.ringCap > 0 || s.config.byteCap > 0
                then LongestFit(s.ring + [e], s.config.ringCap, s.config.byteCap)
                else s.ring;
    s.(nextSeq := s.nextSeq + 1, ring := ring, ringBytes := Sum(ring),
       history := s.history + [e], flight := Delivering(e, s.subs, {}))
  }

  function PublishLocal(s: State, session: string, kind: string, payload: string): State {
    if s.flight != Idle || s.closed then s
    else
      var source := SourceOf(s.sourceSeq, session) + 1;
      Retain(s.(sourceSeq := s.sourceSeq[session := source]), Event(0, session, source, kind, payload))
  }

  function Forward(s: State, source: Event): State {
    if s.flight != Idle || s.closed then s
    else Retain(s.(foreign := s.foreign + {source.session}), source)
  }

  function DeliverTo(s: State, id: nat): State {
    match s.flight
    case Delivering(event, todo, failed) =>
      if id !in todo || id !in s.boxes then s
      else
        var sub := s.boxes[id];
        var (box, err) := Mailboxes.SendHold(sub.box, event, RetainedBytes(event));
        s.(boxes := s.boxes[id := sub.(box := box)],
           flight := Delivering(event, todo - {id}, if err == Mailboxes.Sent then failed else failed + {id}))
    case _ => s
  }

  function EndDelivery(s: State): State {
    match s.flight
    case Delivering(_, todo, failed) =>
      if todo != {} then s
      else s.(subs := s.subs - failed, flight := if failed == {} then Idle else Aborting(failed))
    case _ => s
  }

  function AbortFailed(s: State, id: nat): State {
    match s.flight
    case Aborting(failed) =>
      if id !in failed || id !in s.boxes then s
      else
        var left := failed - {id};
        s.(boxes := s.boxes[id := s.boxes[id].(box := Mailboxes.AbortHold(s.boxes[id].box))],
           flight := if left == {} then Idle else Aborting(left))
    case _ => s
  }

  function Subscribe(s: State): State {
    if s.flight != Idle || s.closed then s
    else
      var id := s.nextSubId + 1;
      var sub := Subscriber(s.ring, s.nextSeq - |s.ring|, s.nextSeq, Mailboxes.Initial(s.config.MailLimits()));
      s.(nextSubId := id, subs := s.subs + {id}, boxes := s.boxes[id := sub])
  }

  function Unsubscribe(s: State, id: nat): State { s.(subs := s.subs - {id}) }

  function AbortUnsubscribed(s: State, id: nat): State {
    if id in s.subs || id !in s.boxes then s
    else s.(boxes := s.boxes[id := s.boxes[id].(box := Mailboxes.AbortHold(s.boxes[id].box))])
  }

  function Close(s: State): State {
    if s.flight != Idle || s.closed then s
    else s.(closed := true, closing := s.subs, subs := {})
  }

  function CloseBox(s: State, id: nat): State {
    if id !in s.closing || id !in s.boxes then s
    else s.(boxes := s.boxes[id := s.boxes[id].(box := Mailboxes.CloseHold(s.boxes[id].box))],
            closing := s.closing - {id})
  }

  function Dispatch(s: State, id: nat, receiverReady: bool): State {
    if id !in s.boxes then s
    else s.(boxes := s.boxes[id := s.boxes[id].(box := Mailboxes.DispatchHold(s.boxes[id].box, receiverReady))])
  }

  datatype Action =
    | DoPublishLocal(session: string, kind: string, payload: string)
    | DoForward(source: Event)
    | DoDeliverTo(id: nat)
    | DoEndDelivery
    | DoAbortFailed(id: nat)
    | DoSubscribe
    | DoUnsubscribe(id: nat)
    | DoAbortUnsubscribed(id: nat)
    | DoClose
    | DoCloseBox(id: nat)
    | DoDispatch(id: nat, receiverReady: bool)

  function Step(s: State, action: Action): State {
    match action
    case DoPublishLocal(session, kind, payload) => PublishLocal(s, session, kind, payload)
    case DoForward(source) => Forward(s, source)
    case DoDeliverTo(id) => DeliverTo(s, id)
    case DoEndDelivery => EndDelivery(s)
    case DoAbortFailed(id) => AbortFailed(s, id)
    case DoSubscribe => Subscribe(s)
    case DoUnsubscribe(id) => Unsubscribe(s, id)
    case DoAbortUnsubscribed(id) => AbortUnsubscribed(s, id)
    case DoClose => Close(s)
    case DoCloseBox(id) => CloseBox(s, id)
    case DoDispatch(id, ready) => Dispatch(s, id, ready)
  }

  function Run(s: State, actions: seq<Action>): State
    decreases |actions|
  {
    if actions == [] then s else Run(Step(s, actions[0]), actions[1..])
  }

  // ---------------------------------------------------------------- invariant

  /** The ring is exactly the longest suffix of the history that fits, and the counter is its sum. */
  ghost predicate RingInv(s: State) {
    && s.config.Acceptable()
    && s.ring == RingOf(s.history, s.config)
    && s.ringBytes == Sum(s.ring)
    && s.nextSeq == |s.history|
    && forall i | 0 <= i < |s.history| :: s.history[i].seqNo == i + 1
  }

  ghost predicate Contiguous(events: seq<Event>) {
    forall i | 0 <= i < |events| :: events[i].sourceSeq == i + 1
  }

  /** A session nobody forwards is numbered 1, 2, 3, ... by its own publications. */
  ghost predicate SourceInv(s: State) {
    forall session | session !in s.foreign ::
      Contiguous(Project(s.history, session))
      && SourceOf(s.sourceSeq, session) == |Project(s.history, session)|
  }

  /**
   A subscriber's replay is the ring the broker held when it subscribed, and replay and accepted
   events are one interval of the history.
  */
  ghost predicate Tracks(config: Config, history: seq<Event>, sub: Subscriber) {
    && 0 <= sub.first <= sub.cut <= sub.Reach() <= |history|
    && sub.replay == history[sub.first..sub.cut] == RingOf(history[..sub.cut], config)
    && Mailboxes.Inv(sub.box)
    && sub.box.accepted == history[sub.cut..sub.Reach()]
  }

  ghost predicate BoxesInv(config: Config, history: seq<Event>, boxes: map<nat, Subscriber>, nextSubId: nat) {
    forall id | id in boxes :: id <= nextSubId && Tracks(config, history, boxes[id])
  }

  /** Which subscribers have been served the whole history, and which all but the newest event. */
  ghost predicate FlightInv(s: State) {
    && s.subs <= s.boxes.Keys
    && s.closing !! s.subs && s.closing <= s.boxes.Keys
    && (s.closed ==> s.subs == {} && s.flight == Idle)
    && (forall id | id in s.subs :: s.boxes[id].box.phase == Mailboxes.Open)
    && match s.flight
       case Idle => forall id | id in s.subs :: s.boxes[id].Reach() == |s.history|
       case Delivering(event, todo, failed) =>
         && |s.history| > 0 && event == s.history[|s.history| - 1]
         && todo <= s.boxes.Keys && failed <= s.boxes.Keys && todo !! failed
         && (forall id | id in todo && s.boxes[id].box.phase == Mailboxes.Open ::
               s.boxes[id].Reach() == |s.history| - 1)
         && (forall id | id in s.subs && id !in todo && id !in failed :: s.boxes[id].Reach() == |s.history|)
       case Aborting(failed) =>
         && failed != {} && failed <= s.boxes.Keys && failed !! s.subs
         && (forall id | id in s.subs :: s.boxes[id].Reach() == |s.history|)
  }

  ghost predicate Inv(s: State) {
    RingInv(s) && SourceInv(s) && BoxesInv(s.config, s.history, s.boxes, s.nextSubId) && FlightInv(s)
  }

  lemma InitialInv(config: Config)
    requires config.Acceptable()
    ensures Inv(Initial(config))
  {
  }

  /** `t` is `s` as the publisher leaves it just before retention, with its source counters updated. */
  predicate Numbered(s: State, t: State) {
    t == s.(sourceSeq := t.sourceSeq, foreign := t.foreign)
  }

  lemma RetainKeepsRing(s: State, t: State, event: Event)
    requires RingInv(s) && Numbered(s, t)
    ensures RingInv(Retain(t, event))
  {
    var e := event.(seqNo := s.nextSeq + 1);
    LongestFitAppend(s.history, e, s.config.ringCap, s.config.byteCap);
  }

  lemma TracksGrows(config: Config, history: seq<Event>, e: Event, sub: Subscriber)
    requires Tracks(config, history, sub)
    ensures Tracks(config, history + [e], sub)
  {
    assert (history + [e])[..sub.cut] == history[..sub.cut];
    assert (history + [e])[sub.first..sub.cut] == history[sub.first..sub.cut];
    assert (history + [e])[sub.cut..sub.Reach()] == history[sub.cut..sub.Reach()];
  }

  lemma BoxesGrow(config: Config, history: seq<Event>, e: Event, boxes: map<nat, Subscriber>, nextSubId: nat)
    requires BoxesInv(config, history, boxes, nextSubId)
    ensures BoxesInv(config, history + [e], boxes, nextSubId)
  {
    forall id | id in boxes ensures Tracks(config, history + [e], boxes[id]) {
      TracksGrows(config, history, e, boxes[id]);
    }
  }

  lemma SetBox(config: Config, history: seq<Event>, boxes: map<nat, Subscriber>, nextSubId: nat,
               id: nat, sub: Subscriber, bound: nat)
    requires BoxesInv(config, history, boxes, nextSubId) && Tracks(config, history, sub) && nextSubId <= bound && id <= bound
    ensures BoxesInv(config, history, boxes[id := sub], bound)
  {
  }

  lemma RetainKeepsFlight(s: State, t: State, event: Event)
    requires FlightInv(s) && s.flight == Idle && !s.closed && Numbered(s, t)
    ensures FlightInv(Retain(t, event))
  {
  }

  lemma ProjectAppend(history: seq<Event>, e: Event, session: string)
    ensures Project(history + [e], session)
         == if e.session == session then Project(history, session) + [e] else Project(history, session)
  {
    assert (history + [e])[..|history|] == history;
  }

  lemma PublishKeepsSources(s: State, session: string, kind: string, payload: string)
    requires SourceInv(s)
    ensures SourceInv(PublishLocal(s, session, kind, payload))
  {
    if s.flight == Idle && !s.closed {
      var t := PublishLocal(s, session, kind, payload);
      var e := t.history[|s.history|];
      forall other | other !in t.foreign
        ensures Contiguous(Project(t.history, other))
        ensures SourceOf(t.sourceSeq, other) == |Project(t.history, other)|
      {
        ProjectAppend(s.history, e, other);
      }
    }
  }

  lemma ForwardKeepsSources(s: State, source: Event)
    requires SourceInv(s)
    ensures SourceInv(Forward(s, source))
  {
    if s.flight == Idle && !s.closed {
      var t := Forward(s, source);
      var e := t.history[|s.history|];
      forall other | other !in t.foreign
        ensures Contiguous(Project(t.history, other))
        ensures SourceOf(t.sourceSeq, other) == |Project(t.history, other)|
      {
        ProjectAppend(s.history, e, other);
        assert other != source.session;
      }
    }
  }

  /** Handing the newest event to a box keeps it an interval, whether the box takes it or refuses. */
  lemma SendKeepsTracks(config: Config, history: seq<Event>, sub: Subscriber, event: Event)
    requires Tracks(config, history, sub) && |history| > 0 && event == history[|history| - 1]
    requires sub.box.phase == Mailboxes.Open ==> sub.Reach() == |history| - 1
    ensures var (box, err) := Mailboxes.SendHold(sub.box, event, RetainedBytes(event));
            && Tracks(config, history, sub.(box := box)) && box.phase == sub.box.phase
            && (err == Mailboxes.Sent ==> sub.(box := box).Reach() == |history|)
  {
    Mailboxes.StepKeepsInv(sub.box, Mailboxes.DoSend(event, RetainedBytes(event)));
    var (box, err) := Mailboxes.SendHold(sub.box, event, RetainedBytes(event));
    if err == Mailboxes.Sent {
      assert history[sub.cut..sub.Reach() + 1] == history[sub.cut..sub.Reach()] + [event];
    }
  }

  lemma DeliverKeepsFlight(s: State, id: nat)
    requires FlightInv(s) && s.flight.Delivering? && id in s.flight.todo
    requires var (box, err) := Mailboxes.SendHold(s.boxes[id].box, s.flight.event, RetainedBytes(s.flight.event));
             && box.phase == s.boxes[id].box.phase
             && (err == Mailboxes.Sent ==> s.boxes[id].(box := box).Reach() == |s.history|)
    ensures FlightInv(DeliverTo(s, id))
  {
  }

  lemma DeliverKeepsSubs(s: State, id: nat)
    requires BoxesInv(s.config, s.history, s.boxes, s.nextSubId) && FlightInv(s)
    requires s.flight.Delivering? && id in s.flight.todo
    ensures var t := DeliverTo(s, id);
            BoxesInv(t.config, t.history, t.boxes, t.nextSubId) && FlightInv(t)
  {
    SendKeepsTracks(s.config, s.history, s.boxes[id], s.flight.event);
    DeliverKeepsFlight(s, id);
    SetBox(s.config, s.history, s.boxes, s.nextSubId, id, DeliverTo(s, id).boxes[id], s.nextSubId);
  }

  /** Any other lock hold on a box keeps it an interval and accepts nothing. */
  lemma BoxStepKeepsTracks(config: Config, history: seq<Event>, sub: Subscriber,
                           action: Mailboxes.Action<Event>)
    requires Tracks(config, history, sub) && !action.DoSend?
    ensures Tracks(config, history, sub.(box := Mailboxes.Step(sub.box, action)))
    ensures Mailboxes.Step(sub.box, action).accepted == sub.box.accepted
    ensures action.DoDispatch? ==> Mailboxes.Step(sub.box, action).phase == sub.box.phase
    ensures !action.DoDispatch? ==> Mailboxes.Step(sub.box, action).phase != Mailboxes.Open
  {
    Mailboxes.StepKeepsInv(sub.box, action);
  }

  function BoxAction(action: Action): Mailboxes.Action<Event>
    requires action.DoAbortFailed? || action.DoAbortUnsubscribed? || action.DoCloseBox? || action.DoDispatch?
  {
    match action
    case DoCloseBox(_) => Mailboxes.DoClose
    case DoDispatch(_, ready) => Mailboxes.DoDispatch(ready)
    case _ => Mailboxes.DoAbort
  }

  predicate ActsOnBox(action: Action) {
    action.DoAbortFailed? || action.DoAbortUnsubscribed? || action.DoCloseBox? || action.DoDispatch?
  }

  /** Only the phase and the reach of a box matter to a publication under way. */
  lemma ReplaceBox(s: State, id: nat, sub: Subscriber)
    requires FlightInv(s) && id in s.boxes && sub.Reach() == s.boxes[id].Reach()
    requires sub.box.phase == s.boxes[id].box.phase || (id !in s.subs && sub.box.phase != Mailboxes.Open)
    ensures FlightInv(s.(boxes := s.boxes[id := sub]))
  {
  }

  lemma SettleFailed(s: State, id: nat)
    requires FlightInv(s) && s.flight.Aborting? && id in s.flight.failed
    ensures var left := s.flight.failed - {id};
            FlightInv(s.(flight := if left == {} then Idle else Aborting(left)))
  {
  }

  lemma TracksAt(s: State, id: nat)
    requires BoxesInv(s.config, s.history, s.boxes, s.nextSubId) && id in s.boxes
    ensures Tracks(s.config, s.history, s.boxes[id]) && id <= s.nextSubId
  {
  }

  lemma BoxStepsKeepFlight(s: State, action: Action)
    requires FlightInv(s) && ActsOnBox(action) && action.id in s.boxes && Step(s, action) != s
    requires var box := s.boxes[action.id].box;
             var after := Mailboxes.Step(box, BoxAction(action));
             && after.accepted == box.accepted
             && (action.DoDispatch? ==> after.phase == box.phase)
             && (!action.DoDispatch? ==> after.phase != Mailboxes.Open)
    ensures FlightInv(Step(s, action))
  {
    hide FlightInv;
    if !action.DoDispatch? {
      NotRegistered(s, action);
    }
    var id := action.id;
    var sub := s.boxes[id].(box := Mailboxes.Step(s.boxes[id].box, BoxAction(action)));
    ReplaceBox(s, id, sub);
    var t := s.(boxes := s.boxes[id := sub]);
    match action
    case DoAbortFailed(_) => SettleFailed(t, id);
    case DoCloseBox(_) => ClosingShrinks(t, id);
    case _ =>
  }

  lemma NotRegistered(s: State, action: Action)
    requires FlightInv(s) && ActsOnBox(action) && !action.DoDispatch? && Step(s, action) != s
    ensures action.id !in s.subs
  {
  }

  lemma ClosingShrinks(s: State, id: nat)
    requires FlightInv(s)
    ensures FlightInv(s.(closing := s.closing - {id}))
  {
  }

  lemma BoxStepsKeepSubs(s: State, action: Action)
    requires BoxesInv(s.config, s.history, s.boxes, s.nextSubId) && FlightInv(s) && ActsOnBox(action)
    ensures var t := Step(s, action);
            BoxesInv(t.config, t.history, t.boxes, t.nextSubId) && FlightInv(t)
  {
    hide BoxesInv, FlightInv;
    var id, t := action.id, Step(s, action);
    if id in s.boxes && t != s {
      TracksAt(s, id);
      BoxStepKeepsTracks(s.config, s.history, s.boxes[id], BoxAction(action));
      BoxStepsKeepFlight(s, action);
      SetBox(s.config, s.history, s.boxes, s.nextSubId, id, t.boxes[id], s.nextSubId);
    }
  }

  lemma SubscribeTracks(s: State)
    requires RingInv(s) && s.flight == Idle && !s.closed
    ensures var t := Subscribe(s); Tracks(t.config, t.history, t.boxes[t.nextSubId])
    ensures s.ring == s.history[|s.history| - |s.ring|..]
  {
    RingIsSuffix(s);
    hide LongestFit, Fits, RingInv;
    var n := |s.history|;
    assert s.nextSeq == n && s.ring == RingOf(s.history, s.config) && s.config.Acceptable() by { RingFacts(s); }
    hide RingOf;
    assert s.history[..n] == s.history && s.history[n - |s.ring|..] == s.history[n - |s.ring|..n] && s.history[n..n] == [];
  }

  lemma RingFacts(s: State)
    requires RingInv(s)
    ensures s.nextSeq == |s.history| && s.ring == RingOf(s.history, s.config) && s.config.Acceptable()
  {
  }

  lemma RingIsSuffix(s: State)
    requires RingInv(s)
    ensures |s.ring| <= |s.history| && s.ring == s.history[|s.history| - |s.ring|..]
  {
    var first := LongestFitIsLongest(s.history, s.config.ringCap, s.config.byteCap);
    hide LongestFit, Fits;
    assert s.history[|s.history|..] == [];
  }

  lemma SubscribersHaveBoxes(s: State)
    requires Inv(s)
    ensures s.subs <= s.boxes.Keys && s.closing <= s.boxes.Keys
    ensures match s.flight
            case Idle => true
            case Delivering(_, todo, failed) => todo <= s.boxes.Keys && failed <= s.boxes.Keys
            case Aborting(failed) => failed <= s.boxes.Keys
  {
  }

  lemma FreshId(s: State)
    requires Inv(s)
    ensures s.nextSubId + 1 !in s.boxes
  {
  }

  lemma SubscribeKeepsFlight(s: State)
    requires FlightInv(s) && s.nextSeq == |s.history| && s.nextSubId + 1 !in s.boxes
    ensures FlightInv(Subscribe(s))
  {
  }

  lemma SubscribeKeepsSubs(s: State)
    requires RingInv(s) && BoxesInv(s.config, s.history, s.boxes, s.nextSubId) && FlightInv(s)
    requires s.flight == Idle && !s.closed
    ensures var t := Subscribe(s);
            BoxesInv(t.config, t.history, t.boxes, t.nextSubId) && FlightInv(t)
  {
    SubscribeTracks(s);
    SubscribeKeepsFlight(s);
    var t := Subscribe(s);
    SetBox(s.config, s.history, s.boxes, s.nextSubId, t.nextSubId, t.boxes[t.nextSubId], t.nextSubId);
  }

  lemma RetainKeepsSubs(s: State, t: State, event: Event)
    requires BoxesInv(s.config, s.history, s.boxes, s.nextSubId) && FlightInv(s) && s.flight == Idle && !s.closed
    requires Numbered(s, t)
    ensures var u := Retain(t, event);
            BoxesInv(u.config, u.history, u.boxes, u.nextSubId) && FlightInv(u)
  {
    hide BoxesInv, FlightInv;
    RetainKeepsFlight(s, t, event);
    BoxesGrow(s.config, s.history, event.(seqNo := s.nextSeq + 1), s.boxes, s.nextSubId);
  }

  lemma PublishKeepsInv(s: State, session: string, kind: string, payload: string)
    requires Inv(s)
    ensures Inv(PublishLocal(s, session, kind, payload))
  {
    hide RingInv, SourceInv, BoxesInv, FlightInv, Retain;
    PublishKeepsSources(s, session, kind, payload);
    if s.flight == Idle && !s.closed {
      var source := SourceOf(s.sourceSeq, session) + 1;
      var t := s.(sourceSeq := s.sourceSeq[session := source]);
      RetainKeepsRing(s, t, Event(0, session, source, kind, payload));
      RetainKeepsSubs(s, t, Event(0, session, source, kind, payload));
    }
  }

  lemma ForwardKeepsInv(s: State, source: Event)
    requires Inv(s)
    ensures Inv(Forward(s, source))
  {
    hide RingInv, SourceInv, BoxesInv, FlightInv, Retain;
    ForwardKeepsSources(s, source);
    if s.flight == Idle && !s.closed {
      RetainKeepsRing(s, s.(foreign := s.foreign + {source.session}), source);
      RetainKeepsSubs(s, s.(foreign := s.foreign + {source.session}), source);
    }
  }

  /** The remaining steps publish nothing, so ring and source counters stay as they are. */
  lemma QuietStep(s: State, action: Action)
    requires !action.DoPublishLocal? && !action.DoForward?
    ensures var t := Step(s, action);
            && (RingInv(s) ==> RingInv(t)) && (SourceInv(s) ==> SourceInv(t))
            && t.history == s.history && t.config == s.config
  {
  }

  /** Nothing a quiet step does takes back what a receiver was handed. */
  lemma QuietStepGrowsStream(s: State, action: Action, id: nat)
    requires id in s.boxes && id <= s.nextSubId
    requires !action.DoPublishLocal? && !action.DoForward?
    ensures var t := Step(s, action);
            && t.history == s.history && t.foreign == s.foreign && (s.closed ==> t.closed)
            && id in t.boxes && s.boxes[id].Stream() <= t.boxes[id].Stream()
  {
    hide LongestFit, Sum, Mailboxes.Sum, Mailboxes.Values;
    match action
    case DoDispatch(_, _) =>
    case DoDeliverTo(_) =>
    case DoSubscribe =>
    case _ =>
  }

  lemma ForwardAppends(s: State, source: Event)
    requires s.flight == Idle && !s.closed
    ensures var t := Forward(s, source);
            && t.history == s.history + [source.(seqNo := s.nextSeq + 1)]
            && t.boxes == s.boxes && t.foreign == s.foreign + {source.session} && !t.closed
  {
    hide LongestFit, Sum;
  }

  lemma QuietStepKeepsHistory(s: State, action: Action)
    requires !action.DoPublishLocal? && !action.DoForward?
    ensures var t := Step(s, action);
            t.history == s.history && t.foreign == s.foreign && (s.closed ==> t.closed)
  {
  }

  lemma LockStepsKeepFlight(s: State, action: Action)
    requires FlightInv(s)
    requires action.DoEndDelivery? || action.DoUnsubscribe? || action.DoClose?
    ensures FlightInv(Step(s, action))
  {
  }

  lemma StepKeepsInv(s: State, action: Action)
    requires Inv(s)
    ensures Inv(Step(s, action))
  {
    match action
    case DoPublishLocal(session, kind, payload) => PublishKeepsInv(s, session, kind, payload);
    case DoForward(source) => ForwardKeepsInv(s, source);
    case _ => QuietStepKeepsInv(s, action);
  }

  lemma QuietStepKeepsInv(s: State, action: Action)
    requires Inv(s) && !action.DoPublishLocal? && !action.DoForward?
    ensures Inv(Step(s, action))
  {
    hide RingInv, SourceInv, BoxesInv, FlightInv;
    QuietStep(s, action);
    match action
    case DoDeliverTo(id) =>
      if s.flight.Delivering? && id in s.flight.todo {
        DeliverKeepsSubs(s, id);
      }
    case DoSubscribe =>
      if s.flight == Idle && !s.closed {
        SubscribeKeepsSubs(s);
      }
    case DoAbortFailed(_) => BoxStepsKeepSubs(s, action);
    case DoAbortUnsubscribed(_) => BoxStepsKeepSubs(s, action);
    case DoCloseBox(_) => BoxStepsKeepSubs(s, action);
    case DoDispatch(_, _) => BoxStepsKeepSubs(s, action);
    case _ => LockStepsKeepFlight(s, action);
  }

  lemma {:induction false} EveryRunKeepsInv(s: State, actions: seq<Action>)
    requires Inv(s)
    ensures Inv(Run(s, actions))
    decreases |actions|
  {
    if actions != [] {
      StepKeepsInv(s, actions[0]);
      EveryRunKeepsInv(Step(s, actions[0]), actions[1..]);
    }
  }

  // ---------------------------------------------------------------- every run

  /**
   Under every interleaving, what a subscriber has been handed, replay first, is a hole-free
   interval of the publication history that starts at the oldest event retained when it subscribed.
  */
  lemma StreamIsInterval(config: Config, actions: seq<Action>, id: nat)
    requires config.Acceptable()
    requires id in Run(Initial(config), actions).boxes
    ensures var s := Run(Initial(config), actions);
            var sub := s.boxes[id];
            && 0 <= sub.first <= sub.cut <= |s.history|
            && sub.replay == RingOf(s.history[..sub.cut], config)
            && sub.first + |sub.Stream()| <= |s.history|
            && sub.Stream() == s.history[sub.first..sub.first + |sub.Stream()|]
  {
    EveryRunKeepsInv(Initial(config), actions);
    RunKeepsConfig(Initial(config), actions);
    var s := Run(Initial(config), actions);
    StreamOfTracks(config, s.history, s.boxes[id]);
  }

  lemma StreamOfTracks(config: Config, history: seq<Event>, sub: Subscriber)
    requires Tracks(config, history, sub)
    ensures sub.first + |sub.Stream()| <= |history|
    ensures sub.Stream() == history[sub.first..sub.first + |sub.Stream()|]
  {
    assert sub.box.delivered <= sub.box.accepted;
    var n := |sub.box.delivered|;
    assert sub.box.delivered == sub.box.accepted[..n] == history[sub.cut..sub.cut + n];
  }

  lemma StreamAt(s: State, id: nat)
    requires Inv(s) && id in s.boxes
    ensures var sub := s.boxes[id];
            && 0 <= sub.first <= sub.first + |sub.Stream()| <= |s.history|
            && sub.Stream() == s.history[sub.first..sub.first + |sub.Stream()|]
            && id <= s.nextSubId
  {
    TracksAt(s, id);
    hide BoxesInv, RingInv, SourceInv, FlightInv;
    StreamOfTracks(s.config, s.history, s.boxes[id]);
  }

  lemma {:induction false} RunKeepsConfig(s: State, actions: seq<Action>)
    ensures Run(s, actions).config == s.config
    decreases |actions|
  {
    if actions != [] {
      RunKeepsConfig(Step(s, actions[0]), actions[1..]);
    }
  }

  /** Between publications a registered subscriber misses nothing: it has, or is queued, every event. */
  lemma RegisteredMissNothing(s: State, id: nat)
    requires Inv(s) && s.flight == Idle && id in s.subs
    ensures var sub := s.boxes[id];
            sub.Stream() + Mailboxes.Values(sub.box.queue) == s.history[sub.first..]
  {
    TrackedInFull(s.config, s.history, s.boxes[id]);
  }

  lemma TrackedInFull(config: Config, history: seq<Event>, sub: Subscriber)
    requires Tracks(config, history, sub) && sub.Reach() == |history| && sub.box.phase != Mailboxes.Aborted
    ensures sub.Stream() + Mailboxes.Values(sub.box.queue) == history[sub.first..]
  {
    assert history[sub.first..] == history[sub.first..sub.cut] + history[sub.cut..sub.Reach()];
  }

  function Receiving(id: nat, n: nat): seq<Action> {
    if n == 0 then [] else [DoDispatch(id, true)] + Receiving(id, n - 1)
  }

  /** What a subscriber's willing rounds do to its own mailbox, and to nothing else. */
  lemma {:induction false} ReceivingRuns(s: State, id: nat, n: nat)
    requires id in s.boxes
    ensures var t := Run(s, Receiving(id, n));
            && t.history == s.history && id in t.boxes
            && t.boxes[id] == s.boxes[id].(box := Mailboxes.Run(s.boxes[id].box, Mailboxes.Willing(n)))
    decreases n
  {
    if n > 0 {
      var box, t := s.boxes[id].box, Step(s, DoDispatch(id, true));
      assert Receiving(id, n)[1..] == Receiving(id, n - 1);
      var rounds: seq<Mailboxes.Action<Event>> := Mailboxes.Willing(n);
      assert rounds[0] == Mailboxes.DoDispatch(true) && rounds[1..] == Mailboxes.Willing(n - 1);
      assert t.boxes[id] == s.boxes[id].(box := Mailboxes.Step(box, Mailboxes.DoDispatch(true)));
      hide Step, Mailboxes.Step;
      ReceivingRuns(t, id, n - 1);
    }
  }

  /** In every reachable state between publications, a registered subscriber that goes on receiving reaches the end of the history. */
  lemma RegisteredCatchesUp(config: Config, actions: seq<Action>, id: nat)
    requires config.Acceptable()
    requires var s := Run(Initial(config), actions); s.flight == Idle && id in s.subs && id in s.boxes
    ensures var s := Run(Initial(config), actions);
            var sub := s.boxes[id];
            var t := Run(s, Receiving(id, |sub.box.queue|));
            t.history == s.history && id in t.boxes && 0 <= sub.first <= |s.history|
            && t.boxes[id].Stream() == s.history[sub.first..]
  {
    InitialInv(config);
    EveryRunKeepsInv(Initial(config), actions);
    var s := Run(Initial(config), actions);
    CatchesUp(s, id);
  }

  lemma CatchesUp(s: State, id: nat)
    requires Inv(s) && s.flight == Idle && id in s.subs && id in s.boxes
    ensures var sub := s.boxes[id];
            var t := Run(s, Receiving(id, |sub.box.queue|));
            t.history == s.history && id in t.boxes && 0 <= sub.first <= |s.history|
            && t.boxes[id].Stream() == s.history[sub.first..]
  {
    var sub := s.boxes[id];
    AcceptedInFull(s, id);
    hide Run, Inv, Receiving, Mailboxes.Inv;
    Mailboxes.WillingReceiverGetsAll(sub.box);
    ReceivingRuns(s, id, |sub.box.queue|);
  }

  lemma AcceptedInFull(s: State, id: nat)
    requires Inv(s) && s.flight == Idle && id in s.subs && id in s.boxes
    ensures var sub := s.boxes[id];
            && 0 <= sub.first <= |s.history| && sub.replay + sub.box.accepted == s.history[sub.first..]
            && Mailboxes.Inv(sub.box) && sub.box.phase != Mailboxes.Aborted
  {
    var sub := s.boxes[id];
    TracksAt(s, id);
    assert sub.Reach() == |s.history| && sub.box.phase == Mailboxes.Open;
    hide Inv, RingInv, SourceInv, BoxesInv, FlightInv, Mailboxes.Inv, RingOf;
    assert s.history[sub.first..] == s.history[sub.first..sub.cut] + s.history[sub.cut..sub.Reach()];
  }

  /** No publication under way or still to come will reach this subscriber. */
  ghost predicate Severed(s: State, id: nat) {
    && id in s.boxes
    && (s.flight.Delivering? ==> id !in s.flight.todo)
    && (id in s.subs ==> s.flight.Delivering? && id in s.flight.failed)
  }

  lemma SeveredStep(s: State, action: Action, id: nat)
    requires FlightInv(s) && Severed(s, id) && id <= s.nextSubId
    ensures var t := Step(s, action);
            Severed(t, id) && t.boxes[id].box.accepted == s.boxes[id].box.accepted
  {
  }

  /** Once severed a subscriber accepts nothing more: its stream ends, it never skips. */
  lemma {:induction false} SeveredStaysSevered(s: State, actions: seq<Action>, id: nat)
    requires Inv(s) && Severed(s, id)
    ensures var t := Run(s, actions);
            Severed(t, id) && t.boxes[id].box.accepted == s.boxes[id].box.accepted
    decreases |actions|
  {
    if actions != [] {
      StepKeepsInv(s, actions[0]);
      SeveredStep(s, actions[0], id);
      SeveredStaysSevered(Step(s, actions[0]), actions[1..], id);
    }
  }

  /** A subscriber whose mailbox refused an event: still to be dropped, still to be aborted, or aborted. */
  ghost predicate Doomed(s: State, id: nat) {
    && Severed(s, id)
    && (match s.flight
        case Idle => s.boxes[id].box.phase == Mailboxes.Aborted
        case Delivering(_, _, failed) => id in failed || s.boxes[id].box.phase == Mailboxes.Aborted
        case Aborting(failed) => id in failed || s.boxes[id].box.phase == Mailboxes.Aborted)
  }

  /** A refused delivery dooms the subscriber. */
  lemma RefusalDooms(s: State, id: nat)
    requires Inv(s) && s.flight.Delivering? && id in s.flight.todo
    requires Mailboxes.SendHold(s.boxes[id].box, s.flight.event, RetainedBytes(s.flight.event)).1 != Mailboxes.Sent
    ensures Doomed(DeliverTo(s, id), id)
    ensures DeliverTo(s, id).boxes[id].box.accepted == s.boxes[id].box.accepted
  {
  }

  /**
   A doomed subscriber stays doomed in every continuation, so as soon as the publish lock is free
   it is unregistered and its mailbox aborted, and from its abort on it is handed nothing.
  */
  lemma {:induction false} DoomedEnds(s: State, actions: seq<Action>, id: nat)
    requires Inv(s) && Doomed(s, id)
    ensures var t := Run(s, actions);
            && Doomed(t, id) && t.boxes[id].box.accepted == s.boxes[id].box.accepted
            && (t.flight == Idle ==> id !in t.subs && t.boxes[id].box.phase == Mailboxes.Aborted)
            && (s.boxes[id].box.phase == Mailboxes.Aborted ==> t.boxes[id].box.delivered == s.boxes[id].box.delivered)
    decreases |actions|
  {
    if actions != [] {
      var t := Step(s, actions[0]);
      StepKeepsInv(s, actions[0]);
      assert Tracks(s.config, s.history, s.boxes[id]);
      SeveredStep(s, actions[0], id);
      DoomedStep(s, actions[0], id);
      DoomedEnds(t, actions[1..], id);
    }
  }

  lemma DoomedStep(s: State, action: Action, id: nat)
    requires FlightInv(s) && Doomed(s, id) && id <= s.nextSubId
    requires s.boxes[id].box.phase == Mailboxes.Aborted ==> s.boxes[id].box.queue == []
    ensures var t := Step(s, action);
            && Doomed(t, id)
            && (s.boxes[id].box.phase == Mailboxes.Aborted ==>
                  t.boxes[id].box.phase == Mailboxes.Aborted && t.boxes[id].box.delivered == s.boxes[id].box.delivered)
  {
    SeveredStep(s, action, id);
    if action.DoAbortFailed? && s.flight.Aborting? {
      assert id == action.id || id !in s.flight.failed || id in s.flight.failed - {action.id};
    }
  }

  // ---------------------------------------------------------------- a publication comes to its end

  /** Steps of the publisher that holds the publish lock. */
  predicate Settling(action: Action) { action.DoDeliverTo? || action.DoEndDelivery? || action.DoAbortFailed? }

  function FlightRank(flight: Flight): nat {
    match flight
    case Idle => 0
    case Delivering(_, todo, failed) => 2 + 2 * |todo| + |failed|
    case Aborting(failed) => 1 + |failed|
  }

  lemma OneDelivered(s: State, id: nat)
    requires FlightInv(s) && s.flight.Delivering? && id in s.flight.todo
    ensures FlightRank(Step(s, DoDeliverTo(id)).flight) < FlightRank(s.flight)
  {
    hide Mailboxes.SendHold, FlightInv;
    var todo, failed := s.flight.todo, s.flight.failed;
    assert id in s.boxes by { TodoHasBoxes(s); }
    assert todo == (todo - {id}) + {id};
    assert |todo - {id}| == |todo| - 1 && |failed + {id}| <= |failed| + 1;
    var flight := Step(s, DoDeliverTo(id)).flight;
    assert flight.Delivering? && flight.todo == todo - {id} && (flight.failed == failed || flight.failed == failed + {id});
  }

  lemma TodoHasBoxes(s: State)
    requires FlightInv(s) && s.flight.Delivering?
    ensures s.flight.todo <= s.boxes.Keys
  {
  }

  lemma LastDelivered(s: State)
    requires s.flight.Delivering? && s.flight.todo == {}
    ensures FlightRank(Step(s, DoEndDelivery).flight) < FlightRank(s.flight)
  {
  }

  lemma OneAborted(s: State, id: nat)
    requires s.flight.Aborting? && id in s.flight.failed && id in s.boxes
    ensures FlightRank(Step(s, DoAbortFailed(id)).flight) < FlightRank(s.flight)
  {
    hide Mailboxes.AbortHold;
    var failed := s.flight.failed;
    assert failed == (failed - {id}) + {id} && |failed - {id}| == |failed| - 1;
  }

  lemma SettlingIsQuiet(s: State, action: Action)
    requires Settling(action)
    ensures Step(s, action).history == s.history && Step(s, action).closed == s.closed
  {
    hide Mailboxes.SendHold, Mailboxes.AbortHold;
  }

  /** The publisher can always go on. */
  lemma FlightMoves(s: State) returns (action: Action)
    requires FlightInv(s) && s.flight != Idle
    ensures Settling(action) && FlightRank(Step(s, action).flight) < FlightRank(s.flight)
  {
    hide Step, FlightRank;
    match s.flight
    case Delivering(_, todo, failed) =>
      if id :| id in todo {
        action := DoDeliverTo(id);
        OneDelivered(s, id);
      } else {
        action := DoEndDelivery;
        LastDelivered(s);
      }
    case Aborting(failed) =>
      var id :| id in failed;
      action := DoAbortFailed(id);
      OneAborted(s, id);
  }

  lemma FlightOf(s: State)
    requires Inv(s)
    ensures FlightInv(s)
  {
    hide RingInv, SourceInv, BoxesInv, FlightInv;
  }

  /** From every reachable state the publication under way can be finished, whatever its subscribers do. */
  lemma {:induction false} PublicationSettles(s: State) returns (schedule: seq<Action>)
    requires Inv(s)
    ensures forall action | action in schedule :: Settling(action)
    ensures Run(s, schedule).flight == Idle && Run(s, schedule).history == s.history
    decreases FlightRank(s.flight)
  {
    schedule := [];
    if s.flight != Idle {
      FlightOf(s);
      hide Inv, FlightInv, Step, Settling, FlightRank;
      var action := FlightMoves(s);
      SettlingIsQuiet(s, action);
      StepKeepsInv(s, action);
      var rest := PublicationSettles(Step(s, action));
      schedule := [action] + rest;
      assert schedule[1..] == rest;
    }
  }
}
