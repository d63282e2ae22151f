/**
 Calls over the Pi transport (internal/supervisor/pirpc/client.go).

 A call registers a one-place channel under a fresh ID; the reader, a terminating goroutine and the
 caller itself race to take it out of the pending map. Each function is one critical section or one
 channel operation, and a run interleaves them in any order.
*/
module PiRpc {
  import opened Wrappers

  /** A response with its position on the wire, or the error the client was terminated with. */
  datatype Result = Response(seqNo: nat) | Terminated

  datatype Phase = Writing | Awaiting | Answered(result: Result) | Cancelled

  predicate Live(phase: Phase) { phase == Writing || phase == Awaiting }

  /** What became of a record the reader numbered. */
  datatype Destination = ToCall(id: nat) | ToEvents

  datatype State = State(
    nextID: nat,
    pending: set<nat>,
    closed: bool,
    phases: map<nat, Phase>,
    channels: map<nat, seq<Result>>,
    readerHolds: Option<nat>,           // taken out of pending, not sent yet; its response is the last record
    terminatorHolds: set<nat>,
    records: seq<Destination>)          // the reader's sequence counter is its length

  function New(): State { State(0, {}, false, map[], map[], None, {}, []) }

  // ---------------------------------------------------------------- critical sections

  function RegisterHold(s: State): (State, Option<nat>) {
    if s.closed then (s, None)
    else
      (s.(nextID := s.nextID + 1, pending := s.pending + {s.nextID},
          phases := s.phases[s.nextID := Writing], channels := s.channels[s.nextID := []]), Some(s.nextID))
  }

  /** The reader numbers a record; a response to a pending call goes to it, anything else to the events. */
  function RecordHold(s: State, response: Option<nat>): State {
    if response.Some? && response.value in s.pending
    then s.(pending := s.pending - {response.value}, readerHolds := response, records := s.records + [ToCall(response.value)])
    else s.(records := s.records + [ToEvents])
  }

  function RemovePendingHold(s: State, id: nat): State { s.(pending := s.pending - {id}) }

  function TerminateHold(s: State): State {
    if s.closed then s else s.(closed := true, terminatorHolds := s.pending, pending := {})
  }

  function Sent(s: State, id: nat, result: Result): State
    requires id in s.channels
  {
    s.(channels := s.channels[id := s.channels[id] + [result]])
  }

  class Client {
    var nextID: nat
    var pending: set<nat>
    var closed: bool
    var phases: map<nat, Phase>
    var channels: map<nat, seq<Result>>
    var readerHolds: Option<nat>
    var terminatorHolds: set<nat>
    var records: seq<Destination>

    ghost function Abs(): State
      reads this
    {
      State(nextID, pending, closed, phases, channels, readerHolds, terminatorHolds, records)
    }

    constructor ()
      ensures Abs() == New()
    {
      nextID, pending, closed, phases, channels := 0, {}, false, map[], map[];
      readerHolds, terminatorHolds, records := None, {}, [];
    }

    method Register() returns (id: Option<nat>)
      modifies this
      ensures (Abs(), id) == RegisterHold(old(Abs()))
      ensures id.None? <==> old(closed)
      ensures id.None? ==> Abs() == old(Abs())
      ensures id.Some? ==>
                && id.value in pending && pending - {id.value} <= old(pending) <= pending
                && phases[id.value] == Writing && channels[id.value] == [] && nextID > id.value
    {
      if closed {
        return None;
      }
      id := Some(nextID);
      pending := pending + {nextID};
      phases := phases[nextID := Writing];
      channels := channels[nextID := []];
      nextID := nextID + 1;
    }

    /** dispatchResponse up to the end of its lock hold. */
    method DispatchResponse(id: nat) returns (found: bool)
      modifies this
      ensures Abs() == RecordHold(old(Abs()), Some(id)) && (found <==> id in old(pending))
      // a pending call's response is taken out for it, under the next number; any other goes to the events
      ensures found ==> id !in pending && pending == old(pending) - {id} && readerHolds == Some(id)
      ensures found ==> records == old(records) + [ToCall(id)]
      ensures !found ==> Abs() == old(Abs()).(records := old(records) + [ToEvents])
      ensures phases == old(phases) && channels == old(channels) && closed == old(closed)
    {
      found := id in pending;
      if found {
        pending := pending - {id};
        readerHolds := Some(id);
      }
      records := records + [if found then ToCall(id) else ToEvents];
    }

    method RemovePending(id: nat)
      modifies this`pending
      ensures Abs() == RemovePendingHold(old(Abs()), id)
      ensures pending == old(pending) - {id}
    {
      pending := pending - {id};
    }

    method Terminate()
      modifies this
      ensures Abs() == TerminateHold(old(Abs()))
      ensures closed && (old(closed) ==> Abs() == old(Abs()))
      ensures !old(closed) ==> pending == {} && terminatorHolds == old(pending)
      ensures channels == old(channels) && phases == old(phases)
    {
      if closed {
        return;
      }
      closed := true;
      terminatorHolds := pending;
      pending := {};
    }

    /** Sending the termination error to every call that was pending; no send blocks. */
    method FailPending()
      requires forall id | id in terminatorHolds :: id in channels && channels[id] == []
      modifies this`terminatorHolds, this`channels
      ensures terminatorHolds == {} && channels.Keys == old(channels).Keys
      ensures forall id | id in channels ::
                channels[id] == if id in old(terminatorHolds) then [Terminated] else old(channels)[id]
    {
      while terminatorHolds != {}
        invariant terminatorHolds <= old(terminatorHolds) && channels.Keys == old(channels).Keys
        invariant forall id | id in channels ::
                    channels[id] == if id in old(terminatorHolds) && id !in terminatorHolds then [Terminated] else old(channels)[id]
        decreases |terminatorHolds|
      {
        var id :| id in terminatorHolds;
        channels := channels[id := channels[id] + [Terminated]];
        terminatorHolds := terminatorHolds - {id};
      }
    }
  }

  // ---------------------------------------------------------------- runs

  datatype Action =
    | Call
    | Written(id: nat)
    | WriteFails(id: nat)                  // the caller removes its entry and returns
    | Receive(id: nat)
    | Cancel(id: nat)
    | Read(response: Option<nat>)
    | ReaderSends
    | Terminate
    | TerminatorSends(id: nat)

  predicate Enabled(s: State, a: Action) {
    match a
    case Written(id) => id in s.phases && s.phases[id] == Writing
    case WriteFails(id) => id in s.phases && s.phases[id] == Writing
    case Receive(id) => id in s.phases && s.phases[id] == Awaiting && id in s.channels && s.channels[id] != []
    case Cancel(id) => id in s.phases && s.phases[id] == Awaiting
    case Read(_) => s.readerHolds.None?
    case ReaderSends => s.readerHolds.Some? && s.readerHolds.value in s.channels
    case TerminatorSends(id) => id in s.terminatorHolds && id in s.channels
    case _ => true
  }

  function Step(s: State, a: Action): State {
    if !Enabled(s, a) then s
    else match a
      case Call => RegisterHold(s).0
      case Written(id) => s.(phases := s.phases[id := Awaiting])
      case WriteFails(id) => RemovePendingHold(s, id).(phases := s.phases[id := Cancelled])
      case Receive(id) => s.(phases := s.phases[id := Answered(s.channels[id][0])], channels := s.channels[id := s.channels[id][1..]])
      case Cancel(id) => RemovePendingHold(s, id).(phases := s.phases[id := Cancelled])
      case Read(response) => RecordHold(s, response)
      case ReaderSends => Sent(s, s.readerHolds.value, Response(|s.records|)).(readerHolds := None)
      case Terminate => TerminateHold(s)
      case TerminatorSends(id) => Sent(s, id, Terminated).(terminatorHolds := s.terminatorHolds - {id})
  }

  function Run(s: State, actions: seq<Action>): State
    decreases |actions|
  {
    if actions == [] then s else Run(Step(s, actions[0]), actions[1..])
  }

  // ---------------------------------------------------------------- what every run keeps

  function Count(b: bool): nat { if b then 1 else 0 }

  /** Where a call's one answer is: still owed, in a sender's hands, or in the channel. */
  function Places(s: State, id: nat): nat
    requires id in s.channels
  {
    Count(id in s.pending) + Count(s.readerHolds == Some(id)) + Count(id in s.terminatorHolds) + |s.channels[id]|
  }

  /** A result is the response at its own position of the wire, or the termination error. */
  predicate Genuine(s: State, id: nat, result: Result) {
    result.Response? ==> 0 < result.seqNo <= |s.records| && s.records[result.seqNo - 1] == ToCall(id)
  }

  predicate CallInv(s: State, id: nat)
    requires id in s.phases && id in s.channels
  {
    && (if Live(s.phases[id]) then Places(s, id) == 1 else Places(s, id) <= 1)
    && (!Live(s.phases[id]) ==> id !in s.pending)
    && (s.phases[id].Answered? ==> Places(s, id) == 0 && Genuine(s, id, s.phases[id].result))
    && (forall r | r in s.channels[id] :: Genuine(s, id, r))
  }

  predicate HoldsInv(s: State) {
    && s.pending <= s.phases.Keys && s.terminatorHolds <= s.phases.Keys
    && (s.readerHolds.Some? ==> s.readerHolds.value in s.phases && s.records != [] &&
                                s.records[|s.records| - 1] == ToCall(s.readerHolds.value))
    && (s.closed ==> s.pending == {})
    && (!s.closed ==> s.terminatorHolds == {})
    && s.phases.Keys == s.channels.Keys
    && (forall id | id in s.phases :: id < s.nextID)
  }

  predicate Inv(s: State) { HoldsInv(s) && forall id | id in s.phases :: CallInv(s, id) }

  lemma RecordsGrow(s: State, a: Action, id: nat)
    ensures s.records <= Step(s, a).records
    ensures forall r | Genuine(s, id, r) :: Genuine(Step(s, a), id, r)
  {
  }

  /** What a step leaves of the answers already given or sent is what they were, or the first one received. */
  lemma ChannelStep(s: State, a: Action, id: nat)
    requires Inv(s) && Enabled(s, a) && id in s.phases
    ensures var t := Step(s, a);
            && id in t.phases && id in t.channels
            && (forall r | r in t.channels[id] :: r in s.channels[id] || Genuine(t, id, r))
            && (t.phases[id].Answered? ==> s.phases[id] == t.phases[id] || t.phases[id].result in s.channels[id])
  {
    hide Places;
    assert CallInv(s, id);
    assert s.channels[id] != [] ==> s.channels[id][0] in s.channels[id];
  }

  lemma PlacesStep(s: State, a: Action, id: nat)
    requires Inv(s) && Enabled(s, a) && id in s.phases
    ensures var t := Step(s, a);
            && id in t.phases && id in t.channels
            && (if Live(t.phases[id]) then Places(t, id) == 1 else Places(t, id) <= 1)
            && (t.phases[id].Answered? ==> Places(t, id) == 0)
            && (!Live(t.phases[id]) ==> id !in t.pending)
  {
    assert CallInv(s, id);
    hide Genuine;
  }

  lemma CallStep(s: State, a: Action, id: nat)
    requires Inv(s) && Enabled(s, a) && id in s.phases
    ensures id in Step(s, a).phases && id in Step(s, a).channels && CallInv(Step(s, a), id)
  {
    assert CallInv(s, id);
    RecordsGrow(s, a, id);
    ChannelStep(s, a, id);
    PlacesStep(s, a, id);
    hide Step, Enabled, HoldsInv, Places, Genuine;
  }

  lemma HoldsStep(s: State, a: Action)
    requires HoldsInv(s) && Enabled(s, a)
    ensures HoldsInv(Step(s, a))
  {
  }

  lemma StepKeepsInv(s: State, a: Action)
    requires Inv(s)
    ensures Inv(Step(s, a))
  {
    if Enabled(s, a) {
      HoldsStep(s, a);
      forall id | id in Step(s, a).phases ensures CallInv(Step(s, a), id) {
        if id in s.phases {
          CallStep(s, a, id);
        }
      }
    }
  }

  lemma {:induction false} EveryRunKeepsInv(s: State, actions: seq<Action>)
    requires Inv(s)
    ensures Inv(Run(s, actions))
    decreases |actions|
  {
    if actions != [] {
      StepKeepsInv(s, actions[0]);
      EveryRunKeepsInv(Step(s, actions[0]), actions[1..]);
    }
  }

  /** In every reachable state a call that waits is owed exactly one answer, and it is in exactly one place. */
  lemma NoWaiterStranded(actions: seq<Action>, id: nat)
    requires var s := Run(New(), actions); id in s.phases && Live(s.phases[id])
    ensures var s := Run(New(), actions); id in s.channels && Places(s, id) == 1
    ensures var s := Run(New(), actions);
            s.closed && s.readerHolds.None? && s.terminatorHolds == {} ==> |s.channels[id]| == 1
  {
    EveryRunKeepsInv(New(), actions);
    assert CallInv(Run(New(), actions), id);
  }

  /** Neither the reader nor the terminator ever blocks on a call's channel. */
  lemma NoSendBlocks(actions: seq<Action>, id: nat)
    requires var s := Run(New(), actions); s.readerHolds == Some(id) || id in s.terminatorHolds
    ensures var s := Run(New(), actions); id in s.channels && s.channels[id] == []
  {
    EveryRunKeepsInv(New(), actions);
    assert CallInv(Run(New(), actions), id);
  }

  /** An answered call got the record at the position it was told, and no other call got that one. */
  lemma AnswerIsOwn(actions: seq<Action>, id: nat, other: nat, seqNo: nat)
    requires var s := Run(New(), actions);
             && id in s.phases && s.phases[id] == Answered(Response(seqNo))
             && other in s.phases && s.phases[other] == Answered(Response(seqNo))
    ensures id == other && 0 < seqNo <= |Run(New(), actions).records|
  {
    EveryRunKeepsInv(New(), actions);
    assert CallInv(Run(New(), actions), id) && CallInv(Run(New(), actions), other);
  }

  lemma RunThree(s: State, a: Action, b: Action, c: Action)
    ensures Run(s, [a, b, c]) == Step(Step(Step(s, a), b), c)
  {
    assert [a, b, c][1..] == [b, c] && [b, c][1..] == [c] && [c][1..] == [];
    assert Run(Step(s, a), [b, c]) == Run(Step(Step(s, a), b), [c]);
    assert Run(Step(Step(s, a), b), [c]) == Run(Step(Step(Step(s, a), b), c), []);
  }

  /** In every reachable state, a response to a call that waits is numbered next, sent to it and received by it. */
  lemma ResponseAnswersItsCall(actions: seq<Action>, id: nat)
    requires var s := Run(New(), actions);
             id in s.pending && id in s.phases && s.phases[id] == Awaiting && s.readerHolds == None
    ensures var s := Run(New(), actions);
            var t := Run(s, [Read(Some(id)), ReaderSends, Receive(id)]);
            && id in t.phases && t.phases[id] == Answered(Response(|s.records| + 1))
            && t.records == s.records + [ToCall(id)] && t.pending == s.pending - {id} && t.readerHolds == None
  {
    EveryRunKeepsInv(New(), actions);
    var s := Run(New(), actions);
    hide Run;
    assert CallInv(s, id);
    RunThree(s, Read(Some(id)), ReaderSends, Receive(id));
  }

  /** In every reachable state, a record that answers no pending call, a cancelled one's late response included, goes to the events and changes nothing else. */
  lemma OtherRecordsGoToEvents(actions: seq<Action>, response: Option<nat>)
    requires var s := Run(New(), actions);
             && s.readerHolds == None
             && (response.Some? ==> response.value !in s.phases || !Live(s.phases[response.value]))
    ensures var s := Run(New(), actions);
            Step(s, Read(response)) == s.(records := s.records + [ToEvents])
  {
    EveryRunKeepsInv(New(), actions);
    if response.Some? && response.value in Run(New(), actions).phases {
      assert CallInv(Run(New(), actions), response.value);
    }
    hide Run;
  }

  /** Termination answers every call that waits with the error. */
  lemma TerminationAnswersEveryCall(actions: seq<Action>, id: nat)
    requires var s := Run(New(), actions); id in s.pending && id in s.phases && s.phases[id] == Awaiting
    ensures var s := Run(New(), actions);
            var t := Run(s, [Terminate, TerminatorSends(id), Receive(id)]);
            t.closed && id in t.phases && t.phases[id] == Answered(Terminated)
  {
    EveryRunKeepsInv(New(), actions);
    var s := Run(New(), actions);
    hide Run;
    assert CallInv(s, id);
    RunThree(s, Terminate, TerminatorSends(id), Receive(id));
  }

  /** A call that gives up is out of the pending map. */
  lemma CancelledIsNotPending(actions: seq<Action>, id: nat)
    requires var s := Run(New(), actions); id in s.phases && s.phases[id] == Awaiting
    ensures var t := Step(Run(New(), actions), Cancel(id)); t.phases[id] == Cancelled && id !in t.pending
  {
    EveryRunKeepsInv(New(), actions);
    hide Run;
  }

  /** Records go to calls that exist. */
  predicate Addressed(s: State) {
    && HoldsInv(s)
    && forall i | 0 <= i < |s.records| && s.records[i].ToCall? :: s.records[i].id < s.nextID
  }

  lemma {:induction false} RunKeepsRecords(s: State, actions: seq<Action>)
    requires Addressed(s)
    ensures Addressed(Run(s, actions)) && s.records <= Run(s, actions).records && s.nextID <= Run(s, actions).nextID
    decreases |actions|
  {
    if actions != [] {
      if Enabled(s, actions[0]) {
        HoldsStep(s, actions[0]);
      }
      RunKeepsRecords(Step(s, actions[0]), actions[1..]);
    }
  }

  /** A call made after another was answered is answered from a later position of the wire. */
  lemma LaterCallLaterNumber(before: seq<Action>, after: seq<Action>, first: nat, early: nat, second: nat, late: nat)
    requires var s := Run(New(), before); first in s.phases && s.phases[first] == Answered(Response(early))
    requires second >= Run(New(), before).nextID
    requires var t := Run(Run(New(), before), after); second in t.phases && t.phases[second] == Answered(Response(late))
    ensures early < late
  {
    var s := Run(New(), before);
    var t := Run(s, after);
    RunKeepsRecords(New(), before);
    RunKeepsRecords(s, after);
    EveryRunKeepsInv(New(), before);
    EveryRunKeepsInv(s, after);
    assert CallInv(s, first) && CallInv(t, second);
  }

  /** Once closed, a client takes no call and every call it had gets the error, whatever else happens. */
  lemma ClosedTakesNoCall(s: State, a: Action)
    requires Inv(s) && s.closed
    ensures var t := Step(s, a);
            t.closed && t.phases.Keys == s.phases.Keys && t.pending == {} && t.terminatorHolds <= s.terminatorHolds
  {
  }
}
