/**
 Terminal reports and their acknowledgement between a child and its direct parent
 (internal/supervisor/process/protocol.go, internal/supervisor/process/spawn.go,
 internal/supervisor/children.go, internal/supervisor/node.go).

 The two pipes are sequences. Every critical section of either party is a function, and a method of
 the class that holds the state; a run interleaves the sections of the child's reporters, of the one
 CreateChild call, and of any number of cancellers, with faults wherever the source handles one.
*/
module Reporting {
  import opened Wrappers

  const MAX_RECORD_BYTES: nat := 0x10_0000
  const TERMINAL_ACK_BYTE: nat := 0x06

  datatype MessageKind = Ownership | Ready | Read | Write | Failure

  /** `payloads` are the payload fields present, `payload` stands for their content, `encodedBytes` for its encoded length. */
  datatype Message = Message(
    kind: MessageKind,
    session: string,
    payloads: set<MessageKind>,
    payloadSession: string,
    payloadValid: bool,
    payload: string,
    encodedBytes: nat)

  predicate IsTerminal(m: Message) { m.kind in {Read, Write, Failure} }

  predicate Blank(s: string) { forall c | c in s :: c in {' ', '\t', '\n', '\r'} }

  predicate Valid(m: Message) {
    && !Blank(m.session)
    && |m.payloads| == 1 && m.kind in m.payloads
    && (m.kind in {Ownership, Read, Write} ==> m.payloadSession == m.session)
    && m.payloadValid
  }

  /** A failed write may leave part of a record on the wire. */
  datatype Item = Whole(message: Message) | Torn

  datatype WriteOutcome = Written | FailedClean | FailedTorn

  // ---------------------------------------------------------------- the child's reporter

  datatype Sender = Sender(terminalSent: bool, wire: seq<Item>)

  function WireWrite(wire: seq<Item>, m: Message, outcome: WriteOutcome): (seq<Item>, bool) {
    if !Valid(m) || m.encodedBytes + 1 > MAX_RECORD_BYTES then (wire, false)
    else match outcome
      case Written => (wire + [Whole(m)], true)
      case FailedClean => (wire, false)
      case FailedTorn => (wire + [Torn], false)
  }

  function NonterminalHold(s: Sender, m: Message, outcome: WriteOutcome): (Sender, bool) {
    if s.terminalSent then (s, false)
    else
      var (wire, ok) := WireWrite(s.wire, m, outcome);
      (s.(wire := wire), ok)
  }

  /** What the ack reader concludes from the bytes it read before the end of the pipe. */
  predicate AckAccepted(bytes: seq<nat>) { bytes == [TERMINAL_ACK_BYTE] }

  class Reporter {
    var terminalSent: bool
    var wire: seq<Item>

    ghost function Abs(): Sender
      reads this
    {
      Sender(terminalSent, wire)
    }

    constructor ()
      ensures Abs() == Sender(false, [])
    {
      terminalSent, wire := false, [];
    }

    method SendWire(m: Message, outcome: WriteOutcome) returns (ok: bool)
      modifies this`wire
      ensures (wire, ok) == WireWrite(old(wire), m, outcome)
      ensures ok ==> wire == old(wire) + [Whole(m)]
      ensures ok <==> Valid(m) && m.encodedBytes < MAX_RECORD_BYTES && outcome == Written
      ensures !ok ==> wire == old(wire) || wire == old(wire) + [Torn]
    {
      if !Valid(m) {
        return false;
      }
      if m.encodedBytes + 1 > MAX_RECORD_BYTES {
        return false;
      }
      match outcome {
        case Written => wire := wire + [Whole(m)];
        case FailedClean =>
        case FailedTorn => wire := wire + [Torn];
      }
      ok := outcome == Written;
    }

    /** The gate is held through the write. */
    method SendNonterminal(m: Message, outcome: WriteOutcome) returns (ok: bool)
      modifies this
      ensures (Abs(), ok) == NonterminalHold(old(Abs()), m, outcome)
      ensures old(terminalSent) ==> !ok && wire == old(wire)
      ensures ok ==> wire == old(wire) + [Whole(m)] && !terminalSent
      ensures ok <==> !old(terminalSent) && Valid(m) && m.encodedBytes < MAX_RECORD_BYTES && outcome == Written
    {
      if terminalSent {
        return false;
      }
      ok := SendWire(m, outcome);
    }

    /** The gate of sendTerminal, released before the wire is written. */
    method ClaimTerminal() returns (ok: bool)
      modifies this`terminalSent
      ensures ok == !old(terminalSent) && terminalSent
    {
      ok := !terminalSent;
      terminalSent := true;
    }

    /** sendTerminal when nobody else runs: `ack` is what the pipe holds once the parent closed it. */
    method SendTerminal(m: Message, outcome: WriteOutcome, ack: seq<nat>, readFails: bool, cancelled: bool)
        returns (ok: bool)
      modifies this
      ensures terminalSent
      ensures old(terminalSent) ==> !ok && wire == old(wire)
      ensures !old(terminalSent) ==> wire == WireWrite(old(wire), m, outcome).0
      ensures ok <==> !old(terminalSent) && WireWrite(old(wire), m, outcome).1 && !readFails && !cancelled && AckAccepted(ack)
    {
      var claimed := ClaimTerminal();
      if !claimed {
        return false;
      }
      var sent := SendWire(m, outcome);
      if !sent {
        return false;
      }
      ok := WaitForTerminalAck(ack, readFails, cancelled);
    }

    method WaitForTerminalAck(ack: seq<nat>, readFails: bool, cancelled: bool) returns (ok: bool)
      ensures ok <==> !readFails && !cancelled && AckAccepted(ack)
    {
      if cancelled || readFails {
        return false;
      }
      var data := if |ack| > 2 then ack[..2] else ack;
      if |data| == 0 {
        return false;
      }
      if |data| != 1 || data[0] != TERMINAL_ACK_BYTE {
        return false;
      }
      ok := true;
    }
  }

  // ---------------------------------------------------------------- the parent's end of the pipes

  datatype Receiver = Receiver(
    pendingTerminal: Option<Message>,
    terminalAcked: bool,
    terminalAckClosed: bool,
    ackOnce: bool,
    ackBytes: seq<nat>,
    ackEnd: bool)          // the write end of the acknowledgement pipe is closed

  function NewReceiver(): Receiver { Receiver(None, false, false, false, [], false) }

  function IngestHold(r: Receiver, m: Message): (Receiver, bool) {
    if !IsTerminal(m) then (r, true)
    else if r.pendingTerminal.Some? || r.terminalAcked then (r, false)
    else (r.(pendingTerminal := Some(m)), true)
  }

  datatype AckResult = Acknowledged | NotTerminal | NonePending | Mismatch | AlreadyAcked | EndpointClosed | WriteFailed

  /** A failing close still releases the descriptor. */
  function AcknowledgeHold(r: Receiver, m: Message, writeOk: bool, closeOk: bool): (Receiver, AckResult) {
    if !IsTerminal(m) then (r, NotTerminal)
    else if r.pendingTerminal.None? then (r, NonePending)
    else if r.pendingTerminal.value != m then (r, Mismatch)
    else if r.terminalAcked then (r, AlreadyAcked)
    else if r.terminalAckClosed then (r, EndpointClosed)
    else if r.ackOnce then (r.(terminalAcked := true), Acknowledged)
    else
      (r.(terminalAcked := true, ackOnce := true, ackEnd := true,
          ackBytes := if writeOk then r.ackBytes + [TERMINAL_ACK_BYTE] else r.ackBytes),
       if writeOk && closeOk then Acknowledged else WriteFailed)
  }

  function CloseAckHold(r: Receiver): Receiver {
    if r.terminalAckClosed || r.terminalAcked then r
    else if r.ackOnce then r.(terminalAckClosed := true)
    else r.(terminalAckClosed := true, ackOnce := true, ackEnd := true)
  }

  /** The endpoint is used at most once: for the one byte of the one pending report, or to close it empty. */
  predicate EndpointInv(r: Receiver) {
    && (r.ackOnce <==> r.terminalAcked || r.terminalAckClosed)
    && !(r.terminalAcked && r.terminalAckClosed)
    && (r.ackOnce ==> r.ackEnd)
    && (r.terminalAcked ==> r.pendingTerminal.Some?)
    && (r.ackBytes == [] || (r.ackBytes == [TERMINAL_ACK_BYTE] && r.terminalAcked))
  }

  class Child {
    var pendingTerminal: Option<Message>
    var terminalAcked: bool
    var terminalAckClosed: bool
    var ackOnce: bool
    var ackBytes: seq<nat>
    var ackEnd: bool

    ghost function Abs(): Receiver
      reads this
    {
      Receiver(pendingTerminal, terminalAcked, terminalAckClosed, ackOnce, ackBytes, ackEnd)
    }

    ghost predicate Valid()
      reads this
    {
      EndpointInv(Abs())
    }

    constructor ()
      ensures Valid() && Abs() == NewReceiver()
    {
      pendingTerminal, terminalAcked, terminalAckClosed, ackOnce, ackBytes, ackEnd := None, false, false, false, [], false;
    }

    /** NextMessage on a report that was read and decoded. */
    method Ingest(m: Message) returns (ok: bool)
      requires Valid()
      modifies this`pendingTerminal
      ensures Valid() && (Abs(), ok) == IngestHold(old(Abs()), m)
      ensures ok <==> !IsTerminal(m) || (old(pendingTerminal) == None && !terminalAcked)
      ensures pendingTerminal == if ok && IsTerminal(m) then Some(m) else old(pendingTerminal)
    {
      if IsTerminal(m) {
        if pendingTerminal.Some? || terminalAcked {
          return false;
        }
        pendingTerminal := Some(m);
      }
      ok := true;
    }

    method AcknowledgeTerminal(m: Message, writeOk: bool, closeOk: bool) returns (result: AckResult)
      requires Valid()
      modifies this
      ensures Valid() && (Abs(), result) == AcknowledgeHold(old(Abs()), m, writeOk, closeOk)
      ensures result == Acknowledged <==>
              && IsTerminal(m) && old(pendingTerminal) == Some(m) && !old(ackOnce) && writeOk && closeOk
      ensures result == Acknowledged ==> ackBytes == [TERMINAL_ACK_BYTE] && ackEnd
    {
      if !IsTerminal(m) {
        return NotTerminal;
      }
      if pendingTerminal.None? {
        return NonePending;
      }
      if pendingTerminal.value != m {
        return Mismatch;
      }
      if terminalAcked {
        return AlreadyAcked;
      }
      if terminalAckClosed {
        return EndpointClosed;
      }
      terminalAcked := true;
      result := Acknowledged;
      if !ackOnce {
        ackOnce := true;
        if writeOk {
          ackBytes := ackBytes + [TERMINAL_ACK_BYTE];
        }
        ackEnd := true;
        if !writeOk || !closeOk {
          result := WriteFailed;
        }
      }
    }

    method CloseTerminalAck()
      requires Valid()
      modifies this`terminalAckClosed, this`ackOnce, this`ackEnd
      ensures Valid() && Abs() == CloseAckHold(old(Abs()))
      ensures ackEnd && ackBytes == old(ackBytes) && (terminalAckClosed <==> !terminalAcked)
    {
      if terminalAckClosed || terminalAcked {
        return;
      }
      terminalAckClosed := true;
      if !ackOnce {
        ackOnce, ackEnd := true, true;
      }
    }
  }

  // ---------------------------------------------------------------- who decides

  datatype Disposition = Undecided | Accepted | Cancelled

  function ClaimHold(d: Disposition, claim: Disposition): (Disposition, bool) {
    if d == Undecided then (claim, true) else (d, false)
  }

  class ChildEntry {
    var disposition: Disposition

    constructor ()
      ensures disposition == Undecided
    {
      disposition := Undecided;
    }

    method ClaimAccepted() returns (won: bool)
      modifies this
      ensures (disposition, won) == ClaimHold(old(disposition), Accepted)
      ensures (won <==> old(disposition) == Undecided) && disposition == if won then Accepted else old(disposition)
    {
      if disposition != Undecided {
        return false;
      }
      disposition := Accepted;
      won := true;
    }

    method ClaimCancelled() returns (won: bool)
      modifies this
      ensures (disposition, won) == ClaimHold(old(disposition), Cancelled)
      ensures (won <==> old(disposition) == Undecided) && disposition == if won then Cancelled else old(disposition)
    {
      if disposition != Undecided {
        return false;
      }
      disposition := Cancelled;
      won := true;
    }
  }

  // ---------------------------------------------------------------- both parties

  /** The one sendTerminal call that passed the gate. */
  datatype TerminalCall = NotYet | Claimed(report: Message) | Waiting(report: Message) | Returned(report: Message, ok: bool)

  /** Where CreateChild stands. */
  datatype Creation =
    | AwaitOwnership | AwaitReady | AwaitTerminal
    | Ingested(report: Message) | Won(report: Message)
    | Finished(report: Message) | Failed | Aborted

  datatype State = State(
    sender: Sender,
    call: TerminalCall,
    receiver: Receiver,
    taken: nat,             // wire items the parent has read
    readerStopped: bool,
    disposition: Disposition,
    creation: Creation,
    parentAlive: bool)

  function Start(): State {
    State(Sender(false, []), NotYet, NewReceiver(), 0, false, Undecided, AwaitOwnership, true)
  }

  datatype Action =
    | Nonterminal(m: Message, outcome: WriteOutcome)
    | ClaimTerminal(m: Message)
    | WriteTerminal(outcome: WriteOutcome)
    | FinishWait(readFails: bool)
    | CancelWait
    | Take(childID: string, checksPass: bool)   // CreateChild's next NextMessage
    | GiveUp                                    // CreateChild fails for any other reason
    | Claim
    | Acknowledge(writeOk: bool, closeOk: bool)
    | Cancel                                    // cancelChildExternal's claim
    | CloseAck                                  // any cleanup, escalation or Terminate
    | ParentDies

  /** What CreateChild makes of a message; `checksPass` stands for the ticket, socket, tree and client checks. */
  function OnMessage(creation: Creation, m: Message, childID: string, checksPass: bool): Creation {
    if m.session != childID then Failed
    else match creation
      case AwaitOwnership => if m.kind == Ownership && checksPass then AwaitReady else Failed
      case AwaitReady => if m.kind == Ready && checksPass then AwaitTerminal else Failed
      case AwaitTerminal => if IsTerminal(m) then Ingested(m) else Failed
      case _ => creation
  }

  predicate Receiving(creation: Creation) { creation in {AwaitOwnership, AwaitReady, AwaitTerminal} }

  function TakeNext(s: State, childID: string, checksPass: bool): State {
    if !Receiving(s.creation) then s
    else if s.readerStopped then s.(creation := Quit(s))
    else if s.taken >= |s.sender.wire| then s
    else match s.sender.wire[s.taken]
      case Torn => s.(taken := s.taken + 1, readerStopped := true, creation := Quit(s))
      case Whole(m) =>
        var (receiver, ok) := IngestHold(s.receiver, m);
        s.(taken := s.taken + 1, receiver := receiver,
           creation := if ok then OnMessage(s.creation, m, childID, checksPass) else Quit(s))
  }

  /** How CreateChild ends when it cannot go on: aborted if a cancellation explains it. */
  function Quit(s: State): Creation {
    if s.disposition == Cancelled && s.creation !in {AwaitOwnership, AwaitReady} then Aborted else Failed
  }

  function Step(s: State, action: Action): State {
    match action
    case Nonterminal(m, outcome) =>
      if IsTerminal(m) then s else s.(sender := NonterminalHold(s.sender, m, outcome).0)
    case ClaimTerminal(m) =>
      if !IsTerminal(m) || s.sender.terminalSent then s
      else s.(sender := s.sender.(terminalSent := true), call := Claimed(m))
    case WriteTerminal(outcome) =>
      if !s.call.Claimed? then s
      else
        var (wire, ok) := WireWrite(s.sender.wire, s.call.report, outcome);
        s.(sender := s.sender.(wire := wire),
           call := if ok then Waiting(s.call.report) else Returned(s.call.report, false))
    case FinishWait(readFails) =>
      if !s.call.Waiting? || (!s.receiver.ackEnd && |s.receiver.ackBytes| < 2 && !readFails) then s
      else s.(call := Returned(s.call.report, !readFails && AckAccepted(s.receiver.ackBytes)))
    case CancelWait =>
      if !s.call.Waiting? then s else s.(call := Returned(s.call.report, false))
    case Take(childID, checksPass) => if s.parentAlive then TakeNext(s, childID, checksPass) else s
    case GiveUp =>
      if s.parentAlive && Receiving(s.creation) then s.(creation := Quit(s)) else s
    case Claim =>
      if !s.parentAlive || !s.creation.Ingested? then s
      else
        var (disposition, won) := ClaimHold(s.disposition, Accepted);
        s.(disposition := disposition, creation := if won then Won(s.creation.report) else Aborted)
    case Acknowledge(writeOk, closeOk) =>
      if !s.parentAlive || !s.creation.Won? then s
      else
        var (receiver, result) := AcknowledgeHold(s.receiver, s.creation.report, writeOk, closeOk);
        s.(receiver := receiver, creation := if result == Acknowledged then Finished(s.creation.report) else Quit(s))
    case Cancel => if s.parentAlive then s.(disposition := ClaimHold(s.disposition, Cancelled).0) else s
    case CloseAck => if s.parentAlive then s.(receiver := CloseAckHold(s.receiver)) else s
    case ParentDies => s.(parentAlive := false, receiver := s.receiver.(ackEnd := true))
  }

  function Run(s: State, actions: seq<Action>): State
    decreases |actions|
  {
    if actions == [] then s else Run(Step(s, actions[0]), actions[1..])
  }

  // ---------------------------------------------------------------- what every run keeps

  predicate TerminalAt(wire: seq<Item>, i: nat) {
    i < |wire| && wire[i].Whole? && IsTerminal(wire[i].message)
  }

  /** The wire is nonterminal records followed by at most one terminal record. */
  ghost predicate WireShape(wire: seq<Item>) {
    forall i: nat | TerminalAt(wire, i) :: i == |wire| - 1
  }

  ghost predicate EndsWith(wire: seq<Item>, report: Message) {
    |wire| > 0 && wire[|wire| - 1] == Whole(report) && IsTerminal(report)
  }

  /** The sender's side: a terminal record on the wire is the one the gated call wrote. */
  ghost predicate SenderInv(s: State) {
    && WireShape(s.sender.wire)
    && (s.sender.terminalSent <==> !s.call.NotYet?)
    && (s.call.Claimed? ==> IsTerminal(s.call.report))
    && (s.call.NotYet? || s.call.Claimed? ==> forall i: nat :: !TerminalAt(s.sender.wire, i))
    && (s.call.Waiting? || (s.call.Returned? && s.call.ok) ==> EndsWith(s.sender.wire, s.call.report))
    && (s.call.Returned? && !EndsWith(s.sender.wire, s.call.report) ==> forall i: nat :: !TerminalAt(s.sender.wire, i))
    && (s.call.Returned? && s.call.ok ==> AckAccepted(s.receiver.ackBytes))
  }

  /** The parent's side: what is pending was read off the end of the wire. */
  ghost predicate ReceiverInv(s: State) {
    && EndpointInv(s.receiver)
    && s.taken <= |s.sender.wire|
    && (!s.parentAlive ==> s.receiver.ackEnd)
    && (s.receiver.pendingTerminal.Some? ==>
          s.taken == |s.sender.wire| && EndsWith(s.sender.wire, s.receiver.pendingTerminal.value))
  }

  /** The decision: acknowledging needs acceptance, and acceptance needs an ingested report. */
  ghost predicate DecisionInv(s: State) {
    && (Receiving(s.creation) || s.creation.Ingested? ==> s.disposition != Accepted)
    && (s.creation.Won? || s.creation.Finished? ==> s.disposition == Accepted)
    && (s.creation.Ingested? || s.creation.Won? || s.creation.Finished? ==>
          s.receiver.pendingTerminal == Some(s.creation.report))
    && (s.disposition == Accepted ==> s.receiver.pendingTerminal.Some?)
    && (s.receiver.terminalAcked ==> s.disposition == Accepted && !s.creation.Won?)
    && (s.creation.Finished? ==> AckAccepted(s.receiver.ackBytes))
    && (s.creation.Aborted? ==> s.disposition == Cancelled)
  }

  ghost predicate Inv(s: State) { SenderInv(s) && ReceiverInv(s) && DecisionInv(s) }

  lemma WriteKeepsSenderInv(s: State, action: Action)
    requires Inv(s) && (action.Nonterminal? || action.ClaimTerminal? || action.WriteTerminal?)
    ensures SenderInv(Step(s, action))
    ensures s.sender.wire <= Step(s, action).sender.wire
    ensures s.receiver.pendingTerminal.Some? ==> Step(s, action).sender.wire == s.sender.wire
  {
    var n := |s.sender.wire|;
    var t := Step(s, action);
    assert forall i: nat | i < n :: TerminalAt(t.sender.wire, i) == TerminalAt(s.sender.wire, i);
    if s.receiver.pendingTerminal.Some? {
      assert TerminalAt(s.sender.wire, n - 1);
    }
  }

  lemma StepKeepsInv(s: State, action: Action)
    requires Inv(s)
    ensures Inv(Step(s, action))
  {
    if action.Nonterminal? || action.ClaimTerminal? || action.WriteTerminal? {
      WriteKeepsInv(s, action);
    } else if action.Take? {
      TakeKeepsInv(s, action);
    } else {
      OtherKeepsInv(s, action);
    }
  }

  lemma WriteKeepsInv(s: State, action: Action)
    requires Inv(s) && (action.Nonterminal? || action.ClaimTerminal? || action.WriteTerminal?)
    ensures Inv(Step(s, action))
  {
    WriteKeepsSenderInv(s, action);
    hide SenderInv;
  }

  lemma OtherKeepsInv(s: State, action: Action)
    requires Inv(s)
    requires !action.Nonterminal? && !action.ClaimTerminal? && !action.WriteTerminal? && !action.Take?
    ensures Inv(Step(s, action))
  {
  }

  lemma TakeKeepsInv(s: State, action: Action)
    requires Inv(s) && action.Take?
    ensures Inv(Step(s, action))
  {
    if action.Take? && s.taken < |s.sender.wire| && s.sender.wire[s.taken].Whole? {
      if IsTerminal(s.sender.wire[s.taken].message) {
        assert TerminalAt(s.sender.wire, s.taken);
      }
    }
  }

  lemma {:induction false} EveryRunKeepsInv(s: State, actions: seq<Action>)
    requires Inv(s)
    ensures Inv(Run(s, actions))
    decreases |actions|
  {
    if actions != [] {
      StepKeepsInv(s, actions[0]);
      EveryRunKeepsInv(Step(s, actions[0]), actions[1..]);
    }
  }

  /**
   The protocol's promise: a terminal report returns success only if the parent ingested exactly
   that report, acceptance won, and the pipe carried exactly the one acknowledgement byte.
  */
  lemma ReportSuccessMeansAcceptance(actions: seq<Action>, report: Message)
    requires Run(Start(), actions).call == Returned(report, true)
    ensures var s := Run(Start(), actions);
            && s.receiver.pendingTerminal == Some(report)
            && s.disposition == Accepted
            && s.receiver.terminalAcked && s.receiver.ackBytes == [TERMINAL_ACK_BYTE]
            && 0 < s.taken == |s.sender.wire| && s.sender.wire[s.taken - 1] == Whole(report)
  {
    EveryRunKeepsInv(Start(), actions);
  }

  /** What CreateChild acknowledged is what the child's one terminal call wrote. */
  lemma AcknowledgedIsWhatWasReported(actions: seq<Action>, report: Message)
    requires Run(Start(), actions).creation == Finished(report)
    ensures var s := Run(Start(), actions);
            (s.call.Waiting? || s.call.Returned?) && s.call.report == report && IsTerminal(report)
  {
    EveryRunKeepsInv(Start(), actions);
    var s := Run(Start(), actions);
    assert TerminalAt(s.sender.wire, |s.sender.wire| - 1);
  }

  /** A claim is final. */
  lemma {:induction false} ClaimIsFinal(s: State, actions: seq<Action>)
    requires Inv(s) && s.disposition != Undecided
    ensures Run(s, actions).disposition == s.disposition
    decreases |actions|
  {
    if actions != [] {
      StepKeepsInv(s, actions[0]);
      ClaimIsFinal(Step(s, actions[0]), actions[1..]);
    }
  }

  /** If cancellation wins, no acknowledgement byte is ever written and no report ever succeeds. */
  lemma CancelledIsNeverAcknowledged(before: seq<Action>, after: seq<Action>)
    requires Run(Start(), before).disposition == Cancelled
    ensures var s := Run(Run(Start(), before), after);
            s.receiver.ackBytes == [] && !(s.call.Returned? && s.call.ok) && !s.creation.Finished?
  {
    EveryRunKeepsInv(Start(), before);
    ClaimIsFinal(Run(Start(), before), after);
    EveryRunKeepsInv(Run(Start(), before), after);
  }

  /** In every run the wire carries at most one terminal record, after all others, and at most one byte comes back. */
  lemma OneTerminalOneByte(actions: seq<Action>)
    ensures var s := Run(Start(), actions);
            && WireShape(s.sender.wire) && |s.receiver.ackBytes| <= 1
            && (forall i: nat, j: nat | TerminalAt(s.sender.wire, i) && TerminalAt(s.sender.wire, j) :: i == j)
  {
    EveryRunKeepsInv(Start(), actions);
  }

  /** A waiting reporter is released by the endpoint's only use, whatever that use was, or by the parent's death. */
  lemma UsedEndpointReleasesReporter(actions: seq<Action>)
    requires var s := Run(Start(), actions);
             s.call.Waiting? && (s.receiver.ackOnce || !s.parentAlive)
    ensures var s := Run(Start(), actions);
            Step(s, FinishWait(false)).call == Returned(s.call.report, s.receiver.ackBytes == [TERMINAL_ACK_BYTE])
  {
    EveryRunKeepsInv(Start(), actions);
  }

  /** Undisturbed, the three sections of CreateChild and the end of the pipe make the report succeed. */
  lemma UndisturbedReportSucceeds(s: State, childID: string)
    requires Inv(s) && s.parentAlive && s.call.Waiting? && s.call.report.session == childID
    requires s.creation == AwaitTerminal && s.disposition == Undecided && !s.readerStopped
    requires s.taken == |s.sender.wire| - 1 && !s.receiver.terminalAckClosed
    ensures Run(s, [Take(childID, true), Claim, Acknowledge(true, true), FinishWait(false)]).call ==
            Returned(s.call.report, true)
    ensures Run(s, [Take(childID, true), Claim, Acknowledge(true, true), FinishWait(false)]).creation ==
            Finished(s.call.report)
  {
    var one := Step(s, Take(childID, true));
    StepKeepsInv(s, Take(childID, true));
    assert one.creation == Ingested(s.call.report);
    var two := Step(one, Claim);
    var three := Step(two, Acknowledge(true, true));
    assert three.receiver.ackBytes == [TERMINAL_ACK_BYTE];
    var four := Step(three, FinishWait(false));
    assert [Take(childID, true), Claim, Acknowledge(true, true), FinishWait(false)][1..] ==
           [Claim, Acknowledge(true, true), FinishWait(false)];
    assert [Claim, Acknowledge(true, true), FinishWait(false)][1..] == [Acknowledge(true, true), FinishWait(false)];
    assert [Acknowledge(true, true), FinishWait(false)][1..] == [FinishWait(false)];
    assert Run(four, []) == four;
    assert Run(three, [FinishWait(false)]) == four;
  }

  // ---------------------------------------------------------------- what is on the wire, and what CreateChild admits

  /** A whole record names a session, carries exactly the payload of its kind, for that session, and fits the limit. */
  ghost predicate Sound(m: Message) {
    && (exists c :: c in m.session && c != ' ' && c != '\t' && c != '\n' && c != '\r')
    && m.payloads == {m.kind}
    && (m.kind == Ownership || m.kind == Read || m.kind == Write ==> m.payloadSession == m.session)
    && m.payloadValid && m.encodedBytes < 0x10_0000
  }

  lemma OnlyPayload(m: Message)
    requires Valid(m) && m.encodedBytes + 1 <= MAX_RECORD_BYTES
    ensures Sound(m)
  {
    var c :| c in m.session && c !in {' ', '\t', '\n', '\r'};
    assert m.payloads == {m.kind} by {
      var rest := m.payloads - {m.kind};
      assert |rest| == 0;
      assert m.payloads == rest + {m.kind};
    }
  }

  ghost predicate AllSound(wire: seq<Item>) {
    forall i | 0 <= i < |wire| && wire[i].Whole? :: Sound(wire[i].message)
  }

  lemma WriteIsSound(wire: seq<Item>, m: Message, outcome: WriteOutcome)
    requires AllSound(wire)
    ensures AllSound(WireWrite(wire, m, outcome).0)
  {
    if Valid(m) && m.encodedBytes + 1 <= MAX_RECORD_BYTES {
      OnlyPayload(m);
    }
    hide Valid, Sound;
  }

  /** In every run each whole record on the wire is sound. */
  lemma {:induction false} EveryRecordIsSound(s: State, actions: seq<Action>)
    requires AllSound(s.sender.wire)
    ensures AllSound(Run(s, actions).sender.wire)
    decreases |actions|
  {
    hide AllSound, WireWrite;
    if actions != [] {
      match actions[0] {
        case Nonterminal(m, outcome) => WriteIsSound(s.sender.wire, m, outcome);
        case WriteTerminal(outcome) =>
          if s.call.Claimed? {
            WriteIsSound(s.sender.wire, s.call.report, outcome);
          }
        case _ =>
      }
      EveryRecordIsSound(Step(s, actions[0]), actions[1..]);
    }
  }

  /** One CreateChild looks for one child. */
  ghost predicate ForChild(actions: seq<Action>, childID: string) {
    forall a | a in actions && a.Take? :: a.childID == childID
  }

  ghost predicate Names(item: Item, kind: MessageKind, childID: string) {
    item.Whole? && item.message.kind == kind && item.message.session == childID
  }

  ghost predicate Introduced(wire: seq<Item>, childID: string) {
    |wire| >= 2 && Names(wire[0], Ownership, childID) && Names(wire[1], Ready, childID)
  }

  /** How far CreateChild has come tells what it has read. */
  ghost predicate Admitted(s: State, childID: string) {
    && s.taken <= |s.sender.wire|
    && (s.creation == AwaitOwnership ==> s.taken == 0)
    && (s.creation == AwaitReady ==> s.taken == 1 && Names(s.sender.wire[0], Ownership, childID))
    && (s.creation == AwaitTerminal ==> s.taken == 2 && Introduced(s.sender.wire, childID))
    && (s.creation.Ingested? || s.creation.Won? || s.creation.Finished? ==>
          && s.taken == 3 && Introduced(s.sender.wire, childID) && s.sender.wire[2] == Whole(s.creation.report)
          && s.creation.report.session == childID && s.creation.report.kind in {Read, Write, Failure})
  }

  lemma AdmittedStep(s: State, a: Action, childID: string)
    requires Admitted(s, childID) && (a.Take? ==> a.childID == childID)
    ensures Admitted(Step(s, a), childID)
  {
    assert s.sender.wire <= Step(s, a).sender.wire;
    if a.Take? {
      TakeAdmits(s, a, childID);
    }
  }

  lemma TakeAdmits(s: State, a: Action, childID: string)
    requires Admitted(s, childID) && a.Take? && a.childID == childID
    ensures Admitted(Step(s, a), childID)
  {
  }

  lemma {:induction false} AdmittedRun(s: State, actions: seq<Action>, childID: string)
    requires Admitted(s, childID) && ForChild(actions, childID)
    ensures Admitted(Run(s, actions), childID)
    decreases |actions|
  {
    hide Admitted, Step;
    if actions != [] {
      assert actions[0] in actions;
      AdmittedStep(s, actions[0], childID);
      AdmittedRun(Step(s, actions[0]), actions[1..], childID);
    }
  }

  /** In every run CreateChild finishes only on its own child's ownership, readiness and terminal report, in that order and nothing else. */
  lemma FinishedMeansIntroduced(actions: seq<Action>, childID: string, report: Message)
    requires ForChild(actions, childID) && Run(Start(), actions).creation == Finished(report)
    ensures var s := Run(Start(), actions);
            && s.taken == 3 <= |s.sender.wire| && Introduced(s.sender.wire, childID)
            && report.kind in {Read, Write, Failure} && report.session == childID && s.sender.wire[2] == Whole(report)
  {
    AdmittedRun(Start(), actions, childID);
  }

  /**
   How a CreateChild ends that gets no acceptable message, or loses the claim: aborted exactly when a
   cancellation explains it, which before readiness is not asked; failed otherwise.
  */
  lemma EndsExactly(actions: seq<Action>, childID: string, checksPass: bool)
    requires Run(Start(), actions).parentAlive
    ensures var s := Run(Start(), actions);
            s.creation == AwaitOwnership || s.creation == AwaitReady ==> Step(s, GiveUp).creation == Failed
    ensures var s := Run(Start(), actions);
            s.creation == AwaitTerminal ==> Step(s, GiveUp).creation == if s.disposition == Cancelled then Aborted else Failed
    ensures var s := Run(Start(), actions);
            s.creation.Ingested? ==>
              Step(s, Claim).creation == if s.disposition == Cancelled then Aborted else Won(s.creation.report)
    ensures var s := Run(Start(), actions);
            s.creation == AwaitTerminal && !s.readerStopped && s.taken < |s.sender.wire| && s.sender.wire[s.taken].Whole? ==>
              var m := s.sender.wire[s.taken].message;
              Step(s, Take(childID, checksPass)).creation ==
              (if m.session == childID && m.kind in {Read, Write, Failure} then Ingested(m) else Failed)
  {
    EveryRunKeepsInv(Start(), actions);
    var s := Run(Start(), actions);
    if s.creation == AwaitTerminal && s.receiver.pendingTerminal.Some? {
      assert s.taken == |s.sender.wire|;
    }
    hide Run;
  }

  // ---------------------------------------------------------------- when acceptance is acknowledged, exactly

  /**
   In every run, what an acknowledgement of an accepted report does: the byte is in the pipe if and only
   if nobody closed the endpoint before and the write works, CreateChild finishes if and only if the close
   works too, and a reporter that waits then succeeds if and only if the byte is there.
  */
  lemma AcknowledgeExactly(actions: seq<Action>, writeOk: bool, closeOk: bool)
    requires var s := Run(Start(), actions); s.creation.Won? && s.parentAlive
    ensures var s := Run(Start(), actions);
            var t := Step(s, Acknowledge(writeOk, closeOk));
            && (AckAccepted(t.receiver.ackBytes) <==> !s.receiver.terminalAckClosed && writeOk)
            && (t.creation.Finished? <==> !s.receiver.terminalAckClosed && writeOk && closeOk)
            && (t.creation.Finished? || t.creation.Failed?)
            && (t.call.Waiting? ==>
                  (Step(t, FinishWait(false)).call == Returned(t.call.report, true) <==>
                     !s.receiver.terminalAckClosed && writeOk))
  {
    EveryRunKeepsInv(Start(), actions);
  }

  predicate Over(creation: Creation) { creation.Finished? || creation.Failed? || creation.Aborted? }

  lemma OverStep(s: State, action: Action)
    requires Inv(s) && Over(s.creation)
    ensures var t := Step(s, action);
            && t.creation == s.creation && t.receiver.ackBytes == s.receiver.ackBytes
            && (t.disposition == Accepted <==> s.disposition == Accepted)
  {
  }

  /** Once CreateChild is over its end is final, and so are the pipe's bytes and whether acceptance won. */
  lemma {:induction false} OverIsFinal(s: State, actions: seq<Action>)
    requires Inv(s) && Over(s.creation)
    ensures var t := Run(s, actions);
            && t.creation == s.creation && t.receiver.ackBytes == s.receiver.ackBytes
            && (t.disposition == Accepted <==> s.disposition == Accepted)
    decreases |actions|
  {
    hide Inv, Step;
    if actions != [] {
      StepKeepsInv(s, actions[0]);
      OverStep(s, actions[0]);
      OverIsFinal(Step(s, actions[0]), actions[1..]);
    }
  }

  /** A CreateChild that ends with acceptance won ends in its acknowledgement. */
  lemma EndsInAcknowledge(s: State, action: Action)
    requires Inv(s) && !Over(s.creation)
    requires Over(Step(s, action).creation) && Step(s, action).disposition == Accepted
    ensures action.Acknowledge? && s.creation.Won? && s.parentAlive
    ensures var t := Step(s, action);
            && (AckAccepted(t.receiver.ackBytes) <==> !s.receiver.terminalAckClosed && action.writeOk)
            && t.creation == (if !s.receiver.terminalAckClosed && action.writeOk && action.closeOk
                              then Finished(s.creation.report) else Failed)
  {
  }

  /** The one moment `k` at which the run `t` of `actions` from `s` acknowledged, and what it decided. */
  ghost predicate AcknowledgedAt(s: State, actions: seq<Action>, k: nat, t: State) {
    && k < |actions| && actions[k].Acknowledge?
    && var u := Run(s, actions[..k]);
       && u.creation.Won? && u.parentAlive
       && (AckAccepted(t.receiver.ackBytes) <==> !u.receiver.terminalAckClosed && actions[k].writeOk)
       && t.creation == (if !u.receiver.terminalAckClosed && actions[k].writeOk && actions[k].closeOk
                         then Finished(u.creation.report) else Failed)
  }

  lemma {:induction false} AcknowledgeMoment(s: State, actions: seq<Action>) returns (k: nat)
    requires Inv(s) && !Over(s.creation)
    requires Over(Run(s, actions).creation) && Run(s, actions).disposition == Accepted
    ensures AcknowledgedAt(s, actions, k, Run(s, actions))
    decreases |actions|
  {
    hide Inv, Step;
    var one := Step(s, actions[0]);
    StepKeepsInv(s, actions[0]);
    if Over(one.creation) {
      k := 0;
      OverIsFinal(one, actions[1..]);
      EndsInAcknowledge(s, actions[0]);
      assert Run(s, actions[..0]) == s;
    } else {
      var rest := AcknowledgeMoment(one, actions[1..]);
      k := rest + 1;
      assert actions[..k] == [actions[0]] + actions[1..][..rest];
      assert actions[..k][1..] == actions[1..][..rest];
    }
  }

  /**
   For every run in which CreateChild is over and acceptance won: the report was acknowledged if and only
   if at its acknowledgement the endpoint was still open and the write worked.
  */
  lemma AcceptedIsAcknowledgedExactly(actions: seq<Action>) returns (k: nat)
    requires var s := Run(Start(), actions); s.disposition == Accepted && Over(s.creation)
    ensures AcknowledgedAt(Start(), actions, k, Run(Start(), actions))
  {
    k := AcknowledgeMoment(Start(), actions);
  }

  /** For every run in which the child's report succeeded: CreateChild finishes if and only if the close after the byte worked. */
  lemma ChildSuccessFinishesExactly(actions: seq<Action>, report: Message) returns (k: nat)
    requires Run(Start(), actions).call == Returned(report, true)
    ensures k < |actions| && actions[k].Acknowledge? && actions[k].writeOk
    ensures Run(Start(), actions[..k]).creation == Won(report)
    ensures Run(Start(), actions).creation == if actions[k].closeOk then Finished(report) else Failed
  {
    EveryRunKeepsInv(Start(), actions);
    ReportSuccessMeansAcceptance(actions, report);
    k := AcknowledgeMoment(Start(), actions);
    EveryRunKeepsInv(Start(), actions[..k]);
    PendingIsFinal(Start(), actions, k);
  }

  /** The report pending at some moment of a run is the one pending at its end. */
  lemma {:induction false} PendingIsFinal(s: State, actions: seq<Action>, k: nat)
    requires Inv(s) && k <= |actions| && Run(s, actions[..k]).receiver.pendingTerminal.Some?
    ensures Run(s, actions).receiver.pendingTerminal == Run(s, actions[..k]).receiver.pendingTerminal
    decreases |actions|
  {
    if actions != [] {
      StepKeepsInv(s, actions[0]);
      if k == 0 {
        assert Run(s, actions[..0]) == s;
        assert actions[1..][..0] == [];
        assert Step(s, actions[0]).receiver.pendingTerminal == s.receiver.pendingTerminal;
        PendingIsFinal(Step(s, actions[0]), actions[1..], 0);
      } else {
        assert actions[..k][1..] == actions[1..][..k - 1];
        PendingIsFinal(Step(s, actions[0]), actions[1..], k - 1);
      }
    } else {
      assert actions[..k] == actions;
    }
  }

  // ---------------------------------------------------------------- two runs that fall outside

  ghost predicate Reachable(s: State) { exists actions: seq<Action> :: s == Run(Start(), actions) }

  lemma {:induction false} RunThenStep(s: State, actions: seq<Action>, action: Action)
    ensures Run(s, actions + [action]) == Step(Run(s, actions), action)
    decreases |actions|
  {
    if actions == [] {
      assert (actions + [action])[1..] == [];
    } else {
      assert (actions + [action])[1..] == actions[1..] + [action];
      RunThenStep(Step(s, actions[0]), actions[1..], action);
    }
  }

  lemma StepReaches(s: State, action: Action, t: State)
    requires Reachable(s) && t == Step(s, action)
    ensures Reachable(t)
  {
    var actions: seq<Action> :| s == Run(Start(), actions);
    RunThenStep(Start(), actions, action);
  }

  lemma StartIsReachable()
    ensures Reachable(Start())
  {
    assert Run(Start(), []) == Start();
  }

  function Sample(kind: MessageKind): Message { Message(kind, "c", {kind}, "c", true, "", 1) }

  /** A child that reported its ownership, its readiness and one result, and waits. */
  function SampleWaiting(): State {
    Start().(sender := Sender(true, [Whole(Sample(Ownership)), Whole(Sample(Ready)), Whole(Sample(Read))]),
             call := Waiting(Sample(Read)))
  }

  lemma SampleIsReported()
    ensures Reachable(SampleWaiting())
  {
    StartIsReachable();
    hide Reachable, Run;
    assert !Blank("c") by { assert 'c' in "c"; }
    var s1 := Start().(sender := Sender(false, [Whole(Sample(Ownership))]));
    StepReaches(Start(), Nonterminal(Sample(Ownership), Written), s1);
    var s2 := s1.(sender := Sender(false, s1.sender.wire + [Whole(Sample(Ready))]));
    StepReaches(s1, Nonterminal(Sample(Ready), Written), s2);
    var s3 := s2.(sender := s2.sender.(terminalSent := true), call := Claimed(Sample(Read)));
    StepReaches(s2, ClaimTerminal(Sample(Read)), s3);
    StepReaches(s3, WriteTerminal(Written), SampleWaiting());
  }

  /** Its parent read everything and accepted. */
  function SampleAccepted(): State {
    SampleWaiting().(taken := 3, receiver := NewReceiver().(pendingTerminal := Some(Sample(Read))),
                     disposition := Accepted, creation := Won(Sample(Read)))
  }

  lemma SampleIsAccepted()
    ensures Reachable(SampleAccepted())
  {
    hide Reachable, Run;
    SampleIsReported();
    var s1 := SampleWaiting().(taken := 1, creation := AwaitReady);
    StepReaches(SampleWaiting(), Take("c", true), s1);
    var s2 := s1.(taken := 2, creation := AwaitTerminal);
    StepReaches(s1, Take("c", true), s2);
    var s3 := SampleAccepted().(disposition := Undecided, creation := Ingested(Sample(Read)));
    StepReaches(s2, Take("c", true), s3);
    StepReaches(s3, Claim, SampleAccepted());
  }

  /**
   The converse of the promise fails: a canceller that loses the claim still closes the endpoint,
   so an accepted report can go unacknowledged.
  */
  lemma AcceptedMayGoUnacknowledged()
    ensures exists s: State ::
              && Reachable(s) && s.disposition == Accepted && s.receiver.ackBytes == []
              && s.call == Returned(Sample(Read), false) && s.creation == Failed
  {
    hide Reachable, Run;
    SampleIsAccepted();
    var s := SampleAccepted();
    StepReaches(s, Cancel, s);
    var t := s.(receiver := s.receiver.(terminalAckClosed := true, ackOnce := true, ackEnd := true));
    StepReaches(s, CloseAck, t);
    var u := t.(creation := Failed);
    StepReaches(t, Acknowledge(true, true), u);
    var v := u.(call := Returned(Sample(Read), false));
    StepReaches(u, FinishWait(false), v);
  }

  /** Nor does the child's success mean CreateChild's: a failed close after the written byte fails the parent alone. */
  lemma ChildMayOutliveCreation()
    ensures exists s: State :: Reachable(s) && s.call == Returned(Sample(Read), true) && s.creation == Failed
  {
    hide Reachable, Run;
    SampleIsAccepted();
    var s := SampleAccepted();
    var t := s.(receiver := s.receiver.(terminalAcked := true, ackOnce := true, ackEnd := true,
                                        ackBytes := [TERMINAL_ACK_BYTE]),
                creation := Failed);
    StepReaches(s, Acknowledge(true, false), t);
    var u := t.(call := Returned(Sample(Read), true));
    StepReaches(t, FinishWait(false), u);
  }
}
