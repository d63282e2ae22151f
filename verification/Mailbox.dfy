/**
 The bounded mailbox between one publisher and one receiver (internal/eventmailbox/mailbox.go).

 Every method of the class is one lock hold of the source. `State` is the abstract value of a
 mailbox together with two histories: everything Send accepted, and everything the receiver was
 handed. The theorems quantify over every sequence of lock holds.
*/
module Mailboxes {

  datatype Limits = Limits(maxEvents: int, maxBytes: int) {
    predicate Acceptable() {
      maxEvents >= 0 && maxBytes >= 0 && (maxEvents > 0 || maxBytes > 0)
    }
  }

  datatype Phase = Open | Draining | Aborted

  datatype Entry<T> = Entry(value: T, bytes: nat)

  datatype SendError = Sent | Negative | Closed | Full

  datatype State<T> = State(
    limits: Limits,
    phase: Phase,
    queue: seq<Entry<T>>,
    retained: int,
    finished: bool,       // the events and done channels have been closed
    accepted: seq<T>,
    delivered: seq<T>)

  function Values<T>(queue: seq<Entry<T>>): (values: seq<T>)
    ensures |values| == |queue|
  {
    if queue == [] then [] else [queue[0].value] + Values(queue[1..])
  }

  function Sum<T>(queue: seq<Entry<T>>): nat {
    if queue == [] then 0 else queue[0].bytes + Sum(queue[1..])
  }

  lemma {:induction false} AppendEntry<T>(queue: seq<Entry<T>>, entry: Entry<T>)
    ensures Values(queue + [entry]) == Values(queue) + [entry.value]
    ensures Sum(queue + [entry]) == Sum(queue) + entry.bytes
  {
    if queue != [] {
      assert (queue + [entry])[1..] == queue[1..] + [entry];
      AppendEntry(queue[1..], entry);
    }
  }

  /** What a mailbox may hold; a zero limit is no limit. */
  predicate Fits<T>(limits: Limits, queue: seq<Entry<T>>) {
    && (limits.maxEvents > 0 ==> |queue| <= limits.maxEvents)
    && (limits.maxBytes > 0 ==> Sum(queue) <= limits.maxBytes)
  }

  ghost predicate Inv<T>(s: State<T>) {
    && s.limits.Acceptable()
    && s.retained == Sum(s.queue)
    && Fits(s.limits, s.queue)
    && (s.phase != Aborted ==> s.delivered + Values(s.queue) == s.accepted)
    && (s.phase == Aborted ==> s.queue == [] && s.delivered <= s.accepted)
    && (s.finished ==> s.phase != Open && s.queue == [])
  }

  // ---------------------------------------------------------------- lock holds

  function Initial<T>(limits: Limits): State<T> {
    State(limits, Open, [], 0, false, [], [])
  }

  function SendHold<T>(s: State<T>, value: T, bytes: int): (State<T>, SendError) {
    if bytes < 0 then (s, Negative)
    else if s.phase != Open then (s, Closed)
    else if s.limits.maxEvents > 0 && |s.queue| >= s.limits.maxEvents then (s, Full)
    else if s.limits.maxBytes > 0 && bytes > s.limits.maxBytes - s.retained then (s, Full)
    else
      (s.(queue := s.queue + [Entry(value, bytes)],
          retained := s.retained + bytes,
          accepted := s.accepted + [value]), Sent)
  }

  function CloseHold<T>(s: State<T>): State<T> {
    if s.phase == Open then s.(phase := Draining) else s
  }

  function AbortHold<T>(s: State<T>): State<T> {
    if s.phase != Aborted then s.(phase := Aborted, queue := [], retained := 0) else s
  }

  /** One round of the dispatcher: stop, idle, or offer the head to the receiver. */
  function DispatchHold<T>(s: State<T>, receiverReady: bool): State<T> {
    if s.finished then s
    else if s.phase == Aborted then s.(queue := [], retained := 0, finished := true)
    else if s.queue == [] then (if s.phase == Draining then s.(finished := true) else s)
    else if receiverReady then
      s.(queue := s.queue[1..],
         retained := s.retained - s.queue[0].bytes,
         delivered := s.delivered + [s.queue[0].value])
    else s
  }

  /** The mutable mailbox. `accepted` and `delivered` are histories no code reads. */
  class Mailbox<T> {
    const limits: Limits
    var phase: Phase
    var queue: seq<Entry<T>>
    var retainedBytes: int
    var finished: bool
    ghost var accepted: seq<T>
    ghost var delivered: seq<T>

    ghost function Abs(): State<T>
      reads this
    {
      State(limits, phase, queue, retainedBytes, finished, accepted, delivered)
    }

    ghost predicate Valid()
      reads this
    {
      Inv(Abs())
    }

    constructor (limits: Limits)
      requires limits.Acceptable()
      ensures Valid() && Abs() == Initial(limits)
    {
      this.limits := limits;
      phase := Open;
      queue, retainedBytes, finished := [], 0, false;
      accepted, delivered := [], [];
    }

    method Send(value: T, bytes: int) returns (err: SendError)
      requires Valid()
      modifies this
      ensures Valid()
      ensures (Abs(), err) == SendHold(old(Abs()), value, bytes)
      ensures err == Sent <==>
              bytes >= 0 && old(phase) == Open && Fits(limits, old(queue) + [Entry(value, bytes)])
      ensures err != Sent ==> Abs() == old(Abs())
      ensures err == Sent ==> queue == old(queue) + [Entry(value, bytes)] && accepted == old(accepted) + [value]
      ensures phase == old(phase) && finished == old(finished) && delivered == old(delivered)
      ensures err == Negative <==> bytes < 0
      ensures err == Closed <==> bytes >= 0 && old(phase) != Open
    {
      if bytes < 0 {
        return Negative;
      }
      AppendEntry(queue, Entry(value, bytes));
      if phase != Open {
        return Closed;
      }
      if limits.maxEvents > 0 && |queue| >= limits.maxEvents {
        return Full;
      }
      if limits.maxBytes > 0 && bytes > limits.maxBytes - retainedBytes {
        return Full;
      }
      queue := queue + [Entry(value, bytes)];
      retainedBytes := retainedBytes + bytes;
      accepted := accepted + [value];
      err := Sent;
    }

    method Close()
      requires Valid()
      modifies this
      ensures Valid() && Abs() == CloseHold(old(Abs()))
      ensures phase == if old(phase) == Open then Draining else old(phase)
      ensures queue == old(queue) && accepted == old(accepted) && delivered == old(delivered) && finished == old(finished)
    {
      if phase == Open {
        phase := Draining;
      }
    }

    method Abort()
      requires Valid()
      modifies this
      ensures Valid() && Abs() == AbortHold(old(Abs()))
      ensures phase == Aborted && queue == [] && retainedBytes == 0
      ensures delivered == old(delivered) && accepted == old(accepted)
    {
      if phase != Aborted {
        phase := Aborted;
        queue, retainedBytes := [], 0;
      }
    }

    method Dispatch(receiverReady: bool)
      requires Valid()
      modifies this
      ensures Valid() && Abs() == DispatchHold(old(Abs()), receiverReady)
      // an unaborted mailbox hands its head to a willing receiver, open or draining, and keeps the rest
      ensures old(phase) != Aborted && old(queue) != [] && receiverReady ==>
                && delivered == old(delivered) + [old(queue)[0].value] && queue == old(queue)[1..]
                && phase == old(phase) && accepted == old(accepted) && !finished
      ensures old(phase) != Aborted && old(queue) != [] && !receiverReady ==> Abs() == old(Abs())
      ensures old(phase) == Aborted ==> finished && queue == [] && delivered == old(delivered)
      ensures old(phase) == Draining && old(queue) == [] ==> finished && delivered == old(delivered)
      ensures old(phase) == Open && old(queue) == [] ==> Abs() == old(Abs())
    {
      if finished {
        return;
      }
      if phase == Aborted {
        queue, retainedBytes := [], 0;
        finished := true;
        return;
      }
      if queue == [] {
        if phase == Draining {
          finished := true;
        }
        return;
      }
      if receiverReady {
        var head := queue[0];
        queue := queue[1..];
        retainedBytes := retainedBytes - head.bytes;
        delivered := delivered + [head.value];
      }
    }
  }

  /** New refuses limits that are negative or that bound nothing. */
  method New<T>(limits: Limits) returns (mailbox: Mailbox?<T>)
    ensures mailbox != null <==> limits.Acceptable()
    ensures mailbox != null ==> fresh(mailbox) && mailbox.Valid() && mailbox.Abs() == Initial(limits)
  {
    if limits.maxEvents < 0 || limits.maxBytes < 0 {
      return null;
    }
    if limits.maxEvents == 0 && limits.maxBytes == 0 {
      return null;
    }
    mailbox := new Mailbox(limits);
  }

  // ---------------------------------------------------------------- every run

  datatype Action<T> = DoSend(value: T, bytes: int) | DoClose | DoAbort | DoDispatch(receiverReady: bool)

  function Step<T>(s: State<T>, action: Action<T>): State<T> {
    match action
    case DoSend(value, bytes) => SendHold(s, value, bytes).0
    case DoClose => CloseHold(s)
    case DoAbort => AbortHold(s)
    case DoDispatch(ready) => DispatchHold(s, ready)
  }

  function Run<T>(s: State<T>, actions: seq<Action<T>>): State<T>
    decreases |actions|
  {
    if actions == [] then s else Run(Step(s, actions[0]), actions[1..])
  }

  lemma StepKeepsInv<T>(s: State<T>, action: Action<T>)
    requires Inv(s)
    ensures Inv(Step(s, action))
  {
    if action.DoSend? && action.bytes >= 0 {
      AppendEntry(s.queue, Entry(action.value, action.bytes));
    }
  }

  /**
   In every reachable state: the bytes counter is the queue's sum, the limits hold, and until
   Abort the delivered events followed by the queue are the accepted ones in order.
  */
  lemma {:induction false} EveryRunKeepsInv<T>(s: State<T>, actions: seq<Action<T>>)
    requires Inv(s)
    ensures Inv(Run(s, actions))
    decreases |actions|
  {
    if actions != [] {
      StepKeepsInv(s, actions[0]);
      EveryRunKeepsInv(Step(s, actions[0]), actions[1..]);
    }
  }

  /** Nothing is delivered, and nothing accepted, once Abort's lock hold is over. */
  lemma {:induction false} NothingAfterAbort<T>(s: State<T>, actions: seq<Action<T>>)
    requires Inv(s) && s.phase == Aborted
    ensures var t := Run(s, actions);
            t.phase == Aborted && t.delivered == s.delivered && t.accepted == s.accepted
    decreases |actions|
  {
    if actions != [] {
      StepKeepsInv(s, actions[0]);
      NothingAfterAbort(Step(s, actions[0]), actions[1..]);
    }
  }

  /**
   After Close and without Abort no send is accepted any more, and the channel is closed only
   when everything accepted has been delivered.
  */
  lemma {:induction false} CloseDeliversBeforeClosing<T>(s: State<T>, actions: seq<Action<T>>)
    requires Inv(s) && s.phase == Draining
    requires DoAbort !in actions
    ensures var t := Run(s, actions);
            && t.phase == Draining && t.accepted == s.accepted && s.delivered <= t.delivered
            && (t.finished ==> t.delivered == s.accepted)
    decreases |actions|
  {
    if actions != [] {
      StepKeepsInv(s, actions[0]);
      assert actions[0] in actions;
      CloseDeliversBeforeClosing(Step(s, actions[0]), actions[1..]);
    }
  }

  /** A draining mailbox with a willing receiver finishes after one round for each entry and one more. */
  lemma {:induction false} CloseFinishes<T>(s: State<T>)
    requires Inv(s) && s.phase == Draining
    ensures var t := Run(s, seq(|s.queue| + 1, _ => DoDispatch(true)));
            t.finished && t.delivered == s.accepted
    decreases |s.queue|
  {
    var rounds: seq<Action<T>> := seq(|s.queue| + 1, _ => DoDispatch(true));
    var t := Step(s, rounds[0]);
    StepKeepsInv(s, rounds[0]);
    if s.queue == [] {
      assert Run(t, rounds[1..]) == t;
    } else {
      assert rounds[1..] == seq(|t.queue| + 1, _ => DoDispatch(true));
      CloseFinishes(t);
    }
  }

  // ---------------------------------------------------------------- a willing receiver

  function Willing<T>(n: nat): seq<Action<T>> {
    if n == 0 then [] else [DoDispatch(true)] + Willing(n - 1)
  }

  /** While nothing was aborted a round with a willing receiver delivers the head of the queue. */
  lemma WillingRound<T>(s: State<T>)
    requires Inv(s) && s.phase != Aborted && s.queue != []
    ensures var t := Step(s, DoDispatch(true));
            && t.delivered == s.delivered + [s.queue[0].value] && t.queue == s.queue[1..]
            && t.phase == s.phase && t.accepted == s.accepted
  {
  }

  /** Whether open or draining, as many willing rounds as there are entries deliver everything accepted. */
  lemma {:induction false} WillingReceiverGetsAll<T>(s: State<T>)
    requires Inv(s) && s.phase != Aborted
    ensures var t := Run(s, Willing(|s.queue|));
            t.delivered == s.accepted && t.accepted == s.accepted && t.queue == [] && t.phase == s.phase
    decreases |s.queue|
  {
    if s.queue != [] {
      var rounds: seq<Action<T>> := Willing(|s.queue|);
      var t := Step(s, DoDispatch(true));
      WillingRound(s);
      StepKeepsInv(s, DoDispatch(true));
      assert rounds[1..] == Willing(|t.queue|);
      WillingReceiverGetsAll(t);
    }
  }

  /** So it is in every reachable state. */
  lemma EveryRunCanDeliver<T>(limits: Limits, actions: seq<Action<T>>)
    requires limits.Acceptable() && Run(Initial<T>(limits), actions).phase != Aborted
    ensures var s := Run(Initial<T>(limits), actions);
            Run(s, Willing(|s.queue|)).delivered == s.accepted
  {
    EveryRunKeepsInv(Initial<T>(limits), actions);
    WillingReceiverGetsAll(Run(Initial<T>(limits), actions));
  }

  /** Close, from every reachable open state, ends in a closed channel with everything accepted delivered. */
  lemma EveryCloseFinishes<T>(limits: Limits, actions: seq<Action<T>>)
    requires limits.Acceptable() && Run(Initial<T>(limits), actions).phase == Open
    ensures var s := Run(Initial<T>(limits), actions);
            var t := Run(Step(s, DoClose), seq(|s.queue| + 1, _ => DoDispatch(true)));
            t.finished && t.delivered == s.accepted
  {
    EveryRunKeepsInv(Initial<T>(limits), actions);
    var s := Run(Initial<T>(limits), actions);
    StepKeepsInv(s, DoClose);
    CloseFinishes(Step(s, DoClose));
  }
}
