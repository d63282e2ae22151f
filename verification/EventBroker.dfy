/** The mutable broker, proved against the critical sections of module Broker. */
module EventBrokers {
  import opened Events
  import opened Broker
  import Mailboxes

  predicate Takes(sub: Subscriber, event: Event) {
    Mailboxes.SendHold(sub.box, event, RetainedBytes(event)).1 == Mailboxes.Sent
  }

  function Offered(sub: Subscriber, event: Event): Subscriber {
    sub.(box := Mailboxes.SendHold(sub.box, event, RetainedBytes(event)).0)
  }

  function Drained(sub: Subscriber): Subscriber { sub.(box := Mailboxes.CloseHold(sub.box)) }

  function Aborted(sub: Subscriber): Subscriber { sub.(box := Mailboxes.AbortHold(sub.box)) }

  /** What an undisturbed publication does to one registered subscriber: queue the event, or abort. */
  function Served(sub: Subscriber, event: Event): Subscriber {
    if Takes(sub, event) then Offered(sub, event) else Aborted(Offered(sub, event))
  }

  /**
   `boxes` holds every mailbox a subscription ever created, since its receiver keeps it;
   `flight`, `history` and `foreign` are read by no code.
  */
  class EventBroker {
    const config: Config
    var ring: seq<Event>
    var ringBytes: int
    var nextSeq: nat
    var sourceSeq: map<string, nat>
    var nextSubId: nat
    var subs: set<nat>
    var boxes: map<nat, Subscriber>
    var closing: set<nat>
    var closed: bool
    ghost var flight: Flight
    ghost var history: seq<Event>
    ghost var foreign: set<string>

    ghost function Abs(): State
      reads this
    {
      State(config, ring, ringBytes, nextSeq, sourceSeq, nextSubId, subs, boxes, closing, closed, flight, history, foreign)
    }

    ghost predicate Valid()
      reads this
    {
      Inv(Abs())
    }

    constructor (config: Config)
      requires config.Acceptable()
      ensures Valid() && Abs() == Initial(config)
    {
      this.config := config;
      ring, ringBytes, nextSeq, sourceSeq, nextSubId := [], 0, 0, map[], 0;
      subs, boxes, closing, closed := {}, map[], {}, false;
      flight, history, foreign := Idle, [], {};
    }

    /** Evict from the head until the ring fits; the loop never indexes an empty ring. */
    method Evict()
      requires ringBytes == Sum(ring)
      modifies this`ring, this`ringBytes
      ensures ring == LongestFit(old(ring), config.ringCap, config.byteCap) && ringBytes == Sum(ring)
    {
      while (config.ringCap > 0 && |ring| > config.ringCap) || (config.byteCap > 0 && ringBytes > config.byteCap)
        invariant ringBytes == Sum(ring)
        invariant LongestFit(ring, config.ringCap, config.byteCap)
               == LongestFit(old(ring), config.ringCap, config.byteCap)
        decreases |ring|
      {
        ringBytes := ringBytes - RetainedBytes(ring[0]);
        ring := ring[1..];
      }
    }

    method RetainLocked(event: Event) returns (out: Event)
      requires ringBytes == Sum(ring)
      modifies this`ring, this`ringBytes, this`nextSeq, this`history, this`flight
      ensures out == event.(seqNo := old(nextSeq) + 1)
      ensures Abs() == Retain(old(Abs()), event)
    {
      hide LongestFit, Sum, RetainedBytes;
      nextSeq := nextSeq + 1;
      out := event.(seqNo := nextSeq);
      if config.ringCap > 0 || config.byteCap > 0 {
        SumAppend(ring, out);
        ring := ring + [out];
        ringBytes := ringBytes + RetainedBytes(out);
        Evict();
      }
      history := history + [out];
      flight := Delivering(out, subs, {});
    }

    method PublishLocal(session: string, kind: string, payload: string) returns (event: Event)
      requires Valid() && flight == Idle
      modifies this
      ensures Valid() && flight == Idle
      ensures old(closed) ==> Abs() == old(Abs()) && event == Event(0, session, 0, kind, payload)
      ensures !old(closed) ==>
        && event == Event(old(|history|) + 1, session, SourceOf(old(sourceSeq), session) + 1, kind, payload)
        && history == old(history) + [event] && !closed
        && (session !in old(foreign) ==> event.sourceSeq == |Project(history, session)|)
        && boxes.Keys == old(boxes.Keys)
        && (forall id | id in old(boxes) ::
              boxes[id] == if id in old(subs) then Served(old(boxes)[id], event) else old(boxes)[id])
        && (forall id :: id in subs <==> id in old(subs) && Takes(old(boxes)[id], event))
    {
      event := Event(0, session, 0, kind, payload);
      if closed {
        return;
      }
      StepKeepsInv(Abs(), DoPublishLocal(session, kind, payload));
      sourceSeq := sourceSeq[session := SourceOf(sourceSeq, session) + 1];
      event := event.(sourceSeq := sourceSeq[session]);
      event := RetainLocked(event);
      assert Abs() == Broker.PublishLocal(old(Abs()), session, kind, payload);
      Deliver(event);
    }

    method Forward(source: Event) returns (event: Event)
      requires Valid() && flight == Idle
      modifies this
      ensures Valid() && flight == Idle
      ensures old(closed) ==> Abs() == old(Abs()) && event == Body(source)
      ensures !old(closed) ==>
        && event == source.(seqNo := old(|history|) + 1)
        && history == old(history) + [event] && sourceSeq == old(sourceSeq) && !closed
        && boxes.Keys == old(boxes.Keys)
        && (forall id | id in old(boxes) ::
              boxes[id] == if id in old(subs) then Served(old(boxes)[id], event) else old(boxes)[id])
        && (forall id :: id in subs <==> id in old(subs) && Takes(old(boxes)[id], event))
    {
      event := Event(0, source.session, source.sourceSeq, source.kind, source.payload);
      if closed {
        return;
      }
      StepKeepsInv(Abs(), DoForward(source));
      foreign := foreign + {source.session};
      event := RetainLocked(event);
      assert Abs() == Broker.Forward(old(Abs()), source);
      Deliver(event);
    }

    /** Hand the event to the snapshot of subscribers, then drop and abort those that refused it. */
    method Deliver(event: Event)
      requires Valid() && flight == Delivering(event, subs, {})
      modifies this`boxes, this`subs, this`flight
      ensures Valid() && flight == Idle
      ensures boxes.Keys == old(boxes.Keys)
      ensures forall id | id in old(boxes) ::
                boxes[id] == if id in old(subs) then Served(old(boxes)[id], event) else old(boxes)[id]
      ensures forall id :: id in subs <==> id in old(subs) && Takes(old(boxes)[id], event)
    {
      hide Inv, Takes, Offered, Aborted;
      var overflowed := OfferToAll(event);
      DropOverflowed(event, overflowed);
    }

    method OfferToAll(event: Event) returns (overflowed: set<nat>)
      requires Valid() && flight == Delivering(event, subs, {})
      modifies this`boxes, this`flight
      ensures Valid() && flight == Delivering(event, {}, overflowed)
      ensures boxes.Keys == old(boxes.Keys)
      ensures forall id | id in boxes ::
                boxes[id] == if id in subs then Offered(old(boxes)[id], event) else old(boxes)[id]
      ensures overflowed <= subs <= boxes.Keys
      ensures forall id | id in subs :: id in overflowed <==> !Takes(old(boxes)[id], event)
    {
      hide Inv, DeliverTo, Takes, Offered;
      SubscribersHaveBoxes(Abs());
      var todo := subs;
      overflowed := {};
      while todo != {}
        invariant Valid() && flight == Delivering(event, todo, overflowed)
        invariant todo <= subs && boxes.Keys == old(boxes.Keys)
        invariant forall id | id in boxes ::
          boxes[id] == if id in subs && id !in todo then Offered(old(boxes)[id], event) else old(boxes)[id]
        invariant overflowed <= subs - todo
        invariant forall id | id in subs - todo :: id in overflowed <==> !Takes(old(boxes)[id], event)
        decreases todo
      {
        var id :| id in todo;
        var taken := SendTo(id, event, todo, overflowed);
        todo := todo - {id};
        if !taken {
          overflowed := overflowed + {id};
        }
      }
    }

    method DropOverflowed(ghost event: Event, refused: set<nat>)
      requires Valid() && flight == Delivering(event, {}, refused)
      modifies this`boxes, this`subs, this`flight
      ensures Valid() && flight == Idle
      ensures boxes.Keys == old(boxes.Keys) && subs == old(subs) - refused
      ensures forall id | id in old(boxes) ::
                boxes[id] == if id in refused
                             then Aborted(old(boxes)[id])
                             else old(boxes)[id]
    {
      hide Inv, Aborted, AbortFailed;
      SubscribersHaveBoxes(Abs());
      assert Inv(Broker.EndDelivery(Abs())) by { StepKeepsInv(Abs(), DoEndDelivery); }
      subs := subs - refused;
      flight := if refused == {} then Idle else Aborting(refused);
      AbortAll(refused);
    }

    method AbortAll(refused: set<nat>)
      requires Valid() && flight == (if refused == {} then Idle else Aborting(refused))
      modifies this`boxes, this`flight
      ensures Valid() && flight == Idle && boxes.Keys == old(boxes.Keys)
      ensures forall id | id in boxes ::
                boxes[id] == if id in refused then Aborted(old(boxes)[id]) else old(boxes)[id]
    {
      hide Inv, Aborted, AbortFailed;
      var left := refused;
      while left != {}
        invariant Valid() && flight == (if left == {} then Idle else Aborting(left))
        invariant left <= refused && boxes.Keys == old(boxes.Keys)
        invariant forall id | id in boxes ::
          boxes[id] == if id in refused && id !in left then Aborted(old(boxes)[id]) else old(boxes)[id]
        decreases left
      {
        var id :| id in left;
        AbortOne(id, left);
        left := left - {id};
      }
    }

    method AbortOne(id: nat, ghost failed: set<nat>)
      requires Valid() && flight == Aborting(failed) && id in failed
      modifies this`boxes, this`flight
      ensures Valid() && Abs() == Broker.AbortFailed(old(Abs()), id)
      ensures id in old(boxes) && boxes == old(boxes)[id := Aborted(old(boxes)[id])]
      ensures flight == if failed - {id} == {} then Idle else Aborting(failed - {id})
    {
      hide Inv;
      SubscribersHaveBoxes(Abs());
      assert Inv(Broker.AbortFailed(Abs(), id)) by { StepKeepsInv(Abs(), DoAbortFailed(id)); }
      boxes := boxes[id := boxes[id].(box := Mailboxes.AbortHold(boxes[id].box))];
      flight := if failed - {id} == {} then Idle else Aborting(failed - {id});
    }

    method SendTo(id: nat, event: Event, ghost todo: set<nat>, ghost failed: set<nat>) returns (taken: bool)
      requires Valid() && flight == Delivering(event, todo, failed) && id in todo
      modifies this`boxes, this`flight
      ensures Valid() && Abs() == DeliverTo(old(Abs()), id)
      ensures id in old(boxes) && taken == Takes(old(boxes)[id], event)
      ensures boxes == old(boxes)[id := Offered(old(boxes)[id], event)]
      ensures flight == Delivering(event, todo - {id}, if taken then failed else failed + {id})
    {
      hide Inv;
      SubscribersHaveBoxes(Abs());
      assert Inv(Broker.DeliverTo(Abs(), id)) by { StepKeepsInv(Abs(), DoDeliverTo(id)); }
      var sub := boxes[id];
      var (box, err) := Mailboxes.SendHold(sub.box, event, RetainedBytes(event));
      boxes := boxes[id := sub.(box := box)];
      taken := err == Mailboxes.Sent;
      flight := Delivering(event, todo - {id}, if taken then failed else failed + {id});
    }

    /** The replay/live cut: nil when the broker is closed. */
    method Subscribe() returns (replay: seq<Event>, id: nat, open: bool)
      requires Valid() && flight == Idle
      modifies this
      ensures Valid() && Abs() == Broker.Subscribe(old(Abs()))
      ensures open == !old(closed)
      ensures open ==> id !in old(boxes) && id in subs && replay == old(ring) == boxes[id].replay
      ensures !open ==> replay == [] && Abs() == old(Abs())
    {
      hide Inv;
      FreshId(Abs());
      assert Inv(Broker.Subscribe(Abs())) by { StepKeepsInv(Abs(), DoSubscribe); }
      if closed {
        return [], 0, false;
      }
      nextSubId := nextSubId + 1;
      replay, id, open := ring, nextSubId, true;
      subs := subs + {id};
      boxes := boxes[id := Subscriber(replay, nextSeq - |ring|, nextSeq, Mailboxes.Initial(config.MailLimits()))];
    }

    /** A subscription's own Close: unregister, then abort. */
    method RemoveSubscriber(id: nat)
      requires Valid() && flight == Idle && id in boxes
      modifies this
      ensures Valid() && Abs() == Broker.AbortUnsubscribed(Broker.Unsubscribe(old(Abs()), id), id)
      ensures id !in subs && boxes[id].box.phase == Mailboxes.Aborted
    {
      hide Inv;
      assert Inv(Broker.Unsubscribe(Abs(), id)) by { StepKeepsInv(Abs(), DoUnsubscribe(id)); }
      assert Inv(AbortUnsubscribed(Broker.Unsubscribe(Abs(), id), id)) by {
        StepKeepsInv(Broker.Unsubscribe(Abs(), id), DoAbortUnsubscribed(id));
      }
      subs := subs - {id};
      boxes := boxes[id := boxes[id].(box := Mailboxes.AbortHold(boxes[id].box))];
    }

    /** Terminate every subscription, letting each drain, and refuse new ones for good. */
    method Close()
      requires Valid() && flight == Idle
      modifies this
      ensures Valid() && flight == Idle && closed && history == old(history)
      ensures boxes.Keys == old(boxes.Keys)
      ensures !old(closed) ==>
        && subs == {}
        && forall id | id in boxes ::
             boxes[id] == if id in old(subs)
                          then Drained(old(boxes)[id])
                          else old(boxes)[id]
      ensures old(closed) ==> Abs() == old(Abs())
    {
      hide Inv, Drained, CloseBox;
      SubscribersHaveBoxes(Abs());
      if closed {
        return;
      }
      assert Inv(Broker.Close(Abs())) by { StepKeepsInv(Abs(), DoClose); }
      closed, closing, subs := true, subs, {};
      CloseBoxes();
    }

    method CloseBoxes()
      requires Valid()
      modifies this`boxes, this`closing
      ensures Valid() && boxes.Keys == old(boxes.Keys)
      ensures forall id | id in boxes ::
                boxes[id] == if id in old(closing) then Drained(old(boxes)[id]) else old(boxes)[id]
    {
      hide Inv, Drained, CloseBox;
      SubscribersHaveBoxes(Abs());
      while closing != {}
        invariant Valid()
        invariant closing <= old(closing) && boxes.Keys == old(boxes.Keys)
        invariant forall id | id in boxes ::
          boxes[id] == if id in old(closing) && id !in closing then Drained(old(boxes)[id]) else old(boxes)[id]
        decreases closing
      {
        var id :| id in closing;
        CloseOne(id);
      }
    }

    method CloseOne(id: nat)
      requires Valid() && id in closing
      modifies this`boxes, this`closing
      ensures Valid() && Abs() == Broker.CloseBox(old(Abs()), id)
      ensures id in old(boxes) && boxes == old(boxes)[id := Drained(old(boxes)[id])] && closing == old(closing) - {id}
    {
      hide Inv;
      SubscribersHaveBoxes(Abs());
      assert Inv(Broker.CloseBox(Abs(), id)) by { StepKeepsInv(Abs(), DoCloseBox(id)); }
      boxes := boxes[id := boxes[id].(box := Mailboxes.CloseHold(boxes[id].box))];
      closing := closing - {id};
    }

    /** The last source sequence published for a session, at a cut ordered against publication. */
    method SourceBoundary(session: string) returns (sequence: nat)
      requires Valid() && flight == Idle
      ensures session !in foreign ==> sequence == |Project(history, session)|
      ensures sequence == SourceOf(sourceSeq, session)
    {
      sequence := if session in sourceSeq then sourceSeq[session] else 0;
    }
  }
}
