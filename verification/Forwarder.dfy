/** The forwarder's own loops: replay first, then live events until the child's stream ends. */
module Forwarder {
  import opened Events
  import opened EventBrokers
  import Broker

  method ForwardChildEvents(parent: EventBroker, replay: seq<Event>, live: seq<Event>)
    requires parent.Valid() && parent.flight == Broker.Idle
    modifies parent
    ensures parent.Valid() && parent.flight == Broker.Idle
    ensures old(parent.closed) ==> parent.Abs() == old(parent.Abs())
    ensures !old(parent.closed) ==>
              Bodies(parent.history) == Bodies(old(parent.history)) + Bodies(replay) + Bodies(live)
  {
    ForwardAll(parent, replay);
    ForwardAll(parent, live);
  }

  method ForwardAll(parent: EventBroker, events: seq<Event>)
    requires parent.Valid() && parent.flight == Broker.Idle
    modifies parent
    ensures parent.Valid() && parent.flight == Broker.Idle && parent.closed == old(parent.closed)
    ensures old(parent.closed) ==> parent.Abs() == old(parent.Abs())
    ensures !old(parent.closed) ==> Bodies(parent.history) == Bodies(old(parent.history)) + Bodies(events)
  {
    hide Broker.Inv;
    for i := 0 to |events|
      invariant parent.Valid() && parent.flight == Broker.Idle && parent.closed == old(parent.closed)
      invariant old(parent.closed) ==> parent.Abs() == old(parent.Abs())
      invariant !old(parent.closed) ==>
                  Bodies(parent.history) == Bodies(old(parent.history)) + Bodies(events[..i])
    {
      var event := parent.Forward(events[i]);
      assert events[..i + 1] == events[..i] + [events[i]];
    }
    assert events[..|events|] == events;
  }
}
