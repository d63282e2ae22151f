/**
 Event envelopes, and the retention rule the broker's ring and the manager's mirror share: keep
 the longest suffix that fits both an event cap and a byte cap, a zero cap being no cap.
*/
module Events {

  /** Payloads are not looked into; the length of a string stands for its length in bytes. */
  datatype Event = Event(seqNo: nat, session: string, sourceSeq: nat, kind: string, payload: string)

  /** What forwarding keeps of an event: everything but the position in one broker's history. */
  function Body(e: Event): Event { e.(seqNo := 0) }

  function RetainedBytes(e: Event): (n: nat)
    ensures n > 0
  {
    |e.session| + |e.kind| + |e.payload| + 24
  }

  function Sum(events: seq<Event>): nat {
    if events == [] then 0 else RetainedBytes(events[0]) + Sum(events[1..])
  }

  lemma {:induction false} SumAppend(events: seq<Event>, e: Event)
    ensures Sum(events + [e]) == Sum(events) + RetainedBytes(e)
  {
    if events != [] {
      assert (events + [e])[1..] == events[1..] + [e];
      SumAppend(events[1..], e);
    }
  }

  predicate Fits(events: seq<Event>, maxEvents: int, maxBytes: int) {
    && (maxEvents > 0 ==> |events| <= maxEvents)
    && (maxBytes > 0 ==> Sum(events) <= maxBytes)
  }

  /** How many characters the events carry. */
  function Characters(events: seq<Event>): nat {
    if events == [] then 0 else |events[0].session| + |events[0].kind| + |events[0].payload| + Characters(events[1..])
  }

  /** What a byte cap bounds: all the text kept, and 24 bytes more for each event, so the number of events too. */
  lemma {:induction false} CapBoundsCharacters(events: seq<Event>, maxEvents: int, maxBytes: int)
    requires maxBytes > 0 && Fits(events, maxEvents, maxBytes)
    ensures Characters(events) + 24 * |events| <= maxBytes
  {
    SumIsCharacters(events);
  }

  lemma {:induction false} SumIsCharacters(events: seq<Event>)
    ensures Sum(events) == Characters(events) + 24 * |events|
  {
    if events != [] {
      SumIsCharacters(events[1..]);
    }
  }

  /** The longest suffix that fits; LongestFitIsLongest says so without recursion. */
  function LongestFit(events: seq<Event>, maxEvents: int, maxBytes: int): seq<Event> {
    if Fits(events, maxEvents, maxBytes) then events else LongestFit(events[1..], maxEvents, maxBytes)
  }

  lemma {:induction false} LongestFitIsLongest(events: seq<Event>, maxEvents: int, maxBytes: int)
    returns (first: nat)
    ensures first <= |events| && LongestFit(events, maxEvents, maxBytes) == events[first..]
    ensures Fits(events[first..], maxEvents, maxBytes)
    ensures forall k | 0 <= k < first :: !Fits(events[k..], maxEvents, maxBytes)
  {
    assert events[0..] == events;
    if Fits(events, maxEvents, maxBytes) {
      first := 0;
    } else {
      first := LongestFitIsLongest(events[1..], maxEvents, maxBytes);
      first := first + 1;
      assert events[first..] == events[1..][first - 1..];
      forall k | 0 <= k < first ensures !Fits(events[k..], maxEvents, maxBytes) {
        if k > 0 {
          assert events[k..] == events[1..][k - 1..];
        }
      }
    }
  }

  /** Evicting incrementally, one publication at a time, forgets nothing the rule would keep. */
  lemma {:induction false} LongestFitAppend(events: seq<Event>, e: Event, maxEvents: int, maxBytes: int)
    ensures LongestFit(events + [e], maxEvents, maxBytes)
         == LongestFit(LongestFit(events, maxEvents, maxBytes) + [e], maxEvents, maxBytes)
  {
    if !Fits(events, maxEvents, maxBytes) {
      SumAppend(events, e);
      assert !Fits(events + [e], maxEvents, maxBytes);
      assert (events + [e])[1..] == events[1..] + [e];
      LongestFitAppend(events[1..], e, maxEvents, maxBytes);
    }
  }

  /** The events of one session, in order. */
  function Project(events: seq<Event>, session: string): seq<Event> {
    if events == [] then []
    else if events[|events| - 1].session == session
    then Project(events[..|events| - 1], session) + [events[|events| - 1]]
    else Project(events[..|events| - 1], session)
  }

  lemma {:induction false} ProjectConcat(a: seq<Event>, b: seq<Event>, session: string)
    ensures Project(a + b, session) == Project(a, session) + Project(b, session)
  {
    if b == [] {
      assert a + b == a;
    } else {
      assert (a + b)[..|a + b| - 1] == a + b[..|b| - 1];
      ProjectConcat(a, b[..|b| - 1], session);
    }
  }

  /** Projecting an interval gives an interval of the projection. */
  lemma ProjectInterval(events: seq<Event>, lo: nat, hi: nat, session: string)
    returns (first: nat, last: nat)
    requires lo <= hi <= |events|
    ensures first <= last <= |Project(events, session)|
    ensures Project(events[lo..hi], session) == Project(events, session)[first..last]
    ensures first == |Project(events[..lo], session)| && last == |Project(events[..hi], session)|
  {
    assert events[..hi] == events[..lo] + events[lo..hi];
    assert events == events[..hi] + events[hi..];
    ProjectConcat(events[..lo], events[lo..hi], session);
    ProjectConcat(events[..hi], events[hi..], session);
    first := |Project(events[..lo], session)|;
    last := |Project(events[..hi], session)|;
  }

  function Bodies(events: seq<Event>): (bodies: seq<Event>)
    ensures |bodies| == |events|
    ensures forall i | 0 <= i < |events| :: bodies[i] == Body(events[i])
  {
    seq(|events|, i requires 0 <= i < |events| => Body(events[i]))
  }

  lemma {:induction false} ProjectBodies(events: seq<Event>, session: string)
    ensures Project(Bodies(events), session) == Bodies(Project(events, session))
  {
    if events != [] {
      var init := events[..|events| - 1];
      assert Bodies(events)[..|events| - 1] == Bodies(init);
      ProjectBodies(init, session);
      assert Bodies(events)[|events| - 1] == Body(events[|events| - 1]);
      var p, last := Project(init, session), events[|events| - 1];
      assert Bodies(p + [last]) == Bodies(p) + [Body(last)];
    }
  }
}
