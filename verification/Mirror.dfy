/**
 The manager's event mirror and its reconnecting reader (internal/manager/mirror.go,
 internal/manager/monitor.go:228-268).

 The mirror is fed by any number of subscriptions to one broker. A subscription hands over an
 interval of the broker's publication history (module Broker, StreamIsInterval), so feeding the
 mirror is folding Accept over a list of intervals.
*/
module Mirrors {
  import opened Events
  import Broker

  datatype Gap = NoGap | Gap(expectedSeq: nat, firstAvailableSeq: nat)

  /** `accepted` is the list of everything ever accepted; only its longest fitting suffix is kept. */
  datatype State = State(accepted: seq<Event>, lastSeq: nat, gap: Gap)

  const EMPTY := State([], 0, NoGap)

  /** Sequence 0, an empty session or kind, or a payload that is not JSON. */
  predicate Malformed(e: Event, validJson: string -> bool) {
    e.seqNo == 0 || e.session == "" || e.kind == "" || (|e.payload| > 0 && !validJson(e.payload))
  }

  predicate Acceptable(s: State, e: Event, validJson: string -> bool) {
    !Malformed(e, validJson) && e.seqNo > s.lastSeq
  }

  function Accepting(s: State, e: Event, validJson: string -> bool): State {
    if !Acceptable(s, e, validJson) then s
    else
      State(s.accepted + [e], e.seqNo,
            if e.seqNo > s.lastSeq + 1 && s.gap == NoGap then Gap(s.lastSeq + 1, e.seqNo) else s.gap)
  }

  function AcceptAll(s: State, events: seq<Event>, validJson: string -> bool): State {
    if events == [] then s
    else Accepting(AcceptAll(s, events[..|events| - 1], validJson), events[|events| - 1], validJson)
  }

  class EventMirror {
    const maxEvents: int
    const maxBytes: int
    const validJson: string -> bool
    var events: seq<Event>
    var bytes: int
    var lastSeq: nat
    var gap: Gap
    ghost var accepted: seq<Event>

    ghost function Abs(): State
      reads this
    {
      State(accepted, lastSeq, gap)
    }

    ghost predicate Valid()
      reads this
    {
      bytes == Sum(events) && events == LongestFit(accepted, maxEvents, maxBytes)
    }

    constructor (maxEvents: int, maxBytes: int, validJson: string -> bool)
      ensures Valid() && Abs() == EMPTY && this.validJson == validJson
    {
      this.maxEvents, this.maxBytes, this.validJson := maxEvents, maxBytes, validJson;
      events, bytes, lastSeq, gap := [], 0, 0, NoGap;
      accepted := [];
    }

    method Accept(event: Event) returns (taken: bool)
      requires Valid()
      modifies this
      ensures Valid() && Abs() == Accepting(old(Abs()), event, validJson)
      ensures taken == Acceptable(old(Abs()), event, validJson)
      // taken exactly when it is newer, names a session and a kind, and its payload, if any, is JSON
      ensures taken <==>
                && event.seqNo > old(lastSeq) && event.session != "" && event.kind != ""
                && (event.payload == "" || validJson(event.payload))
      ensures taken ==> accepted == old(accepted) + [event] && lastSeq == event.seqNo
      ensures taken ==> gap == if old(gap) == NoGap && event.seqNo != old(lastSeq) + 1 then Gap(old(lastSeq) + 1, event.seqNo) else old(gap)
      ensures !taken ==> Abs() == old(Abs()) && events == old(events)
    {
      if event.seqNo == 0 || event.session == "" || event.kind == "" {
        return false;
      }
      if |event.payload| > 0 && !validJson(event.payload) {
        return false;
      }
      if event.seqNo <= lastSeq {
        return false;
      }
      if event.seqNo > lastSeq + 1 && gap == NoGap {
        gap := Gap(lastSeq + 1, event.seqNo);
      }
      lastSeq := event.seqNo;
      SumAppend(events, event);
      LongestFitAppend(accepted, event, maxEvents, maxBytes);
      events := events + [event];
      bytes := bytes + RetainedBytes(event);
      accepted := accepted + [event];
      Evict();
      taken := true;
    }

    method Evict()
      requires bytes == Sum(events)
      modifies this`events, this`bytes
      ensures events == LongestFit(old(events), maxEvents, maxBytes) && bytes == Sum(events)
    {
      while |events| > 0
        invariant bytes == Sum(events)
        invariant LongestFit(events, maxEvents, maxBytes) == LongestFit(old(events), maxEvents, maxBytes)
        decreases |events|
      {
        var overCount := maxEvents > 0 && |events| > maxEvents;
        var overBytes := maxBytes > 0 && bytes > maxBytes;
        if !overCount && !overBytes {
          break;
        }
        bytes := bytes - RetainedBytes(events[0]);
        events := events[1..];
      }
    }

    /** Exactly the retained events of one session, in order. */
    method EventsFor(session: string) returns (out: seq<Event>)
      requires Valid()
      ensures out == Project(events, session)
    {
      out := [];
      for i := 0 to |events|
        invariant out == Project(events[..i], session)
      {
        assert events[..i + 1][..i] == events[..i];
        if events[i].session == session {
          out := out + [events[i]];
        }
      }
      assert events[..|events|] == events;
    }

    /** One subscription: its replay, then its live events until the stream ends. */
    method ConsumeSubscription(replay: seq<Event>, live: seq<Event>) returns (accepted: bool)
      requires Valid()
      modifies this
      ensures Valid() && Abs() == AcceptAll(old(Abs()), replay + live, validJson)
      ensures accepted <==> lastSeq > old(lastSeq)
    {
      var fromReplay := Drain(replay);
      label Replayed:
      var fromLive := Drain(live);
      AcceptAllConcat(old(Abs()), replay, live, validJson);
      accepted := fromReplay || fromLive;
    }

    method Drain(events: seq<Event>) returns (any: bool)
      requires Valid()
      modifies this
      ensures Valid() && Abs() == AcceptAll(old(Abs()), events, validJson)
      ensures lastSeq >= old(lastSeq) && (any <==> lastSeq > old(lastSeq))
    {
      any := false;
      for i := 0 to |events|
        invariant Valid() && Abs() == AcceptAll(old(Abs()), events[..i], validJson)
        invariant lastSeq >= old(lastSeq) && (any <==> lastSeq > old(lastSeq))
      {
        assert events[..i + 1][..i] == events[..i];
        var taken := Accept(events[i]);
        any := any || taken;
      }
      assert events[..|events|] == events;
    }
  }

  lemma {:induction false} AcceptAllConcat(s: State, a: seq<Event>, b: seq<Event>, validJson: string -> bool)
    ensures AcceptAll(s, a + b, validJson) == AcceptAll(AcceptAll(s, a, validJson), b, validJson)
  {
    if b == [] {
      assert a + b == a;
    } else {
      assert (a + b)[..|a + b| - 1] == a + b[..|b| - 1];
      AcceptAllConcat(s, a, b[..|b| - 1], validJson);
    }
  }

  // ---------------------------------------------------------------- reconnections to one broker

  /** A broker's history numbers its events 1, 2, 3, ... (module Broker, RingInv). */
  ghost predicate Numbered(history: seq<Event>) {
    forall i | 0 <= i < |history| :: history[i].seqNo == i + 1
  }

  /** One connection handed over history[lo..hi]. */
  datatype Connection = Connection(lo: nat, hi: nat)

  ghost predicate Served(history: seq<Event>, connections: seq<Connection>) {
    forall i | 0 <= i < |connections| :: connections[i].lo <= connections[i].hi <= |history|
  }

  ghost function Reconnect(history: seq<Event>, connections: seq<Connection>, validJson: string -> bool): State
    requires Served(history, connections)
  {
    if connections == [] then EMPTY
    else
      var n := |connections| - 1;
      AcceptAll(Reconnect(history, connections[..n], validJson),
                history[connections[n].lo..connections[n].hi], validJson)
  }

  /**
   Accepted events are published events, in strictly increasing sequence. A gap is recorded
   exactly when some sequence up to lastSeq was never accepted, and it names the first such one.
  */
  ghost predicate Inv(history: seq<Event>, s: State) {
    Published(history, s) && Increasing(s) && GapInv(s)
  }

  ghost predicate Published(history: seq<Event>, s: State) {
    && s.lastSeq <= |history|
    && forall i | 0 <= i < |s.accepted| ::
         1 <= s.accepted[i].seqNo <= s.lastSeq && s.accepted[i] == history[s.accepted[i].seqNo - 1]
  }

  ghost predicate Increasing(s: State) {
    forall i, j | 0 <= i < j < |s.accepted| :: s.accepted[i].seqNo < s.accepted[j].seqNo
  }

  ghost predicate GapInv(s: State) {
    match s.gap
    case NoGap => |s.accepted| == s.lastSeq && (forall i | 0 <= i < |s.accepted| :: s.accepted[i].seqNo == i + 1)
    case Gap(expected, first) =>
      && 1 <= expected < first <= s.lastSeq && expected - 1 < |s.accepted|
      && (forall i | 0 <= i < expected - 1 :: s.accepted[i].seqNo == i + 1)
      && s.accepted[expected - 1].seqNo == first
  }

  lemma AcceptKeepsInv(history: seq<Event>, s: State, e: Event, validJson: string -> bool)
    requires Numbered(history) && Inv(history, s) && 1 <= e.seqNo <= |history| && e == history[e.seqNo - 1]
    ensures Inv(history, Accepting(s, e, validJson))
  {
    hide Malformed, Increasing, GapInv, Numbered;
    AcceptKeepsOrder(history, s, e, validJson);
    AcceptKeepsGap(s, e, validJson);
  }

  lemma AcceptKeepsOrder(history: seq<Event>, s: State, e: Event, validJson: string -> bool)
    requires Published(history, s) && Increasing(s)
    ensures Increasing(Accepting(s, e, validJson))
  {
    hide Malformed;
  }

  lemma AcceptKeepsGap(s: State, e: Event, validJson: string -> bool)
    requires GapInv(s)
    ensures GapInv(Accepting(s, e, validJson))
  {
    hide Malformed;
  }

  lemma AcceptLast(history: seq<Event>, s: State, lo: nat, hi: nat, validJson: string -> bool)
    requires lo < hi <= |history|
    ensures AcceptAll(s, history[lo..hi], validJson)
         == Accepting(AcceptAll(s, history[lo..hi - 1], validJson), history[hi - 1], validJson)
  {
    assert history[lo..hi][..hi - lo - 1] == history[lo..hi - 1];
  }

  lemma {:induction false} AcceptAllKeepsInv(history: seq<Event>, s: State, lo: nat, hi: nat, validJson: string -> bool)
    requires Numbered(history) && Inv(history, s) && lo <= hi <= |history|
    ensures Inv(history, AcceptAll(s, history[lo..hi], validJson))
    decreases hi
  {
    if lo < hi {
      AcceptLast(history, s, lo, hi, validJson);
      hide AcceptAll, Accepting, Inv;
      AcceptAllKeepsInv(history, s, lo, hi - 1, validJson);
      AcceptKeepsInv(history, AcceptAll(s, history[lo..hi - 1], validJson), history[hi - 1], validJson);
    }
  }

  /**
   Across any number of reconnections to one broker, each starting anywhere and ending anywhere,
   the mirror's accepted events are published events in strictly increasing order without
   duplicates, and as long as no gap is recorded they are exactly the first lastSeq published.
  */
  lemma {:induction false} ReconnectsKeepInv(history: seq<Event>, connections: seq<Connection>, validJson: string -> bool)
    requires Numbered(history) && Served(history, connections)
    ensures Inv(history, Reconnect(history, connections, validJson))
  {
    if connections != [] {
      var n := |connections| - 1;
      ReconnectsKeepInv(history, connections[..n], validJson);
      AcceptAllKeepsInv(history, Reconnect(history, connections[..n], validJson),
                        connections[n].lo, connections[n].hi, validJson);
    }
  }

  /**
   Joined to the broker: whatever intervals of its history the connections of any run handed over,
   the mirror holds published events in order, and says truly whether any is missing.
  */
  lemma MirrorOfRun(
      config: Broker.Config, actions: seq<Broker.Action>, connections: seq<Connection>, validJson: string -> bool)
    requires config.Acceptable() && Served(Broker.Run(Broker.Initial(config), actions).history, connections)
    ensures var history := Broker.Run(Broker.Initial(config), actions).history;
            var s := Reconnect(history, connections, validJson);
            && Inv(history, s)
            && (s.gap == NoGap <==> s.accepted == history[..s.lastSeq])
  {
    var history := Broker.Run(Broker.Initial(config), actions).history;
    assert Numbered(history) by {
      Broker.InitialInv(config);
      Broker.EveryRunKeepsInv(Broker.Initial(config), actions);
    }
    hide Broker.Run;
    ReconnectsKeepInv(history, connections, validJson);
    GapMeansMissing(history, Reconnect(history, connections, validJson));
  }

  /** No gap is recorded if and only if nothing up to lastSeq is missing. */
  lemma GapMeansMissing(history: seq<Event>, s: State)
    requires Numbered(history) && Inv(history, s)
    ensures s.gap == NoGap <==> s.accepted == history[..s.lastSeq]
    ensures s.gap == NoGap <==> forall n | 0 <= n < s.lastSeq :: history[n] in s.accepted
    ensures s.gap != NoGap ==> history[s.gap.expectedSeq - 1] !in s.accepted
  {
    if s.gap == NoGap {
      assert s.accepted == history[..s.lastSeq];
      forall n | 0 <= n < s.lastSeq ensures history[n] in s.accepted {
        assert s.accepted[n] == history[n];
      }
    } else {
      var at := s.gap.expectedSeq - 1;
      forall i | 0 <= i < |s.accepted| ensures s.accepted[i] != history[at] {
        assert history[at].seqNo == at + 1;
      }
      assert s.accepted[at] != history[..s.lastSeq][at];
    }
  }

  /** A well-formed event that follows on is accepted and closes no gap: the mirror makes progress. */
  lemma {:induction false} ReplayCatchesUp(history: seq<Event>, s: State, lo: nat, validJson: string -> bool)
    requires Numbered(history) && Inv(history, s) && lo <= s.lastSeq && s.gap == NoGap
    requires forall i | s.lastSeq <= i < |history| :: !Malformed(history[i], validJson)
    ensures AcceptAll(s, history[lo..], validJson) == State(history, |history|, NoGap)
  {
    assert history[lo..] == history[lo..s.lastSeq] + history[s.lastSeq..];
    AcceptAllConcat(s, history[lo..s.lastSeq], history[s.lastSeq..], validJson);
    SkipsOld(history, s, lo, s.lastSeq, validJson);
    TakesNew(history, s, |history|, validJson);
    assert history[s.lastSeq..] == history[s.lastSeq..|history|];
    assert history[..|history|] == history;
  }

  lemma {:induction false} SkipsOld(history: seq<Event>, s: State, lo: nat, hi: nat, validJson: string -> bool)
    requires Numbered(history) && lo <= hi <= s.lastSeq <= |history|
    ensures AcceptAll(s, history[lo..hi], validJson) == s
    decreases hi
  {
    if lo < hi {
      AcceptLast(history, s, lo, hi, validJson);
      hide AcceptAll, Malformed;
      SkipsOld(history, s, lo, hi - 1, validJson);
    }
  }

  lemma {:induction false} TakesNew(history: seq<Event>, s: State, hi: nat, validJson: string -> bool)
    requires Numbered(history) && Inv(history, s) && s.gap == NoGap && s.lastSeq <= hi <= |history|
    requires forall i | s.lastSeq <= i < hi :: !Malformed(history[i], validJson)
    ensures AcceptAll(s, history[s.lastSeq..hi], validJson) == State(history[..hi], hi, NoGap)
    decreases hi
  {
    GapMeansMissing(history, s);
    hide Inv, Malformed;
    if s.lastSeq < hi {
      AcceptLast(history, s, s.lastSeq, hi, validJson);
      hide AcceptAll, Accepting;
      TakesNew(history, s, hi - 1, validJson);
      TakesNext(history, hi, validJson);
    }
  }

  lemma TakesNext(history: seq<Event>, hi: nat, validJson: string -> bool)
    requires Numbered(history) && 0 < hi <= |history| && !Malformed(history[hi - 1], validJson)
    ensures Accepting(State(history[..hi - 1], hi - 1, NoGap), history[hi - 1], validJson) == State(history[..hi], hi, NoGap)
  {
    hide Malformed;
    assert history[..hi] == history[..hi - 1] + [history[hi - 1]];
  }
}
