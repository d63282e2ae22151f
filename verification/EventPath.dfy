/**
 The whole way of an event: published by a session, up through the tree's brokers, over the root's
 event stream, into the manager's mirror. The modules joined here are Forwarding, Broker, EventStream
 and Mirrors.
*/
module EventPath {
  import opened Events
  import Broker
  import EventStream
  import Forwarding
  import Mirrors

  // ---------------------------------------------------------------- one connection

  function Framed(events: seq<Event>, encode: Event -> string): seq<EventStream.Event> {
    if events == [] then []
    else [EventStream.Event(events[0].seqNo, events[0].kind, encode(events[0]))] + Framed(events[1..], encode)
  }

  function Decoded(bodies: seq<string>, decode: string -> Event): seq<Event> {
    if bodies == [] then [] else [decode(bodies[0])] + Decoded(bodies[1..], decode)
  }

  /** JSON encoding, as far as the framing needs it: an object on one line that decodes to what was encoded. */
  ghost predicate Encodes(events: seq<Event>, encode: Event -> string, decode: string -> Event) {
    forall e | e in events ::
      decode(encode(e)) == e && EventStream.Encodable(EventStream.Event(e.seqNo, e.kind, encode(e)))
  }

  /** The text that carries the events, and what its reader decodes when it breaks off after `cut` characters. */
  function Text(events: seq<Event>, encode: Event -> string): string { EventStream.Frames(Framed(events, encode)) }

  function Carried(events: seq<Event>, cut: nat, encode: Event -> string, decode: string -> Event): seq<Event>
    requires cut <= |Text(events, encode)|
  {
    Decoded(EventStream.Read(EventStream.Lines(Text(events, encode)[..cut]), "").bodies, decode)
  }

  lemma {:induction false} FramedEncodable(events: seq<Event>, encode: Event -> string, decode: string -> Event)
    requires Encodes(events, encode, decode)
    ensures forall e | e in Framed(events, encode) :: EventStream.Encodable(e)
    ensures Decoded(EventStream.BodiesOf(Framed(events, encode)), decode) == events
  {
    hide EventStream.Encodable;
    if events != [] {
      assert events[0] in events;
      FramedEncodable(events[1..], encode, decode);
      var framed := Framed(events, encode);
      assert framed[1..] == Framed(events[1..], encode);
      assert EventStream.BodiesOf(framed)[1..] == EventStream.BodiesOf(framed[1..]);
    }
  }

  lemma {:induction false} DecodedPrefix(bodies: seq<string>, all: seq<string>, decode: string -> Event)
    requires bodies <= all
    ensures Decoded(bodies, decode) <= Decoded(all, decode)
  {
    if bodies != [] {
      assert bodies[1..] <= all[1..];
      DecodedPrefix(bodies[1..], all[1..], decode);
    }
  }

  /** A connection that breaks anywhere has handed over a prefix of the events, and a whole one all of them. */
  lemma CarriedIsPrefix(events: seq<Event>, cut: nat, encode: Event -> string, decode: string -> Event)
    requires Encodes(events, encode, decode) && cut <= |Text(events, encode)|
    ensures Carried(events, cut, encode, decode) <= events
    ensures cut == |Text(events, encode)| ==> Carried(events, cut, encode, decode) == events
  {
    FramedEncodable(events, encode, decode);
    hide EventStream.Read, EventStream.Lines, EventStream.Frames, EventStream.Encodable, Framed, Decoded, EventStream.BodiesOf;
    var framed := Framed(events, encode);
    EventStream.CutStreamYieldsPrefix(framed, cut);
    DecodedPrefix(EventStream.Read(EventStream.Lines(Text(events, encode)[..cut]), "").bodies, EventStream.BodiesOf(framed), decode);
    if cut == |Text(events, encode)| {
      assert Text(events, encode)[..cut] == Text(events, encode);
      EventStream.ReadInvertsWrite(framed);
    }
  }

  // ---------------------------------------------------------------- a broker's history in a run of the tree

  lemma {:induction false} RunSplits(t: Forwarding.Tree, actions: seq<Forwarding.Action>, k: nat)
    requires k <= |actions|
    ensures Forwarding.Run(t, actions) == Forwarding.Run(Forwarding.Run(t, actions[..k]), actions[k..])
    decreases |actions|
  {
    hide Forwarding.Step;
    if k == 0 {
      assert actions[..0] == [] && actions[0..] == actions;
    } else {
      assert actions[..k][1..] == actions[1..][..k - 1] && actions[k..] == actions[1..][k - 1..];
      RunSplits(Forwarding.Step(t, actions[0]), actions[1..], k - 1);
    }
  }

  ghost predicate Extends(before: Forwarding.Tree, after: Forwarding.Tree, name: string) {
    name in before.nodes ==>
      name in after.nodes && before.nodes[name].broker.history <= after.nodes[name].broker.history
  }

  lemma PublishExtends(s: Broker.State, session: string, kind: string, payload: string, source: Event)
    ensures s.history <= Broker.PublishLocal(s, session, kind, payload).history
    ensures s.history <= Broker.Forward(s, source).history
    ensures Broker.Subscribe(s).history == s.history
  {
    hide LongestFit, Sum;
  }

  lemma StepExtends(t: Forwarding.Tree, action: Forwarding.Action, name: string)
    ensures Extends(t, Forwarding.Step(t, action), name)
  {
    hide Broker.PublishLocal, Broker.Forward, Broker.Subscribe, Broker.Step;
    match action
    case Publish(node, kind, payload) =>
      if node in t.nodes {
        PublishExtends(t.nodes[node].broker, node, kind, payload, Event(0, "", 0, "", ""));
      }
    case BrokerStep(node, step) =>
      if node in t.nodes && !step.DoPublishLocal? && !step.DoForward? {
        Broker.QuietStepKeepsHistory(t.nodes[node].broker, step);
      }
    case Attach(node) =>
      if node in t.nodes {
        PublishExtends(t.nodes[node].broker, "", "", "", Event(0, "", 0, "", ""));
      }
    case Republish(child) =>
      if child in t.nodes && child in t.shape && t.shape[child].parent in t.nodes && t.nodes[child].link.Attached?
         && t.nodes[child].link.wire != [] {
        PublishExtends(t.nodes[t.shape[child].parent].broker, "", "", "", t.nodes[child].link.wire[0]);
      }
    case _ =>
  }

  /** A broker's history only grows. */
  lemma {:induction false} RunExtends(t: Forwarding.Tree, actions: seq<Forwarding.Action>, name: string)
    ensures Extends(t, Forwarding.Run(t, actions), name)
    decreases |actions|
  {
    hide Forwarding.Step;
    if actions != [] {
      StepExtends(t, actions[0], name);
      RunExtends(Forwarding.Step(t, actions[0]), actions[1..], name);
    }
  }

  // ---------------------------------------------------------------- the mirror of a run

  /** The manager's connection that had, at `moment` of the run, read `cut` characters of what its subscriber was handed. */
  datatype Connection = Connection(moment: nat, id: nat, cut: nat)

  datatype Setting = Setting(
    root: string, config: Broker.Config, actions: seq<Forwarding.Action>,
    encode: Event -> string, decode: string -> Event, validJson: string -> bool)
  {
    ghost function At(moment: nat): Forwarding.Tree
      requires moment <= |actions|
    {
      Forwarding.Run(Forwarding.Initial(root, config), actions[..moment])
    }

    ghost function Final(): Forwarding.Tree { Forwarding.Run(Forwarding.Initial(root, config), actions) }

    /** The subscriber exists at that moment, what it was handed can be encoded, and the cut lies within its text. */
    ghost predicate Possible(c: Connection) {
      && c.moment <= |actions|
      && root in At(c.moment).nodes && c.id in At(c.moment).nodes[root].broker.boxes
      && var stream := At(c.moment).nodes[root].broker.boxes[c.id].Stream();
         Encodes(stream, encode, decode) && c.cut <= |Text(stream, encode)|
    }

    ghost function Received(c: Connection): seq<Event>
      requires Possible(c)
    {
      Carried(At(c.moment).nodes[root].broker.boxes[c.id].Stream(), c.cut, encode, decode)
    }

    ghost predicate AllPossible(connections: seq<Connection>) {
      forall k | 0 <= k < |connections| :: Possible(connections[k])
    }

    /** The mirror after one connection after another, each carried by its own text. */
    ghost function Mirrored(connections: seq<Connection>): Mirrors.State
      requires AllPossible(connections)
      decreases |connections|
    {
      if connections == [] then Mirrors.EMPTY
      else
        var n := |connections| - 1;
        Mirrors.AcceptAll(Mirrored(connections[..n]), Received(connections[n]), validJson)
    }
  }

  /** The root's broker at a moment of the run, and what becomes of its history. */
  lemma BrokerAt(x: Setting, moment: nat)
    requires x.config.Acceptable() && moment <= |x.actions| && x.root in x.At(moment).nodes
    ensures Broker.Inv(x.At(moment).nodes[x.root].broker)
    ensures x.root in x.Final().nodes
    ensures x.At(moment).nodes[x.root].broker.history <= x.Final().nodes[x.root].broker.history
  {
    var start := Forwarding.Initial(x.root, x.config);
    var t := x.At(moment);
    RunSplits(start, x.actions, moment);
    RunExtends(t, x.actions[moment..], x.root);
    assert Broker.Inv(t.nodes[x.root].broker) by {
      Forwarding.InitialInv(x.root, x.config);
      Forwarding.EveryRunKeepsInv(start, x.actions[..moment]);
      hide Forwarding.Run, Forwarding.Initial;
      assert Forwarding.NodeInv(t.shape, x.root, t.nodes[x.root]);
    }
    hide Forwarding.Run, Forwarding.Initial, Broker.Inv;
  }

  /** What a connection received is an interval of the root broker's final history. */
  lemma ReceivedIsInterval(x: Setting, c: Connection) returns (lo: nat, hi: nat)
    requires x.config.Acceptable() && x.Possible(c)
    ensures x.root in x.Final().nodes
    ensures lo <= hi <= |x.Final().nodes[x.root].broker.history|
    ensures x.Received(c) == x.Final().nodes[x.root].broker.history[lo..hi]
  {
    hide Forwarding.Run, Forwarding.Initial, Broker.Inv, Carried, Encodes, Text, Setting.At, Setting.Final;
    BrokerAt(x, c.moment);
    var broker := x.At(c.moment).nodes[x.root].broker;
    var stream := broker.boxes[c.id].Stream();
    Broker.StreamAt(broker, c.id);
    CarriedIsPrefix(stream, c.cut, x.encode, x.decode);
    lo := broker.boxes[c.id].first;
    hi := lo + |x.Received(c)|;
    HandedInterval(broker.history, x.Final().nodes[x.root].broker.history, stream, x.Received(c), lo);
  }

  lemma HandedInterval(history: seq<Event>, longer: seq<Event>, stream: seq<Event>, received: seq<Event>, lo: nat)
    requires history <= longer && lo + |stream| <= |history| && stream == history[lo..lo + |stream|] && received <= stream
    ensures received == longer[lo..lo + |received|]
  {
  }

  /** The mirror's state is that of reconnecting over intervals of the final history. */
  lemma {:induction false} MirroredIsReconnect(x: Setting, connections: seq<Connection>)
    returns (intervals: seq<Mirrors.Connection>)
    requires x.config.Acceptable() && x.AllPossible(connections) && x.root in x.Final().nodes
    ensures var history := x.Final().nodes[x.root].broker.history;
            && Mirrors.Served(history, intervals)
            && x.Mirrored(connections) == Mirrors.Reconnect(history, intervals, x.validJson)
    decreases |connections|
  {
    hide Setting.Possible, Setting.Received, Setting.Final, Mirrors.AcceptAll;
    if connections == [] {
      intervals := [];
    } else {
      var n := |connections| - 1;
      var earlier := MirroredIsReconnect(x, connections[..n]);
      var lo, hi := ReceivedIsInterval(x, connections[n]);
      intervals := earlier + [Mirrors.Connection(lo, hi)];
      assert intervals[..|earlier|] == earlier;
    }
  }

  lemma IntervalPrefix(history: seq<Event>, n: nat, name: string, own: seq<Event>, lo: nat)
    requires n <= |history| && Forwarding.IsInterval(Project(history, name), own, lo)
    ensures Forwarding.IsInterval(Project(history[..n], name), own, lo)
  {
    var first, last := ProjectInterval(history, 0, n, name);
    var view, all := Project(history[..n], name), Project(history, name);
    assert history[0..n] == history[..n] && history[..0] == [];
    assert Project([], name) == [];
    assert view == all[..last];
    forall i | 0 <= i < |view| ensures Bodies(view)[i] == Bodies(own[lo..lo + |view|])[i] {
      assert Body(all[i]) == Bodies(all)[i] == Bodies(own[lo..lo + |all|])[i] == Body(own[lo + i]);
    }
  }

  /**
   End to end: in every run of a tree of supervisors, whichever subscriptions of the root's broker the
   manager read, wherever each connection broke, the mirror accepted published events in increasing order
   and knows whether one is missing; and while none is, what it accepted of any session is a hole-free
   interval of that session's own publications, in source order.
  */
  lemma MirrorShowsOwnPublications(x: Setting, connections: seq<Connection>, name: string) returns (lo: nat)
    requires x.config.Acceptable() && x.AllPossible(connections) && name in x.Final().nodes
    ensures x.root in x.Final().nodes
    ensures Mirrors.Inv(x.Final().nodes[x.root].broker.history, x.Mirrored(connections))
    ensures x.Mirrored(connections).gap == Mirrors.NoGap ==>
              Forwarding.IsInterval(Project(x.Mirrored(connections).accepted, name), Forwarding.Own(x.Final(), name), lo)
  {
    var t := x.Final();
    Forwarding.RootSeesAll(x.root, x.config, x.actions, name);
    Forwarding.ShapeOfRun(x.root, x.config, x.actions);
    lo := Forwarding.ViewHasNoHoles(x.root, x.config, x.actions, t, x.root, name);
    var intervals := MirroredIsReconnect(x, connections);
    var history := t.nodes[x.root].broker.history;
    assert Mirrors.Numbered(history) by {
      Forwarding.InitialInv(x.root, x.config);
      Forwarding.EveryRunKeepsInv(Forwarding.Initial(x.root, x.config), x.actions);
      assert Forwarding.NodeInv(t.shape, x.root, t.nodes[x.root]);
    }
    hide Forwarding.Run, Forwarding.Initial, Forwarding.IsInterval, Mirrors.Reconnect, Project;
    Mirrors.ReconnectsKeepInv(history, intervals, x.validJson);
    Mirrors.GapMeansMissing(history, x.Mirrored(connections));
    IntervalPrefix(history, x.Mirrored(connections).lastSeq, name, Forwarding.Own(t, name), lo);
  }
}
