/**
 Event forwarding through a tree of supervisors (internal/supervisor/children.go:270-313).

 Every node runs a broker of module Broker. Each child has at most one forwarder: it subscribes
 to the child's broker once, its events cross a link that is lossless and ordered until it is
 severed, and the parent's broker republishes them. Any step of any broker, any publication, any
 stage of any link and the arrival of new children may interleave.
*/
module Forwarding {
  import opened Events
  import Broker

  /** Where a node hangs; the root has depth 0. */
  datatype Place = Place(parent: string, depth: nat)

  /** `pulled` events have entered the link, `wire` holds those under way, `forwarded` were republished. */
  datatype Link =
    | Detached
    | Attached(subId: nat, pulled: nat, wire: seq<Event>, forwarded: nat, up: bool)

  /** `via` says of each history entry which child it came from, or the node itself. */
  datatype Node = Node(broker: Broker.State, via: seq<string>, link: Link)

  datatype Tree = Tree(shape: map<string, Place>, nodes: map<string, Node>)

  // ---------------------------------------------------------------- steps

  datatype Action =
    | AddChild(parent: string, child: string, config: Broker.Config)
    | Publish(name: string, kind: string, payload: string)
    | BrokerStep(name: string, action: Broker.Action)
    | Attach(name: string)
    | Pull(name: string)
    | Republish(name: string)
    | Sever(name: string)

  function Initial(root: string, config: Broker.Config): Tree {
    Tree(map[root := Place("", 0)], map[root := Node(Broker.Initial(config), [], Detached)])
  }

  function StreamOf(node: Node): seq<Event> {
    if node.link.Attached? && node.link.subId in node.broker.boxes
    then node.broker.boxes[node.link.subId].Stream() else []
  }

  function Published(node: Node, name: string, kind: string, payload: string): Node {
    var broker := Broker.PublishLocal(node.broker, name, kind, payload);
    if broker == node.broker then node else node.(broker := broker, via := node.via + [name])
  }

  function Attaching(node: Node): Node {
    if node.link != Detached || node.broker.flight != Broker.Idle || node.broker.closed then node
    else node.(broker := Broker.Subscribe(node.broker),
               link := Attached(node.broker.nextSubId + 1, 0, [], 0, true))
  }

  function Pulling(node: Node): Node {
    if node.link.Attached? && node.link.up && node.link.pulled < |StreamOf(node)|
    then node.(link := node.link.(pulled := node.link.pulled + 1,
                                  wire := node.link.wire + [StreamOf(node)[node.link.pulled]]))
    else node
  }

  predicate CanRepublish(child: Node, parent: Node) {
    child.link.Attached? && child.link.up && child.link.wire != [] && parent.broker.flight == Broker.Idle
  }

  /** A closed parent broker takes nothing: the forwarder consumes the event and it is lost. */
  function Consumed(child: Node, parent: Node): Node
    requires CanRepublish(child, parent)
  {
    var sent := if parent.broker.closed then child.link.forwarded else child.link.forwarded + 1;
    child.(link := child.link.(wire := child.link.wire[1..], forwarded := sent))
  }

  function Received(child: Node, name: string, parent: Node): Node
    requires CanRepublish(child, parent)
  {
    if parent.broker.closed then parent
    else parent.(broker := Broker.Forward(parent.broker, child.link.wire[0]), via := parent.via + [name])
  }

  function Step(t: Tree, action: Action): Tree {
    match action
    case AddChild(parent, child, config) =>
      if parent in t.shape && child !in t.shape && child !in t.nodes && config.Acceptable()
      then Tree(t.shape[child := Place(parent, t.shape[parent].depth + 1)],
                t.nodes[child := Node(Broker.Initial(config), [], Detached)])
      else t
    case Publish(name, kind, payload) =>
      if name in t.nodes then t.(nodes := t.nodes[name := Published(t.nodes[name], name, kind, payload)]) else t
    case BrokerStep(name, step) =>
      if name in t.nodes && !step.DoPublishLocal? && !step.DoForward?
      then t.(nodes := t.nodes[name := t.nodes[name].(broker := Broker.Step(t.nodes[name].broker, step))])
      else t
    case Attach(name) =>
      if name in t.nodes then t.(nodes := t.nodes[name := Attaching(t.nodes[name])]) else t
    case Pull(name) =>
      if name in t.nodes then t.(nodes := t.nodes[name := Pulling(t.nodes[name])]) else t
    case Republish(name) =>
      if name !in t.nodes || name !in t.shape || t.shape[name].depth == 0 || t.shape[name].parent !in t.nodes then t
      else
        var child, up := t.nodes[name], t.shape[name].parent;
        if !CanRepublish(child, t.nodes[up]) then t
        else t.(nodes := t.nodes[up := Received(child, name, t.nodes[up])][name := Consumed(child, t.nodes[up])])
    case Sever(name) =>
      if name in t.nodes && t.nodes[name].link.Attached?
      then t.(nodes := t.nodes[name := t.nodes[name].(link := t.nodes[name].link.(wire := [], up := false))])
      else t
  }

  function Run(t: Tree, actions: seq<Action>): Tree
    decreases |actions|
  {
    if actions == [] then t else Run(Step(t, actions[0]), actions[1..])
  }

  // ---------------------------------------------------------------- invariant

  /** Shapes are forests whose depths count edges. */
  ghost predicate ShapeInv(shape: map<string, Place>) {
    forall name {:trigger shape[name].parent} | name in shape && shape[name].depth > 0 ::
      && shape[name].parent in shape
      && shape[shape[name].parent].depth + 1 == shape[name].depth
  }

  predicate Under(shape: map<string, Place>, top: string, name: string): (yes: bool)
    requires ShapeInv(shape)
    ensures yes ==> top in shape && name in shape && shape[top].depth <= shape[name].depth
    decreases if name in shape then shape[name].depth else 0
  {
    name in shape && (name == top || (shape[name].depth > 0 && Under(shape, top, shape[name].parent)))
  }

  /** The history entries that came from one place. */
  function From(history: seq<Event>, via: seq<string>, name: string): seq<Event>
    requires |via| == |history|
  {
    if history == [] then []
    else
      var n := |history| - 1;
      if via[n] == name then From(history[..n], via[..n], name) + [history[n]]
      else From(history[..n], via[..n], name)
  }

  lemma FromAppend(history: seq<Event>, via: seq<string>, e: Event, origin: string, name: string)
    requires |via| == |history|
    ensures From(history + [e], via + [origin], name)
         == if origin == name then From(history, via, name) + [e] else From(history, via, name)
  {
    assert (history + [e])[..|history|] == history && (via + [origin])[..|via|] == via;
  }

  /** An entry is the node's own, or came from a child and belongs to that child's subtree. */
  ghost predicate Origin(shape: map<string, Place>, name: string, via: string, e: Event)
    requires ShapeInv(shape)
  {
    if via == name then e.session == name
    else via in shape && shape[via].depth > 0 && shape[via].parent == name && Under(shape, via, e.session)
  }

  ghost predicate NodeInv(shape: map<string, Place>, name: string, node: Node)
    requires ShapeInv(shape)
  {
    && Broker.Inv(node.broker)
    && name !in node.broker.foreign
    && |node.via| == |node.broker.history|
    && forall i | 0 <= i < |node.via| :: Origin(shape, name, node.via[i], node.broker.history[i])
  }

  /** What the parent copied is a prefix of the stream, and a live link carries exactly the rest of what it pulled. */
  ghost predicate Copies(copied: seq<Event>, stream: seq<Event>, link: Link, live: bool)
    requires link.Attached?
  {
    && link.forwarded <= link.pulled <= |stream|
    && Bodies(copied) == Bodies(stream[..link.forwarded])
    && (live ==> link.wire == stream[link.forwarded..link.pulled])
  }

  /** What the parent republished for a child is a prefix of what the child's forwarder was handed. */
  ghost predicate LinkInv(name: string, child: Node, parent: Node) {
    && |parent.via| == |parent.broker.history|
    && var copied := From(parent.broker.history, parent.via, name);
       match child.link
       case Detached => copied == []
       case Attached(subId, _, _, _, up) =>
         subId in child.broker.boxes && Copies(copied, StreamOf(child), child.link, up && !parent.broker.closed)
  }

  ghost predicate Inv(t: Tree) {
    && ShapeInv(t.shape)
    && t.shape.Keys == t.nodes.Keys
    && (forall name {:trigger NodeInv(t.shape, name, t.nodes[name])} | name in t.nodes :: NodeInv(t.shape, name, t.nodes[name]))
    && (forall name {:trigger LinkInv(name, t.nodes[name], t.nodes[t.shape[name].parent])} | name in t.nodes && t.shape[name].depth > 0 ::
          LinkInv(name, t.nodes[name], t.nodes[t.shape[name].parent]))
  }

  // ---------------------------------------------------------------- steps keep the invariant

  lemma ReplaceNode(t: Tree, name: string, node: Node)
    requires Inv(t) && name in t.nodes && NodeInv(t.shape, name, node)
    requires t.shape[name].depth > 0 ==> LinkInv(name, node, t.nodes[t.shape[name].parent])
    requires forall child | child in t.nodes && t.shape[child].depth > 0 && t.shape[child].parent == name ::
               LinkInv(child, t.nodes[child], node)
    ensures Inv(t.(nodes := t.nodes[name := node]))
  {
    hide NodeInv, LinkInv;
  }

  lemma PublishedKeepsNode(shape: map<string, Place>, name: string, node: Node, kind: string, payload: string)
    requires ShapeInv(shape) && NodeInv(shape, name, node)
    ensures NodeInv(shape, name, Published(node, name, kind, payload))
  {
    hide Broker.Inv;
    Broker.PublishKeepsInv(node.broker, name, kind, payload);
  }

  lemma PublishedKeepsLinks(shape: map<string, Place>, name: string, node: Node, kind: string, payload: string,
                            other: string, peer: Node)
    requires |node.via| == |node.broker.history| && other != name
    ensures LinkInv(name, node, peer) ==> LinkInv(name, Published(node, name, kind, payload), peer)
    ensures LinkInv(other, peer, node) ==> LinkInv(other, peer, Published(node, name, kind, payload))
  {
    var after := Published(node, name, kind, payload);
    if after != node {
      FromAppend(node.broker.history, node.via, after.broker.history[|node.broker.history|], name, other);
    }
  }

  lemma CopiesAsStreamGrows(copied: seq<Event>, stream: seq<Event>, longer: seq<Event>, link: Link, live: bool)
    requires link.Attached? && Copies(copied, stream, link, live) && stream <= longer
    ensures Copies(copied, longer, link, live)
  {
    assert stream[..link.forwarded] == longer[..link.forwarded];
  }

  lemma StreamGrows(name: string, child: Node, after: Node, parent: Node)
    requires LinkInv(name, child, parent) && after.link == child.link
    requires child.link.Attached? ==>
               child.link.subId in after.broker.boxes && StreamOf(child) <= StreamOf(after)
    ensures LinkInv(name, after, parent)
  {
    hide From, Copies, StreamOf;
    if child.link.Attached? {
      CopiesAsStreamGrows(From(parent.broker.history, parent.via, name), StreamOf(child), StreamOf(after),
                          child.link, child.link.up && !parent.broker.closed);
    }
  }

  lemma BrokerStepKeepsNode(shape: map<string, Place>, name: string, node: Node, action: Broker.Action)
    requires ShapeInv(shape) && NodeInv(shape, name, node)
    requires !action.DoPublishLocal? && !action.DoForward?
    ensures NodeInv(shape, name, node.(broker := Broker.Step(node.broker, action)))
  {
    hide Broker.Inv;
    Broker.StepKeepsInv(node.broker, action);
    hide Broker.Step;
    Broker.QuietStepKeepsHistory(node.broker, action);
  }

  /** A step of either end's broker, publication aside, leaves the link between them in order. */
  lemma BrokerStepKeepsLinks(name: string, child: Node, parent: Node, action: Broker.Action)
    requires Broker.Inv(child.broker) && LinkInv(name, child, parent)
    requires !action.DoPublishLocal? && !action.DoForward?
    ensures LinkInv(name, child.(broker := Broker.Step(child.broker, action)), parent)
    ensures LinkInv(name, child, parent.(broker := Broker.Step(parent.broker, action)))
  {
    Broker.QuietStepKeepsHistory(parent.broker, action);
    if child.link.Attached? {
      Broker.TracksAt(child.broker, child.link.subId);
      Broker.QuietStepGrowsStream(child.broker, action, child.link.subId);
    }
    hide Broker.Step, Broker.Inv, LinkInv;
    StreamGrows(name, child, child.(broker := Broker.Step(child.broker, action)), parent);
  }

  lemma AttachingKeepsNode(shape: map<string, Place>, name: string, node: Node)
    requires ShapeInv(shape) && NodeInv(shape, name, node)
    ensures NodeInv(shape, name, Attaching(node))
  {
    hide Broker.Inv;
    if Attaching(node) != node {
      Broker.StepKeepsInv(node.broker, Broker.DoSubscribe);
      Broker.QuietStepKeepsHistory(node.broker, Broker.DoSubscribe);
    }
  }

  lemma AttachingKeepsLink(name: string, node: Node, parent: Node)
    requires LinkInv(name, node, parent)
    ensures LinkInv(name, Attaching(node), parent)
  {
  }

  lemma AttachingKeepsOthers(name: string, child: Node, parent: Node)
    requires LinkInv(name, child, parent)
    ensures LinkInv(name, child, Attaching(parent))
  {
  }

  lemma PullingKeeps(name: string, node: Node, parent: Node)
    requires LinkInv(name, node, parent)
    ensures LinkInv(name, Pulling(node), parent)
  {
  }

  lemma UnderAtSameDepth(shape: map<string, Place>, top: string, name: string)
    requires ShapeInv(shape) && Under(shape, top, name)
    ensures shape[top].depth == shape[name].depth ==> top == name
    decreases if name in shape then shape[name].depth else 0
  {
  }

  lemma {:induction false} UnderIsTransitive(shape: map<string, Place>, top: string, mid: string, name: string)
    requires ShapeInv(shape) && Under(shape, top, mid) && Under(shape, mid, name)
    ensures Under(shape, top, name)
    decreases if name in shape then shape[name].depth else 0
  {
    if name != mid {
      UnderIsTransitive(shape, top, mid, shape[name].parent);
    }
  }

  /** Every event in a node's history belongs to the node's subtree. */
  lemma EntryUnder(shape: map<string, Place>, name: string, node: Node, i: nat)
    requires ShapeInv(shape) && name in shape && NodeInv(shape, name, node) && i < |node.broker.history|
    ensures Under(shape, name, node.broker.history[i].session)
  {
    assert Origin(shape, name, node.via[i], node.broker.history[i]);
    if node.via[i] != name {
      UnderIsTransitive(shape, name, node.via[i], node.broker.history[i].session);
    }
  }

  lemma BodiesExtend(copied: seq<Event>, e: Event, stream: seq<Event>, n: nat)
    requires n < |stream| && Bodies(copied) == Bodies(stream[..n]) && Body(e) == Body(stream[n])
    ensures Bodies(copied + [e]) == Bodies(stream[..n + 1])
  {
    assert stream[..n + 1] == stream[..n] + [stream[n]];
    assert Bodies(copied + [e]) == Bodies(copied) + [Body(e)];
    assert Bodies(stream[..n] + [stream[n]]) == Bodies(stream[..n]) + [Body(stream[n])];
  }

  lemma CopyOne(copied: seq<Event>, e: Event, stream: seq<Event>, link: Link)
    requires link.Attached? && Copies(copied, stream, link, true) && link.wire != [] && Body(e) == Body(link.wire[0])
    ensures Copies(copied + [e], stream, link.(wire := link.wire[1..], forwarded := link.forwarded + 1), true)
  {
    BodiesExtend(copied, e, stream, link.forwarded);
  }

  /** Handing over one event: the parent republishes exactly what the child's broker published. */
  lemma HandoverKeepsLink(name: string, child: Node, parent: Node)
    requires LinkInv(name, child, parent) && CanRepublish(child, parent)
    ensures LinkInv(name, Consumed(child, parent), Received(child, name, parent))
  {
    assert StreamOf(Consumed(child, parent)) == StreamOf(child);
    if parent.broker.closed {
      return;
    }
    hide Broker.Forward, From, Copies, StreamOf;
    Broker.ForwardAppends(parent.broker, child.link.wire[0]);
    var e := Received(child, name, parent).broker.history[|parent.broker.history|];
    FromAppend(parent.broker.history, parent.via, e, name, name);
    CopyOne(From(parent.broker.history, parent.via, name), e, StreamOf(child), child.link);
  }

  lemma HandoverKeepsOthers(name: string, child: Node, parent: Node, other: string, peer: Node)
    requires CanRepublish(child, parent) && |parent.via| == |parent.broker.history| && other != name
    ensures LinkInv(other, peer, parent) ==> LinkInv(other, peer, Received(child, name, parent))
    ensures LinkInv(other, parent, peer) ==> LinkInv(other, Received(child, name, parent), peer)
    ensures LinkInv(other, peer, child) ==> LinkInv(other, peer, Consumed(child, parent))
  {
    hide Broker.Forward;
    if !parent.broker.closed {
      Broker.ForwardAppends(parent.broker, child.link.wire[0]);
      var e := Received(child, name, parent).broker.history[|parent.broker.history|];
      FromAppend(parent.broker.history, parent.via, e, name, other);
    }
  }

  /** The event about to be republished is one the child's broker published. */
  lemma NextEvent(name: string, child: Node, parent: Node) returns (at: nat)
    requires Broker.Inv(child.broker)
    requires LinkInv(name, child, parent) && CanRepublish(child, parent) && !parent.broker.closed
    ensures at < |child.broker.history| && child.broker.history[at] == child.link.wire[0]
  {
    hide Broker.Inv, From, Bodies;
    var subId, sent := child.link.subId, child.link.forwarded;
    Broker.StreamAt(child.broker, subId);
    assert child.link.wire[0] == StreamOf(child)[sent];
    at := child.broker.boxes[subId].first + sent;
  }

  lemma HandedEventUnder(shape: map<string, Place>, name: string, child: Node, parent: Node)
    requires ShapeInv(shape) && name in shape && NodeInv(shape, name, child)
    requires LinkInv(name, child, parent) && CanRepublish(child, parent) && !parent.broker.closed
    ensures Under(shape, name, child.link.wire[0].session)
  {
    hide LinkInv, Broker.Inv;
    var at := NextEvent(name, child, parent);
    EntryUnder(shape, name, child, at);
  }

  lemma HandoverKeepsParent(shape: map<string, Place>, name: string, child: Node, up: string, parent: Node)
    requires ShapeInv(shape) && name in shape && shape[name].depth > 0 && shape[name].parent == up
    requires NodeInv(shape, name, child) && NodeInv(shape, up, parent)
    requires LinkInv(name, child, parent) && CanRepublish(child, parent)
    ensures NodeInv(shape, up, Received(child, name, parent))
  {
    hide Broker.Inv, LinkInv;
    if !parent.broker.closed {
      var e := child.link.wire[0];
      HandedEventUnder(shape, name, child, parent);
      assert e.session != up;
      Broker.ForwardKeepsInv(parent.broker, e);
      ReceivedKeepsOrigins(shape, name, child, up, parent);
    }
  }

  lemma ReceivedKeepsOrigins(shape: map<string, Place>, name: string, child: Node, up: string, parent: Node)
    requires ShapeInv(shape) && name in shape && shape[name].depth > 0 && shape[name].parent == up
    requires CanRepublish(child, parent) && NodeInv(shape, up, parent) && !parent.broker.closed
    requires Under(shape, name, child.link.wire[0].session) && child.link.wire[0].session != up
    requires Broker.Inv(Broker.Forward(parent.broker, child.link.wire[0]))
    ensures NodeInv(shape, up, Received(child, name, parent))
  {
    hide Broker.Inv, Broker.Forward;
    Broker.ForwardAppends(parent.broker, child.link.wire[0]);
    var after := Received(child, name, parent);
    forall i | 0 <= i < |after.via| ensures Origin(shape, up, after.via[i], after.broker.history[i]) {
      if i < |parent.via| {
        assert Origin(shape, up, parent.via[i], parent.broker.history[i]);
      }
    }
  }

  lemma PublishStep(t: Tree, name: string, kind: string, payload: string)
    requires Inv(t) && name in t.nodes
    ensures Inv(t.(nodes := t.nodes[name := Published(t.nodes[name], name, kind, payload)]))
  {
    hide NodeInv, LinkInv, Published;
    var node := t.nodes[name];
    ViaMatchesHistory(t, name);
    PublishedKeepsNode(t.shape, name, node, kind, payload);
    if t.shape[name].depth > 0 {
      var up := t.shape[name].parent;
      PublishedKeepsLinks(t.shape, name, node, kind, payload, up, t.nodes[up]);
    }
    forall child | child in t.nodes && t.shape[child].depth > 0 && t.shape[child].parent == name
      ensures LinkInv(child, t.nodes[child], Published(node, name, kind, payload))
    {
      PublishedKeepsLinks(t.shape, name, node, kind, payload, child, t.nodes[child]);
    }
    ReplaceNode(t, name, Published(node, name, kind, payload));
  }

  lemma ViaMatchesHistory(t: Tree, name: string)
    requires Inv(t) && name in t.nodes
    ensures Broker.Inv(t.nodes[name].broker) && |t.nodes[name].via| == |t.nodes[name].broker.history|
  {
    assert NodeInv(t.shape, name, t.nodes[name]);
  }

  lemma BrokerStepStep(t: Tree, name: string, action: Broker.Action)
    requires Inv(t) && name in t.nodes && !action.DoPublishLocal? && !action.DoForward?
    ensures Inv(t.(nodes := t.nodes[name := t.nodes[name].(broker := Broker.Step(t.nodes[name].broker, action))]))
  {
    hide NodeInv, LinkInv, Broker.Step, Broker.Inv;
    var node := t.nodes[name];
    var after := node.(broker := Broker.Step(node.broker, action));
    ViaMatchesHistory(t, name);
    BrokerStepKeepsNode(t.shape, name, node, action);
    if t.shape[name].depth > 0 {
      BrokerStepKeepsLinks(name, node, t.nodes[t.shape[name].parent], action);
    }
    forall child | child in t.nodes && t.shape[child].depth > 0 && t.shape[child].parent == name
      ensures LinkInv(child, t.nodes[child], after)
    {
      ViaMatchesHistory(t, child);
      BrokerStepKeepsLinks(child, t.nodes[child], node, action);
    }
    ReplaceNode(t, name, after);
  }

  lemma AttachStep(t: Tree, name: string)
    requires Inv(t) && name in t.nodes
    ensures Inv(t.(nodes := t.nodes[name := Attaching(t.nodes[name])]))
  {
    hide NodeInv, LinkInv, Attaching;
    var node := t.nodes[name];
    AttachingKeepsNode(t.shape, name, node);
    if t.shape[name].depth > 0 {
      AttachingKeepsLink(name, node, t.nodes[t.shape[name].parent]);
    }
    forall child | child in t.nodes && t.shape[child].depth > 0 && t.shape[child].parent == name
      ensures LinkInv(child, t.nodes[child], Attaching(node))
    {
      AttachingKeepsOthers(child, t.nodes[child], node);
    }
    ReplaceNode(t, name, Attaching(node));
  }

  /** A change of a node's link alone cannot disturb the node or its children. */
  lemma RelinkStep(t: Tree, name: string, node: Node)
    requires Inv(t) && name in t.nodes && node == t.nodes[name].(link := node.link)
    requires t.shape[name].depth > 0 ==> LinkInv(name, node, t.nodes[t.shape[name].parent])
    ensures Inv(t.(nodes := t.nodes[name := node]))
  {
    RelinkKeepsOthers(t, name, node);
    hide NodeInv, LinkInv;
    ReplaceNode(t, name, node);
  }

  lemma RelinkKeepsOthers(t: Tree, name: string, node: Node)
    requires Inv(t) && name in t.nodes && node == t.nodes[name].(link := node.link)
    ensures NodeInv(t.shape, name, node)
    ensures forall child | child in t.nodes && t.shape[child].depth > 0 && t.shape[child].parent == name ::
              LinkInv(child, t.nodes[child], node)
  {
    NodeAt(t, name);
    forall child | child in t.nodes && t.shape[child].depth > 0 && t.shape[child].parent == name
      ensures LinkInv(child, t.nodes[child], node)
    {
      Above(t, child);
      hide Inv, ShapeInv, NodeInv, Copies, From;
    }
    hide Broker.Inv, LinkInv;
  }

  lemma SeveringKeeps(name: string, node: Node, parent: Node)
    requires LinkInv(name, node, parent) && node.link.Attached?
    ensures LinkInv(name, node.(link := node.link.(wire := [], up := false)), parent)
  {
    assert StreamOf(node.(link := node.link.(wire := [], up := false))) == StreamOf(node);
    hide From, StreamOf;
  }

  /** Replacing a child and its parent together. */
  lemma ReplaceTwo(t: Tree, name: string, child: Node, up: string, parent: Node)
    requires Inv(t) && name in t.nodes && t.shape[name].depth > 0 && t.shape[name].parent == up
    requires NodeInv(t.shape, name, child) && NodeInv(t.shape, up, parent) && LinkInv(name, child, parent)
    requires t.shape[up].depth > 0 ==> LinkInv(up, parent, t.nodes[t.shape[up].parent])
    requires forall other | other in t.nodes && other != name && t.shape[other].depth > 0 ::
               && (t.shape[other].parent == up ==> LinkInv(other, t.nodes[other], parent))
               && (t.shape[other].parent == name ==> LinkInv(other, t.nodes[other], child))
    ensures Inv(t.(nodes := t.nodes[up := parent][name := child]))
  {
    hide Inv, ShapeInv, NodeInv, LinkInv;
    var nodes := t.nodes[up := parent][name := child];
    NamesAgree(t);
    Above(t, name);
    forall n | n in nodes ensures NodeInv(t.shape, n, nodes[n]) {
      NodeAt(t, n);
    }
    forall n | n in nodes && t.shape[n].depth > 0
      ensures t.shape[n].parent in nodes && LinkInv(n, nodes[n], nodes[t.shape[n].parent])
    {
      ReplacedLink(t, name, child, up, parent, n);
    }
    MakeInv(t.(nodes := nodes));
  }

  lemma NodeAt(t: Tree, n: string)
    requires Inv(t) && n in t.nodes
    ensures NodeInv(t.shape, n, t.nodes[n])
  {
  }

  lemma Above(t: Tree, n: string)
    requires Inv(t) && n in t.nodes && t.shape[n].depth > 0
    ensures t.shape[n].parent in t.nodes && t.shape[t.shape[n].parent].depth + 1 == t.shape[n].depth
    ensures LinkInv(n, t.nodes[n], t.nodes[t.shape[n].parent])
  {
    hide NodeInv, LinkInv;
  }

  lemma MakeInv(t: Tree)
    requires ShapeInv(t.shape) && t.shape.Keys == t.nodes.Keys
    requires forall n | n in t.nodes :: NodeInv(t.shape, n, t.nodes[n])
    requires forall n | n in t.nodes && t.shape[n].depth > 0 ::
               t.shape[n].parent in t.nodes && LinkInv(n, t.nodes[n], t.nodes[t.shape[n].parent])
    ensures Inv(t)
  {
    hide ShapeInv, NodeInv, LinkInv;
  }

  lemma ReplacedLink(t: Tree, name: string, child: Node, up: string, parent: Node, n: string)
    requires Inv(t) && name in t.nodes && t.shape[name].depth > 0 && t.shape[name].parent == up
    requires LinkInv(name, child, parent)
    requires t.shape[up].depth > 0 ==> LinkInv(up, parent, t.nodes[t.shape[up].parent])
    requires n in t.nodes && t.shape[n].depth > 0
    requires n != name && t.shape[n].parent == up ==> LinkInv(n, t.nodes[n], parent)
    requires n != name && t.shape[n].parent == name ==> LinkInv(n, t.nodes[n], child)
    ensures var nodes := t.nodes[up := parent][name := child];
            t.shape[n].parent in nodes && LinkInv(n, nodes[n], nodes[t.shape[n].parent])
  {
    hide Inv, ShapeInv, NodeInv, LinkInv;
    Above(t, n);
    Above(t, name);
  }

  lemma RepublishStep(t: Tree, name: string)
    requires Inv(t) && name in t.nodes && t.shape[name].depth > 0
    requires CanRepublish(t.nodes[name], t.nodes[t.shape[name].parent])
    ensures var child, up := t.nodes[name], t.shape[name].parent;
            Inv(t.(nodes := t.nodes[up := Received(child, name, t.nodes[up])][name := Consumed(child, t.nodes[up])]))
  {
    hide NodeInv, LinkInv, CanRepublish, Received, Consumed;
    var child, up := t.nodes[name], t.shape[name].parent;
    var parent := t.nodes[up];
    ViaMatchesHistory(t, up);
    HandoverKeepsParent(t.shape, name, child, up, parent);
    HandoverKeepsLink(name, child, parent);
    ConsumedKeepsNode(t.shape, name, child, parent);
    forall other | other in t.nodes && other != name && t.shape[other].depth > 0
      ensures t.shape[other].parent == up ==> LinkInv(other, t.nodes[other], Received(child, name, parent))
      ensures t.shape[other].parent == name ==> LinkInv(other, t.nodes[other], Consumed(child, parent))
    {
      HandoverKeepsOthers(name, child, parent, other, t.nodes[other]);
    }
    if t.shape[up].depth > 0 {
      HandoverKeepsUpLink(name, child, parent, up, t.nodes[t.shape[up].parent]);
    }
    hide Inv, ShapeInv;
    ReplaceTwo(t, name, Consumed(child, parent), up, Received(child, name, parent));
  }

  lemma ConsumedKeepsNode(shape: map<string, Place>, name: string, child: Node, parent: Node)
    requires ShapeInv(shape) && NodeInv(shape, name, child) && CanRepublish(child, parent)
    ensures NodeInv(shape, name, Consumed(child, parent))
  {
    hide Broker.Inv;
  }

  lemma HandoverKeepsUpLink(name: string, child: Node, parent: Node, up: string, grand: Node)
    requires CanRepublish(child, parent) && LinkInv(up, parent, grand)
    ensures LinkInv(up, Received(child, name, parent), grand)
  {
    hide From, Copies, Broker.Forward;
    if !parent.broker.closed {
      Broker.ForwardAppends(parent.broker, child.link.wire[0]);
    }
  }

  // ---------------------------------------------------------------- new children

  lemma {:induction false} UnderAsShapeGrows(shape: map<string, Place>, child: string, place: Place, top: string, name: string)
    requires ShapeInv(shape) && child !in shape && ShapeInv(shape[child := place]) && Under(shape, top, name)
    ensures Under(shape[child := place], top, name)
    decreases if name in shape then shape[name].depth else 0
  {
    if name != top {
      UnderAsShapeGrows(shape, child, place, top, shape[name].parent);
    }
  }

  lemma NodeAsShapeGrows(shape: map<string, Place>, child: string, place: Place, name: string, node: Node)
    requires ShapeInv(shape) && child !in shape && ShapeInv(shape[child := place])
    requires NodeInv(shape, name, node)
    ensures NodeInv(shape[child := place], name, node)
    ensures child != name ==>
              |node.via| == |node.broker.history| && From(node.broker.history, node.via, child) == []
  {
    hide Broker.Inv;
    forall i | 0 <= i < |node.via|
      ensures Origin(shape[child := place], name, node.via[i], node.broker.history[i])
      ensures child != name ==> node.via[i] != child
    {
      assert Origin(shape, name, node.via[i], node.broker.history[i]);
      if node.via[i] != name {
        UnderAsShapeGrows(shape, child, place, node.via[i], node.broker.history[i].session);
      }
    }
    if child != name {
      FromNone(node.broker.history, node.via, child);
    }
  }

  lemma {:induction false} FromNone(history: seq<Event>, via: seq<string>, name: string)
    requires |via| == |history| && forall i | 0 <= i < |via| :: via[i] != name
    ensures From(history, via, name) == []
  {
    if history != [] {
      FromNone(history[..|history| - 1], via[..|history| - 1], name);
    }
  }

  lemma FreshNode(shape: map<string, Place>, name: string, config: Broker.Config)
    requires ShapeInv(shape) && config.Acceptable()
    ensures NodeInv(shape, name, Node(Broker.Initial(config), [], Detached))
  {
    Broker.InitialInv(config);
  }

  lemma AddChildStep(t: Tree, parent: string, child: string, config: Broker.Config, place: Place, leaf: Node)
    requires Inv(t) && parent in t.shape && child !in t.shape && config.Acceptable()
    requires place == Place(parent, t.shape[parent].depth + 1) && leaf == Node(Broker.Initial(config), [], Detached)
    ensures Inv(Tree(t.shape[child := place], t.nodes[child := leaf]))
  {
    hide *;
    NamesAgree(t);
    ShapeWithChild(t.shape, parent, child, place);
    FreshNode(t.shape[child := place], child, config);
    NodesAsShapeGrows(t, child, place);
    UnheardChild(t, parent, child, place, leaf);
    AddNode(t, child, place, leaf);
  }

  lemma AddChildIs(t: Tree, parent: string, child: string, config: Broker.Config)
    requires parent in t.shape && child !in t.shape && child !in t.nodes && config.Acceptable()
    ensures Step(t, AddChild(parent, child, config)) ==
            Tree(t.shape[child := Place(parent, t.shape[parent].depth + 1)],
                 t.nodes[child := Node(Broker.Initial(config), [], Detached)])
  {
    hide Broker.Initial;
  }

  lemma ShapeWithChild(shape: map<string, Place>, parent: string, child: string, place: Place)
    requires ShapeInv(shape) && parent in shape && child !in shape
    requires place == Place(parent, shape[parent].depth + 1)
    ensures ShapeInv(shape[child := place])
  {
  }

  lemma NodesAsShapeGrows(t: Tree, child: string, place: Place)
    requires Inv(t) && child !in t.shape && ShapeInv(t.shape[child := place])
    ensures forall name | name in t.nodes :: NodeInv(t.shape[child := place], name, t.nodes[name])
  {
    hide NodeInv, LinkInv;
    forall name | name in t.nodes ensures NodeInv(t.shape[child := place], name, t.nodes[name]) {
      NodeAsShapeGrows(t.shape, child, place, name, t.nodes[name]);
    }
  }

  lemma AddNode(t: Tree, child: string, place: Place, node: Node)
    requires Inv(t) && child !in t.shape && place.parent in t.nodes && place.depth > 0
    requires ShapeInv(t.shape[child := place]) && NodeInv(t.shape[child := place], child, node)
    requires forall name | name in t.nodes :: NodeInv(t.shape[child := place], name, t.nodes[name])
    requires LinkInv(child, node, t.nodes[place.parent])
    ensures Inv(Tree(t.shape[child := place], t.nodes[child := node]))
  {
    hide Inv, NodeInv, LinkInv, ShapeInv;
    NamesAgree(t);
    var grown := Tree(t.shape[child := place], t.nodes[child := node]);
    forall n | n in grown.nodes && grown.shape[n].depth > 0
      ensures grown.shape[n].parent in grown.nodes && LinkInv(n, grown.nodes[n], grown.nodes[grown.shape[n].parent])
    {
      if n != child {
        Above(t, n);
      }
    }
    MakeInv(grown);
  }

  lemma UnheardChild(t: Tree, parent: string, child: string, place: Place, leaf: Node)
    requires Inv(t) && parent in t.nodes && child !in t.shape && ShapeInv(t.shape[child := place])
    requires leaf.link == Detached
    ensures LinkInv(child, leaf, t.nodes[parent])
  {
    hide NodeInv;
    ViaMatchesHistory(t, parent);
    NodeAsShapeGrows(t.shape, child, place, parent, t.nodes[parent]);
  }

  lemma StepKeepsInv(t: Tree, action: Action)
    requires Inv(t)
    ensures Inv(Step(t, action))
  {
    hide Inv;
    NamesAgree(t);
    match action
    case AddChild(parent, child, config) =>
      if parent in t.shape && child !in t.shape && config.Acceptable() {
        var place := Place(parent, t.shape[parent].depth + 1);
        AddChildStep(t, parent, child, config, place, Node(Broker.Initial(config), [], Detached));
        AddChildIs(t, parent, child, config);
      }
    case Publish(name, kind, payload) =>
      if name in t.nodes {
        PublishStep(t, name, kind, payload);
      }
    case BrokerStep(name, step) =>
      if name in t.nodes && !step.DoPublishLocal? && !step.DoForward? {
        BrokerStepStep(t, name, step);
      }
    case Attach(name) =>
      if name in t.nodes {
        AttachStep(t, name);
      }
    case Pull(name) =>
      if name in t.nodes {
        PullStep(t, name);
      }
    case Republish(name) =>
      if name in t.nodes && t.shape[name].depth > 0
         && CanRepublish(t.nodes[name], t.nodes[t.shape[name].parent]) {
        RepublishStep(t, name);
      }
    case Sever(name) =>
      if name in t.nodes && t.nodes[name].link.Attached? {
        SeverStep(t, name);
      }
  }

  lemma NamesAgree(t: Tree)
    requires Inv(t)
    ensures ShapeInv(t.shape) && t.shape.Keys == t.nodes.Keys
  {
  }

  lemma PullStep(t: Tree, name: string)
    requires Inv(t) && name in t.nodes
    ensures Inv(t.(nodes := t.nodes[name := Pulling(t.nodes[name])]))
  {
    hide NodeInv, LinkInv;
    if t.shape[name].depth > 0 {
      PullingKeeps(name, t.nodes[name], t.nodes[t.shape[name].parent]);
    }
    RelinkStep(t, name, Pulling(t.nodes[name]));
  }

  lemma SeverStep(t: Tree, name: string)
    requires Inv(t) && name in t.nodes && t.nodes[name].link.Attached?
    ensures Inv(Step(t, Sever(name)))
  {
    hide NodeInv, LinkInv;
    if t.shape[name].depth > 0 {
      SeveringKeeps(name, t.nodes[name], t.nodes[t.shape[name].parent]);
    }
    RelinkStep(t, name, t.nodes[name].(link := t.nodes[name].link.(wire := [], up := false)));
  }

  lemma {:induction false} EveryRunKeepsInv(t: Tree, actions: seq<Action>)
    requires Inv(t)
    ensures Inv(Run(t, actions))
    decreases |actions|
  {
    if actions != [] {
      StepKeepsInv(t, actions[0]);
      EveryRunKeepsInv(Step(t, actions[0]), actions[1..]);
    }
  }

  // ---------------------------------------------------------------- what a node's history says of a descendant

  /** The child of `top` on the way down to `name`. */
  function Toward(shape: map<string, Place>, top: string, name: string): (child: string)
    requires ShapeInv(shape) && Under(shape, top, name) && name != top
    ensures child in shape && shape[child].depth > 0 && shape[child].parent == top && Under(shape, child, name)
    decreases if name in shape then shape[name].depth else 0
  {
    if shape[name].parent == top then name else Toward(shape, top, shape[name].parent)
  }

  /** Two ancestors at one depth are the same node. */
  lemma {:induction false} AncestorsMeet(shape: map<string, Place>, a: string, b: string, name: string)
    requires ShapeInv(shape) && Under(shape, a, name) && Under(shape, b, name) && shape[a].depth == shape[b].depth
    ensures a == b
    decreases if name in shape then shape[name].depth else 0
  {
    UnderAtSameDepth(shape, a, name);
    UnderAtSameDepth(shape, b, name);
    if name != a && name != b {
      AncestorsMeet(shape, a, b, shape[name].parent);
    }
  }

  /** Everything a node's history holds of a proper descendant came through the child above it. */
  lemma OneRoute(shape: map<string, Place>, top: string, node: Node, name: string, i: nat)
    requires ShapeInv(shape) && top in shape && NodeInv(shape, top, node)
    requires Under(shape, top, name) && name != top
    requires i < |node.via| && node.broker.history[i].session == name
    ensures node.via[i] == Toward(shape, top, name)
  {
    hide Broker.Inv;
    assert Origin(shape, top, node.via[i], node.broker.history[i]);
    AncestorsMeet(shape, node.via[i], Toward(shape, top, name), name);
  }

  lemma {:induction false} ProjectFrom(history: seq<Event>, via: seq<string>, child: string, name: string)
    requires |via| == |history|
    requires forall i | 0 <= i < |via| && history[i].session == name :: via[i] == child
    ensures Project(history, name) == Project(From(history, via, child), name)
  {
    if history != [] {
      var n := |history| - 1;
      ProjectFrom(history[..n], via[..n], child, name);
      if via[n] == child {
        var rest := From(history[..n], via[..n], child);
        assert (rest + [history[n]])[..|rest|] == rest;
      }
    }
  }

  /** A session's own local publications: what its own broker's history holds of it. */
  function Own(t: Tree, name: string): seq<Event>
    requires name in t.nodes
  {
    Project(t.nodes[name].broker.history, name)
  }

  lemma OwnIsNumbered(t: Tree, name: string)
    requires Inv(t) && name in t.nodes
    ensures Broker.Contiguous(Own(t, name))
  {
    assert NodeInv(t.shape, name, t.nodes[name]);
  }

  /** What the child's forwarder handed on, seen from the parent: one interval of the child's view. */
  lemma OneHop(t: Tree, top: string, child: string, name: string) returns (lo: nat, hi: nat)
    requires Inv(t) && Under(t.shape, top, name) && name != top && child == Toward(t.shape, top, name)
    ensures lo <= hi <= |Project(t.nodes[child].broker.history, name)|
    ensures Bodies(Project(t.nodes[top].broker.history, name))
         == Bodies(Project(t.nodes[child].broker.history, name)[lo..hi])
  {
    hide LinkInv, Inv, Broker.Inv, Bodies, Project;
    NamesAgree(t);
    RouteProjection(t, top, child, name);
    LinkAt(t, child);
    var first, last := Handed(child, t.nodes[child], t.nodes[top]);
    lo, hi := ProjectInterval(t.nodes[child].broker.history, first, last, name);
    var copied := From(t.nodes[top].broker.history, t.nodes[top].via, child);
    ProjectBodies(copied, name);
    ProjectBodies(t.nodes[child].broker.history[first..last], name);
  }

  lemma RouteProjection(t: Tree, top: string, child: string, name: string)
    requires Inv(t) && Under(t.shape, top, name) && name != top && child == Toward(t.shape, top, name)
    ensures |t.nodes[top].via| == |t.nodes[top].broker.history|
    ensures Project(t.nodes[top].broker.history, name)
         == Project(From(t.nodes[top].broker.history, t.nodes[top].via, child), name)
  {
    ViaMatchesHistory(t, top);
    var node := t.nodes[top];
    assert NodeInv(t.shape, top, node);
    hide NodeInv, Broker.Inv;
    forall i | 0 <= i < |node.via| && node.broker.history[i].session == name ensures node.via[i] == child {
      OneRoute(t.shape, top, node, name, i);
    }
    ProjectFrom(node.broker.history, node.via, child, name);
  }

  lemma PrefixOfSlice(history: seq<Event>, lo: nat, hi: nat, n: nat)
    requires lo <= hi <= |history| && n <= hi - lo
    ensures history[lo..hi][..n] == history[lo..lo + n]
  {
  }

  /** What the parent copied of a child is an interval of the child's own history. */
  lemma Handed(name: string, node: Node, up: Node) returns (first: nat, last: nat)
    requires Broker.Inv(node.broker) && LinkInv(name, node, up)
    ensures first <= last <= |node.broker.history| && |up.via| == |up.broker.history|
    ensures Bodies(From(up.broker.history, up.via, name)) == Bodies(node.broker.history[first..last])
  {
    hide Broker.Inv, From;
    if node.link == Detached {
      first, last := 0, 0;
      assert node.broker.history[0..0] == [];
    } else {
      var subId, sent := node.link.subId, node.link.forwarded;
      Broker.StreamAt(node.broker, subId);
      first := node.broker.boxes[subId].first;
      last := first + sent;
      var history, stream := node.broker.history, StreamOf(node);
      assert stream == history[first..first + |stream|];
      PrefixOfSlice(history, first, first + |stream|, sent);
    }
  }

  lemma LinkAt(t: Tree, child: string)
    requires Inv(t) && child in t.nodes && t.shape[child].depth > 0
    ensures t.shape[child].parent in t.nodes && LinkInv(child, t.nodes[child], t.nodes[t.shape[child].parent])
    ensures Broker.Inv(t.nodes[child].broker)
  {
    ViaMatchesHistory(t, child);
  }

  lemma {:induction false} ViewIsInterval(t: Tree, top: string, name: string) returns (lo: nat, hi: nat)
    requires Inv(t) && Under(t.shape, top, name)
    ensures lo <= hi <= |Own(t, name)|
    ensures Bodies(Project(t.nodes[top].broker.history, name)) == Bodies(Own(t, name)[lo..hi])
    decreases t.shape[name].depth - t.shape[top].depth
  {
    hide Inv, Bodies, Project;
    NamesAgree(t);
    if top == name {
      lo, hi := 0, |Own(t, name)|;
      assert Own(t, name)[lo..hi] == Own(t, name);
    } else {
      var child := Toward(t.shape, top, name);
      var first, last := OneHop(t, top, child, name);
      var start, end := ViewIsInterval(t, child, name);
      lo, hi := start + first, start + last;
      SubInterval(Project(t.nodes[child].broker.history, name), Own(t, name), start, end, first, last);
    }
  }

  lemma SubInterval(view: seq<Event>, own: seq<Event>, from: nat, to: nat, first: nat, last: nat)
    requires from <= to <= |own| && Bodies(view) == Bodies(own[from..to]) && first <= last <= |view|
    ensures from + last <= |own| && Bodies(view[first..last]) == Bodies(own[from + first..from + last])
  {
    assert |Bodies(view)| == to - from;
    assert forall i | 0 <= i < last - first ::
        Body(view[first..last][i]) == Bodies(view)[first + i] == Bodies(own[from..to])[first + i]
        == Body(own[from + first + i]);
  }

  /** `view` says what `own` says from position lo on: hole-free, duplicate-free, numbered lo + 1, lo + 2, and so on. */
  ghost predicate IsInterval(view: seq<Event>, own: seq<Event>, lo: nat) {
    && lo + |view| <= |own|
    && Bodies(view) == Bodies(own[lo..lo + |view|])
    && forall i | 0 <= i < |view| :: view[i].sourceSeq == lo + 1 + i
  }

  /**
   In a supervisor tree of any depth, in every reachable state, what any broker's history says of
   any session in its subtree is an interval of that session's own publications, in source order.
  */
  lemma ViewHasNoHoles(root: string, config: Broker.Config, actions: seq<Action>, t: Tree, top: string, name: string)
    returns (lo: nat)
    requires config.Acceptable() && t == Run(Initial(root, config), actions)
    requires ShapeInv(t.shape) && t.shape.Keys == t.nodes.Keys && Under(t.shape, top, name)
    ensures IsInterval(Project(t.nodes[top].broker.history, name), Own(t, name), lo)
  {
    hide Run, Bodies, Project, IsInterval;
    assert Inv(t) by {
      InitialInv(root, config);
      EveryRunKeepsInv(Initial(root, config), actions);
    }
    hide Inv, Initial;
    var hi;
    lo, hi := ViewIsInterval(t, top, name);
    OwnIsNumbered(t, name);
    NumberedInterval(Project(t.nodes[top].broker.history, name), Own(t, name), lo, hi);
  }

  /** The two shape conditions above hold of every reachable state. */
  lemma ShapeOfRun(root: string, config: Broker.Config, actions: seq<Action>)
    requires config.Acceptable()
    ensures var t := Run(Initial(root, config), actions);
            ShapeInv(t.shape) && t.shape.Keys == t.nodes.Keys
  {
    InitialInv(root, config);
    EveryRunKeepsInv(Initial(root, config), actions);
  }

  /** An open link that has nothing under way has republished everything its forwarder was handed. */
  lemma IdleLinkIsCaughtUp(name: string, child: Node, parent: Node)
    requires LinkInv(name, child, parent) && child.link.Attached? && child.link.up && !parent.broker.closed
    requires child.link.wire == [] && child.link.pulled == |StreamOf(child)|
    ensures Bodies(From(parent.broker.history, parent.via, name)) == Bodies(StreamOf(child))
  {
    hide From, StreamOf, Bodies;
    assert StreamOf(child)[..child.link.forwarded] == StreamOf(child);
  }

  // ---------------------------------------------------------------- a live link delivers

  /** The child's forwarder is up and its parent takes events. */
  predicate Carrying(t: Tree, name: string) {
    && name in t.nodes && name in t.shape && t.shape[name].depth > 0
    && t.shape[name].parent in t.nodes && t.shape[name].parent != name
    && t.nodes[name].link.Attached? && t.nodes[name].link.up && !t.nodes[t.shape[name].parent].broker.closed
  }

  /** What one step on a child's link leaves as it is. */
  predicate SameLink(t: Tree, u: Tree, name: string)
    requires Carrying(t, name)
  {
    && u.shape == t.shape && Carrying(u, name) && u.nodes[name].broker == t.nodes[name].broker
    && u.nodes[name].link.subId == t.nodes[name].link.subId
  }

  function Left(t: Tree, name: string): int
    requires Carrying(t, name)
  {
    |StreamOf(t.nodes[name])| - t.nodes[name].link.forwarded
  }

  function Unpulled(t: Tree, name: string): int
    requires Carrying(t, name)
  {
    |StreamOf(t.nodes[name])| - t.nodes[name].link.pulled
  }

  lemma LinkFacts(t: Tree, name: string)
    requires Inv(t) && Carrying(t, name)
    ensures 0 <= Unpulled(t, name) <= Left(t, name)
    ensures t.nodes[name].link.wire != [] ==> Left(t, name) > Unpulled(t, name)
    ensures t.nodes[name].link.wire == [] ==> Left(t, name) == Unpulled(t, name)
  {
    Above(t, name);
    hide Inv, ShapeInv, NodeInv, From, StreamOf;
  }

  lemma Pulled(t: Tree, name: string)
    requires Inv(t) && Carrying(t, name) && Unpulled(t, name) > 0
    ensures var u := Step(t, Pull(name));
            SameLink(t, u, name) && Left(u, name) == Left(t, name) && Unpulled(u, name) < Unpulled(t, name)
  {
    hide Inv;
    var u := Step(t, Pull(name));
    var child := t.nodes[name];
    assert u.nodes == t.nodes[name := Pulling(child)] && u.shape == t.shape;
    assert StreamOf(Pulling(child)) == StreamOf(child);
    hide Step, StreamOf;
  }

  lemma Republished(t: Tree, name: string)
    requires Inv(t) && Carrying(t, name) && t.nodes[name].link.wire != []
    requires t.nodes[t.shape[name].parent].broker.flight == Broker.Idle
    ensures var u := Step(t, Republish(name));
            SameLink(t, u, name) && Left(u, name) < Left(t, name)
  {
    hide Inv;
    var u := Step(t, Republish(name));
    var child, up := t.nodes[name], t.shape[name].parent;
    assert u.nodes == t.nodes[up := Received(child, name, t.nodes[up])][name := Consumed(child, t.nodes[up])] && u.shape == t.shape;
    assert !Received(child, name, t.nodes[up]).broker.closed;
    assert StreamOf(Consumed(child, t.nodes[up])) == StreamOf(child);
    hide Step, StreamOf, Received;
  }

  lemma ParentSteps(t: Tree, name: string, action: Broker.Action)
    requires Carrying(t, name) && !action.DoPublishLocal? && !action.DoForward?
    requires var broker := t.nodes[t.shape[name].parent].broker; Broker.Step(broker, action).closed == broker.closed
    ensures var up := t.shape[name].parent;
            var u := Step(t, BrokerStep(up, action));
            && SameLink(t, u, name) && u.nodes[name] == t.nodes[name]
            && u.nodes[up].broker == Broker.Step(t.nodes[up].broker, action)
  {
    hide Broker.Step;
    var up := t.shape[name].parent;
    var u := Step(t, BrokerStep(up, action));
    assert u == t.(nodes := t.nodes[up := t.nodes[up].(broker := Broker.Step(t.nodes[up].broker, action))]);
    hide Step;
  }

  lemma Settled(t: Tree, name: string) returns (action: Broker.Action)
    requires Inv(t) && Carrying(t, name) && t.nodes[t.shape[name].parent].broker.flight != Broker.Idle
    ensures Broker.Settling(action)
    ensures var up := t.shape[name].parent;
            var u := Step(t, BrokerStep(up, action));
            && SameLink(t, u, name) && u.nodes[name] == t.nodes[name]
            && Broker.FlightRank(u.nodes[up].broker.flight) < Broker.FlightRank(t.nodes[up].broker.flight)
  {
    var up := t.shape[name].parent;
    ViaMatchesHistory(t, up);
    Broker.FlightOf(t.nodes[up].broker);
    hide Inv, Step, Broker.Inv, Broker.FlightInv, Broker.Step, Broker.FlightRank;
    action := Broker.FlightMoves(t.nodes[up].broker);
    Broker.SettlingIsQuiet(t.nodes[up].broker, action);
    ParentSteps(t, name, action);
  }

  ghost predicate CaughtUp(t: Tree, name: string, stream: seq<Event>)
    requires Carrying(t, name)
  {
    var parent := t.nodes[t.shape[name].parent];
    |parent.via| == |parent.broker.history| && Bodies(From(parent.broker.history, parent.via, name)) == Bodies(stream)
  }

  function Busy(t: Tree, name: string): nat
    requires Carrying(t, name)
  {
    Broker.FlightRank(t.nodes[t.shape[name].parent].broker.flight)
  }

  /** Until the link is idle, some step of it or of the parent's publication brings it closer to that. */
  lemma LinkMoves(t: Tree, name: string) returns (action: Action)
    requires Inv(t) && Carrying(t, name) && (t.nodes[name].link.wire != [] || Unpulled(t, name) > 0)
    ensures var u := Step(t, action);
            && SameLink(t, u, name) && Left(u, name) <= Left(t, name)
            && (Left(u, name) < Left(t, name)
                || Unpulled(u, name) < Unpulled(t, name)
                || (Unpulled(u, name) == Unpulled(t, name) && Busy(u, name) < Busy(t, name)))
  {
    hide Inv, Step, From, Bodies, LinkInv, StreamOf, Broker.Inv, Broker.FlightRank;
    var up := t.shape[name].parent;
    if Unpulled(t, name) > 0 {
      Pulled(t, name);
      action := Pull(name);
    } else if t.nodes[up].broker.flight != Broker.Idle {
      var settling := Settled(t, name);
      action := BrokerStep(up, settling);
    } else {
      Republished(t, name);
      action := Republish(name);
    }
  }

  /**
   From every state of the tree a live link can be run until the parent has republished all its forwarder was
   handed, by steps of the link and of the parent's own publications alone.
  */
  lemma {:induction false} LinkCatchesUp(t: Tree, name: string) returns (schedule: seq<Action>)
    requires Inv(t) && Carrying(t, name)
    ensures SameLink(t, Run(t, schedule), name) && CaughtUp(Run(t, schedule), name, StreamOf(t.nodes[name]))
    decreases Left(t, name), Unpulled(t, name), Busy(t, name)
  {
    LinkFacts(t, name);
    if t.nodes[name].link.wire == [] && Unpulled(t, name) == 0 {
      IdleIsCaughtUp(t, name);
      schedule := [];
      return;
    }
    var action := LinkMoves(t, name);
    var u := Step(t, action);
    StepKeepsInv(t, action);
    LinkFacts(u, name);
    assert StreamOf(u.nodes[name]) == StreamOf(t.nodes[name]);
    hide Inv, Step, CaughtUp, LinkInv, StreamOf, Broker.Inv, Busy, Left, Unpulled;
    var rest := LinkCatchesUp(u, name);
    schedule := [action] + rest;
    assert schedule[1..] == rest;
  }

  lemma IdleIsCaughtUp(t: Tree, name: string)
    requires Inv(t) && Carrying(t, name) && t.nodes[name].link.wire == [] && Unpulled(t, name) == 0
    ensures CaughtUp(t, name, StreamOf(t.nodes[name]))
  {
    var up := t.shape[name].parent;
    Above(t, name);
    ViaMatchesHistory(t, up);
    hide Inv, From, Bodies, LinkInv, StreamOf, Broker.Inv;
    IdleLinkIsCaughtUp(name, t.nodes[name], t.nodes[up]);
  }

  function Rounds(name: string, id: nat, n: nat): seq<Action> {
    if n == 0 then [] else [BrokerStep(name, Broker.DoDispatch(id, true))] + Rounds(name, id, n - 1)
  }

  lemma {:induction false} RoundsRun(t: Tree, name: string, id: nat, n: nat)
    requires name in t.nodes
    ensures Run(t, Rounds(name, id, n)) ==
            t.(nodes := t.nodes[name := t.nodes[name].(broker := Broker.Run(t.nodes[name].broker, Broker.Receiving(id, n)))])
    decreases n
  {
    if n == 0 {
      assert t.nodes[name := t.nodes[name]] == t.nodes;
    } else {
      var broker := Broker.Step(t.nodes[name].broker, Broker.DoDispatch(id, true));
      var u := Step(t, BrokerStep(name, Broker.DoDispatch(id, true)));
      assert u == t.(nodes := t.nodes[name := t.nodes[name].(broker := broker)]);
      assert Rounds(name, id, n)[1..] == Rounds(name, id, n - 1);
      assert Broker.Receiving(id, n)[1..] == Broker.Receiving(id, n - 1);
      hide Step, Broker.Step;
      RoundsRun(u, name, id, n - 1);
    }
  }

  lemma {:induction false} RunConcat(t: Tree, first: seq<Action>, second: seq<Action>)
    ensures Run(t, first + second) == Run(Run(t, first), second)
    decreases |first|
  {
    hide Step;
    if first == [] {
      assert first + second == second;
    } else {
      assert (first + second)[1..] == first[1..] + second;
      RunConcat(Step(t, first[0]), first[1..], second);
    }
  }

  /** The child's forwarder receives all that is queued for it. */
  lemma ForwarderReceives(t: Tree, name: string) returns (schedule: seq<Action>)
    requires Inv(t) && Carrying(t, name)
    requires var child := t.nodes[name];
             child.broker.flight == Broker.Idle && child.link.subId in child.broker.subs && child.link.subId in child.broker.boxes
    ensures var u := Run(t, schedule);
            var child, first := t.nodes[name].broker, t.nodes[name].broker.boxes[t.nodes[name].link.subId].first;
            && Inv(u) && u.shape == t.shape && Carrying(u, name) && u.nodes[name].broker.history == child.history
            && 0 <= first <= |child.history| && StreamOf(u.nodes[name]) == child.history[first..]
  {
    var id := t.nodes[name].link.subId;
    var n := |t.nodes[name].broker.boxes[id].box.queue|;
    ViaMatchesHistory(t, name);
    schedule := Rounds(name, id, n);
    EveryRunKeepsInv(t, schedule);
    Broker.CatchesUp(t.nodes[name].broker, id);
    RoundsRun(t, name, id, n);
    hide Inv, Run, Broker.Run, Broker.Inv, Rounds, Step;
  }

  /**
   From every reachable state in which a child is between publications and its forwarder is up and registered,
   the tree can go on so that the parent has republished the child's whole history since its subscription.
  */
  lemma EveryLinkDelivers(root: string, config: Broker.Config, actions: seq<Action>, name: string)
      returns (schedule: seq<Action>)
    requires config.Acceptable() && Carrying(Run(Initial(root, config), actions), name)
    requires var child := Run(Initial(root, config), actions).nodes[name];
             child.broker.flight == Broker.Idle && child.link.subId in child.broker.subs && child.link.subId in child.broker.boxes
    ensures var t := Run(Initial(root, config), actions);
            var u := Run(t, schedule);
            var child, first := t.nodes[name].broker, t.nodes[name].broker.boxes[t.nodes[name].link.subId].first;
            && u.shape == t.shape && Carrying(u, name) && u.nodes[name].broker.history == child.history
            && 0 <= first <= |child.history| && CaughtUp(u, name, child.history[first..])
  {
    InitialInv(root, config);
    EveryRunKeepsInv(Initial(root, config), actions);
    hide Inv, Run, CaughtUp, StreamOf;
    var t := Run(Initial(root, config), actions);
    var receiving := ForwarderReceives(t, name);
    var carrying := LinkCatchesUp(Run(t, receiving), name);
    schedule := receiving + carrying;
    RunConcat(t, receiving, carrying);
  }

  lemma NumberedInterval(view: seq<Event>, own: seq<Event>, lo: nat, hi: nat)
    requires lo <= hi <= |own| && Bodies(view) == Bodies(own[lo..hi]) && Broker.Contiguous(own)
    ensures IsInterval(view, own, lo)
  {
    assert |Bodies(view)| == hi - lo;
    forall i | 0 <= i < |view| ensures view[i].sourceSeq == lo + 1 + i {
      assert Body(view[i]) == Bodies(view)[i] == Bodies(own[lo..hi])[i] == Body(own[lo + i]);
    }
  }

  lemma InitialInv(root: string, config: Broker.Config)
    requires config.Acceptable()
    ensures Inv(Initial(root, config))
  {
    Broker.InitialInv(config);
  }

  /** The root sees every session ever created. */
  lemma {:induction false} RootSeesAll(root: string, config: Broker.Config, actions: seq<Action>, name: string)
    requires config.Acceptable()
    requires name in Run(Initial(root, config), actions).nodes
    ensures var t := Run(Initial(root, config), actions);
            ShapeInv(t.shape) && root in t.nodes && Under(t.shape, root, name)
  {
    InitialInv(root, config);
    KeepsRoot(root, Initial(root, config), actions);
    var t := Run(Initial(root, config), actions);
    EveryRunKeepsInv(Initial(root, config), actions);
    ClimbToRoot(root, t.shape, name);
  }

  ghost predicate Rooted(root: string, shape: map<string, Place>) {
    root in shape && forall name | name in shape && shape[name].depth == 0 :: name == root
  }

  lemma {:induction false} KeepsRoot(root: string, t: Tree, actions: seq<Action>)
    requires Rooted(root, t.shape)
    ensures Rooted(root, Run(t, actions).shape)
    decreases |actions|
  {
    if actions != [] {
      KeepsRoot(root, Step(t, actions[0]), actions[1..]);
    }
  }

  lemma {:induction false} ClimbToRoot(root: string, shape: map<string, Place>, name: string)
    requires ShapeInv(shape) && Rooted(root, shape) && name in shape
    ensures Under(shape, root, name)
    decreases shape[name].depth
  {
    if shape[name].depth > 0 {
      ClimbToRoot(root, shape, shape[name].parent);
    }
  }
}
