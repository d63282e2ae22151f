/**
 Validation and normalisation of a root's snapshot (internal/manager/tree.go, internal/manager/manager.go).

 Everything recursive is stated over forests, lists of nodes; a tree is the forest [root].
*/
module TreeValidation {
  import opened Wrappers

  datatype NodeSnapshot = NodeSnapshot(
    sessionID: string,
    parentID: string,
    rootID: string,
    kind: string,
    context: string,
    lifecycle: string,
    children: seq<NodeSnapshot>)

  const ROOT_KIND := "root"
  const ROOT_CONTEXT := "root"

  const KNOWN_LIFECYCLES: set<string> := {
    "provisioning", "starting", "ready", "running", "awaiting_handoff", "completed", "failed", "stopping", "stopped"
  }

  predicate IDChar(c: char) {
    'A' <= c <= 'Z' || 'a' <= c <= 'z' || '0' <= c <= '9' || c in {'_', '.', ':', '-'}
  }

  predicate ValidSessionID(id: string) {
    id != "." && id != ".." && 1 <= |id| <= 128 && forall c | c in id :: IDChar(c)
  }

  // ---------------------------------------------------------------- the recursive definition

  function IDs(nodes: seq<NodeSnapshot>): multiset<string>
    decreases nodes
  {
    if nodes == [] then multiset{}
    else multiset{nodes[0].sessionID} + IDs(nodes[0].children) + IDs(nodes[1..])
  }

  function Size(nodes: seq<NodeSnapshot>): nat
    decreases nodes
  {
    if nodes == [] then 0 else 1 + Size(nodes[0].children) + Size(nodes[1..])
  }

  predicate NodeFits(node: NodeSnapshot, parentID: string, rootID: string) {
    && ValidSessionID(node.sessionID)
    && node.lifecycle in KNOWN_LIFECYCLES
    && node.rootID == rootID
    && (parentID != "" ==> node.parentID == parentID && node.kind != ROOT_KIND)
  }

  /** Every node fits its place below `parentID`. */
  predicate AllFit(nodes: seq<NodeSnapshot>, parentID: string, rootID: string)
    decreases nodes
  {
    nodes != [] ==>
      && NodeFits(nodes[0], parentID, rootID)
      && AllFit(nodes[0].children, nodes[0].sessionID, rootID)
      && AllFit(nodes[1..], parentID, rootID)
  }

  predicate NoneTwice(ids: multiset<string>) {
    forall id | id in ids :: ids[id] == 1
  }

  predicate RootFits(root: NodeSnapshot) {
    root.kind == ROOT_KIND && root.rootID == root.sessionID && root.parentID == "" && root.context == ROOT_CONTEXT &&
    root.sessionID != ""
  }

  /** A root's tree: all nodes name it, each child its parent, and no session ID occurs twice. */
  predicate WellFormed(root: NodeSnapshot) {
    RootFits(root) && AllFit([root], "", root.sessionID) && NoneTwice(IDs([root]))
  }

  lemma {:induction false} ForestConcat(a: seq<NodeSnapshot>, b: seq<NodeSnapshot>)
    ensures IDs(a + b) == IDs(a) + IDs(b) && Size(a + b) == Size(a) + Size(b)
    decreases a
  {
    if a == [] {
      assert a + b == b;
    } else {
      assert (a + b)[1..] == a[1..] + b && (a + b)[0] == a[0];
      ForestConcat(a[1..], b);
    }
  }

  lemma {:induction false} FitConcat(a: seq<NodeSnapshot>, b: seq<NodeSnapshot>, parentID: string, rootID: string)
    ensures AllFit(a + b, parentID, rootID) <==> AllFit(a, parentID, rootID) && AllFit(b, parentID, rootID)
    decreases a
  {
    hide NodeFits;
    if a == [] {
      assert a + b == b;
    } else {
      assert (a + b)[1..] == a[1..] + b && (a + b)[0] == a[0];
      FitConcat(a[1..], b, parentID, rootID);
    }
  }

  // ---------------------------------------------------------------- the order of siblings

  predicate AtMost(a: string, b: string) {
    a == "" || (b != "" && (a[0] < b[0] || (a[0] == b[0] && AtMost(a[1..], b[1..]))))
  }

  lemma {:induction false} AtMostTotal(a: string, b: string)
    ensures AtMost(a, b) || AtMost(b, a)
    ensures AtMost(a, b) && AtMost(b, a) ==> a == b
  {
    if a != "" && b != "" && a[0] == b[0] {
      AtMostTotal(a[1..], b[1..]);
      assert a == [a[0]] + a[1..] && b == [b[0]] + b[1..];
    }
  }

  lemma {:induction false} AtMostTransitive(a: string, b: string, c: string)
    requires AtMost(a, b) && AtMost(b, c)
    ensures AtMost(a, c)
  {
    if a != "" && a[0] == b[0] && b[0] == c[0] {
      AtMostTransitive(a[1..], b[1..], c[1..]);
    }
  }

  predicate Differs(a: string, b: string, k: nat) {
    k < |a| && k < |b| && a[..k] == b[..k] && a[k] < b[k]
  }

  /** The first character that differs decides, and a proper prefix comes first. */
  lemma {:induction false} AtMostExactly(a: string, b: string)
    ensures AtMost(a, b) <==> a <= b || exists k: nat :: Differs(a, b, k)
  {
    if a != "" && b != "" {
      if a[0] == b[0] {
        AtMostExactly(a[1..], b[1..]);
        assert a == [a[0]] + a[1..] && b == [a[0]] + b[1..];
        forall k: nat ensures Differs(a[1..], b[1..], k) <==> Differs(a, b, k + 1) {
          OneLess(a, b, k);
        }
        hide AtMost;
        if k: nat :| Differs(a[1..], b[1..], k) {
          assert Differs(a, b, k + 1);
        }
        if k: nat :| Differs(a, b, k) {
          assert Differs(a[1..], b[1..], k - 1);
        }
      } else if a[0] < b[0] {
        assert Differs(a, b, 0);
      } else {
        forall k | 0 <= k < |a| && k < |b| ensures a[..k] == b[..k] ==> k == 0 || a[0] == b[0] {
          if k > 0 { assert a[..k][0] == a[0] && b[..k][0] == b[0]; }
        }
      }
    }
  }

  lemma OneLess(a: string, b: string, k: nat)
    requires a != "" && b != "" && a[0] == b[0]
    ensures Differs(a[1..], b[1..], k) <==> Differs(a, b, k + 1)
  {
    if k < |a| - 1 && k < |b| - 1 {
      assert a[..k + 1] == [a[0]] + a[1..][..k] && b[..k + 1] == [b[0]] + b[1..][..k];
      assert a[1..][..k] == a[..k + 1][1..] && b[1..][..k] == b[..k + 1][1..];
    }
  }

  predicate Sorted(nodes: seq<NodeSnapshot>) {
    forall i, j | 0 <= i < j < |nodes| :: AtMost(nodes[i].sessionID, nodes[j].sessionID)
  }

  predicate Distinct(nodes: seq<NodeSnapshot>) {
    forall i, j | 0 <= i < j < |nodes| :: nodes[i].sessionID != nodes[j].sessionID
  }

  function Insert(node: NodeSnapshot, nodes: seq<NodeSnapshot>): seq<NodeSnapshot> {
    if nodes == [] || AtMost(node.sessionID, nodes[0].sessionID) then [node] + nodes
    else [nodes[0]] + Insert(node, nodes[1..])
  }

  /** The siblings in the order of their session IDs. */
  function InOrder(nodes: seq<NodeSnapshot>): seq<NodeSnapshot> {
    if nodes == [] then [] else Insert(nodes[0], InOrder(nodes[1..]))
  }

  lemma {:induction false} InsertKeepsNodes(node: NodeSnapshot, nodes: seq<NodeSnapshot>)
    ensures multiset(Insert(node, nodes)) == multiset(nodes) + multiset{node}
  {
    if nodes != [] && !AtMost(node.sessionID, nodes[0].sessionID) {
      InsertKeepsNodes(node, nodes[1..]);
      assert nodes == [nodes[0]] + nodes[1..];
    }
  }

  lemma {:induction false} InsertKeepsOrder(node: NodeSnapshot, nodes: seq<NodeSnapshot>)
    requires Sorted(nodes)
    ensures Sorted(Insert(node, nodes))
  {
    if nodes != [] {
      AtMostTotal(node.sessionID, nodes[0].sessionID);
      if AtMost(node.sessionID, nodes[0].sessionID) {
        forall j | 0 <= j < |nodes| ensures AtMost(node.sessionID, nodes[j].sessionID) {
          if j > 0 {
            AtMostTransitive(node.sessionID, nodes[0].sessionID, nodes[j].sessionID);
          }
        }
      } else {
        var rest := Insert(node, nodes[1..]);
        InsertKeepsOrder(node, nodes[1..]);
        InsertKeepsNodes(node, nodes[1..]);
        forall j | 0 <= j < |rest| ensures AtMost(nodes[0].sessionID, rest[j].sessionID) {
          assert rest[j] in multiset(rest);
          assert rest[j] == node || rest[j] in nodes[1..];
        }
      }
    }
  }

  /** A sorted permutation. */
  lemma {:induction false} InOrderSorts(nodes: seq<NodeSnapshot>)
    ensures Sorted(InOrder(nodes)) && multiset(InOrder(nodes)) == multiset(nodes)
  {
    if nodes != [] {
      InOrderSorts(nodes[1..]);
      InsertKeepsOrder(nodes[0], InOrder(nodes[1..]));
      InsertKeepsNodes(nodes[0], InOrder(nodes[1..]));
      assert nodes == [nodes[0]] + nodes[1..];
    }
  }

  lemma {:induction false} SortedIsInOrder(nodes: seq<NodeSnapshot>)
    requires Sorted(nodes)
    ensures InOrder(nodes) == nodes
  {
    if nodes != [] {
      SortedIsInOrder(nodes[1..]);
    }
  }

  lemma SmallestFirst(a: seq<NodeSnapshot>, b: seq<NodeSnapshot>)
    requires Sorted(a) && Sorted(b) && multiset(a) == multiset(b) && Distinct(a) && a != [] && b != []
    ensures a[0] == b[0]
  {
    var x, y := a[0].sessionID, b[0].sessionID;
    assert forall k | 0 < k < |a| :: AtMost(x, a[k].sessionID) && x != a[k].sessionID;
    assert forall k | 0 < k < |b| :: AtMost(y, b[k].sessionID);
    AtMostTotal(x, y);
    assert a[0] in multiset(b) && b[0] in multiset(a);
    var i :| 0 <= i < |a| && a[i] == b[0];
    var j :| 0 <= j < |b| && b[j] == a[0];
  }

  lemma TailOf(a: seq<NodeSnapshot>)
    requires a != []
    ensures Sorted(a) ==> Sorted(a[1..])
    ensures Distinct(a) ==> Distinct(a[1..])
    ensures multiset(a[1..]) == multiset(a) - multiset{a[0]} && a == [a[0]] + a[1..]
  {
    hide AtMost;
    assert a == [a[0]] + a[1..];
  }

  /** With distinct session IDs any sorted permutation is that one, so an unstable sort does as well. */
  lemma {:induction false} SortedPermutationIsUnique(a: seq<NodeSnapshot>, b: seq<NodeSnapshot>)
    requires Sorted(a) && Sorted(b) && multiset(a) == multiset(b) && Distinct(a)
    ensures a == b
  {
    hide Sorted, Distinct;
    assert |a| == |multiset(a)| == |multiset(b)| == |b|;
    if a != [] {
      SmallestFirst(a, b);
      TailOf(a);
      TailOf(b);
      SortedPermutationIsUnique(a[1..], b[1..]);
    }
  }

  /** Reordering siblings changes neither the IDs below them nor whether they fit. */
  lemma {:induction false} InsertKeepsForest(node: NodeSnapshot, nodes: seq<NodeSnapshot>, parentID: string, rootID: string)
    ensures IDs(Insert(node, nodes)) == IDs([node] + nodes) && Size(Insert(node, nodes)) == Size([node] + nodes)
    ensures AllFit(Insert(node, nodes), parentID, rootID) <==> AllFit([node] + nodes, parentID, rootID)
  {
    assert ([node] + nodes)[1..] == nodes;
    if nodes != [] && !AtMost(node.sessionID, nodes[0].sessionID) {
      var rest := Insert(node, nodes[1..]);
      assert ([nodes[0]] + rest)[1..] == rest;
      assert ([node] + nodes[1..])[1..] == nodes[1..];
      InsertKeepsForest(node, nodes[1..], parentID, rootID);
    }
  }

  lemma {:induction false} InOrderKeepsForest(nodes: seq<NodeSnapshot>, parentID: string, rootID: string)
    ensures IDs(InOrder(nodes)) == IDs(nodes) && Size(InOrder(nodes)) == Size(nodes)
    ensures AllFit(InOrder(nodes), parentID, rootID) <==> AllFit(nodes, parentID, rootID)
  {
    if nodes != [] {
      var rest := InOrder(nodes[1..]);
      InOrderKeepsForest(nodes[1..], parentID, rootID);
      InsertKeepsForest(nodes[0], rest, parentID, rootID);
      assert ([nodes[0]] + rest)[1..] == rest;
    }
  }

  // ---------------------------------------------------------------- the normalised tree

  /** Every list of children in order, at every level. */
  function Normalize(nodes: seq<NodeSnapshot>): seq<NodeSnapshot>
    decreases nodes
  {
    if nodes == [] then []
    else [nodes[0].(children := InOrder(Normalize(nodes[0].children)))] + Normalize(nodes[1..])
  }

  predicate SortedBelow(nodes: seq<NodeSnapshot>)
    decreases nodes
  {
    nodes != [] ==> Sorted(nodes[0].children) && SortedBelow(nodes[0].children) && SortedBelow(nodes[1..])
  }

  lemma {:induction false} SortedBelowPermutes(node: NodeSnapshot, nodes: seq<NodeSnapshot>)
    ensures SortedBelow(Insert(node, nodes)) <==> SortedBelow([node] + nodes)
  {
    assert ([node] + nodes)[1..] == nodes;
    if nodes != [] && !AtMost(node.sessionID, nodes[0].sessionID) {
      var rest := Insert(node, nodes[1..]);
      assert ([nodes[0]] + rest)[1..] == rest;
      assert ([node] + nodes[1..])[1..] == nodes[1..];
      SortedBelowPermutes(node, nodes[1..]);
    }
  }

  lemma {:induction false} InOrderKeepsSortedBelow(nodes: seq<NodeSnapshot>)
    ensures SortedBelow(InOrder(nodes)) <==> SortedBelow(nodes)
  {
    if nodes != [] {
      var rest := InOrder(nodes[1..]);
      InOrderKeepsSortedBelow(nodes[1..]);
      SortedBelowPermutes(nodes[0], rest);
      assert ([nodes[0]] + rest)[1..] == rest;
    }
  }

  lemma {:induction false} NormalizeSorts(nodes: seq<NodeSnapshot>)
    ensures SortedBelow(Normalize(nodes)) && |Normalize(nodes)| == |nodes|
    decreases nodes
  {
    if nodes != [] {
      var head := nodes[0].(children := InOrder(Normalize(nodes[0].children)));
      var rest := Normalize(nodes[1..]);
      NormalizeSorts(nodes[0].children);
      NormalizeSorts(nodes[1..]);
      InOrderSorts(Normalize(nodes[0].children));
      InOrderKeepsSortedBelow(Normalize(nodes[0].children));
      assert ([head] + rest)[1..] == rest;
    }
  }

  /** What is sorted already stays as it is, so normalisation is a fixed point. */
  lemma {:induction false} SortedIsNormal(nodes: seq<NodeSnapshot>)
    requires SortedBelow(nodes)
    ensures Normalize(nodes) == nodes
    decreases nodes
  {
    if nodes != [] {
      SortedIsNormal(nodes[0].children);
      SortedIsInOrder(nodes[0].children);
      SortedIsNormal(nodes[1..]);
    }
  }

  lemma NormalizeTwice(nodes: seq<NodeSnapshot>)
    ensures Normalize(Normalize(nodes)) == Normalize(nodes)
  {
    NormalizeSorts(nodes);
    SortedIsNormal(Normalize(nodes));
  }

  lemma {:induction false} NormalizeKeepsForest(nodes: seq<NodeSnapshot>, parentID: string, rootID: string)
    ensures IDs(Normalize(nodes)) == IDs(nodes)
    ensures AllFit(Normalize(nodes), parentID, rootID) <==> AllFit(nodes, parentID, rootID)
    decreases nodes
  {
    if nodes != [] {
      var children := Normalize(nodes[0].children);
      var head := nodes[0].(children := InOrder(children));
      var rest := Normalize(nodes[1..]);
      NormalizeKeepsForest(nodes[0].children, nodes[0].sessionID, rootID);
      NormalizeKeepsForest(nodes[1..], parentID, rootID);
      InOrderKeepsForest(children, nodes[0].sessionID, rootID);
      assert ([head] + rest)[1..] == rest;
    }
  }

  /** The normalised tree validates exactly when the original does. */
  lemma NormalizeKeepsWellFormed(root: NodeSnapshot)
    ensures WellFormed(Normalize([root])[0]) <==> WellFormed(root)
  {
    NormalizeKeepsForest([root], "", root.sessionID);
    assert Normalize([root]) == [Normalize([root])[0]];
  }

  // ---------------------------------------------------------------- the worklist

  /** What a worklist entry points at, and the parent and root it must name. */
  datatype Item = Item(node: NodeSnapshot, parentID: string, rootID: string)

  datatype Validation = Accepted(tree: NodeSnapshot, routes: map<string, string>) | Rejected

  function WorkIDs(work: seq<Item>): multiset<string> {
    if work == [] then multiset{} else IDs([work[0].node]) + WorkIDs(work[1..])
  }

  function WorkSize(work: seq<Item>): nat {
    if work == [] then 0 else Size([work[0].node]) + WorkSize(work[1..])
  }

  predicate WorkFits(work: seq<Item>) {
    work != [] ==> AllFit([work[0].node], work[0].parentID, work[0].rootID) && WorkFits(work[1..])
  }

  lemma {:induction false} WorkConcat(a: seq<Item>, b: seq<Item>)
    ensures WorkIDs(a + b) == WorkIDs(a) + WorkIDs(b)
    ensures WorkSize(a + b) == WorkSize(a) + WorkSize(b)
    ensures WorkFits(a + b) <==> WorkFits(a) && WorkFits(b)
  {
    if a == [] {
      assert a + b == b;
    } else {
      assert (a + b)[1..] == a[1..] + b && (a + b)[0] == a[0];
      WorkConcat(a[1..], b);
    }
  }

  function Enqueued(children: seq<NodeSnapshot>, parentID: string, rootID: string): seq<Item> {
    if children == [] then [] else [Item(children[0], parentID, rootID)] + Enqueued(children[1..], parentID, rootID)
  }

  lemma {:induction false} EnqueuedForest(children: seq<NodeSnapshot>, parentID: string, rootID: string)
    ensures WorkIDs(Enqueued(children, parentID, rootID)) == IDs(children)
    ensures WorkSize(Enqueued(children, parentID, rootID)) == Size(children)
    ensures WorkFits(Enqueued(children, parentID, rootID)) <==> AllFit(children, parentID, rootID)
  {
    if children != [] {
      EnqueuedForest(children[1..], parentID, rootID);
      assert children == [children[0]] + children[1..];
      ForestConcat([children[0]], children[1..]);
      FitConcat([children[0]], children[1..], parentID, rootID);
      assert Enqueued(children, parentID, rootID)[1..] == Enqueued(children[1..], parentID, rootID);
    }
  }

  lemma {:induction false} EnqueuedAt(children: seq<NodeSnapshot>, parentID: string, rootID: string)
    ensures Enqueued(children, parentID, rootID) ==
            seq(|children|, i requires 0 <= i < |children| => Item(children[i], parentID, rootID))
  {
    if children != [] {
      EnqueuedAt(children[1..], parentID, rootID);
    }
  }

  lemma OneItem(item: Item)
    ensures WorkIDs([item]) == multiset{item.node.sessionID} + IDs(item.node.children)
    ensures WorkSize([item]) == 1 + Size(item.node.children)
    ensures WorkFits([item]) <==>
            NodeFits(item.node, item.parentID, item.rootID) && AllFit(item.node.children, item.node.sessionID, item.rootID)
  {
    hide NodeFits;
    assert [item][1..] == [] && [item.node][1..] == [];
    assert WorkIDs([]) == multiset{} && IDs([]) == multiset{} && WorkFits([]) && AllFit([], item.parentID, item.rootID);
    assert IDs([item.node]) == multiset{item.node.sessionID} + IDs(item.node.children);
    assert Size([item.node]) == 1 + Size(item.node.children);
  }

  function Next(work: seq<Item>): seq<Item>
    requires work != []
  {
    var item := work[|work| - 1];
    work[..|work| - 1] + Enqueued(InOrder(item.node.children), item.node.sessionID, item.rootID)
  }

  /** Taking one item off the stack and putting its children on. */
  lemma PopPush(work: seq<Item>)
    requires work != []
    ensures var item := work[|work| - 1];
            && WorkIDs(work) == WorkIDs(Next(work)) + multiset{item.node.sessionID}
            && WorkSize(work) == WorkSize(Next(work)) + 1
            && (WorkFits(work) <==> WorkFits(Next(work)) && NodeFits(item.node, item.parentID, item.rootID))
  {
    hide WorkIDs, WorkSize, WorkFits, IDs, Size, AllFit, NodeFits, InOrder, Enqueued;
    var item := work[|work| - 1];
    var front := work[..|work| - 1];
    var pushed := Enqueued(InOrder(item.node.children), item.node.sessionID, item.rootID);
    assert work == front + [item];
    WorkConcat(front, [item]);
    WorkConcat(front, pushed);
    EnqueuedForest(InOrder(item.node.children), item.node.sessionID, item.rootID);
    InOrderKeepsForest(item.node.children, item.node.sessionID, item.rootID);
    OneItem(item);
  }

  ghost predicate Progress(root: NodeSnapshot, work: seq<Item>, routes: map<string, string>) {
    && IDs([root]) == WorkIDs(work) + multiset(routes.Keys)
    && (AllFit([root], "", root.sessionID) <==> WorkFits(work))
    && (forall id | id in routes :: routes[id] == root.sessionID)
    && (forall item | item in work :: item.rootID == root.sessionID)
  }

  lemma Started(root: NodeSnapshot)
    ensures Progress(root, [Item(root, "", root.sessionID)], map[])
  {
    hide NodeFits, AllFit, IDs;
    var work := [Item(root, "", root.sessionID)];
    assert work[1..] == [] && WorkIDs([]) == multiset{} && WorkFits([]);
    var none: map<string, string> := map[];
    assert multiset(none.Keys) == multiset{};
    assert WorkIDs(work) == IDs([root]);
  }

  lemma DuplicateIsTwice(root: NodeSnapshot, work: seq<Item>, routes: map<string, string>)
    requires work != [] && Progress(root, work, routes) && work[|work| - 1].node.sessionID in routes
    ensures !NoneTwice(IDs([root]))
  {
    PopPush(work);
    hide IDs, WorkIDs, WorkFits, AllFit, Next;
    assert IDs([root])[work[|work| - 1].node.sessionID] >= 2;
  }

  lemma NextRoots(work: seq<Item>, rootID: string)
    requires work != [] && forall item | item in work :: item.rootID == rootID
    ensures forall item | item in Next(work) :: item.rootID == rootID
  {
    var item := work[|work| - 1];
    assert item in work;
    var pushed := Enqueued(InOrder(item.node.children), item.node.sessionID, item.rootID);
    EnqueuedMembers(InOrder(item.node.children), item.node.sessionID, item.rootID);
    forall x | x in Next(work) ensures x.rootID == rootID {
      assert x in work[..|work| - 1] || x in pushed;
    }
  }

  lemma Visited(root: NodeSnapshot, work: seq<Item>, routes: map<string, string>)
    requires work != [] && Progress(root, work, routes)
    requires var item := work[|work| - 1];
             NodeFits(item.node, item.parentID, item.rootID) && item.node.sessionID !in routes
    ensures Progress(root, Next(work), routes[work[|work| - 1].node.sessionID := root.sessionID])
  {
    hide IDs, WorkIDs, WorkFits, AllFit, NodeFits, Next;
    var sid := work[|work| - 1].node.sessionID;
    PopPush(work);
    NextRoots(work, root.sessionID);
    var next := routes[sid := root.sessionID];
    assert next.Keys == routes.Keys + {sid};
    assert multiset(next.Keys) == multiset(routes.Keys) + multiset{sid};
  }

  lemma DoneIsAccepted(root: NodeSnapshot, routes: map<string, string>)
    requires RootFits(root) && Progress(root, [], routes)
    ensures WellFormed(root) && routes.Keys == set id | id in IDs([root])
  {
    assert IDs([root]) == multiset(routes.Keys);
  }

  lemma {:induction false} EnqueuedMembers(children: seq<NodeSnapshot>, parentID: string, rootID: string)
    ensures forall item | item in Enqueued(children, parentID, rootID) :: item.rootID == rootID
  {
    if children != [] {
      EnqueuedMembers(children[1..], parentID, rootID);
    }
  }

  // ---------------------------------------------------------------- the tree under the worklist

  /** A pointer into the tree: the indices to follow from the root. */
  type Path = seq<nat>

  predicate OnTree(tree: NodeSnapshot, path: Path) {
    path == [] || (path[0] < |tree.children| && OnTree(tree.children[path[0]], path[1..]))
  }

  function At(tree: NodeSnapshot, path: Path): NodeSnapshot
    requires OnTree(tree, path)
  {
    if path == [] then tree else At(tree.children[path[0]], path[1..])
  }

  /** Assigning through a pointer. */
  function Put(tree: NodeSnapshot, path: Path, node: NodeSnapshot): NodeSnapshot
    requires OnTree(tree, path)
  {
    if path == [] then node
    else tree.(children := tree.children[path[0] := Put(tree.children[path[0]], path[1..], node)])
  }

  predicate Apart(p: Path, q: Path) { !(p <= q) && !(q <= p) }

  lemma {:induction false} AtChild(tree: NodeSnapshot, path: Path, i: nat)
    requires OnTree(tree, path)
    ensures OnTree(tree, path + [i]) <==> i < |At(tree, path).children|
    ensures OnTree(tree, path + [i]) ==> At(tree, path + [i]) == At(tree, path).children[i]
  {
    if path == [] {
      assert (path + [i])[1..] == [];
    } else {
      assert (path + [i])[1..] == path[1..] + [i];
      AtChild(tree.children[path[0]], path[1..], i);
    }
  }

  lemma {:induction false} AtPut(tree: NodeSnapshot, path: Path, node: NodeSnapshot)
    requires OnTree(tree, path)
    ensures OnTree(Put(tree, path, node), path) && At(Put(tree, path, node), path) == node
  {
    if path != [] {
      AtPut(tree.children[path[0]], path[1..], node);
    }
  }

  /** An assignment is seen at no place apart from its own. */
  lemma {:induction false} PutApart(tree: NodeSnapshot, path: Path, node: NodeSnapshot, q: Path)
    requires OnTree(tree, path) && Apart(path, q)
    ensures OnTree(Put(tree, path, node), q) <==> OnTree(tree, q)
    ensures OnTree(tree, q) ==> At(Put(tree, path, node), q) == At(tree, q)
  {
    if path[0] == q[0] {
      assert Apart(path[1..], q[1..]) by {
        assert path == [path[0]] + path[1..] && q == [q[0]] + q[1..];
      }
      if q[0] < |tree.children| {
        PutApart(tree.children[path[0]], path[1..], node, q[1..]);
      }
    }
  }

  /** Above its place an assignment that keeps the session ID changes no ID among siblings. */
  lemma {:induction false} PutAbove(tree: NodeSnapshot, path: Path, node: NodeSnapshot, q: Path)
    requires OnTree(tree, path) && q <= path && q != path && node.sessionID == At(tree, path).sessionID
    ensures OnTree(tree, q) && OnTree(Put(tree, path, node), q)
    ensures SameIDs(At(tree, q).children, At(Put(tree, path, node), q).children)
  {
    if q == [] {
      var child := tree.children[path[0]];
      PutKeepsID(child, path[1..], node);
    } else {
      assert path[0] == q[0] && q[1..] <= path[1..];
      PutAbove(tree.children[path[0]], path[1..], node, q[1..]);
    }
  }

  lemma PutKeepsID(tree: NodeSnapshot, path: Path, node: NodeSnapshot)
    requires OnTree(tree, path) && node.sessionID == At(tree, path).sessionID
    ensures Put(tree, path, node).sessionID == tree.sessionID
  {
  }

  predicate SameIDs(a: seq<NodeSnapshot>, b: seq<NodeSnapshot>) {
    |a| == |b| && forall i | 0 <= i < |a| :: a[i].sessionID == b[i].sessionID
  }

  lemma SameIDsSorted(a: seq<NodeSnapshot>, b: seq<NodeSnapshot>)
    requires SameIDs(a, b) && Sorted(a)
    ensures Sorted(b)
  {
    hide AtMost;
  }

  /** Sorting the children of one node of a tree. */
  function Sort(tree: NodeSnapshot, path: Path): NodeSnapshot
    requires OnTree(tree, path)
  {
    var node := At(tree, path);
    Put(tree, path, node.(children := InOrder(node.children)))
  }

  /** Normalising commutes with sorting, so it does not see a sort. */
  lemma {:induction false} NormalizeInsert(node: NodeSnapshot, nodes: seq<NodeSnapshot>)
    ensures Normalize(Insert(node, nodes)) == Insert(Normalize([node])[0], Normalize(nodes))
  {
    assert [node][1..] == [];
    var normal := node.(children := InOrder(Normalize(node.children)));
    assert Normalize([node]) == [normal];
    if nodes == [] || AtMost(node.sessionID, nodes[0].sessionID) {
      assert ([node] + nodes)[1..] == nodes;
    } else {
      var rest := Insert(node, nodes[1..]);
      assert ([nodes[0]] + rest)[1..] == rest;
      NormalizeInsert(node, nodes[1..]);
      assert Normalize(nodes)[1..] == Normalize(nodes[1..]);
    }
  }

  lemma NormalizeHead(nodes: seq<NodeSnapshot>)
    requires nodes != []
    ensures |Normalize([nodes[0]])| == 1 && Normalize(nodes) == Normalize([nodes[0]]) + Normalize(nodes[1..])
  {
    hide InOrder;
    assert [nodes[0]][1..] == [];
  }

  lemma {:induction false} NormalizeInOrder(nodes: seq<NodeSnapshot>)
    ensures Normalize(InOrder(nodes)) == InOrder(Normalize(nodes))
  {
    if nodes != [] {
      NormalizeInOrder(nodes[1..]);
      NormalizeInsert(nodes[0], InOrder(nodes[1..]));
      NormalizeHead(nodes);
      hide Normalize, Insert;
      var normal, rest := Normalize([nodes[0]])[0], Normalize(nodes[1..]);
      assert Normalize(nodes)[0] == normal && Normalize(nodes)[1..] == rest;
    }
  }

  lemma {:induction false} NormalizeUpdate(nodes: seq<NodeSnapshot>, i: nat, node: NodeSnapshot)
    requires i < |nodes| && Normalize([node]) == Normalize([nodes[i]])
    ensures Normalize(nodes[i := node]) == Normalize(nodes)
  {
    hide Normalize;
    var after := nodes[i := node];
    NormalizeHead(nodes);
    NormalizeHead(after);
    if i == 0 {
      assert after[1..] == nodes[1..];
    } else {
      assert after[1..] == nodes[1..][i - 1 := node];
      NormalizeUpdate(nodes[1..], i - 1, node);
    }
  }

  lemma {:induction false} SortKeepsNormal(tree: NodeSnapshot, path: Path)
    requires OnTree(tree, path)
    ensures Normalize([Sort(tree, path)]) == Normalize([tree])
  {
    assert [tree][1..] == [] && [Sort(tree, path)][1..] == [];
    if path == [] {
      NormalizeInOrder(tree.children);
      InOrderSorts(Normalize(tree.children));
      SortedIsInOrder(InOrder(Normalize(tree.children)));
    } else {
      var child := tree.children[path[0]];
      SortKeepsNormal(child, path[1..]);
      assert Sort(tree, path).children == tree.children[path[0] := Sort(child, path[1..])];
      NormalizeUpdate(tree.children, path[0], Sort(child, path[1..]));
    }
  }

  lemma {:induction false} SortedForest(nodes: seq<NodeSnapshot>)
    requires forall i | 0 <= i < |nodes| :: SortedBelow([nodes[i]])
    ensures SortedBelow(nodes)
  {
    if nodes != [] {
      assert SortedBelow([nodes[0]]) && [nodes[0]][1..] == [];
      SortedForest(nodes[1..]);
    }
  }

  ghost predicate SortedEverywhere(tree: NodeSnapshot) {
    forall q | OnTree(tree, q) :: Sorted(At(tree, q).children)
  }

  lemma {:induction false} EverywhereIsBelow(tree: NodeSnapshot)
    requires SortedEverywhere(tree)
    ensures SortedBelow([tree])
    decreases tree
  {
    forall i | 0 <= i < |tree.children| ensures SortedBelow([tree.children[i]]) {
      forall q | OnTree(tree.children[i], q) ensures Sorted(At(tree.children[i], q).children) {
        assert ([i] + q)[1..] == q;
        assert OnTree(tree, [i] + q) && At(tree, [i] + q) == At(tree.children[i], q);
      }
      EverywhereIsBelow(tree.children[i]);
    }
    SortedForest(tree.children);
    assert OnTree(tree, []) && At(tree, []) == tree && [tree][1..] == [];
  }

  // ---------------------------------------------------------------- the loop

  // ---------------------------------------------------------------- well-formedness, place by place

  /** Every child anywhere fits below the node it is listed at. */
  ghost predicate FitBelow(tree: NodeSnapshot, rootID: string) {
    forall q: Path, i: nat | OnTree(tree, q) && i < |At(tree, q).children| ::
      NodeFits(At(tree, q).children[i], At(tree, q).sessionID, rootID)
  }

  /** No two places hold the same session ID. */
  ghost predicate OneEach(tree: NodeSnapshot) {
    forall p: Path, q: Path | OnTree(tree, p) && OnTree(tree, q) && p != q ::
      At(tree, p).sessionID != At(tree, q).sessionID
  }

  lemma {:induction false} FitOneByOne(nodes: seq<NodeSnapshot>, parentID: string, rootID: string)
    ensures AllFit(nodes, parentID, rootID) <==>
            forall i | 0 <= i < |nodes| :: AllFit([nodes[i]], parentID, rootID)
  {
    if nodes != [] {
      var head, rest := [nodes[0]], nodes[1..];
      assert nodes == head + rest;
      FitConcat(head, rest, parentID, rootID);
      FitOneByOne(rest, parentID, rootID);
      hide AllFit;
      assert forall i | 0 <= i < |rest| :: rest[i] == nodes[i + 1];
    }
  }

  lemma Below(tree: NodeSnapshot, i: nat, q: Path)
    requires i < |tree.children|
    ensures OnTree(tree, [i] + q) <==> OnTree(tree.children[i], q)
    ensures OnTree(tree, [i] + q) ==> At(tree, [i] + q) == At(tree.children[i], q)
  {
    assert ([i] + q)[1..] == q;
  }

  lemma {:induction false} FitsExactly(tree: NodeSnapshot, parentID: string, rootID: string)
    ensures AllFit([tree], parentID, rootID) <==> NodeFits(tree, parentID, rootID) && FitBelow(tree, rootID)
    decreases tree
  {
    var children := tree.children;
    assert [tree][1..] == [];
    FitOneByOne(children, tree.sessionID, rootID);
    forall i | 0 <= i < |children|
      ensures AllFit([children[i]], tree.sessionID, rootID) <==>
              NodeFits(children[i], tree.sessionID, rootID) && FitBelow(children[i], rootID)
    {
      FitsExactly(children[i], tree.sessionID, rootID);
    }
    FitBelowSplits(tree, rootID);
  }

  lemma FitBelowSplits(tree: NodeSnapshot, rootID: string)
    ensures FitBelow(tree, rootID) <==>
            forall i | 0 <= i < |tree.children| ::
              NodeFits(tree.children[i], tree.sessionID, rootID) && FitBelow(tree.children[i], rootID)
  {
    hide NodeFits;
    var children := tree.children;
    if FitBelow(tree, rootID) {
      forall i | 0 <= i < |children| ensures NodeFits(children[i], tree.sessionID, rootID) && FitBelow(children[i], rootID) {
        assert OnTree(tree, []) && At(tree, []) == tree;
        forall q: Path, j: nat | OnTree(children[i], q) && j < |At(children[i], q).children|
          ensures NodeFits(At(children[i], q).children[j], At(children[i], q).sessionID, rootID)
        {
          Below(tree, i, q);
        }
      }
    }
    if forall i | 0 <= i < |children| :: NodeFits(children[i], tree.sessionID, rootID) && FitBelow(children[i], rootID) {
      forall q: Path, j: nat | OnTree(tree, q) && j < |At(tree, q).children|
        ensures NodeFits(At(tree, q).children[j], At(tree, q).sessionID, rootID)
      {
        if q != [] {
          assert FitBelow(children[q[0]], rootID);
        }
      }
    }
  }

  lemma Root(tree: NodeSnapshot)
    ensures OnTree(tree, []) && At(tree, []) == tree
    ensures IDs([tree]) == multiset{tree.sessionID} + IDs(tree.children)
  {
    assert [tree][1..] == [];
  }

  lemma Split(nodes: seq<NodeSnapshot>)
    requires nodes != []
    ensures IDs(nodes) == IDs([nodes[0]]) + IDs(nodes[1..])
  {
    assert nodes == [nodes[0]] + nodes[1..];
    ForestConcat([nodes[0]], nodes[1..]);
  }

  lemma Counts(nodes: seq<NodeSnapshot>, id: string)
    requires id in IDs(nodes)
    ensures nodes != [] && IDs(nodes)[id] == IDs([nodes[0]])[id] + IDs(nodes[1..])[id]
  {
    Split(nodes);
  }

  lemma {:induction false} Among(nodes: seq<NodeSnapshot>, i: nat)
    requires i < |nodes|
    ensures IDs([nodes[i]]) <= IDs(nodes)
  {
    Split(nodes);
    if i > 0 {
      Among(nodes[1..], i - 1);
    }
  }

  lemma {:induction false} AmongTwo(nodes: seq<NodeSnapshot>, i: nat, j: nat)
    requires i < j < |nodes|
    ensures IDs([nodes[i]]) + IDs([nodes[j]]) <= IDs(nodes)
  {
    hide IDs;
    var rest := nodes[1..];
    Split(nodes);
    if i > 0 {
      assert rest[i - 1] == nodes[i] && rest[j - 1] == nodes[j];
      AmongTwo(rest, i - 1, j - 1);
    } else {
      assert rest[j - 1] == nodes[j];
      Among(rest, j - 1);
    }
  }

  lemma {:induction false} AmongWhich(nodes: seq<NodeSnapshot>, id: string) returns (i: nat)
    requires id in IDs(nodes)
    ensures i < |nodes| && id in IDs([nodes[i]])
  {
    hide IDs;
    Counts(nodes, id);
    if id in IDs([nodes[0]]) {
      i := 0;
    } else {
      var k := AmongWhich(nodes[1..], id);
      i := k + 1;
    }
  }

  lemma {:induction false} AmongWhichTwo(nodes: seq<NodeSnapshot>, id: string) returns (i: nat, j: nat)
    requires IDs(nodes)[id] >= 2
    ensures i <= j < |nodes| && id in IDs([nodes[i]]) && id in IDs([nodes[j]])
    ensures i == j ==> IDs([nodes[i]])[id] >= 2
  {
    hide IDs;
    Counts(nodes, id);
    var rest := nodes[1..];
    var first := IDs([nodes[0]])[id];
    if first >= 2 {
      i, j := 0, 0;
    } else if first == 1 {
      var k := AmongWhich(rest, id);
      assert rest[k] == nodes[k + 1];
      i, j := 0, k + 1;
    } else {
      var k, l := AmongWhichTwo(rest, id);
      assert rest[k] == nodes[k + 1] && rest[l] == nodes[l + 1];
      i, j := k + 1, l + 1;
    }
  }

  /** An ID of the tree is the ID of a place, and so is every place's. */
  lemma {:induction false} PlaceOf(tree: NodeSnapshot, id: string) returns (q: Path)
    requires id in IDs([tree])
    ensures OnTree(tree, q) && At(tree, q).sessionID == id
    decreases tree
  {
    Root(tree);
    q := [];
    if tree.sessionID != id {
      var i := AmongWhich(tree.children, id);
      var rest := PlaceOf(tree.children[i], id);
      Below(tree, i, rest);
      q := [i] + rest;
    }
  }

  lemma {:induction false} PlaceHasID(tree: NodeSnapshot, q: Path)
    requires OnTree(tree, q)
    ensures At(tree, q).sessionID in IDs([tree])
  {
    Root(tree);
    if q != [] {
      Among(tree.children, q[0]);
      PlaceHasID(tree.children[q[0]], q[1..]);
    }
  }

  lemma {:induction false} TwoPlacesTwice(tree: NodeSnapshot, p: Path, q: Path)
    requires OnTree(tree, p) && OnTree(tree, q) && p != q && At(tree, p).sessionID == At(tree, q).sessionID
    ensures IDs([tree])[At(tree, p).sessionID] >= 2
    decreases tree
  {
    Root(tree);
    if p == [] {
      PlaceBelow(tree, q);
    } else if q == [] {
      PlaceBelow(tree, p);
    } else {
      var i, j, a, b := p[0], q[0], p[1..], q[1..];
      assert p == [i] + a && q == [j] + b;
      if i == j {
        TwoPlacesTwice(tree.children[i], a, b);
        Among(tree.children, i);
      } else {
        PlaceHasID(tree.children[i], a);
        PlaceHasID(tree.children[j], b);
        if i < j { AmongTwo(tree.children, i, j); } else { AmongTwo(tree.children, j, i); }
      }
    }
  }

  lemma PlaceBelow(tree: NodeSnapshot, q: Path)
    requires OnTree(tree, q) && q != []
    ensures At(tree, q).sessionID in IDs(tree.children)
  {
    PlaceHasID(tree.children[q[0]], q[1..]);
    Among(tree.children, q[0]);
  }

  lemma {:induction false} TwicePlaces(tree: NodeSnapshot, id: string) returns (p: Path, q: Path)
    requires IDs([tree])[id] >= 2
    ensures p != q && OnTree(tree, p) && OnTree(tree, q) && At(tree, p).sessionID == id == At(tree, q).sessionID
    decreases tree
  {
    Root(tree);
    var children := tree.children;
    if tree.sessionID == id {
      var i := AmongWhich(children, id);
      var rest := PlaceOf(children[i], id);
      Below(tree, i, rest);
      p, q := [], [i] + rest;
    } else {
      var i, j := AmongWhichTwo(children, id);
      var a, b: Path;
      if i == j {
        a, b := TwicePlaces(children[i], id);
        assert ([i] + a)[1..] == a && ([j] + b)[1..] == b;
      } else {
        a := PlaceOf(children[i], id);
        b := PlaceOf(children[j], id);
        assert ([i] + a)[0] == i && ([j] + b)[0] == j;
      }
      Below(tree, i, a);
      Below(tree, j, b);
      p, q := [i] + a, [j] + b;
    }
  }

  lemma OneEachExactly(tree: NodeSnapshot)
    ensures NoneTwice(IDs([tree])) <==> OneEach(tree)
  {
    if OneEach(tree) {
      forall id | id in IDs([tree]) ensures IDs([tree])[id] == 1 {
        if IDs([tree])[id] >= 2 {
          var p, q := TwicePlaces(tree, id);
        }
      }
    } else {
      var p: Path, q: Path :| OnTree(tree, p) && OnTree(tree, q) && p != q && At(tree, p).sessionID == At(tree, q).sessionID;
      TwoPlacesTwice(tree, p, q);
    }
  }

  /** A session ID that can stand as one segment of a URL path. */
  predicate Segment(id: string) {
    && 1 <= |id| <= 128 && id != "." && id != ".."
    && forall c | c in id :: 'A' <= c <= 'Z' || 'a' <= c <= 'z' || '0' <= c <= '9' || c == '_' || c == '.' || c == ':' || c == '-'
  }

  /** What is demanded of one node of a root's tree. */
  predicate Lawful(node: NodeSnapshot, rootID: string) {
    && Segment(node.sessionID) && node.rootID == rootID
    && node.lifecycle in ["provisioning", "starting", "ready", "running", "awaiting_handoff", "completed", "failed",
                          "stopping", "stopped"]
    && forall i | 0 <= i < |node.children| ::
         node.children[i].parentID == node.sessionID && node.children[i].kind != "root"
  }

  lemma LawfulAt(root: NodeSnapshot, rootID: string, q: Path)
    requires NodeFits(root, "", rootID) && FitBelow(root, rootID) && OnTree(root, q)
    ensures Lawful(At(root, q), rootID)
  {
    assert NodeFits(At(root, q), "", rootID) by {
      if q != [] {
        var p, i := q[..|q| - 1], q[|q| - 1];
        assert q == p + [i];
        PrefixOnTree(root, p, q);
        AtChild(root, p, i);
      }
    }
  }

  ghost predicate LawfulEverywhere(root: NodeSnapshot) {
    forall q: Path | OnTree(root, q) :: Lawful(At(root, q), root.sessionID)
  }

  lemma LawfulExactly(root: NodeSnapshot)
    ensures LawfulEverywhere(root) <==> NodeFits(root, "", root.sessionID) && FitBelow(root, root.sessionID)
  {
    assert OnTree(root, []) && At(root, []) == root;
    if LawfulEverywhere(root) {
      forall q: Path, i: nat | OnTree(root, q) && i < |At(root, q).children|
        ensures NodeFits(At(root, q).children[i], At(root, q).sessionID, root.sessionID)
      {
        AtChild(root, q, i);
      }
    }
    if NodeFits(root, "", root.sessionID) && FitBelow(root, root.sessionID) {
      forall q: Path | OnTree(root, q) ensures Lawful(At(root, q), root.sessionID) {
        LawfulAt(root, root.sessionID, q);
      }
    }
  }

  /**
   A tree is well-formed exactly when its root says it is one, every node in it is lawful, and no two nodes
   share a session ID.
  */
  lemma WellFormedExactly(root: NodeSnapshot)
    ensures WellFormed(root) <==>
            root.kind == "root" && root.context == "root" && root.parentID == "" && LawfulEverywhere(root) && OneEach(root)
  {
    FitsExactly(root, "", root.sessionID);
    OneEachExactly(root);
    LawfulExactly(root);
    hide AllFit, IDs, NoneTwice, FitBelow, OneEach;
    assert LawfulEverywhere(root) ==> Lawful(root, root.sessionID) by {
      assert OnTree(root, []) && At(root, []) == root;
    }
  }

  datatype Work = Work(path: Path, parentID: string, rootID: string)

  predicate Points(tree: NodeSnapshot, work: seq<Work>) {
    forall k | 0 <= k < |work| :: OnTree(tree, work[k].path)
  }

  function View(tree: NodeSnapshot, work: seq<Work>): seq<Item>
    requires Points(tree, work)
  {
    seq(|work|, k requires 0 <= k < |work| => Item(At(tree, work[k].path), work[k].parentID, work[k].rootID))
  }

  predicate Scattered(work: seq<Work>) {
    forall j, k | 0 <= j < k < |work| :: Apart(work[j].path, work[k].path)
  }

  /** What no pointer on the stack leads to is sorted already. */
  ghost predicate SortedElsewhere(tree: NodeSnapshot, work: seq<Work>) {
    forall q | OnTree(tree, q) && !Ahead(work, q) :: Sorted(At(tree, q).children)
  }

  predicate Ahead(work: seq<Work>, q: Path) {
    exists k | 0 <= k < |work| :: work[k].path <= q
  }

  function Pointers(path: Path, n: nat, parentID: string, rootID: string): seq<Work> {
    seq(n, i requires 0 <= i < n => Work(path + [i], parentID, rootID))
  }

  /** The stack after a visit. */
  function Visiting(tree: NodeSnapshot, work: seq<Work>): seq<Work>
    requires work != [] && Points(tree, work)
  {
    var item := work[|work| - 1];
    var node := At(tree, item.path);
    work[..|work| - 1] + Pointers(item.path, |node.children|, node.sessionID, item.rootID)
  }

  lemma InOrderLength(nodes: seq<NodeSnapshot>)
    ensures |InOrder(nodes)| == |nodes|
  {
    InOrderSorts(nodes);
    assert |multiset(nodes)| == |nodes| && |multiset(InOrder(nodes))| == |InOrder(nodes)|;
  }

  /** The visit, seen through the pointers, is one step of the worklist on values. */
  lemma VisitSteps(tree: NodeSnapshot, work: seq<Work>)
    requires work != [] && Points(tree, work) && Scattered(work)
    ensures var after := Sort(tree, work[|work| - 1].path);
            Points(after, Visiting(tree, work)) && View(after, Visiting(tree, work)) == Next(View(tree, work))
  {
    hide InOrder;
    var item := work[|work| - 1];
    var node := At(tree, item.path);
    var sorted := node.(children := InOrder(node.children));
    var after, next := Sort(tree, item.path), Visiting(tree, work);
    InOrderLength(node.children);
    AtPut(tree, item.path, sorted);
    EnqueuedAt(sorted.children, node.sessionID, item.rootID);
    forall k | 0 <= k < |next|
      ensures OnTree(after, next[k].path)
      ensures Item(At(after, next[k].path), next[k].parentID, next[k].rootID) == Next(View(tree, work))[k]
    {
      if k < |work| - 1 {
        PutApart(tree, item.path, sorted, work[k].path);
        assert Apart(work[k].path, item.path);
      } else {
        AtChild(after, item.path, k - (|work| - 1));
      }
    }
  }

  lemma VisitScatters(tree: NodeSnapshot, work: seq<Work>)
    requires work != [] && Points(tree, work) && Scattered(work)
    ensures Scattered(Visiting(tree, work))
  {
    var item, next := work[|work| - 1], Visiting(tree, work);
    forall j, k | 0 <= j < k < |next| ensures Apart(next[j].path, next[k].path) {
      var last := |work| - 1;
      if k < last {
        assert Apart(work[j].path, work[k].path);
      } else if j < last {
        assert Apart(work[j].path, item.path);
        PrefixBelow(work[j].path, item.path, k - last);
      } else {
        assert next[j].path[|item.path|] != next[k].path[|item.path|];
      }
    }
  }

  lemma PrefixBelow(p: Path, q: Path, i: nat)
    ensures p <= q + [i] ==> p <= q || q <= p
    ensures q + [i] <= p ==> q <= p
  {
    if p <= q + [i] {
      assert |p| <= |q| ==> p == (q + [i])[..|p|] == q[..|p|];
      assert |p| > |q| ==> p[..|q|] == (q + [i])[..|q|] == q;
    }
    if q + [i] <= p {
      assert p[..|q|] == p[..|q| + 1][..|q|] == q;
    }
  }

  /** Below the node visited everything is ahead. */
  lemma BelowIsAhead(tree: NodeSnapshot, work: seq<Work>, q: Path)
    requires work != [] && Points(tree, work)
    requires OnTree(Sort(tree, work[|work| - 1].path), q) && work[|work| - 1].path <= q
    ensures q == work[|work| - 1].path || Ahead(Visiting(tree, work), q)
  {
    hide InOrder;
    var path := work[|work| - 1].path;
    var node := At(tree, path);
    var after, next := Sort(tree, path), Visiting(tree, work);
    if q != path {
      var i := q[|path|];
      assert path + [i] <= q;
      AtPut(tree, path, node.(children := InOrder(node.children)));
      InOrderLength(node.children);
      PrefixOnTree(after, path + [i], q);
      AtChild(after, path, i);
      assert next[|work| - 1 + i].path == path + [i];
    }
  }

  /** Every place is behind the visit, ahead of it, or apart. */
  lemma VisitSorts(tree: NodeSnapshot, work: seq<Work>)
    requires work != [] && Points(tree, work) && Scattered(work) && SortedElsewhere(tree, work)
    ensures SortedElsewhere(Sort(tree, work[|work| - 1].path), Visiting(tree, work))
  {
    var after, next := Sort(tree, work[|work| - 1].path), Visiting(tree, work);
    forall q | OnTree(after, q) && !Ahead(next, q) ensures Sorted(At(after, q).children) {
      VisitSortsAt(tree, work, q);
    }
  }

  lemma VisitSortsAt(tree: NodeSnapshot, work: seq<Work>, q: Path)
    requires work != [] && Points(tree, work) && Scattered(work) && SortedElsewhere(tree, work)
    requires OnTree(Sort(tree, work[|work| - 1].path), q) && !Ahead(Visiting(tree, work), q)
    ensures Sorted(At(Sort(tree, work[|work| - 1].path), q).children)
  {
    hide InOrder, Sorted;
    var path := work[|work| - 1].path;
    var node := At(tree, path);
    var sorted := node.(children := InOrder(node.children));
    var after, next := Sort(tree, path), Visiting(tree, work);
    AtPut(tree, path, sorted);
    InOrderSorts(node.children);
    if path <= q {
      BelowIsAhead(tree, work, q);
    } else {
      assert !Ahead(work, q) by {
        if k :| 0 <= k < |work| && work[k].path <= q {
          assert k < |work| - 1 && next[k] == work[k];
        }
      }
      if q <= path {
        PutAbove(tree, path, sorted, q);
        SameIDsSorted(At(tree, q).children, At(after, q).children);
      } else {
        PutApart(tree, path, sorted, q);
      }
    }
  }

  lemma {:induction false} PrefixOnTree(tree: NodeSnapshot, p: Path, q: Path)
    requires OnTree(tree, q) && p <= q
    ensures OnTree(tree, p)
  {
    if p != [] {
      assert p[0] == q[0] && p[1..] <= q[1..];
      PrefixOnTree(tree.children[p[0]], p[1..], q[1..]);
    }
  }

  ghost predicate LoopInv(root: NodeSnapshot, tree: NodeSnapshot, work: seq<Work>, routes: map<string, string>) {
    && Points(tree, work) && Scattered(work) && SortedElsewhere(tree, work)
    && Normalize([tree]) == Normalize([root])
    && Progress(root, View(tree, work), routes)
  }

  lemma LoopStarts(root: NodeSnapshot)
    ensures LoopInv(root, root, [Work([], "", root.sessionID)], map[])
  {
    var work := [Work([], "", root.sessionID)];
    assert OnTree(root, []) && At(root, []) == root;
    assert View(root, work) == [Item(root, "", root.sessionID)];
    forall q: Path ensures Ahead(work, q) {
      assert work[0].path <= q;
    }
    Started(root);
  }

  lemma LoopSteps(root: NodeSnapshot, tree: NodeSnapshot, work: seq<Work>, routes: map<string, string>)
    requires LoopInv(root, tree, work, routes) && work != []
    requires var item := work[|work| - 1];
             && NodeFits(At(tree, item.path), item.parentID, item.rootID)
             && At(tree, item.path).sessionID !in routes
    ensures var item := work[|work| - 1];
            && LoopInv(root, Sort(tree, item.path), Visiting(tree, work), routes[At(tree, item.path).sessionID := item.rootID])
            && WorkSize(View(Sort(tree, item.path), Visiting(tree, work))) < WorkSize(View(tree, work))
  {
    var item := work[|work| - 1];
    var view := View(tree, work);
    assert view[|work| - 1] == Item(At(tree, item.path), item.parentID, item.rootID);
    assert view[|work| - 1] in view;
    VisitSteps(tree, work);
    VisitScatters(tree, work);
    VisitSorts(tree, work);
    SortKeepsNormal(tree, item.path);
    hide Next, Sort, Visiting, View, SortedElsewhere, Scattered, Points, Normalize;
    PopPush(view);
    Visited(root, view, routes);
  }

  lemma LoopEnds(root: NodeSnapshot, tree: NodeSnapshot, routes: map<string, string>)
    requires RootFits(root) && LoopInv(root, tree, [], routes)
    ensures WellFormed(root) && [tree] == Normalize([root]) && routes.Keys == set id | id in IDs([root])
  {
    assert View(tree, []) == [];
    DoneIsAccepted(root, routes);
    hide IDs, AllFit;
    assert SortedEverywhere(tree);
    EverywhereIsBelow(tree);
    SortedIsNormal([tree]);
  }

  lemma DuplicateRejects(root: NodeSnapshot, tree: NodeSnapshot, work: seq<Work>, routes: map<string, string>)
    requires LoopInv(root, tree, work, routes) && work != []
    requires At(tree, work[|work| - 1].path).sessionID in routes
    ensures !WellFormed(root)
  {
    DuplicateIsTwice(root, View(tree, work), routes);
  }

  lemma MisfitRejects(root: NodeSnapshot, tree: NodeSnapshot, work: seq<Work>, routes: map<string, string>)
    requires LoopInv(root, tree, work, routes) && work != []
    requires var item := work[|work| - 1]; !NodeFits(At(tree, item.path), item.parentID, item.rootID)
    ensures !WellFormed(root)
  {
    PopPush(View(tree, work));
  }

  /** Pointers to the children are taken after they were sorted. */
  method Enqueue(work: seq<Work>, path: Path, node: NodeSnapshot, rootID: string) returns (longer: seq<Work>)
    ensures longer == work + Pointers(path, |node.children|, node.sessionID, rootID)
  {
    longer := work;
    for i := 0 to |node.children|
      invariant longer == work + Pointers(path, i, node.sessionID, rootID)
    {
      longer := longer + [Work(path + [i], node.sessionID, rootID)];
    }
  }

  /**
   The worklist accepts exactly the well-formed trees and routes exactly their sessions to the root; the
   tree it sorted node by node on its way is the normalised one.
  */
  method ValidateRootTree(root: NodeSnapshot) returns (result: Validation)
    ensures result.Accepted? <==> WellFormed(root)
    ensures result.Accepted? ==> result.routes == map id | id in IDs([root]) :: root.sessionID
    ensures result.Accepted? ==> [result.tree] == Normalize([root])
  {
    hide IDs, AllFit, NodeFits, WorkIDs, WorkSize, Next, Enqueued, InOrder, Normalize, SortedElsewhere, Scattered, View, WorkFits;
    if root.kind != ROOT_KIND || root.rootID != root.sessionID || root.parentID != "" || root.context != ROOT_CONTEXT ||
       root.sessionID == "" {
      return Rejected;
    }
    var tree := root;
    var routes: map<string, string> := map[];
    var work := [Work([], "", root.sessionID)];
    LoopStarts(root);
    while work != []
      invariant LoopInv(root, tree, work, routes)
      decreases WorkSize(View(tree, work))
    {
      var item := work[|work| - 1];
      var node := At(tree, item.path);
      if !NodeFits(node, item.parentID, item.rootID) {
        MisfitRejects(root, tree, work, routes);
        return Rejected;
      }
      if node.sessionID in routes {
        DuplicateRejects(root, tree, work, routes);
        return Rejected;
      }
      LoopSteps(root, tree, work, routes);
      routes := routes[node.sessionID := item.rootID];
      InOrderLength(node.children);
      var sorted := node.(children := InOrder(node.children));
      tree := Put(tree, item.path, sorted);
      work := Enqueue(work[..|work| - 1], item.path, sorted, item.rootID);
    }
    RoutesNameRoot(root, tree, routes);
    LoopEnds(root, tree, routes);
    result := Accepted(tree, routes);
  }

  lemma RoutesNameRoot(root: NodeSnapshot, tree: NodeSnapshot, routes: map<string, string>)
    requires LoopInv(root, tree, [], routes)
    ensures forall id | id in routes :: routes[id] == root.sessionID
  {
  }

  // ---------------------------------------------------------------- looking a session up

  /** The first match in preorder. */
  function FindNode(nodes: seq<NodeSnapshot>, id: string): Option<NodeSnapshot>
    decreases nodes
  {
    if nodes == [] then None
    else if nodes[0].sessionID == id then Some(nodes[0])
    else
      var found := FindNode(nodes[0].children, id);
      if found.Some? then found else FindNode(nodes[1..], id)
  }

  /** A lookup succeeds exactly on the IDs of the tree. */
  lemma {:induction false} FindsExactly(nodes: seq<NodeSnapshot>, id: string)
    ensures FindNode(nodes, id).Some? <==> id in IDs(nodes)
    ensures FindNode(nodes, id).Some? ==> FindNode(nodes, id).value.sessionID == id
    decreases nodes
  {
    if nodes != [] {
      FindsExactly(nodes[0].children, id);
      FindsExactly(nodes[1..], id);
      assert IDs(nodes) == multiset{nodes[0].sessionID} + IDs(nodes[0].children) + IDs(nodes[1..]);
      hide IDs;
    }
  }

  /** The subtree found brings its own sessions only. */
  lemma {:induction false} FoundIsWithin(nodes: seq<NodeSnapshot>, id: string)
    requires FindNode(nodes, id).Some?
    ensures IDs([FindNode(nodes, id).value]) <= IDs(nodes)
    decreases nodes
  {
    if nodes[0].sessionID == id {
      assert [nodes[0]][1..] == [];
    } else if FindNode(nodes[0].children, id).Some? {
      FoundIsWithin(nodes[0].children, id);
    } else {
      FoundIsWithin(nodes[1..], id);
    }
  }

  /** What is found is one of the nodes, as it stands in the tree. */
  lemma {:induction false} FoundAt(nodes: seq<NodeSnapshot>, id: string) returns (i: nat, q: Path)
    requires id in IDs(nodes)
    ensures i < |nodes| && OnTree(nodes[i], q) && FindNode(nodes, id) == Some(At(nodes[i], q))
    decreases nodes
  {
    FindsExactly(nodes, id);
    FindsExactly(nodes[0].children, id);
    if nodes[0].sessionID == id {
      i, q := 0, [];
    } else if id in IDs(nodes[0].children) {
      var j, r := FoundAt(nodes[0].children, id);
      Below(nodes[0], j, r);
      i, q := 0, [j] + r;
    } else {
      var j, r := FoundAt(nodes[1..], id);
      i, q := j + 1, r;
    }
  }

  /** In a well-formed tree a session is looked up by its ID, wherever it stands. */
  lemma LookupExactly(root: NodeSnapshot, q: Path)
    requires WellFormed(root) && OnTree(root, q)
    ensures FindNode([root], At(root, q).sessionID) == Some(At(root, q))
  {
    PlaceHasID(root, q);
    WellFormedExactly(root);
    var i, p := FoundAt([root], At(root, q).sessionID);
    FindsExactly([root], At(root, q).sessionID);
  }

  lemma {:induction false} FindConcat(a: seq<NodeSnapshot>, b: seq<NodeSnapshot>, id: string)
    ensures FindNode(a + b, id) == if FindNode(a, id).Some? then FindNode(a, id) else FindNode(b, id)
  {
    if a == [] {
      assert a + b == b;
    } else {
      assert (a + b)[1..] == a[1..] + b && (a + b)[0] == a[0];
      FindConcat(a[1..], b, id);
    }
  }

  /** Where an ID occurs once, the order of siblings does not matter to the lookup. */
  lemma {:induction false} InsertKeepsFind(node: NodeSnapshot, nodes: seq<NodeSnapshot>, id: string)
    requires IDs([node] + nodes)[id] <= 1
    ensures FindNode(Insert(node, nodes), id) == FindNode([node] + nodes, id)
  {
    if nodes != [] && !AtMost(node.sessionID, nodes[0].sessionID) {
      assert Insert(node, nodes) == [nodes[0]] + Insert(node, nodes[1..]);
      hide Insert, FindNode, IDs, AtMost;
      var head, rest := [nodes[0]], nodes[1..];
      assert nodes == head + rest;
      ForestConcat([node], nodes);
      ForestConcat(head, rest);
      ForestConcat([node], rest);
      InsertKeepsFind(node, rest, id);
      FindConcat(head, Insert(node, rest), id);
      FindConcat([node], rest, id);
      FindConcat([node], nodes, id);
      FindConcat(head, rest, id);
      FindsExactly([node], id);
      FindsExactly(head, id);
    }
  }

  lemma {:induction false} InOrderKeepsFind(nodes: seq<NodeSnapshot>, id: string)
    requires IDs(nodes)[id] <= 1
    ensures FindNode(InOrder(nodes), id) == FindNode(nodes, id)
  {
    if nodes != [] {
      var head, rest := [nodes[0]], nodes[1..];
      assert InOrder(nodes) == Insert(nodes[0], InOrder(rest));
      hide InOrder, Insert, FindNode, IDs;
      assert nodes == head + rest;
      ForestConcat(head, rest);
      InOrderKeepsFind(rest, id);
      InOrderKeepsForest(rest, "", "");
      ForestConcat(head, InOrder(rest));
      InsertKeepsFind(nodes[0], InOrder(rest), id);
      FindConcat(head, InOrder(rest), id);
      FindConcat(head, rest, id);
    }
  }

  function NormalNode(found: Option<NodeSnapshot>): Option<NodeSnapshot> {
    match found
    case None => None
    case Some(node) => Some(node.(children := InOrder(Normalize(node.children))))
  }

  /** Looking a session up in the normalised tree gives its own subtree, normalised. */
  lemma {:induction false} FindNormalized(nodes: seq<NodeSnapshot>, id: string)
    requires IDs(nodes)[id] <= 1
    ensures FindNode(Normalize(nodes), id) == NormalNode(FindNode(nodes, id))
    decreases nodes
  {
    if nodes != [] {
      var children := Normalize(nodes[0].children);
      var head := nodes[0].(children := InOrder(children));
      assert Normalize(nodes) == [head] + Normalize(nodes[1..]);
      assert Normalize(nodes)[1..] == Normalize(nodes[1..]);
      assert IDs(nodes) == multiset{nodes[0].sessionID} + IDs(nodes[0].children) + IDs(nodes[1..]);
      FindNormalized(nodes[0].children, id);
      FindNormalized(nodes[1..], id);
      NormalizeKeepsForest(nodes[0].children, "", "");
      hide IDs, Normalize, InOrder;
      InOrderKeepsFind(children, id);
    }
  }

  /** After validation, findNode answers for exactly the routed sessions, with the right node. */
  lemma ValidatedLookup(root: NodeSnapshot, id: string)
    requires WellFormed(root)
    ensures FindNode(Normalize([root]), id).Some? <==> id in IDs([root])
    ensures FindNode(Normalize([root]), id) == NormalNode(FindNode([root], id))
  {
    FindsExactly([root], id);
    FindNormalized([root], id);
  }
}
