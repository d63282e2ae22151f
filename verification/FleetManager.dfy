/**
 The manager and its handles as the mutable objects they are (internal/manager/discovery.go,
 internal/manager/monitor.go, internal/manager/manager.go). Every method is one lock hold and leaves
 the state that module Fleet's function of the same name describes; what those functions keep is
 proved there.
*/
module FleetManager {
  import opened Wrappers
  import opened Fleet

  class RootHandle {
    const path: string
    const rootID: string
    const identity: int
    var tree: set<string>
    var actionable: bool
    var name: string
    var nameTouched: bool
    var monitoring: bool
    var scoped: bool
    var cancelled: bool
    var loops: nat
    var closes: nat

    ghost function Abs(): Handle
      reads this
    {
      Handle(path, rootID, identity, tree, actionable, name, nameTouched, monitoring, scoped, cancelled, loops, closes)
    }

    constructor (path: string, rootID: string, identity: int)
      ensures Abs() == Handle(path, rootID, identity, {}, true, "", false, false, false, false, 0, 0)
    {
      this.path, this.rootID, this.identity := path, rootID, identity;
      tree, actionable, name, nameTouched := {}, true, "", false;
      monitoring, scoped, cancelled, loops, closes := false, false, false, 0, 0;
    }

    method SetTree(ids: set<string>, actionable: bool, launchName: Option<string>)
      modifies this`tree, this`actionable, this`name
      ensures Abs() == old(Abs()).(tree := ids, actionable := actionable,
                                   name := if launchName.Some? && !nameTouched then launchName.value else old(name))
    {
      tree := ids;
      this.actionable := actionable;
      if launchName.Some? && !nameTouched {
        name := launchName.value;
      }
    }
  }

  class Manager {
    var roots: map<string, RootHandle>
    var routes: map<string, string>
    var quiesced: bool
    var closed: bool
    var closeCancelled: bool
    var clientsClosed: bool
    ghost var all: set<RootHandle>
    ghost var held: set<RootHandle>
    ghost var draining: set<RootHandle>

    ghost function Table(): map<RootHandle, Handle>
      reads this`all, all
    {
      map h | h in all :: h.Abs()
    }

    twostate lemma TableUpdated(h: RootHandle)
      requires all == old(all) && h in all
      requires forall g | g in all && g != h :: g.Abs() == old(g.Abs())
      ensures Table() == old(Table())[h := h.Abs()]
    {
    }

    ghost function Abs(): State<RootHandle>
      reads this, all
    {
      State(Table(), roots, routes, held, draining, quiesced, closed, closeCancelled, clientsClosed)
    }

    ghost predicate Valid()
      reads this, all
      ensures Valid() ==> Known(Abs())
    {
      roots.Values <= all
    }

    /** What an unfolded table says about one handle. */
    lemma TableAt(h: RootHandle)
      requires h in all
      ensures h in Abs().handles && Abs().handles[h] == h.Abs()
    {
    }

    constructor ()
      ensures Valid() && Abs() == Empty<RootHandle>()
    {
      roots, routes := map[], map[];
      quiesced, closed, closeCancelled, clientsClosed := false, false, false, false;
      all, held, draining := {}, {}, {};
    }

    /** A probed socket's new handle, in its creator's hands. */
    method Construct(path: string, rootID: string, identity: int) returns (h: RootHandle)
      requires Valid()
      modifies this`all, this`held
      ensures Valid() && fresh(h) && h !in old(Abs()).handles
      ensures Abs() == Step(old(Abs()), Action.Construct(h, path, rootID, identity))
    {
      h := new RootHandle(path, rootID, identity);
      all, held := all + {h}, held + {h};
      assert Table() == old(Table())[h := h.Abs()];
    }

    method RemoveRoutesLocked(rootID: string)
      modifies this`routes
      ensures routes == WithoutRoutes(old(routes), rootID)
      ensures forall id :: id in routes <==> id in old(routes) && old(routes)[id] != rootID
      ensures forall id | id in routes :: routes[id] == old(routes)[id]
    {
      var todo := routes.Keys;
      while todo != {}
        invariant todo <= routes.Keys
        invariant forall id | id in routes :: id in old(routes) && routes[id] == old(routes)[id]
        invariant forall id | id in old(routes) && id !in routes :: old(routes)[id] == rootID
        invariant forall id | id in routes && id !in todo :: routes[id] != rootID
        decreases |todo|
      {
        var id :| id in todo;
        if routes[id] == rootID {
          routes := routes - {id};
        }
        todo := todo - {id};
      }
    }

    method InstallRoutes(tree: Tree)
      modifies this`routes
      ensures routes == old(routes) + Candidate(tree)
    {
      var todo := tree.ids;
      while todo != {}
        invariant todo <= tree.ids
        invariant routes == old(routes) + map id | id in tree.ids && id !in todo :: tree.root
        decreases |todo|
      {
        var id :| id in todo;
        routes := routes[id := tree.root];
        todo := todo - {id};
      }
    }

    /** The handle's own scope, or the one it derives from, is cancelled. */
    ghost predicate ScopeOver(handle: RootHandle)
      reads this, handle
    {
      handle.scoped && (handle.cancelled || closeCancelled)
    }

    /** Another handle at another socket is registered under the same root ID. */
    ghost predicate RegisteredElsewhere(handle: RootHandle)
      reads this
    {
      exists p :: p in roots && p != handle.path && roots[p] != handle && roots[p].rootID == handle.rootID
    }

    /** The socket is taken by another handle. */
    ghost predicate SocketTaken(handle: RootHandle)
      reads this
    {
      handle.path in roots && roots[handle.path] != handle
    }

    /** The very same socket is known under another root ID. */
    ghost predicate RootIDChanged(handle: RootHandle)
      reads this
    {
      SocketTaken(handle) && roots[handle.path].identity == handle.identity && roots[handle.path].rootID != handle.rootID
    }

    /** A session of the candidate is routed to a root that is neither the candidate's nor the one whose socket is taken over. */
    ghost predicate RoutedToThird(handle: RootHandle, tree: Tree)
      reads this
    {
      exists id :: id in tree.ids && id in routes && routes[id] != tree.root
                   && (SocketTaken(handle) ==> routes[id] != roots[handle.path].rootID)
    }

    method HasDuplicateRoot(handle: RootHandle) returns (duplicate: bool)
      requires Valid() && handle in all
      ensures duplicate == RootElsewhere(Abs(), handle)
      ensures duplicate <==> RegisteredElsewhere(handle)
    {
      TableAt(handle);
      forall p | p in roots ensures Abs().handles[roots[p]] == roots[p].Abs() {
        TableAt(roots[p]);
      }
      hide Table;
      var todo := roots.Keys;
      while todo != {}
        invariant todo <= roots.Keys
        invariant forall p | p in roots && p !in todo ::
                    !(roots[p] != handle && p != handle.path && roots[p].rootID == handle.rootID)
        decreases |todo|
      {
        var p :| p in todo;
        if roots[p] != handle && p != handle.path && roots[p].rootID == handle.rootID {
          return true;
        }
        todo := todo - {p};
      }
      duplicate := false;
    }

    method HasRouteConflict(tree: Tree, reuse: Option<string>) returns (conflict: bool)
      ensures conflict == RoutedElsewhere(routes, tree, reuse)
    {
      var todo := tree.ids;
      while todo != {}
        invariant todo <= tree.ids
        invariant forall id | id in tree.ids && id !in todo ::
                    !(id in routes && routes[id] != tree.root && (reuse.Some? ==> routes[id] != reuse.value))
        decreases |todo|
      {
        var id :| id in todo;
        if id in routes && routes[id] != tree.root && (reuse.None? || routes[id] != reuse.value) {
          return true;
        }
        todo := todo - {id};
      }
      conflict := false;
    }

    /** Whether the handle's socket has another root, and whose routes a commit would take over. */
    method CheckSocket(handle: RootHandle) returns (changed: bool, reuse: Option<string>)
      requires Valid() && handle in all
      ensures var e := Existing(Abs(), handle);
              && reuse == (if e.Some? then Some(Abs().handles[e.value].rootID) else None)
              && changed == (e.Some? && Abs().handles[e.value].identity == handle.identity && reuse.value != handle.rootID)
      ensures reuse == if SocketTaken(handle) then Some(roots[handle.path].rootID) else None
      ensures changed <==> RootIDChanged(handle)
    {
      TableAt(handle);
      if handle.path in roots {
        TableAt(roots[handle.path]);
      }
      hide Table;
      changed, reuse := false, None;
      if handle.path in roots && roots[handle.path] != handle {
        var existing := roots[handle.path];
        changed := existing.identity == handle.identity && existing.rootID != handle.rootID;
        reuse := Some(existing.rootID);
      }
    }

    lemma ThirdIsElsewhere(handle: RootHandle, tree: Tree, reuse: Option<string>)
      requires reuse == if SocketTaken(handle) then Some(roots[handle.path].rootID) else None
      ensures RoutedToThird(handle, tree) <==> RoutedElsewhere(routes, tree, reuse)
    {
    }

    method CheckConflicts(handle: RootHandle, tree: Tree) returns (refusal: Option<CommitError>)
      requires Valid() && handle in all
      ensures refusal == Conflicts(Abs(), handle, tree)
      ensures refusal == Some(DuplicateRoot) <==> RegisteredElsewhere(handle)
      ensures refusal == Some(RootChanged) <==> !RegisteredElsewhere(handle) && RootIDChanged(handle)
      ensures refusal == Some(RouteConflict) <==>
                !RegisteredElsewhere(handle) && !RootIDChanged(handle) && RoutedToThird(handle, tree)
      ensures refusal == None <==>
                !RegisteredElsewhere(handle) && !RootIDChanged(handle) && !RoutedToThird(handle, tree)
    {
      TableAt(handle);
      hide Table, RootElsewhere, RoutedElsewhere, Existing, RegisteredElsewhere, RootIDChanged, SocketTaken, RoutedToThird;
      var duplicate := HasDuplicateRoot(handle);
      if duplicate {
        return Some(DuplicateRoot);
      }
      var changed, reuse := CheckSocket(handle);
      if changed {
        return Some(RootChanged);
      }
      var conflict := HasRouteConflict(tree, reuse);
      ThirdIsElsewhere(handle, tree, reuse);
      refusal := if conflict then Some(RouteConflict) else None;
    }

    /** Every check comes before the first mutation. */
    method CheckCommit(handle: RootHandle, tree: Tree) returns (refusal: Option<CommitError>)
      requires Valid() && handle in all
      ensures refusal == Refusal(Abs(), handle, tree)
      ensures refusal == Some(Quiesced) <==> (quiesced || closed)
      ensures refusal == Some(HandleCancelled) <==> (!quiesced && !closed && ScopeOver(handle))
      ensures refusal == Some(DuplicateRoot) <==>
                (!quiesced && !closed && !ScopeOver(handle) && RegisteredElsewhere(handle))
      ensures refusal == Some(RootChanged) <==>
                (!quiesced && !closed && !ScopeOver(handle) && !RegisteredElsewhere(handle) && RootIDChanged(handle))
      ensures refusal == Some(RouteConflict) <==>
                (!quiesced && !closed && !ScopeOver(handle) && !RegisteredElsewhere(handle) && !RootIDChanged(handle)
                 && RoutedToThird(handle, tree))
      ensures refusal == None <==>
                (!quiesced && !closed && !ScopeOver(handle) && !RegisteredElsewhere(handle) && !RootIDChanged(handle)
                 && !RoutedToThird(handle, tree))
    {
      TableAt(handle);
      hide Table, Conflicts, RegisteredElsewhere, RootIDChanged, RoutedToThird;
      if quiesced || closed {
        return Some(Quiesced);
      }
      if handle.scoped && (handle.cancelled || closeCancelled) {
        return Some(HandleCancelled);
      }
      refusal := CheckConflicts(handle, tree);
    }

    method ReplaceRoutes(rootID: string, tree: Tree)
      modifies this`routes
      ensures routes == WithoutRoutes(old(routes), rootID) + Candidate(tree)
      ensures forall id | id in tree.ids :: id in routes && routes[id] == tree.root
    {
      RemoveRoutesLocked(rootID);
      InstallRoutes(tree);
    }

    /** What a commit leaves of its target: its path, its tree, its actionability and its routes. */
    ghost predicate Stored(target: RootHandle, tree: Tree, actionable: bool)
      reads this, target
    {
      && target.path in roots && roots[target.path] == target
      && target.tree == tree.ids && target.actionable == actionable
      && forall id | id in tree.ids :: id in routes && routes[id] == tree.root
    }

    static function Renamed(name: string, touched: bool, launchName: Option<string>): string {
      if launchName.Some? && !touched then launchName.value else name
    }

    method Install(target: RootHandle, tree: Tree, actionable: bool, launchName: Option<string>)
      requires Valid() && target in all
      modifies this`roots, this`routes, target
      ensures Valid() && Abs() == Installed(old(Abs()), target, tree, actionable, launchName)
      ensures Stored(target, tree, actionable) && target.name == Renamed(old(target.name), old(target.nameTouched), launchName)
    {
      TableAt(target);
      hide Table, WithoutRoutes, Candidate;
      ReplaceRoutes(target.rootID, tree);
      target.SetTree(tree.ids, actionable, launchName);
      roots := roots[target.path := target];
      TableUpdated(target);
    }

    method Evict(h: RootHandle)
      requires Valid() && h in all
      modifies this`roots, this`routes, this`draining, h`cancelled
      ensures Valid() && Abs() == Evicted(old(Abs()), h)
      ensures h.cancelled == (old(h.cancelled) || h.scoped) && roots == old(roots) - {h.path}
      ensures forall id | id in routes :: routes[id] != h.rootID
    {
      TableAt(h);
      hide Table, WithoutRoutes;
      RemoveRoutesLocked(h.rootID);
      if h.scoped {
        h.cancelled := true;
      }
      roots := roots - {h.path};
      draining := draining + {h};
      TableUpdated(h);
    }

    method CloseClientOf(h: RootHandle)
      requires Valid() && h in all
      modifies h`closes
      ensures Valid() && Abs() == ClientClosed(old(Abs()), h)
      ensures h.closes == old(h.closes) + 1
    {
      TableAt(h);
      hide Table;
      h.closes := h.closes + 1;
      TableUpdated(h);
    }

    method CloseRedundant(h: RootHandle)
      requires Valid() && h in all
      modifies this`held, h`closes
      ensures Valid() && Abs() == Redundant(old(Abs()), h)
      ensures h.closes == old(h.closes) + 1
    {
      hide Table, Known;
      CloseClientOf(h);
      held := held - {h};
    }

    method CommitFresh(handle: RootHandle, tree: Tree, actionable: bool, launchName: Option<string>)
      requires Valid() && handle in all
      modifies this`roots, this`routes, this`held, handle
      ensures Valid()
      ensures Abs() == Installed(old(Abs()).(held := old(held) - {handle}), handle, tree, actionable, launchName)
      ensures Stored(handle, tree, actionable) && handle.name == Renamed(old(handle.name), old(handle.nameTouched), launchName)
    {
      hide Table, Installed, Stored;
      held := held - {handle};
      Install(handle, tree, actionable, launchName);
    }

    method CommitRedundant(handle: RootHandle, existing: RootHandle, tree: Tree, actionable: bool, launchName: Option<string>)
      requires Valid() && handle in all && existing in all && existing != handle
      modifies this`roots, this`routes, this`held, handle, existing
      ensures Valid() && Abs() == Installed(Redundant(old(Abs()), handle), existing, tree, actionable, launchName)
      ensures Stored(existing, tree, actionable) && existing.name == Renamed(old(existing.name), old(existing.nameTouched), launchName)
      ensures handle.closes == old(handle.closes) + 1
    {
      hide Table, Installed, Redundant, Stored;
      CloseRedundant(handle);
      Install(existing, tree, actionable, launchName);
    }

    method CommitReplacing(handle: RootHandle, existing: RootHandle, tree: Tree, actionable: bool, launchName: Option<string>)
      requires Valid() && handle in all && existing in all && existing != handle
      modifies this`roots, this`routes, this`held, this`draining, handle, existing
      ensures Valid()
      ensures Abs() == Installed(Evicted(old(Abs()), existing).(held := old(held) - {handle}), handle, tree, actionable, launchName)
      ensures Stored(handle, tree, actionable) && handle.name == Renamed(old(handle.name), old(handle.nameTouched), launchName)
      ensures existing.cancelled == (old(existing.cancelled) || existing.scoped)
    {
      hide Table, Installed, Evicted, Stored;
      Evict(existing);
      CommitFresh(handle, tree, actionable, launchName);
    }

    method CommitTreeWithAdmission(handle: RootHandle, tree: Tree, actionable: bool, launchName: Option<string>)
        returns (result: Commit<RootHandle>)
      requires Valid() && handle in all
      modifies this`roots, this`routes, this`held, this`draining, all
      ensures Valid() && (Abs(), result) == CommitHold(old(Abs()), handle, tree, actionable, launchName)
      ensures result.Rejected? ==> Abs() == old(Abs())
      // accepted if and only if every check passes, and refused for the first one that does not
      ensures result == Rejected(Quiesced) <==> old(quiesced || closed)
      ensures result == Rejected(HandleCancelled) <==> old(!quiesced && !closed && ScopeOver(handle))
      ensures result == Rejected(DuplicateRoot) <==>
                old(!quiesced && !closed && !ScopeOver(handle) && RegisteredElsewhere(handle))
      ensures result == Rejected(RootChanged) <==>
                old(!quiesced && !closed && !ScopeOver(handle) && !RegisteredElsewhere(handle) && RootIDChanged(handle))
      ensures result == Rejected(RouteConflict) <==>
                old(!quiesced && !closed && !ScopeOver(handle) && !RegisteredElsewhere(handle) && !RootIDChanged(handle)
                 && RoutedToThird(handle, tree))
      ensures result.Committed? <==>
                old(!quiesced && !closed && !ScopeOver(handle) && !RegisteredElsewhere(handle) && !RootIDChanged(handle)
                 && !RoutedToThird(handle, tree))
      // the same socket keeps its handle, a replaced one is displaced, and the caller's client is then redundant
      ensures result.Committed? ==>
                result == if !old(SocketTaken(handle)) then Committed(handle, None)
                          else if old(roots)[handle.path].identity == handle.identity then Committed(old(roots)[handle.path], None)
                          else Committed(handle, Some(old(roots)[handle.path]))
      ensures result.Committed? ==> Stored(result.target, tree, actionable)
      ensures result.Committed? && result.target != handle ==> handle.closes == old(handle.closes) + 1
      ensures result.Committed? && result.displaced.Some? ==>
                result.displaced.value.scoped ==> result.displaced.value.cancelled
    {
      TableAt(handle);
      hide Table, Installed, Evicted, Redundant, Refusal, Stored, RegisteredElsewhere, RootIDChanged, RoutedToThird;
      var refusal := CheckCommit(handle, tree);
      if refusal.Some? {
        return Rejected(refusal.value);
      }
      if handle.path !in roots || roots[handle.path] == handle {
        CommitFresh(handle, tree, actionable, launchName);
        return Committed(handle, None);
      }
      var existing := roots[handle.path];
      TableAt(existing);
      if existing.identity == handle.identity {
        CommitRedundant(handle, existing, tree, actionable, launchName);
        result := Committed(existing, None);
      } else {
        CommitReplacing(handle, existing, tree, actionable, launchName);
        result := Committed(handle, Some(existing));
      }
    }

    method MonitorRootLocked(handle: RootHandle) returns (result: Monitored)
      requires Valid() && handle in all
      modifies handle
      ensures Valid() && (Abs(), result) == MonitorHold(old(Abs()), handle)
      ensures result == RefusedClosing <==> closed || quiesced || closeCancelled
      ensures result == Started <==> !closed && !quiesced && !closeCancelled && !old(handle.monitoring)
      ensures result == Started ==> handle.monitoring && handle.scoped && handle.loops == old(handle.loops) + 2
      ensures result != Started ==> Abs() == old(Abs())
    {
      TableAt(handle);
      hide Table, WithoutRoutes, Candidate;
      if closed || quiesced || closeCancelled {
        return RefusedClosing;
      }
      if handle.monitoring {
        return AlreadyLive;
      }
      handle.monitoring := true;
      handle.scoped := true;
      handle.loops := handle.loops + 2;
      TableUpdated(handle);
      result := Started;
    }

    method RemoveRootLocked(path: string) returns (removed: Option<RootHandle>)
      requires Valid()
      modifies this`roots, this`routes, this`draining, all
      ensures Valid() && Abs() == RemoveHold(old(Abs()), path)
      ensures removed.Some? ==>
                removed.value.path !in roots && forall id | id in routes :: routes[id] != removed.value.rootID
      ensures removed.Some? && removed.value.scoped ==> removed.value.cancelled
      ensures removed == if path in old(roots) then Some(old(roots)[path]) else None
    {
      hide Table, WithoutRoutes, Candidate;
      if path !in roots {
        return None;
      }
      var handle := roots[path];
      Evict(handle);
      removed := Some(handle);
    }

    method RemoveReplacedSocket(path: string, identity: int) returns (removed: Option<RootHandle>)
      requires Valid()
      modifies this`roots, this`routes, this`draining, all
      ensures Valid() && Abs() == RemoveReplacedHold(old(Abs()), path, identity)
      ensures removed == if path in old(roots) && old(roots)[path].identity != identity then Some(old(roots)[path]) else None
      ensures removed.None? ==> Abs() == old(Abs())
      ensures removed.Some? ==>
                && roots == old(roots) - {removed.value.path}
                && (forall id | id in routes :: routes[id] != removed.value.rootID)
                && (removed.value.scoped ==> removed.value.cancelled)
    {
      hide Table, WithoutRoutes, Candidate;
      if path in roots {
        TableAt(roots[path]);
      }
      if path !in roots || roots[path].identity == identity {
        return None;
      }
      removed := RemoveRootLocked(path);
    }

    /** The entry and its routes go, no handle changes. */
    method Unlist(path: string, rootID: string)
      requires Valid()
      modifies this`roots, this`routes
      ensures Valid()
      ensures Abs() == old(Abs()).(roots := old(roots) - {path}, routes := WithoutRoutes(old(routes), rootID))
    {
      hide Table, Known, WithoutRoutes;
      RemoveRoutesLocked(rootID);
      roots := roots - {path};
    }

    method Withdraw(handle: RootHandle)
      requires Valid() && handle in all && handle.path in roots && roots[handle.path] == handle
      modifies this`roots, this`routes, handle`closes
      ensures Valid()
      ensures Abs() == ClientClosed(old(Abs()), handle).(roots := old(roots) - {handle.path},
                                                         routes := WithoutRoutes(old(routes), handle.rootID))
    {
      TableAt(handle);
      hide Table, Known, WithoutRoutes, ClientClosed;
      Unlist(handle.path, handle.rootID);
      CloseClientOf(handle);
      ClientClosedKeeps(old(Abs()), handle, roots, routes);
    }

    method RemoveRootBySocketPath(path: string, handle: RootHandle)
      requires Valid() && handle in all && path == handle.path
      modifies this`roots, this`routes, handle
      ensures Valid() && Abs() == WithdrawHold(old(Abs()), handle)
      ensures if path in old(roots) && old(roots)[path] == handle then
                && roots == old(roots) - {path} && (forall id | id in routes :: routes[id] != handle.rootID)
                && handle.closes == old(handle.closes) + 1
              else Abs() == old(Abs())
    {
      TableAt(handle);
      hide Table, Known, WithoutRoutes, ClientClosed;
      if path in roots && roots[path] == handle {
        Withdraw(handle);
      }
    }

    method UpdateRetainedTree(handle: RootHandle, ids: set<string>, actionable: bool)
      requires Valid() && handle in all
      modifies handle
      ensures Valid() && Abs() == RetainHold(old(Abs()), handle, ids, actionable)
      ensures if handle.path in roots && roots[handle.path] == handle then handle.tree == ids && handle.actionable == actionable
              else Abs() == old(Abs())
    {
      TableAt(handle);
      hide Table, WithoutRoutes, Candidate;
      if handle.path in roots && roots[handle.path] == handle {
        handle.tree := ids;
        handle.actionable := actionable;
        TableUpdated(handle);
      }
    }

    /** Called when the wait for the handle's loops is over. */
    method DrainAndCloseDisplaced(displaced: RootHandle)
      requires Valid() && displaced in all && displaced.loops == 0
      modifies this`draining, displaced
      ensures Valid() && Abs() == DrainedHold(old(Abs()), displaced)
      ensures displaced.closes == old(displaced.closes) + 1 && draining == old(draining) - {displaced}
    {
      hide Table, Known;
      CloseClientOf(displaced);
      draining := draining - {displaced};
    }

    method Quiesce()
      requires Valid()
      modifies this`quiesced
      ensures Valid() && Abs() == Step(old(Abs()), Action.Quiesce)
      ensures quiesced
    {
      if !quiesced {
        quiesced := true;
      }
    }

    /** Close's second hold: no loop is added from here on. */
    method MarkClosed()
      requires Valid() && quiesced
      modifies this`closed
      ensures Valid() && Abs() == Step(old(Abs()), Action.BeginClose)
      ensures closed
    {
      hide Table, Known;
      closed := true;
    }

    /** Cancelling the context every handle's scope derives from. */
    method CancelAll()
      requires Valid() && closed
      modifies this`closeCancelled
      ensures Valid() && Abs() == Step(old(Abs()), Action.CancelAll)
      ensures closeCancelled
    {
      hide Table, Known;
      closeCancelled := true;
    }

    method CloseEach(registered: map<string, RootHandle>)
      requires forall p | p in registered :: registered[p].path == p
      modifies registered.Values`closes
      ensures forall h | h in registered.Values :: h.closes == old(h.closes) + 1
    {
      var todo := registered.Keys;
      while todo != {}
        invariant todo <= registered.Keys
        invariant forall p | p in registered ::
                    registered[p].closes == old(registered[p].closes) + if p in todo then 0 else 1
        decreases |todo|
        modifies registered.Values`closes
      {
        var p :| p in todo;
        registered[p].closes := registered[p].closes + 1;
        todo := todo - {p};
      }
    }

    twostate lemma TableClosed()
      requires all == old(all) && old(Valid()) && !old(clientsClosed)
      requires roots == old(roots)
      requires forall h | h in roots.Values :: h.Abs() == old(h.Abs()).(closes := old(h.closes) + 1)
      requires forall h | h in all && h !in roots.Values :: h.Abs() == old(h.Abs())
      ensures Table() == CloseClientsHold(old(Abs())).handles
    {
      var t := CloseClientsHold(old(Abs())).handles;
      assert Table().Keys == all && t.Keys == all;
      forall h | h in all ensures Table()[h] == t[h] {
        assert old(Abs()).handles[h] == old(h.Abs());
      }
    }

    /** The second half, when the wait for every loop is over. */
    method CloseClients()
      requires Valid() && closed && forall p | p in roots :: roots[p].path == p
      modifies this`roots, this`routes, this`clientsClosed, roots.Values`closes
      ensures Valid() && Abs() == CloseClientsHold(old(Abs()))
      ensures clientsClosed
      ensures !old(clientsClosed) ==>
                roots == map[] && routes == map[] && forall h | h in old(roots).Values :: h.closes == old(h.closes) + 1
      ensures old(clientsClosed) ==> Abs() == old(Abs())
    {
      if !clientsClosed {
        CloseRegistered();
        hide Table, CloseClientsHold;
      }
    }

    method CloseRegistered()
      requires Valid() && !clientsClosed && forall p | p in roots :: roots[p].path == p
      modifies this`roots, this`routes, this`clientsClosed, roots.Values`closes
      ensures Valid() && Abs() == CloseClientsHold(old(Abs()))
      ensures clientsClosed && roots == map[] && routes == map[]
      ensures forall h | h in old(roots).Values :: h.closes == old(h.closes) + 1
    {
      CloseClientsShape(Abs());
      hide Table, CloseClientsHold, Known;
      CloseTable();
      ClearIndex();
    }

    method ClearIndex()
      modifies this`roots, this`routes, this`clientsClosed
      ensures Valid()
      ensures Abs() == old(Abs()).(roots := map[], routes := map[], clientsClosed := true)
      ensures clientsClosed && roots == map[] && routes == map[]
    {
      hide Table, Known;
      clientsClosed := true;
      roots, routes := map[], map[];
    }

    method CloseTable()
      requires Valid() && !clientsClosed && forall p | p in roots :: roots[p].path == p
      modifies roots.Values`closes
      ensures Table() == CloseClientsHold(old(Abs())).handles
      ensures forall h | h in old(roots).Values :: h.closes == old(h.closes) + 1
    {
      hide Table, CloseClientsHold, Known;
      CloseEach(roots);
      TableClosed();
    }
  }
}
