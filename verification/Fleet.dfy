/**
 The manager's root and route index and the lifetime of its clients
 (internal/manager/discovery.go, internal/manager/monitor.go, internal/manager/manager.go).

 Every function from a state to a state is one hold of the manager's lock, or one event outside it
 (a monitor loop ends, an evicted handle's drain completes). `H` is the identity of a handle; the
 table `handles` holds what the handle's fields are.
*/
module Fleet {
  import opened Wrappers

  /** One handle has one client. `closes` counts the calls of its Close, `loops` its running monitor loops. */
  datatype Handle = Handle(
    path: string,
    rootID: string,
    identity: int,
    tree: set<string>,       // the session IDs of the stored snapshot
    actionable: bool,
    name: string,
    nameTouched: bool,
    monitoring: bool,
    scoped: bool,            // ctx and cancel are set
    cancelled: bool,         // the handle's own cancel was called
    loops: nat,
    closes: nat)

  /**
   `held` are the handles their creator has not committed yet, `draining` the evicted ones whose
   evictor still has to wait for the loops and close the client. No code reads either.
  */
  datatype State<H> = State(
    handles: map<H, Handle>,
    roots: map<string, H>,
    routes: map<string, string>,
    held: set<H>,
    draining: set<H>,
    quiesced: bool,
    closed: bool,
    closeCancelled: bool,
    clientsClosed: bool)

  /** A validated snapshot: the root it names, and its session IDs, the root's own among them. */
  datatype Tree = Tree(root: string, ids: set<string>)

  function Candidate(tree: Tree): map<string, string> { map id | id in tree.ids :: tree.root }

  datatype CommitError = Quiesced | HandleCancelled | DuplicateRoot | RootChanged | RouteConflict

  datatype Commit<H> = Rejected(error: CommitError) | Committed(target: H, displaced: Option<H>)

  datatype Monitored = Started | AlreadyLive | RefusedClosing

  // ---------------------------------------------------------------- lock holds

  predicate Registered<H(==)>(s: State<H>, h: H)
    requires h in s.handles
  {
    s.handles[h].path in s.roots && s.roots[s.handles[h].path] == h
  }

  predicate Known<H(==)>(s: State<H>) {
    forall p | p in s.roots :: s.roots[p] in s.handles
  }

  function WithoutRoutes(routes: map<string, string>, rootID: string): map<string, string> {
    map id | id in routes && routes[id] != rootID :: routes[id]
  }

  function Existing<H(==)>(s: State<H>, h: H): Option<H>
    requires h in s.handles
  {
    if s.handles[h].path in s.roots && s.roots[s.handles[h].path] != h
    then Some(s.roots[s.handles[h].path]) else None
  }

  /** The handle's root is registered under another socket. */
  predicate RootElsewhere<H(==)>(s: State<H>, h: H)
    requires h in s.handles && Known(s)
  {
    exists p | p in s.roots ::
      s.roots[p] != h && p != s.handles[h].path && s.handles[s.roots[p]].rootID == s.handles[h].rootID
  }

  /** A candidate session is routed to another root than the one whose socket is taken over. */
  predicate RoutedElsewhere(routes: map<string, string>, tree: Tree, reuse: Option<string>) {
    exists id | id in tree.ids ::
      id in routes && routes[id] != tree.root && (reuse.Some? ==> routes[id] != reuse.value)
  }

  function Conflicts<H(==)>(s: State<H>, h: H, tree: Tree): Option<CommitError>
    requires h in s.handles && Known(s)
  {
    var e := Existing(s, h);
    if RootElsewhere(s, h) then Some(DuplicateRoot)
    else if e.Some? && s.handles[e.value].identity == s.handles[h].identity && s.handles[e.value].rootID != s.handles[h].rootID
    then Some(RootChanged)
    else if RoutedElsewhere(s.routes, tree, if e.Some? then Some(s.handles[e.value].rootID) else None) then Some(RouteConflict)
    else None
  }

  function Refusal<H(==)>(s: State<H>, h: H, tree: Tree): Option<CommitError>
    requires h in s.handles && Known(s)
  {
    var hd := s.handles[h];
    if s.quiesced || s.closed then Some(Quiesced)
    else if hd.scoped && (hd.cancelled || s.closeCancelled) then Some(HandleCancelled)
    else Conflicts(s, h, tree)
  }

  /** The second half of a commit: `target` takes over its path, its routes and its tree. */
  function Installed<H>(s: State<H>, target: H, tree: Tree, actionable: bool, launchName: Option<string>): State<H>
    requires target in s.handles
  {
    var t := s.handles[target];
    s.(handles := s.handles[target := t.(tree := tree.ids, actionable := actionable,
                                         name := if launchName.Some? && !t.nameTouched then launchName.value else t.name)],
       roots := s.roots[t.path := target],
       routes := WithoutRoutes(s.routes, t.rootID) + Candidate(tree))
  }

  function ClientClosed<H>(s: State<H>, h: H): State<H>
    requires h in s.handles
  {
    s.(handles := s.handles[h := s.handles[h].(closes := s.handles[h].closes + 1)])
  }

  lemma ClientClosedKeeps<H>(s: State<H>, h: H, roots: map<string, H>, routes: map<string, string>)
    requires h in s.handles
    ensures ClientClosed(s.(roots := roots, routes := routes), h) == ClientClosed(s, h).(roots := roots, routes := routes)
  {
  }

  /** The caller's client is redundant and is closed; the existing handle goes on. */
  function Redundant<H>(s: State<H>, h: H): State<H>
    requires h in s.handles
  {
    ClientClosed(s, h).(held := s.held - {h})
  }

  /** Removing a handle from the index: its routes and its entry go, its loops are told to stop. */
  function Evicted<H>(s: State<H>, h: H): State<H>
    requires h in s.handles
  {
    var hd := s.handles[h];
    s.(handles := s.handles[h := hd.(cancelled := hd.cancelled || hd.scoped)],
       roots := s.roots - {hd.path},
       routes := WithoutRoutes(s.routes, hd.rootID),
       draining := s.draining + {h})
  }

  function CommitHold<H(==)>(s: State<H>, h: H, tree: Tree, actionable: bool, launchName: Option<string>): (State<H>, Commit<H>)
    requires h in s.handles && Known(s)
  {
    var refusal := Refusal(s, h, tree);
    if refusal.Some? then (s, Rejected(refusal.value))
    else match Existing(s, h)
      case None =>
        (Installed(s.(held := s.held - {h}), h, tree, actionable, launchName), Committed(h, None))
      case Some(e) =>
        if s.handles[e].identity == s.handles[h].identity
        then (Installed(Redundant(s, h), e, tree, actionable, launchName), Committed(e, None))
        else (Installed(Evicted(s, e).(held := s.held - {h}), h, tree, actionable, launchName), Committed(h, Some(e)))
  }

  function MonitorHold<H(==)>(s: State<H>, h: H): (State<H>, Monitored)
    requires h in s.handles
  {
    if s.closed || s.quiesced || s.closeCancelled then (s, RefusedClosing)
    else if s.handles[h].monitoring then (s, AlreadyLive)
    else
      (s.(handles := s.handles[h := s.handles[h].(monitoring := true, scoped := true, loops := s.handles[h].loops + 2)]),
       Started)
  }

  function RemoveHold<H(==)>(s: State<H>, path: string): State<H>
    requires Known(s)
  {
    if path !in s.roots then s else Evicted(s, s.roots[path])
  }

  function RemoveReplacedHold<H(==)>(s: State<H>, path: string, identity: int): State<H>
    requires Known(s)
  {
    if path !in s.roots || s.handles[s.roots[path]].identity == identity then s else RemoveHold(s, path)
  }

  /** The creator of a handle withdraws it because the manager refused to monitor it. */
  function WithdrawHold<H(==)>(s: State<H>, h: H): State<H>
    requires h in s.handles
  {
    if !Registered(s, h) then s
    else
      var hd := s.handles[h];
      ClientClosed(s, h).(roots := s.roots - {hd.path}, routes := WithoutRoutes(s.routes, hd.rootID))
  }

  function RetainHold<H(==)>(s: State<H>, h: H, ids: set<string>, actionable: bool): State<H>
    requires h in s.handles
  {
    if !Registered(s, h) then s
    else s.(handles := s.handles[h := s.handles[h].(tree := ids, actionable := actionable)])
  }

  function CloseClientsHold<H(==)>(s: State<H>): State<H>
    requires Known(s)
  {
    if s.clientsClosed then s
    else
      s.(clientsClosed := true,
         handles := map h | h in s.handles ::
           (if h in s.roots.Values then s.handles[h].(closes := s.handles[h].closes + 1) else s.handles[h]),
         roots := map[], routes := map[])
  }

  lemma CloseClientsShape<H>(s: State<H>)
    requires Known(s) && !s.clientsClosed
    ensures CloseClientsHold(s) ==
            s.(clientsClosed := true, handles := CloseClientsHold(s).handles, roots := map[], routes := map[])
  {
  }

  function DrainedHold<H(==)>(s: State<H>, h: H): State<H>
    requires h in s.handles
  {
    ClientClosed(s, h).(draining := s.draining - {h})
  }

  // ---------------------------------------------------------------- runs

  datatype Action<H> =
    | Construct(h: H, path: string, rootID: string, identity: int)   // discovery or a spawn dialled a socket
    | CommitNew(h: H, ids: set<string>, actionable: bool, launchName: Option<string>)
    | Discard(h: H)                                                  // its creator closes a client it could not commit
    | Recommit(h: H, tree: Tree)                                     // the handle's own snapshot loop
    | Retain(h: H, ids: set<string>)                                 // the same, after a stopping snapshot
    | Monitor(h: H)
    | Withdraw(h: H)
    | Remove(path: string)
    | RemoveReplaced(path: string, identity: int)
    | Drained(h: H)
    | LoopExits(h: H)
    | Rename(h: H, name: string)
    | Quiesce
    | BeginClose
    | CancelAll
    | CloseClients                                                   // after the wait for every loop

  predicate Enabled<H(==)>(s: State<H>, a: Action<H>) {
    match a
    case Construct(h, _, _, _) => h !in s.handles
    case CommitNew(h, ids, _, _) => h in s.handles && h in s.held && s.handles[h].rootID in ids
    case Discard(h) => h in s.handles && h in s.held
    case Recommit(h, tree) => h in s.handles && s.handles[h].loops > 0 && tree.root in tree.ids
    case Retain(h, ids) => h in s.handles && s.handles[h].loops > 0
    case Monitor(h) => h in s.handles
    case Withdraw(h) => h in s.handles
    case Drained(h) => h in s.handles && h in s.draining && s.handles[h].loops == 0
    case LoopExits(h) => h in s.handles && s.handles[h].loops > 0
    case Rename(h, _) => h in s.handles && Registered(s, h)
    case BeginClose => s.quiesced
    case CancelAll => s.closed
    case CloseClients => s.closed && forall h | h in s.handles :: s.handles[h].loops == 0
    case _ => true
  }

  function Step<H(==)>(s: State<H>, a: Action<H>): State<H>
    requires Known(s) && Enabled(s, a)
  {
    match a
    case Construct(h, path, rootID, identity) =>
      s.(handles := s.handles[h := Handle(path, rootID, identity, {}, true, "", false, false, false, false, 0, 0)],
         held := s.held + {h})
    case CommitNew(h, ids, actionable, launchName) =>
      CommitHold(s, h, Tree(s.handles[h].rootID, ids), actionable, launchName).0
    case Discard(h) => Redundant(s, h)
    case Recommit(h, tree) => CommitHold(s, h, tree, true, None).0
    case Retain(h, ids) => RetainHold(s, h, ids, false)
    case Monitor(h) => MonitorHold(s, h).0
    case Withdraw(h) => WithdrawHold(s, h)
    case Remove(path) => RemoveHold(s, path)
    case RemoveReplaced(path, identity) => RemoveReplacedHold(s, path, identity)
    case Drained(h) => DrainedHold(s, h)
    case LoopExits(h) => s.(handles := s.handles[h := s.handles[h].(loops := s.handles[h].loops - 1)])
    case Rename(h, name) => s.(handles := s.handles[h := s.handles[h].(name := name, nameTouched := true)])
    case Quiesce => s.(quiesced := true)
    case BeginClose => s.(closed := true)
    case CancelAll => s.(closeCancelled := true)
    case CloseClients => CloseClientsHold(s)
  }

  function Empty<H>(): State<H> { State(map[], map[], map[], {}, {}, false, false, false, false) }

  // ---------------------------------------------------------------- the invariant

  ghost predicate RootsInv<H>(s: State<H>) {
    && Known(s)
    && (forall p | p in s.roots :: s.handles[s.roots[p]].path == p)
    && (forall p, q | p in s.roots && q in s.roots ::
          s.handles[s.roots[p]].rootID == s.handles[s.roots[q]].rootID ==> p == q)
  }

  ghost predicate Owned<H>(s: State<H>, rootID: string)
    requires Known(s)
  {
    exists p :: p in s.roots && s.handles[s.roots[p]].rootID == rootID
  }

  /** Every route names a registered root; with distinct root IDs, exactly one. */
  ghost predicate RoutesInv<H>(s: State<H>) {
    Known(s) && forall id | id in s.routes :: Owned(s, s.routes[id])
  }

  /** The sessions routed to an actionable root are those of its tree. */
  ghost predicate Agrees(routes: map<string, string>, hd: Handle) {
    hd.actionable ==> forall id :: id in hd.tree <==> id in routes && routes[id] == hd.rootID
  }

  ghost predicate TreesInv<H>(s: State<H>) {
    Known(s) && forall p | p in s.roots :: Agrees(s.routes, s.handles[s.roots[p]])
  }

  ghost predicate IndexInv<H>(s: State<H>) { RootsInv(s) && RoutesInv(s) && TreesInv(s) }

  /** Each handle is held, registered, draining, or closed exactly once with no loop left. */
  ghost predicate LifeInv<H>(s: State<H>) {
    && s.held !! s.draining
    && (forall h | h in s.held :: h in s.handles)
    && (forall h | h in s.draining :: h in s.handles)
    && (forall h | h in s.handles :: HandleInv(s, h))
    && (s.clientsClosed ==> s.closed && s.roots == map[])
    && (s.closed ==> s.quiesced) && (s.closeCancelled ==> s.closed)
  }

  ghost predicate HandleInv<H>(s: State<H>, h: H)
    requires h in s.handles
  {
    var hd := s.handles[h];
    && (hd.loops > 0 ==> hd.monitoring)
    && (hd.monitoring <==> hd.scoped) && (hd.cancelled ==> hd.scoped)
    && (if h in s.held then !Registered(s, h) && hd.closes == 0 && !hd.monitoring
        else if h in s.draining then !Registered(s, h) && hd.closes == 0 && (hd.scoped ==> hd.cancelled)
        else if Registered(s, h) then hd.closes == 0 && !hd.cancelled
        else hd.closes == 1 && hd.loops == 0)
  }

  ghost predicate Inv<H>(s: State<H>) {
    IndexInv(s) && LifeInv(s)
  }

  /** The three calls whose order the lock alone does not enforce. */
  ghost predicate Orderly<H>(s: State<H>, a: Action<H>)
    requires Known(s) && Enabled(s, a)
  {
    match a
    case Recommit(h, tree) => Refusal(s, h, tree).None? ==> tree.root == s.handles[h].rootID
    case Monitor(h) => MonitorHold(s, h).1 == Started ==> Registered(s, h)
    case Withdraw(h) => Registered(s, h) ==> s.handles[h].loops == 0
    case _ => true
  }

  lemma {:induction false} EmptyInv<H>()
    ensures Inv(Empty<H>())
  {
  }

  // ---------------------------------------------------------------- steps that move no handle

  lemma StillOwned<H>(s: State<H>, t: State<H>, rootID: string)
    requires Known(s) && Known(t) && Owned(s, rootID)
    requires forall p | p in s.roots && s.handles[s.roots[p]].rootID == rootID ::
               p in t.roots && t.handles[t.roots[p]].rootID == rootID
    ensures Owned(t, rootID)
  {
    var p :| p in s.roots && s.handles[s.roots[p]].rootID == rootID;
    assert t.handles[t.roots[p]].rootID == rootID;
  }

  /** The index looks at nothing but its maps and the identity, tree and actionability of what is registered. */
  lemma IndexUnchanged<H>(s: State<H>, t: State<H>)
    requires IndexInv(s) && t.roots == s.roots && t.routes == s.routes
    requires forall p | p in s.roots ::
               && s.roots[p] in t.handles
               && t.handles[s.roots[p]].path == s.handles[s.roots[p]].path
               && t.handles[s.roots[p]].rootID == s.handles[s.roots[p]].rootID
               && (t.handles[s.roots[p]].actionable ==>
                     s.handles[s.roots[p]].actionable && t.handles[s.roots[p]].tree == s.handles[s.roots[p]].tree)
    ensures IndexInv(t)
  {
    hide Owned, Agrees;
    forall id | id in t.routes ensures Owned(t, t.routes[id]) {
      StillOwned(s, t, t.routes[id]);
    }
    forall p | p in t.roots ensures Agrees(t.routes, t.handles[t.roots[p]]) {
      assert Agrees(s.routes, s.handles[s.roots[p]]);
      AgreesStill(s.routes, s.handles[s.roots[p]], t.handles[s.roots[p]]);
    }
  }

  lemma AgreesStill(routes: map<string, string>, before: Handle, after: Handle)
    requires Agrees(routes, before) && after.rootID == before.rootID
    requires after.actionable ==> before.actionable && after.tree == before.tree
    ensures Agrees(routes, after)
  {
  }

  lemma SameIndex<H>(s: State<H>, t: State<H>, h: H)
    requires Inv(s) && h in s.handles && h in t.handles
    requires t == s.(handles := s.handles[h := t.handles[h]])
    requires t.handles[h] == s.handles[h].(loops := t.handles[h].loops, monitoring := t.handles[h].monitoring,
                                           scoped := t.handles[h].scoped, name := t.handles[h].name,
                                           nameTouched := t.handles[h].nameTouched)
    ensures HandleInv(t, h) <==> Inv(t)
    ensures Registered(t, h) == Registered(s, h)
  {
    assert IndexInv(t) by { IndexUnchanged(s, t); }
    hide IndexInv;
    forall g | g in s.handles && g != h ensures HandleInv(t, g) {
      assert HandleInv(s, g);
      assert Registered(t, g) == Registered(s, g);
    }
  }

  lemma MonitorExactly<H>(s: State<H>, h: H)
    requires Inv(s) && h in s.handles
    ensures Inv(MonitorHold(s, h).0) <==> (MonitorHold(s, h).1 == Started ==> Registered(s, h))
  {
    var t := MonitorHold(s, h).0;
    if MonitorHold(s, h).1 == Started {
      SameIndex(s, t, h);
      assert HandleInv(s, h);
      assert Registered(t, h) == Registered(s, h);
    }
  }

  lemma LoopExitKeepsInv<H>(s: State<H>, h: H)
    requires Inv(s) && Enabled(s, LoopExits(h))
    ensures Inv(Step(s, LoopExits(h)))
  {
    SameIndex(s, Step(s, LoopExits(h)), h);
    assert HandleInv(s, h);
  }

  lemma RenameKeepsInv<H>(s: State<H>, h: H, name: string)
    requires Inv(s) && Enabled(s, Rename(h, name))
    ensures Inv(Step(s, Rename(h, name)))
  {
    SameIndex(s, Step(s, Rename(h, name)), h);
    assert HandleInv(s, h);
  }

  lemma ConstructKeepsInv<H>(s: State<H>, h: H, path: string, rootID: string, identity: int)
    requires Inv(s) && h !in s.handles
    ensures Inv(Step(s, Construct(h, path, rootID, identity)))
  {
    var t := Step(s, Construct(h, path, rootID, identity));
    assert IndexInv(t) by { IndexUnchanged(s, t); }
    assert !Registered(t, h) by { assert Known(s); }
    hide IndexInv;
    forall g | g in t.handles ensures HandleInv(t, g) {
      assert t.roots == s.roots;
      if g != h {
        assert HandleInv(s, g);
        assert Registered(t, g) == Registered(s, g);
      }
    }
  }

  lemma RetainKeepsInv<H>(s: State<H>, h: H, ids: set<string>)
    requires Inv(s) && h in s.handles
    ensures Inv(RetainHold(s, h, ids, false))
  {
    var t := RetainHold(s, h, ids, false);
    if !Registered(s, h) {
      return;
    }
    assert IndexInv(t) by { hide HandleInv; IndexUnchanged(s, t); }
    hide IndexInv;
    forall g | g in t.handles ensures HandleInv(t, g) {
      assert HandleInv(s, g);
      assert Registered(t, g) == Registered(s, g);
    }
  }

  // ---------------------------------------------------------------- steps that end a handle

  lemma RedundantKeepsInv<H>(s: State<H>, h: H)
    requires Inv(s) && h in s.handles && h in s.held
    ensures Inv(Redundant(s, h))
  {
    var t := Redundant(s, h);
    assert HandleInv(s, h);
    assert IndexInv(t) by { IndexUnchanged(s, t); }
    hide IndexInv;
    forall g | g in t.handles ensures HandleInv(t, g) {
      assert HandleInv(s, g);
      assert Registered(t, g) == Registered(s, g);
    }
  }

  lemma DrainedKeepsInv<H>(s: State<H>, h: H)
    requires Inv(s) && Enabled(s, Drained(h))
    ensures Inv(DrainedHold(s, h))
  {
    var t := DrainedHold(s, h);
    assert HandleInv(s, h);
    assert IndexInv(t) by { IndexUnchanged(s, t); }
    hide IndexInv;
    forall g | g in t.handles ensures HandleInv(t, g) {
      assert HandleInv(s, g);
      assert Registered(t, g) == Registered(s, g);
    }
  }

  /** Dropping a registered handle and its routes keeps the index of the others. */
  lemma DroppingKeepsIndex<H>(s: State<H>, t: State<H>, h: H)
    requires IndexInv(s) && h in s.handles && Registered(s, h)
    requires t.roots == s.roots - {s.handles[h].path}
    requires t.routes == WithoutRoutes(s.routes, s.handles[h].rootID)
    requires h in t.handles && t.handles == s.handles[h := t.handles[h]]
    requires t.handles[h].path == s.handles[h].path
    ensures IndexInv(t)
    ensures forall g | g in s.handles :: Registered(t, g) <==> g != h && Registered(s, g)
  {
    hide Owned, Agrees;
    var path := s.handles[h].path;
    forall p | p in t.roots
      ensures t.roots[p] != h && t.handles[t.roots[p]] == s.handles[s.roots[p]]
      ensures s.handles[s.roots[p]].rootID != s.handles[h].rootID
    {
      assert p in s.roots && path in s.roots && s.handles[s.roots[p]].path == p;
      assert s.roots[path] == h;
    }
    assert RootsInv(t);
    forall id | id in t.routes ensures Owned(t, t.routes[id]) {
      StillOwned(s, t, t.routes[id]);
    }
    forall p | p in t.roots ensures Agrees(t.routes, t.handles[t.roots[p]]) {
      assert Agrees(s.routes, s.handles[s.roots[p]]);
      AgreesWithout(s.routes, s.handles[h].rootID, s.handles[s.roots[p]]);
    }
  }

  lemma AgreesWithout(routes: map<string, string>, rootID: string, hd: Handle)
    requires Agrees(routes, hd) && hd.rootID != rootID
    ensures Agrees(WithoutRoutes(routes, rootID), hd)
  {
  }

  lemma EvictedKeepsInv<H>(s: State<H>, h: H)
    requires Inv(s) && h in s.handles && Registered(s, h)
    ensures Inv(Evicted(s, h))
  {
    var t := Evicted(s, h);
    DroppingKeepsIndex(s, t, h);
    forall g | g in t.handles ensures HandleInv(t, g) {
      assert HandleInv(s, g);
    }
    assert HandleInv(s, h);
  }

  lemma WithdrawExactly<H>(s: State<H>, h: H)
    requires Inv(s) && h in s.handles
    ensures Inv(WithdrawHold(s, h)) <==> (Registered(s, h) ==> s.handles[h].loops == 0)
  {
    var t := WithdrawHold(s, h);
    if Registered(s, h) {
      DroppingKeepsIndex(s, t, h);
      assert HandleInv(s, h);
      forall g | g in t.handles && g != h ensures HandleInv(t, g) {
        assert HandleInv(s, g);
      }
    }
  }

  lemma CloseClientsKeepsInv<H>(s: State<H>)
    requires Inv(s) && Enabled(s, CloseClients)
    ensures Inv(CloseClientsHold(s))
  {
    var t := CloseClientsHold(s);
    if !s.clientsClosed {
      forall g | g in t.handles ensures HandleInv(t, g) {
        assert HandleInv(s, g);
        if g in s.roots.Values {
          var p :| p in s.roots && s.roots[p] == g;
          assert s.handles[s.roots[p]].path == p;
        }
      }
    }
  }

  // ---------------------------------------------------------------- commits

  ghost predicate OnlyOwner<H>(s: State<H>, h: H)
    requires Known(s) && h in s.handles
  {
    && Existing(s, h).None?
    && forall p | p in s.roots :: p == s.handles[h].path || s.handles[s.roots[p]].rootID != s.handles[h].rootID
  }

  lemma InstalledRoots<H>(s: State<H>, h: H, tree: Tree, actionable: bool, launchName: Option<string>)
    requires IndexInv(s) && h in s.handles && OnlyOwner(s, h)
    ensures var t := Installed(s, h, tree, actionable, launchName);
            RootsInv(t) && forall p | p in t.roots && p != s.handles[h].path ::
                             p in s.roots && t.handles[t.roots[p]] == s.handles[s.roots[p]]
  {
    hide RoutesInv, TreesInv, WithoutRoutes;
    var t := Installed(s, h, tree, actionable, launchName);
    var path := s.handles[h].path;
    forall p | p in t.roots
      ensures t.roots[p] in t.handles && t.handles[t.roots[p]].path == p
      ensures p != path ==> p in s.roots && t.roots[p] == s.roots[p] && t.roots[p] != h
    {
      if p != path {
        assert s.handles[s.roots[p]].path == p;
      }
    }
    forall p, q | p in t.roots && q in t.roots && t.handles[t.roots[p]].rootID == t.handles[t.roots[q]].rootID
      ensures p == q
    {
      assert p != path ==> t.handles[t.roots[p]] == s.handles[s.roots[p]];
      assert q != path ==> t.handles[t.roots[q]] == s.handles[s.roots[q]];
    }
  }

  lemma AgreesInstalled(routes: map<string, string>, tree: Tree, hd: Handle, other: Handle)
    requires tree.root == hd.rootID && hd.tree == tree.ids
    requires forall id | id in tree.ids && id in routes :: routes[id] == tree.root
    requires Agrees(routes, other) && other.rootID != hd.rootID
    ensures Agrees(WithoutRoutes(routes, hd.rootID) + Candidate(tree), other)
  {
  }

  lemma AgreesFresh(routes: map<string, string>, tree: Tree, hd: Handle)
    requires tree.root == hd.rootID && hd.tree == tree.ids
    ensures Agrees(WithoutRoutes(routes, hd.rootID) + Candidate(tree), hd)
  {
  }

  lemma InstalledOwners<H>(s: State<H>, t: State<H>, h: H, tree: Tree)
    requires RootsInv(s) && RoutesInv(s) && RootsInv(t) && h in s.handles && h in t.handles && tree.root == s.handles[h].rootID
    requires t.roots == s.roots[s.handles[h].path := h] && t.handles[h].rootID == tree.root
    requires t.routes == WithoutRoutes(s.routes, tree.root) + Candidate(tree)
    requires s.handles[h].path in s.roots ==> s.roots[s.handles[h].path] == h
    requires forall p | p in s.roots :: s.roots[p] in t.handles && t.handles[s.roots[p]].rootID == s.handles[s.roots[p]].rootID
    ensures RoutesInv(t)
  {
    hide Owned, WithoutRoutes, Candidate;
    forall id | id in t.routes ensures Owned(t, t.routes[id]) {
      InstalledOwned(s, t, h, tree, id);
    }
  }

  lemma InstalledTrees<H>(s: State<H>, t: State<H>, h: H, tree: Tree)
    requires TreesInv(s) && RootsInv(t) && h in s.handles && h in t.handles && tree.root == t.handles[h].rootID
    requires forall id | id in tree.ids && id in s.routes :: s.routes[id] == tree.root
    requires t.roots == s.roots[s.handles[h].path := h] && t.handles[h].tree == tree.ids && t.handles[h].path == s.handles[h].path
    requires t.routes == WithoutRoutes(s.routes, tree.root) + Candidate(tree)
    requires forall p | p in t.roots && p != s.handles[h].path :: t.handles[t.roots[p]] == s.handles[s.roots[p]]
    ensures TreesInv(t)
  {
    hide Agrees, WithoutRoutes, Candidate;
    var path := s.handles[h].path;
    assert path in t.roots;
    forall p | p in t.roots ensures Agrees(t.routes, t.handles[t.roots[p]]) {
      if p == path {
        AgreesFresh(s.routes, tree, t.handles[h]);
      } else {
        assert Agrees(s.routes, s.handles[s.roots[p]]);
        AgreesInstalled(s.routes, tree, t.handles[h], s.handles[s.roots[p]]);
      }
    }
  }

  lemma InstalledRoutes<H>(s: State<H>, h: H, tree: Tree, actionable: bool, launchName: Option<string>)
    requires IndexInv(s) && h in s.handles && OnlyOwner(s, h)
    requires tree.root == s.handles[h].rootID
    requires forall id | id in tree.ids && id in s.routes :: s.routes[id] == tree.root
    ensures IndexInv(Installed(s, h, tree, actionable, launchName))
  {
    var t := Installed(s, h, tree, actionable, launchName);
    InstalledRoots(s, h, tree, actionable, launchName);
    hide RoutesInv, TreesInv, WithoutRoutes, Candidate;
    assert forall p | p in s.roots :: s.roots[p] in t.handles && t.handles[s.roots[p]].rootID == s.handles[s.roots[p]].rootID;
    InstalledOwners(s, t, h, tree);
    InstalledTrees(s, t, h, tree);
  }

  lemma InstalledOwned<H>(s: State<H>, t: State<H>, h: H, tree: Tree, id: string)
    requires RoutesInv(s) && Known(t) && h in s.handles && h in t.handles && tree.root == s.handles[h].rootID
    requires t.roots == s.roots[s.handles[h].path := h] && t.handles[h].rootID == tree.root
    requires t.routes == WithoutRoutes(s.routes, tree.root) + Candidate(tree) && id in t.routes
    requires s.handles[h].path in s.roots ==> s.roots[s.handles[h].path] == h
    requires forall p | p in s.roots :: s.roots[p] in t.handles && t.handles[s.roots[p]].rootID == s.handles[s.roots[p]].rootID
    ensures Owned(t, t.routes[id])
  {
    if t.routes[id] == tree.root {
      assert t.handles[t.roots[s.handles[h].path]].rootID == t.routes[id];
    } else {
      assert id in s.routes && s.routes[id] == t.routes[id];
      assert Owned(s, s.routes[id]);
      StillOwned(s, t, t.routes[id]);
    }
  }

  lemma InstalledLife<H>(s: State<H>, h: H, tree: Tree, actionable: bool, launchName: Option<string>)
    requires Inv(s) && h in s.handles && Existing(s, h).None? && !s.clientsClosed
    requires h in s.held || Registered(s, h)
    ensures LifeInv(Installed(s.(held := s.held - {h}), h, tree, actionable, launchName))
  {
    var t := Installed(s.(held := s.held - {h}), h, tree, actionable, launchName);
    forall g | g in t.handles ensures HandleInv(t, g) {
      assert HandleInv(s, g);
      if g != h {
        assert Registered(t, g) == Registered(s, g);
      } else {
        assert Registered(t, g);
      }
    }
  }

  lemma HeldIsNotIndexed<H>(s: State<H>, t: State<H>)
    requires IndexInv(s) && t.roots == s.roots && t.routes == s.routes && t.handles == s.handles
    ensures IndexInv(t)
  {
    IndexUnchanged(s, t);
  }

  lemma InstalledKeepsInv<H>(s: State<H>, h: H, tree: Tree, actionable: bool, launchName: Option<string>)
    requires Inv(s) && h in s.handles && OnlyOwner(s, h) && !s.clientsClosed
    requires h in s.held || Registered(s, h)
    requires tree.root == s.handles[h].rootID
    requires forall id | id in tree.ids && id in s.routes :: s.routes[id] == tree.root
    ensures Inv(Installed(s.(held := s.held - {h}), h, tree, actionable, launchName))
  {
    hide RootsInv, RoutesInv, TreesInv, HandleInv;
    var t := Installed(s, h, tree, actionable, launchName);
    InstalledRoutes(s, h, tree, actionable, launchName);
    InstalledLife(s, h, tree, actionable, launchName);
    HeldIsNotIndexed(t, Installed(s.(held := s.held - {h}), h, tree, actionable, launchName));
  }

  /** A commit whose candidate names the handle's own root keeps the invariant, whatever it decides. */
  lemma CommitKeepsInv<H>(s: State<H>, h: H, tree: Tree, actionable: bool, launchName: Option<string>)
    requires Inv(s) && h in s.handles && (h in s.held || s.handles[h].loops > 0)
    requires tree.root == s.handles[h].rootID
    ensures Inv(CommitHold(s, h, tree, actionable, launchName).0)
  {
    if Refusal(s, h, tree).None? {
      assert HandleInv(s, h);
      var e := Existing(s, h);
      if e.None? {
        InstalledKeepsInv(s, h, tree, actionable, launchName);
      } else if s.handles[e.value].identity == s.handles[h].identity {
        SameSocketKeepsInv(s, h, tree, actionable, launchName);
      } else {
        ReplacementKeepsInv(s, h, tree, actionable, launchName);
      }
    }
  }

  lemma SameSocketKeepsInv<H>(s: State<H>, h: H, tree: Tree, actionable: bool, launchName: Option<string>)
    requires Inv(s) && h in s.handles && h in s.held && Refusal(s, h, tree).None?
    requires Existing(s, h).Some? && s.handles[Existing(s, h).value].identity == s.handles[h].identity
    requires tree.root == s.handles[h].rootID
    ensures Inv(CommitHold(s, h, tree, actionable, launchName).0)
  {
    var e := Existing(s, h).value;
    var t := Redundant(s, h);
    RedundantKeepsInv(s, h);
    assert Registered(s, e) && HandleInv(s, e);
    assert t.held - {e} == t.held;
    InstalledKeepsInv(t, e, tree, actionable, launchName);
    assert t.(held := t.held - {e}) == t;
  }

  lemma ReplacementKeepsInv<H>(s: State<H>, h: H, tree: Tree, actionable: bool, launchName: Option<string>)
    requires Inv(s) && h in s.handles && h in s.held && Refusal(s, h, tree).None?
    requires Existing(s, h).Some? && s.handles[Existing(s, h).value].identity != s.handles[h].identity
    requires tree.root == s.handles[h].rootID
    ensures Inv(CommitHold(s, h, tree, actionable, launchName).0)
  {
    var e := Existing(s, h).value;
    var t := Evicted(s, e);
    EvictedKeepsInv(s, e);
    assert Existing(t, h).None?;
    hide HandleInv, RoutesInv, TreesInv;
    forall id | id in tree.ids && id in t.routes ensures t.routes[id] == tree.root {
      assert s.routes[id] != s.handles[e].rootID;
    }
    InstalledKeepsInv(t, h, tree, actionable, launchName);
  }

  /** A self re-commit under a foreign root ID orphans the handle's own sessions. */
  lemma ForeignRecommitBreaksInv<H>(s: State<H>, h: H, tree: Tree)
    requires Inv(s) && Enabled(s, Recommit(h, tree)) && Refusal(s, h, tree).None?
    requires tree.root != s.handles[h].rootID
    ensures !Inv(Step(s, Recommit(h, tree)))
  {
    assert HandleInv(s, h);
    assert Registered(s, h);
    var t := Step(s, Recommit(h, tree));
    var path := s.handles[h].path;
    assert t.roots[path] == h;
    assert tree.root in t.handles[t.roots[path]].tree && t.routes[tree.root] != t.handles[h].rootID;
  }

  // ---------------------------------------------------------------- the theorems

  /** One step keeps the whole invariant exactly when it is orderly. */
  lemma StepKeepsInvExactly<H>(s: State<H>, a: Action<H>)
    requires Inv(s) && Enabled(s, a)
    ensures Inv(Step(s, a)) <==> Orderly(s, a)
  {
    assert Known(s);
    hide Inv, CommitHold, MonitorHold, Installed, Evicted, Redundant, WithdrawHold, RetainHold, CloseClientsHold, DrainedHold;
    hide Refusal, RemoveHold;
    match a
    case Construct(h, path, rootID, identity) => ConstructKeepsInv(s, h, path, rootID, identity);
    case CommitNew(h, ids, actionable, launchName) =>
      CommitKeepsInv(s, h, Tree(s.handles[h].rootID, ids), actionable, launchName);
    case Discard(h) => RedundantKeepsInv(s, h);
    case Recommit(h, tree) => RecommitExactly(s, h, tree);
    case Retain(h, ids) => RetainKeepsInv(s, h, ids);
    case Monitor(h) => MonitorExactly(s, h);
    case Withdraw(h) => WithdrawExactly(s, h);
    case Remove(path) => RemoveKeepsInv(s, path);
    case RemoveReplaced(path, identity) => RemoveKeepsInv(s, path);
    case Drained(h) => DrainedKeepsInv(s, h);
    case LoopExits(h) => LoopExitKeepsInv(s, h);
    case Rename(h, name) => RenameKeepsInv(s, h, name);
    case Quiesce => FlagStepKeepsInv(s, a);
    case BeginClose => FlagStepKeepsInv(s, a);
    case CancelAll => FlagStepKeepsInv(s, a);
    case CloseClients => CloseClientsKeepsInv(s);
  }

  lemma FlagStepKeepsInv<H>(s: State<H>, a: Action<H>)
    requires Inv(s) && Enabled(s, a) && (a.Quiesce? || a.BeginClose? || a.CancelAll?)
    ensures Inv(Step(s, a))
  {
    FlagsKeepInv(s, Step(s, a));
  }

  lemma RecommitExactly<H>(s: State<H>, h: H, tree: Tree)
    requires Inv(s) && Enabled(s, Recommit(h, tree))
    ensures Inv(Step(s, Recommit(h, tree))) <==> Orderly(s, Recommit(h, tree))
  {
    if tree.root == s.handles[h].rootID {
      CommitKeepsInv(s, h, tree, true, None);
    } else if Refusal(s, h, tree).None? {
      ForeignRecommitBreaksInv(s, h, tree);
    }
  }

  lemma RemoveKeepsInv<H>(s: State<H>, path: string)
    requires Inv(s)
    ensures Inv(RemoveHold(s, path))
  {
    if path in s.roots {
      EvictedKeepsInv(s, s.roots[path]);
    }
  }

  lemma FlagsKeepInv<H>(s: State<H>, t: State<H>)
    requires Inv(s)
    requires t == s.(quiesced := t.quiesced, closed := t.closed, closeCancelled := t.closeCancelled)
    requires (s.closed ==> t.closed) && (t.closed ==> t.quiesced) && (t.closeCancelled ==> t.closed)
    ensures Inv(t)
  {
    assert IndexInv(t) by { IndexUnchanged(s, t); }
    hide IndexInv;
    forall g | g in t.handles ensures HandleInv(t, g) {
      assert HandleInv(s, g);
      assert Registered(t, g) == Registered(s, g);
    }
  }

  // ---------------------------------------------------------------- whole runs

  ghost predicate OrderlyRun<H>(s: State<H>, actions: seq<Action<H>>)
    decreases |actions|
  {
    && Known(s)
    && (actions != [] ==>
          Enabled(s, actions[0]) && Orderly(s, actions[0]) && OrderlyRun(Step(s, actions[0]), actions[1..]))
  }

  ghost function Run<H>(s: State<H>, actions: seq<Action<H>>): State<H>
    requires OrderlyRun(s, actions)
    decreases |actions|
  {
    if actions == [] then s else Run(Step(s, actions[0]), actions[1..])
  }

  /** What the steps alone allow, orderly or not. */
  ghost predicate Reaches<H>(s: State<H>, actions: seq<Action<H>>, t: State<H>)
    decreases |actions|
  {
    if actions == [] then s == t
    else Known(s) && Enabled(s, actions[0]) && Reaches(Step(s, actions[0]), actions[1..], t)
  }

  lemma QuiescedCommits<H>(s: State<H>, h: H, tree: Tree, actionable: bool, launchName: Option<string>)
    requires Known(s) && h in s.handles && s.quiesced
    ensures CommitHold(s, h, tree, actionable, launchName) == (s, Rejected(Quiesced))
  {
  }

  lemma QuiescedStep<H>(s: State<H>, a: Action<H>)
    requires Known(s) && Enabled(s, a) && s.quiesced
    ensures Step(s, a).quiesced && Step(s, a).roots.Keys <= s.roots.Keys
  {
    hide CommitHold, WithoutRoutes;
    match a
    case CommitNew(h, ids, actionable, launchName) =>
      QuiescedCommits(s, h, Tree(s.handles[h].rootID, ids), actionable, launchName);
    case Recommit(h, tree) => QuiescedCommits(s, h, tree, true, None);
    case _ =>
  }

  /** Quiesce is an admission barrier: in no continuation, orderly or not, is another socket registered. */
  lemma {:induction false} QuiescedAdmitsNothing<H>(s: State<H>, actions: seq<Action<H>>, t: State<H>)
    requires s.quiesced && Reaches(s, actions, t)
    ensures t.quiesced && t.roots.Keys <= s.roots.Keys
    decreases |actions|
  {
    if actions != [] {
      QuiescedStep(s, actions[0]);
      hide Step, Enabled, Known;
      QuiescedAdmitsNothing(Step(s, actions[0]), actions[1..], t);
    }
  }

  /** In every orderly run, the index agrees with the trees and every handle's client is closed at most once, after its loops. */
  lemma {:induction false} EveryOrderlyRunKeepsInv<H>(s: State<H>, actions: seq<Action<H>>)
    requires Inv(s) && OrderlyRun(s, actions)
    ensures Inv(Run(s, actions))
    decreases |actions|
  {
    hide Inv, Orderly, Step, Enabled;
    if actions != [] {
      StepKeepsInvExactly(s, actions[0]);
      EveryOrderlyRunKeepsInv(Step(s, actions[0]), actions[1..]);
    }
  }

  /** From a new manager on: routes name registered roots, and every client is closed at most once, with no loop left. */
  lemma ManagerRuns<H>(actions: seq<Action<H>>)
    requires OrderlyRun(Empty<H>(), actions)
    ensures var s := Run(Empty<H>(), actions);
            && Inv(s)
            && (forall id | id in s.routes :: Owned(s, s.routes[id]))
            && (forall h | h in s.handles ::
                  s.handles[h].closes <= 1 && (s.handles[h].closes == 1 ==> s.handles[h].loops == 0 && !Registered(s, h)))
  {
    EmptyInv<H>();
    EveryOrderlyRunKeepsInv(Empty<H>(), actions);
    var s := Run(Empty<H>(), actions);
    forall h | h in s.handles
      ensures s.handles[h].closes <= 1 && (s.handles[h].closes == 1 ==> s.handles[h].loops == 0 && !Registered(s, h))
    {
      assert HandleInv(s, h);
    }
  }

  /** A route leads to one root and no other. */
  lemma RouteNamesOneRoot<H>(s: State<H>, id: string)
    requires Inv(s) && id in s.routes
    ensures exists p :: p in s.roots && s.handles[s.roots[p]].rootID == s.routes[id]
                        && forall q | q in s.roots && s.handles[s.roots[q]].rootID == s.routes[id] :: q == p
  {
    assert Owned(s, s.routes[id]);
    var p :| p in s.roots && s.handles[s.roots[p]].rootID == s.routes[id];
    assert forall q | q in s.roots && s.handles[s.roots[q]].rootID == s.routes[id] :: q == p;
  }

  /** Evicted, withdrawn, redundant or discarded: out of the index and out of its creator's hands. */
  ghost predicate Gone<H>(s: State<H>, h: H)
    requires h in s.handles
  {
    h !in s.held && !Registered(s, h)
  }

  function Target<H(==)>(s: State<H>, h: H): H
    requires h in s.handles && Known(s)
  {
    match Existing(s, h)
    case None => h
    case Some(e) => if s.handles[e].identity == s.handles[h].identity then e else h
  }

  /** An accepted commit puts its target at the caller's path and touches no other handle but the one displaced. */
  ghost predicate Shaped<H>(s: State<H>, t: State<H>, h: H)
    requires h in s.handles && Known(s)
  {
    && t.roots == s.roots[s.handles[h].path := Target(s, h)]
    && t.held == s.held - {h} && t.handles.Keys == s.handles.Keys
    && forall g | g in s.handles ::
         t.handles[g].path == s.handles[g].path && s.handles[g].closes <= t.handles[g].closes
  }

  lemma RedundantShape<H>(s: State<H>, h: H, e: H, tree: Tree, actionable: bool, launchName: Option<string>)
    requires Known(s) && h in s.handles && Existing(s, h) == Some(e) && s.handles[e].path == s.handles[h].path
    requires s.handles[e].identity == s.handles[h].identity
    ensures Shaped(s, Installed(Redundant(s, h), e, tree, actionable, launchName), h)
  {
    assert e in s.handles && e != h && Target(s, h) == e;
    hide WithoutRoutes, Candidate, Known, Existing, Target;
  }

  lemma ReplacedShape<H>(s: State<H>, h: H, e: H, tree: Tree, actionable: bool, launchName: Option<string>)
    requires Known(s) && h in s.handles && Existing(s, h) == Some(e) && s.handles[e].path == s.handles[h].path
    requires s.handles[e].identity != s.handles[h].identity
    ensures Shaped(s, Installed(Evicted(s, e).(held := s.held - {h}), h, tree, actionable, launchName), h)
  {
    assert e in s.handles && e != h && Target(s, h) == h;
    hide WithoutRoutes, Candidate, Known, Existing, Target;
  }

  lemma FreshShape<H>(s: State<H>, h: H, tree: Tree, actionable: bool, launchName: Option<string>)
    requires Known(s) && h in s.handles && Existing(s, h).None?
    ensures Shaped(s, Installed(s.(held := s.held - {h}), h, tree, actionable, launchName), h)
  {
    assert Target(s, h) == h;
    hide WithoutRoutes, Candidate, Known, Existing, Target;
  }

  lemma CommitShape<H>(s: State<H>, h: H, tree: Tree, actionable: bool, launchName: Option<string>)
    requires RootsInv(s) && h in s.handles && Refusal(s, h, tree).None?
    ensures Shaped(s, CommitHold(s, h, tree, actionable, launchName).0, h)
  {
    hide Shaped, Refusal, Installed, Redundant, Evicted;
    match Existing(s, h)
    case None => FreshShape(s, h, tree, actionable, launchName);
    case Some(e) =>
      if s.handles[e].identity == s.handles[h].identity {
        RedundantShape(s, h, e, tree, actionable, launchName);
      } else {
        ReplacedShape(s, h, e, tree, actionable, launchName);
      }
  }

  lemma CommitLeavesGone<H>(s: State<H>, g: H, h: H, tree: Tree, actionable: bool, launchName: Option<string>)
    requires Inv(s) && g in s.handles && (g in s.held || s.handles[g].loops > 0)
    requires h in s.handles && Gone(s, h)
    ensures var t := CommitHold(s, g, tree, actionable, launchName).0;
            h in t.handles && Gone(t, h) && s.handles[h].closes <= t.handles[h].closes
  {
    assert HandleInv(s, h) && HandleInv(s, g);
    if Refusal(s, g, tree).None? {
      CommitShape(s, g, tree, actionable, launchName);
      hide CommitHold, HandleInv;
      assert Target(s, g) != h;
    }
  }

  lemma EndLeavesGone<H>(s: State<H>, a: Action<H>, h: H)
    requires Inv(s) && Enabled(s, a) && h in s.handles && Gone(s, h)
    requires a.Remove? || a.RemoveReplaced? || a.Withdraw? || a.Drained? || a.Discard? || a.CloseClients?
    ensures h in Step(s, a).handles && Gone(Step(s, a), h) && s.handles[h].closes <= Step(s, a).handles[h].closes
  {
    hide RoutesInv, TreesInv, LifeInv, CommitHold, WithoutRoutes;
  }

  lemma OtherLeavesGone<H>(s: State<H>, a: Action<H>, h: H)
    requires Inv(s) && Enabled(s, a) && h in s.handles && Gone(s, h)
    requires a.Construct? || a.Retain? || a.Monitor? || a.LoopExits? || a.Rename? || a.Quiesce? || a.BeginClose? || a.CancelAll?
    ensures h in Step(s, a).handles && Gone(Step(s, a), h) && s.handles[h].closes <= Step(s, a).handles[h].closes
  {
    hide RoutesInv, TreesInv, LifeInv, CommitHold, RemoveHold, WithdrawHold, CloseClientsHold;
  }

  lemma CommitStepLeavesGone<H>(s: State<H>, a: Action<H>, h: H)
    requires Inv(s) && Enabled(s, a) && h in s.handles && Gone(s, h)
    requires a.CommitNew? || a.Recommit?
    ensures h in Step(s, a).handles && Gone(Step(s, a), h) && s.handles[h].closes <= Step(s, a).handles[h].closes
  {
    hide CommitHold, Inv;
    match a
    case CommitNew(g, ids, actionable, launchName) =>
      CommitLeavesGone(s, g, h, Tree(s.handles[g].rootID, ids), actionable, launchName);
    case Recommit(g, tree) => CommitLeavesGone(s, g, h, tree, true, None);
  }

  lemma StepLeavesGone<H>(s: State<H>, a: Action<H>, h: H)
    requires Inv(s) && Enabled(s, a) && h in s.handles && Gone(s, h)
    ensures h in Step(s, a).handles && Gone(Step(s, a), h) && s.handles[h].closes <= Step(s, a).handles[h].closes
  {
    hide CommitHold, Step, Inv;
    if a.CommitNew? || a.Recommit? {
      CommitStepLeavesGone(s, a, h);
    } else if a.Remove? || a.RemoveReplaced? || a.Withdraw? || a.Drained? || a.Discard? || a.CloseClients? {
      EndLeavesGone(s, a, h);
    } else {
      OtherLeavesGone(s, a, h);
    }
  }

  /** A handle that left the index never enters it again, and what its client's closing says stays said. */
  lemma {:induction false} GoneStaysGone<H>(s: State<H>, actions: seq<Action<H>>, h: H)
    requires Inv(s) && OrderlyRun(s, actions) && h in s.handles && Gone(s, h)
    ensures var t := Run(s, actions);
            && h in t.handles && Gone(t, h)
            && s.handles[h].closes <= t.handles[h].closes <= 1
            && (t.handles[h].closes == 1 ==> t.handles[h].loops == 0)
    decreases |actions|
  {
    if actions == [] {
      assert HandleInv(s, h);
    } else {
      hide HandleInv, Gone, Step, Enabled, Orderly, IndexInv;
      StepKeepsInvExactly(s, actions[0]);
      StepLeavesGone(s, actions[0], h);
      GoneStaysGone(Step(s, actions[0]), actions[1..], h);
    }
  }

  ghost predicate NoNewLoop<H>(s: State<H>, t: State<H>) {
    && (forall h | h in s.handles :: h in t.handles && t.handles[h].loops <= s.handles[h].loops)
    && (forall h | h in t.handles && h !in s.handles :: t.handles[h].loops == 0)
  }

  /** Only a start of monitoring raises a loop count. */
  lemma UpdateAddsNoLoop<H>(s: State<H>, t: State<H>, h: H)
    requires h in s.handles && h in t.handles && t.handles == s.handles[h := t.handles[h]]
    requires t.handles[h].loops <= s.handles[h].loops
    ensures NoNewLoop(s, t)
  {
  }

  lemma EndAddsNoLoop<H>(s: State<H>, h: H)
    requires h in s.handles && s.closed
    ensures WithdrawHold(s, h).closed && NoNewLoop(s, WithdrawHold(s, h))
    ensures DrainedHold(s, h).closed && NoNewLoop(s, DrainedHold(s, h))
    ensures Redundant(s, h).closed && NoNewLoop(s, Redundant(s, h))
  {
    if Registered(s, h) {
      assert WithdrawHold(s, h).handles == s.handles[h := s.handles[h].(closes := s.handles[h].closes + 1)];
      UpdateAddsNoLoop(s, WithdrawHold(s, h), h);
    } else {
      assert WithdrawHold(s, h) == s;
    }
    hide WithdrawHold, Registered, WithoutRoutes;
    UpdateAddsNoLoop(s, DrainedHold(s, h), h);
    UpdateAddsNoLoop(s, Redundant(s, h), h);
    hide NoNewLoop;
  }

  lemma CloseAddsNoLoop<H>(s: State<H>)
    requires Known(s) && s.closed
    ensures CloseClientsHold(s).closed && NoNewLoop(s, CloseClientsHold(s))
  {
  }

  lemma RemoveAddsNoLoop<H>(s: State<H>, path: string)
    requires Known(s) && s.closed
    ensures RemoveHold(s, path).closed && NoNewLoop(s, RemoveHold(s, path))
  {
  }

  lemma QuietAddsNoLoop<H>(s: State<H>, a: Action<H>)
    requires LifeInv(s) && Known(s) && Enabled(s, a) && s.closed
    requires a.Construct? || a.Retain? || a.Monitor? || a.LoopExits? || a.Rename? || a.Quiesce? || a.BeginClose? || a.CancelAll?
    ensures Step(s, a).closed && NoNewLoop(s, Step(s, a))
  {
    hide CommitHold, HandleInv;
  }

  lemma CommitAddsNoLoop<H>(s: State<H>, a: Action<H>)
    requires Inv(s) && Enabled(s, a) && s.closed && (a.CommitNew? || a.Recommit?)
    ensures Step(s, a).closed && NoNewLoop(s, Step(s, a))
  {
    assert Step(s, a) == s;
    hide Inv, Step, Enabled;
  }

  /** Once closing has begun no monitor loop is added, so the wait for all of them is not overtaken. */
  lemma NoLoopAfterClose<H>(s: State<H>, a: Action<H>)
    requires Inv(s) && Enabled(s, a) && s.closed
    ensures Step(s, a).closed && NoNewLoop(s, Step(s, a))
  {
    assert Known(s);
    hide Inv, Known, NoNewLoop, CommitHold, RemoveHold, WithdrawHold, DrainedHold, Redundant, CloseClientsHold, MonitorHold, RetainHold;
    match a
    case Remove(path) => RemoveAddsNoLoop(s, path);
    case RemoveReplaced(path, _) => RemoveAddsNoLoop(s, path);
    case Withdraw(h) => EndAddsNoLoop(s, h);
    case Drained(h) => EndAddsNoLoop(s, h);
    case Discard(h) => EndAddsNoLoop(s, h);
    case CloseClients => CloseAddsNoLoop(s);
    case CommitNew(_, _, _, _) => CommitAddsNoLoop(s, a);
    case Recommit(_, _) => CommitAddsNoLoop(s, a);
    case _ => QuietAddsNoLoop(s, a);
  }

  /** A handle is monitored once: two loops, and whoever asks again finds them. */
  lemma MonitoredOnce<H>(s: State<H>, h: H)
    requires Inv(s) && h in s.handles && MonitorHold(s, h).1 == Started
    ensures var t := MonitorHold(s, h).0;
            && t.handles[h].loops == 2 && MonitorHold(t, h) == (t, AlreadyLive)
            && forall g | g in s.handles && g != h :: t.handles[g] == s.handles[g]
  {
    assert HandleInv(s, h);
  }

  /** The name a user chose. */
  ghost predicate NameKept<H>(s: State<H>, t: State<H>, h: H)
    requires h in s.handles
  {
    h in t.handles && (s.handles[h].nameTouched ==> t.handles[h].nameTouched && t.handles[h].name == s.handles[h].name)
  }

  lemma InstalledNames<H>(s: State<H>, target: H, tree: Tree, actionable: bool, launchName: Option<string>, h: H)
    requires target in s.handles && h in s.handles
    ensures NameKept(s, Installed(s, target, tree, actionable, launchName), h)
    ensures launchName.Some? && !s.handles[target].nameTouched ==>
              Installed(s, target, tree, actionable, launchName).handles[target].name == launchName.value
  {
  }

  lemma EvictedNames<H>(s: State<H>, e: H, h: H)
    requires e in s.handles && h in s.handles
    ensures NameKept(s, Evicted(s, e), h) && NameKept(s, Redundant(s, e), h)
    ensures Evicted(s, e).handles.Keys == s.handles.Keys && Redundant(s, e).handles.Keys == s.handles.Keys
  {
    hide WithoutRoutes;
  }

  lemma NamesCompose<H>(s: State<H>, t: State<H>, u: State<H>, h: H)
    requires h in s.handles && NameKept(s, t, h) && NameKept(t, u, h)
    ensures NameKept(s, u, h)
  {
  }

  lemma ReplacedNames<H>(s: State<H>, g: H, e: H, tree: Tree, actionable: bool, launchName: Option<string>, h: H)
    requires g in s.handles && e in s.handles && h in s.handles
    ensures NameKept(s, Installed(Redundant(s, g), e, tree, actionable, launchName), h)
    ensures NameKept(s, Installed(Evicted(s, e).(held := s.held - {g}), g, tree, actionable, launchName), h)
  {
    EvictedNames(s, g, h);
    EvictedNames(s, e, h);
    hide Installed, Evicted, Redundant;
    var kept, evicted := Redundant(s, g), Evicted(s, e).(held := s.held - {g});
    assert NameKept(s, evicted, h);
    InstalledNames(kept, e, tree, actionable, launchName, h);
    InstalledNames(evicted, g, tree, actionable, launchName, h);
    NamesCompose(s, kept, Installed(kept, e, tree, actionable, launchName), h);
    NamesCompose(s, evicted, Installed(evicted, g, tree, actionable, launchName), h);
  }

  lemma CommitNames<H>(s: State<H>, g: H, tree: Tree, actionable: bool, launchName: Option<string>, h: H)
    requires Known(s) && g in s.handles && h in s.handles
    ensures NameKept(s, CommitHold(s, g, tree, actionable, launchName).0, h)
  {
    assert NameKept(s, s, h);
    match Existing(s, g)
    case None =>
      var free := s.(held := s.held - {g});
      assert NameKept(s, free, h);
      InstalledNames(free, g, tree, actionable, launchName, h);
      hide Installed, Refusal, Existing;
      NamesCompose(s, free, Installed(free, g, tree, actionable, launchName), h);
    case Some(e) =>
      ReplacedNames(s, g, e, tree, actionable, launchName, h);
      hide NameKept, Installed, Evicted, Redundant, Refusal, Existing;
  }

  lemma EndNames<H>(s: State<H>, g: H, h: H)
    requires Known(s) && g in s.handles && h in s.handles
    ensures NameKept(s, WithdrawHold(s, g), h) && NameKept(s, DrainedHold(s, g), h) && NameKept(s, Redundant(s, g), h)
  {
    hide WithoutRoutes;
  }

  lemma MonitorNames<H>(s: State<H>, g: H, h: H, ids: set<string>)
    requires Known(s) && g in s.handles && h in s.handles
    ensures NameKept(s, MonitorHold(s, g).0, h) && NameKept(s, CloseClientsHold(s), h)
    ensures NameKept(s, RetainHold(s, g, ids, false), h)
  {
  }

  lemma RemovedNames<H>(s: State<H>, path: string, h: H)
    requires Known(s) && h in s.handles
    ensures NameKept(s, RemoveHold(s, path), h)
  {
    hide WithoutRoutes;
  }

  /** No step but a rename changes a name a user set or cleared, pending launches included. */
  lemma TouchedNameStays<H>(s: State<H>, a: Action<H>, h: H)
    requires Known(s) && Enabled(s, a) && h in s.handles && s.handles[h].nameTouched
    requires !(a.Rename? && a.h == h)
    ensures NameKept(s, Step(s, a), h)
  {
    hide CommitHold, WithdrawHold, DrainedHold, Redundant, MonitorHold, CloseClientsHold, RetainHold, RemoveHold, Known;
    match a
    case CommitNew(g, ids, actionable, launchName) =>
      CommitNames(s, g, Tree(s.handles[g].rootID, ids), actionable, launchName, h);
    case Recommit(g, tree) => CommitNames(s, g, tree, true, None, h);
    case Remove(path) => RemovedNames(s, path, h);
    case RemoveReplaced(path, _) => RemovedNames(s, path, h);
    case Withdraw(g) => EndNames(s, g, h);
    case Drained(g) => EndNames(s, g, h);
    case Discard(g) => EndNames(s, g, h);
    case Monitor(g) => MonitorNames(s, g, h, {});
    case Retain(g, ids) => MonitorNames(s, g, h, ids);
    case CloseClients => MonitorNames(s, h, h, {});
    case _ =>
  }

  /** The roots whose old routes an accepted commit clears: its own, and the displaced one's. */
  ghost predicate Cleared<H>(s: State<H>, h: H, rootID: string)
    requires h in s.handles && Known(s)
  {
    || rootID == s.handles[h].rootID
    || (Existing(s, h).Some? && rootID == s.handles[Existing(s, h).value].rootID)
  }

  lemma RoutesAfter(routes: map<string, string>, first: string, second: string, tree: Tree, id: string)
    ensures var after := WithoutRoutes(WithoutRoutes(routes, first), second) + Candidate(tree);
            && (id in after <==> id in tree.ids || (id in routes && routes[id] != first && routes[id] != second))
            && (id in after ==> after[id] == if id in tree.ids then tree.root else routes[id])
    ensures first == second ==> WithoutRoutes(WithoutRoutes(routes, first), second) == WithoutRoutes(routes, second)
  {
  }

  ghost predicate Routed<H>(s: State<H>, h: H, tree: Tree, routes: map<string, string>, id: string)
    requires h in s.handles && Known(s)
  {
    && (id in routes <==> id in tree.ids || (id in s.routes && !Cleared(s, h, s.routes[id])))
    && (id in routes ==> routes[id] == if id in tree.ids then tree.root else s.routes[id])
  }

  /** The roots whose routes an accepted commit clears, as maps: the displaced one's first, if any, then its own. */
  function FirstCleared<H(==)>(s: State<H>, h: H): string
    requires h in s.handles && Known(s)
  {
    match Existing(s, h)
    case None => s.handles[h].rootID
    case Some(e) => s.handles[e].rootID
  }

  lemma CommitRoutesAre<H>(s: State<H>, h: H, tree: Tree, actionable: bool, launchName: Option<string>)
    requires RootsInv(s) && h in s.handles && Refusal(s, h, tree).None?
    ensures CommitHold(s, h, tree, actionable, launchName).0.routes ==
            WithoutRoutes(WithoutRoutes(s.routes, FirstCleared(s, h)), s.handles[h].rootID) + Candidate(tree)
  {
    var root := s.handles[h].rootID;
    RoutesAfter(s.routes, root, root, tree, root);
    assert Existing(s, h).Some? && s.handles[Existing(s, h).value].identity == s.handles[h].identity ==>
        s.handles[Existing(s, h).value].rootID == root;
    hide RootsInv, Refusal, WithoutRoutes, Candidate;
  }

  /** What an accepted commit does to the routes, session by session. */
  lemma CommitRoutes<H>(s: State<H>, h: H, tree: Tree, actionable: bool, launchName: Option<string>, id: string)
    requires RootsInv(s) && h in s.handles && Refusal(s, h, tree).None?
    ensures Routed(s, h, tree, CommitHold(s, h, tree, actionable, launchName).0.routes, id)
  {
    CommitRoutesAre(s, h, tree, actionable, launchName);
    RoutesAfter(s.routes, FirstCleared(s, h), s.handles[h].rootID, tree, id);
    hide CommitHold, RootsInv, Refusal, WithoutRoutes, Candidate;
  }

  /** An accepted candidate claims no session of a root that stays. */
  lemma OwnedElsewhere<H>(s: State<H>, h: H, tree: Tree, id: string)
    requires Known(s) && h in s.handles && Refusal(s, h, tree).None? && tree.root == s.handles[h].rootID
    requires id in s.routes && id in tree.ids
    ensures Cleared(s, h, s.routes[id])
  {
  }

  /** What an accepted commit does to the routes of any other root that stays: nothing. */
  lemma CommitKeepsOtherRoots<H>(s: State<H>, h: H, tree: Tree, actionable: bool, launchName: Option<string>, id: string)
    requires Inv(s) && h in s.handles && Refusal(s, h, tree).None? && tree.root == s.handles[h].rootID
    requires id in s.routes && !Cleared(s, h, s.routes[id])
    ensures var t := CommitHold(s, h, tree, actionable, launchName).0;
            id in t.routes && t.routes[id] == s.routes[id]
  {
    CommitRoutes(s, h, tree, actionable, launchName, id);
    hide CommitHold, LifeInv, RootsInv, TreesInv;
    if id in tree.ids {
      OwnedElsewhere(s, h, tree, id);
    }
  }
}
