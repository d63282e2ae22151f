/**
 Two runs of the manager that its lock allows and its client discipline does not: each breaks one of
 the conditions under which the invariant of module Fleet is kept.
*/
module FleetRaces {
  import opened Wrappers
  import opened Fleet

  lemma {:induction false} ReachesStep<H>(s: State<H>, actions: seq<Action<H>>, t: State<H>, a: Action<H>, u: State<H>)
    requires Reaches(s, actions, t) && Known(t) && Enabled(t, a) && u == Step(t, a)
    ensures Reaches(s, actions + [a], u)
    decreases |actions|
  {
    hide Enabled, Step, Known;
    if actions == [] {
      assert ([] + [a])[1..] == [] && ([] + [a])[0] == a;
      assert Reaches(u, [], u);
    } else {
      assert (actions + [a])[1..] == actions[1..] + [a];
      ReachesStep(Step(s, actions[0]), actions[1..], t, a, u);
    }
  }

  ghost predicate Reachable(s: State<int>) { exists actions: seq<Action<int>> :: Reaches(Empty<int>(), actions, s) }

  lemma StepIsReachable(s: State<int>, a: Action<int>, t: State<int>)
    requires Reachable(s) && Known(s) && Enabled(s, a) && t == Step(s, a)
    ensures Reachable(t)
  {
    var actions: seq<Action<int>> :| Reaches(Empty<int>(), actions, s);
    ReachesStep(Empty<int>(), actions, s, a, t);
  }

  function One(monitoring: bool, cancelled: bool, loops: nat, closes: nat, tree: set<string>): Handle {
    Handle("p", "r", 1, tree, true, "", false, monitoring, monitoring, cancelled, loops, closes)
  }

  function Index(handles: map<int, Handle>, held: set<int>): State<int> {
    Empty<int>().(handles := handles, held := held)
  }

  function Constructed(): State<int> { Index(map[0 := One(false, false, 0, 0, {})], {0}) }

  /** One root at path p, committed and not monitored yet. */
  function FirstCommitted(): State<int> {
    Index(map[0 := One(false, false, 0, 0, {"r"})], {}).(roots := map["p" := 0], routes := map["r" := "r"])
  }

  lemma ConstructedIsReachable()
    ensures Reachable(Constructed())
  {
    assert Reachable(Empty<int>()) by { assert Reaches(Empty<int>(), [], Empty<int>()); }
    hide Reachable;
    assert Constructed().handles == Empty<int>().handles[0 := One(false, false, 0, 0, {})];
    assert Constructed().held == Empty<int>().held + {0};
    StepIsReachable(Empty<int>(), Construct(0, "p", "r", 1), Constructed());
  }

  lemma FirstCommittedIsReachable()
    ensures Reachable(FirstCommitted())
  {
    ConstructedIsReachable();
    hide Reachable;
    var s := Constructed();
    var a := CommitNew(0, {"r"}, true, None);
    var tree := Tree("r", {"r"});
    assert Existing(s, 0).None? && Refusal(s, 0, tree).None?;
    assert CommitHold(s, 0, tree, true, None).0 == FirstCommitted() by {
      hide Refusal, Existing;
      InstalledFirst();
    }
    hide CommitHold;
    StepIsReachable(s, a, FirstCommitted());
  }

  lemma InstalledFirst()
    ensures Installed(Constructed().(held := Constructed().held - {0}), 0, Tree("r", {"r"}), true, None) == FirstCommitted()
  {
    var t := Installed(Constructed().(held := Constructed().held - {0}), 0, Tree("r", {"r"}), true, None);
    assert Candidate(Tree("r", {"r"})) == map["r" := "r"];
    assert t.routes == FirstCommitted().routes;
    assert t.roots == FirstCommitted().roots;
    assert t.held == FirstCommitted().held;
    assert t.handles == FirstCommitted().handles;
  }

  lemma FirstEvicted()
    ensures Evicted(FirstCommitted(), 0) == Index(map[0 := One(false, false, 0, 0, {"r"})], {}).(draining := {0})
  {
    var t := Evicted(FirstCommitted(), 0);
    assert t.routes == map[];
    assert t.roots == map[];
    assert t.draining == {0};
    assert t.handles == map[0 := One(false, false, 0, 0, {"r"})];
  }

  /** Evicted and drained before anything monitored it. */
  function FirstDrained(): State<int> { Index(map[0 := One(false, false, 0, 1, {"r"})], {}) }

  lemma FirstDrainedIsReachable()
    ensures Reachable(FirstDrained())
  {
    FirstCommittedIsReachable();
    FirstEvicted();
    hide Reachable, Evicted;
    var evicted := Index(map[0 := One(false, false, 0, 0, {"r"})], {}).(draining := {0});
    StepIsReachable(FirstCommitted(), Remove("p"), evicted);
    var t := Step(evicted, Drained(0));
    assert t.handles == FirstDrained().handles && t.draining == FirstDrained().draining;
    StepIsReachable(evicted, Drained(0), FirstDrained());
  }

  /**
   A handle first monitored after its eviction was drained runs its loops over a closed client, and
   its next snapshot puts it back into the index.
  */
  lemma LateMonitorResurrects()
    ensures exists s: State<int> ::
              Reachable(s) && 0 in s.handles && Registered(s, 0) && s.handles[0].closes == 1 && s.handles[0].loops == 2
  {
    FirstDrainedIsReachable();
    hide Reachable;
    var live := Index(map[0 := One(true, false, 2, 1, {"r"})], {});
    var t := Step(FirstDrained(), Monitor(0));
    assert t.handles == live.handles;
    StepIsReachable(FirstDrained(), Monitor(0), live);
    LiveRecommits(live);
    t := Step(live, Recommit(0, Tree("r", {"r"})));
    StepIsReachable(live, Recommit(0, Tree("r", {"r"})), t);
  }

  lemma LiveRecommits(live: State<int>)
    requires live == Index(map[0 := One(true, false, 2, 1, {"r"})], {})
    ensures var t := Step(live, Recommit(0, Tree("r", {"r"})));
            0 in t.handles && Registered(t, 0) && t.handles[0].closes == 1 && t.handles[0].loops == 2
  {
    assert Refusal(live, 0, Tree("r", {"r"})).None?;
    hide Refusal, WithoutRoutes, Candidate;
  }

  /** The same socket was dialled twice: the second commit is redundant and its caller monitors the first handle. */
  function SharedHandle(): State<int> {
    Index(map[0 := One(true, false, 2, 0, {"r"}), 1 := One(false, false, 0, 1, {})], {})
      .(roots := map["p" := 0], routes := map["r" := "r"], quiesced := true)
  }

  /** The socket of the first handle was dialled again. */
  function Dialled(): State<int> {
    FirstCommitted().(handles := map[0 := One(false, false, 0, 0, {"r"}), 1 := One(false, false, 0, 0, {})], held := {1})
  }

  lemma DialledIsReachable()
    ensures Reachable(Dialled())
  {
    FirstCommittedIsReachable();
    hide Reachable;
    assert Dialled().handles == FirstCommitted().handles[1 := One(false, false, 0, 0, {})];
    assert Dialled().held == FirstCommitted().held + {1};
    StepIsReachable(FirstCommitted(), Construct(1, "p", "r", 1), Dialled());
  }

  lemma SharedHandleIsReachable()
    ensures Reachable(SharedHandle())
  {
    DialledIsReachable();
    hide Reachable;
    var shared := SharedHandle().(quiesced := false,
                                  handles := map[0 := One(false, false, 0, 0, {"r"}), 1 := One(false, false, 0, 1, {})]);
    DialledTwice(Dialled(), shared);
    hide CommitHold, Dialled;
    StepIsReachable(Dialled(), CommitNew(1, {"r"}, true, None), shared);
    var monitored := SharedHandle().(quiesced := false);
    assert Step(shared, Monitor(0)).handles == monitored.handles;
    StepIsReachable(shared, Monitor(0), monitored);
    StepIsReachable(monitored, Quiesce, SharedHandle());
  }

  lemma DialledTwice(dialled: State<int>, shared: State<int>)
    requires dialled == FirstCommitted().(handles := map[0 := One(false, false, 0, 0, {"r"}), 1 := One(false, false, 0, 0, {})],
                                          held := {1})
    requires shared == dialled.(handles := map[0 := One(false, false, 0, 0, {"r"}), 1 := One(false, false, 0, 1, {})], held := {})
    ensures Step(dialled, CommitNew(1, {"r"}, true, None)) == shared
  {
    var tree := Tree("r", {"r"});
    assert Existing(dialled, 1) == Some(0);
    assert Refusal(dialled, 1, tree).None?;
    hide Refusal, Existing;
    var t := Installed(Redundant(dialled, 1), 0, tree, true, None);
    assert Candidate(tree) == map["r" := "r"];
    assert t.routes == shared.routes;
    assert t.handles == shared.handles;
    assert t.roots == shared.roots && t.held == shared.held;
  }

  /**
   The creator of a handle somebody else monitors is still refused once the manager quiesces, since
   that check comes first; withdrawing its own handle then closes the client under two running loops.
  */
  lemma RefusedCreatorClosesUnderLoops()
    ensures exists s: State<int> ::
              && Reachable(s) && 0 in s.handles && MonitorHold(s, 0).1 == RefusedClosing
              && s.handles[0].closes == 1 && s.handles[0].loops == 2
  {
    SharedHandleIsReachable();
    hide Reachable;
    var s := SharedHandle();
    var t := Step(s, Withdraw(0));
    assert t.handles[0] == s.handles[0].(closes := 1);
    StepIsReachable(s, Withdraw(0), t);
  }
}
