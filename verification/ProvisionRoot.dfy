/** Root sessions (internal/supervisor/provision/root.go). */
module ProvisionRoot {
  import opened Wrappers
  import opened Incus
  import opened Provision

  datatype RootOwned = RootOwned(
    instanceOwned: bool, volumeOwned: bool,
    instanceAmbiguous: bool, volumeAmbiguous: bool,
    running: bool, startAmbiguous: bool)
  {
    /** The record never misses a start: one that was not submitted leaves the new instance idle. */
    predicate MayRun() { running || startAmbiguous || instanceAmbiguous }

    function Claims(instance: string, volume: string): Claim {
      Claim(instance, volume, instanceOwned, instanceOwned && !instanceAmbiguous, volumeOwned, volumeOwned && !volumeAmbiguous)
    }
  }

  class RootProvisioner {
    const server: Server

    constructor (server: Server)
      ensures this.server == server
    {
      this.server := server;
    }

    /** Probing and stopping: what is left to delete, and whether something failed on the way. */
    method StopOwned(instance: string, owned: RootOwned) returns (present: bool, failed: bool)
      modifies server
      ensures Quiet(old(server.store), server.store)
      ensures owned.instanceOwned && !present ==> Dropped(old(server.store), server.store, Instance(instance))
      ensures present ==> owned.instanceOwned
      ensures old(server.tick) <= server.tick
      ensures failed ==> !AllFine(server.oracle, old(server.tick), server.tick)
      ensures !failed && AllFine(server.oracle, old(server.tick), server.tick) && !StartPending(old(server.store), instance) && owned.MayRun() ==>
                Idle(server.store, instance) || !present
    {
      present, failed := owned.instanceOwned, false;
      var shouldStop := owned.running;
      if owned.instanceOwned && (owned.instanceAmbiguous || owned.startAmbiguous) {
        var probe := server.ProbeResource(Instance(instance));
        match probe {
          case Found(active) => shouldStop := active;
          case NoValue => failed := true;
          case NotFound => present := false;
          case Unreachable => failed := true;
        }
      }
      if shouldStop {
        ghost var s := server.store;
        var stopped := server.StopInstance(instance);
        QuietCompose(old(server.store), s, server.store);
        assert Undisturbed(s, server.store, Instance(instance)) && Undisturbed(old(server.store), s, Instance(instance));
        failed := failed || stopped == NotRemoved;
      }
    }

    method CleanupInstance(instance: string, owned: RootOwned) returns (failed: bool)
      modifies server
      ensures OnlyDeletes(old(server.store), server.store, Instance(instance))
      ensures !owned.instanceOwned ==> server.store.deleted == old(server.store).deleted
      ensures !owned.instanceOwned ==> Quiet(old(server.store), server.store)
      ensures !failed && owned.instanceOwned ==> Dropped(old(server.store), server.store, Instance(instance))
      ensures old(server.tick) <= server.tick
      ensures failed ==> !AllFine(server.oracle, old(server.tick), server.tick) || StartPending(old(server.store), instance) || (instance in old(server.store).active && !owned.MayRun())
    {
      var present;
      present, failed := StopOwned(instance, owned);
      ghost var t := server.store;
      if present {
        var removal := server.DeleteResource(Instance(instance));
        QuietOnlyDeletes(old(server.store), t, server.store, Instance(instance));
        failed := failed || removal == NotRemoved;
      }
    }

    method CleanupVolume(volume: string, owned: RootOwned) returns (failed: bool)
      modifies server
      ensures OnlyDeletes(old(server.store), server.store, Volume(volume))
      ensures !owned.volumeOwned ==> server.store == old(server.store)
      ensures !failed && owned.volumeOwned ==>
                Volume(volume) !in server.store.present && Dropped(old(server.store), server.store, Volume(volume))
      ensures old(server.tick) <= server.tick
      ensures failed ==> !AllFine(server.oracle, old(server.tick), server.tick)
    {
      failed := false;
      var present := owned.volumeOwned;
      if owned.volumeOwned && owned.volumeAmbiguous {
        var probe := server.ProbeResource(Volume(volume));
        match probe {
          case Found(_) =>
          case NoValue => failed := true;
          case NotFound => present := false;
          case Unreachable => failed := true;
        }
      }
      ghost var t := server.store;
      if present {
        var removal := server.DeleteResource(Volume(volume));
        QuietOnlyDeletes(old(server.store), t, server.store, Volume(volume));
        failed := failed || removal == NotRemoved;
      }
    }

    /** A failed probe does not stop the deletion, but it is reported. */
    method CleanupRoot(instance: string, volume: string, owned: RootOwned) returns (failed: set<Resource>)
      modifies server
      ensures CleanedUp(old(server.store), server.store, owned.Claims(instance, volume), failed)
      ensures owned.volumeOwned && Volume(volume) !in failed ==> Volume(volume) !in server.store.present
      ensures old(server.tick) <= server.tick
      ensures failed != {} ==> !AllFine(server.oracle, old(server.tick), server.tick) || StartPending(old(server.store), instance) || (instance in old(server.store).active && !owned.MayRun())
    {
      ghost var s := server.store;
      var instanceFailed := CleanupInstance(instance, owned);
      ghost var t := server.store;
      var volumeFailed := CleanupVolume(volume, owned);
      failed := (if owned.instanceOwned && instanceFailed then {Instance(instance)} else {})
              + (if owned.volumeOwned && volumeFailed then {Volume(volume)} else {});
      RootCleanupComposes(s, t, server.store, owned.Claims(instance, volume), failed);
    }

    method CopySeed(volume: string, ghost s0: Store, ghost c: Claim) returns (ok: bool, owned: RootOwned, errors: seq<Error>)
      requires c == NoClaim(c.instance, volume) && Ledger(s0, server.store, c, [])
      modifies server
      ensures forall e | e in errors :: e.ticket.Some?
      ensures ok ==> owned == RootOwned(false, true, false, false, false, false) && errors == []
      ensures old(server.tick) <= server.tick && (AllFine(server.oracle, old(server.tick), server.tick) && Volume(volume) !in old(server.store).present ==> ok)
      ensures ok ==> KeepsIdle(old(server.store), server.store)
      ensures !owned.instanceOwned
      ensures ok ==> server.store.confirmed == old(server.store).confirmed + [Create(Volume(volume))]
      ensures ok ==> server.tick == old(server.tick) + 1 && AllFine(server.oracle, old(server.tick), server.tick)
      ensures Ledger(s0, server.store, owned.Claims(c.instance, volume), errors)
    {
      ghost var s := server.store;
      owned, errors := RootOwned(false, false, false, false, false, false), [];
      var err := server.CreateResource(Volume(volume));
      CreatedVolume(s0, s, server.store, c, [], err);
      if err.Some? {
        var submitted := err.value.ticket.Some?;
        owned := owned.(volumeOwned := submitted, volumeAmbiguous := submitted);
        if submitted {
          errors := [err.value];
          assert [] + [err.value] == errors;
        }
        return false, owned, errors;
      }
      ok, owned := true, owned.(volumeOwned := true);
    }

    method CreateInstance(instance: string, owned: RootOwned, ghost s0: Store, ghost c: Claim)
        returns (ok: bool, now: RootOwned, errors: seq<Error>)
      requires owned == RootOwned(false, true, false, false, false, false)
      requires c == owned.Claims(instance, c.volume) && Ledger(s0, server.store, c, [])
      modifies server
      ensures forall e | e in errors :: e.ticket.Some?
      ensures ok ==> server.store.confirmed == old(server.store).confirmed + [Create(Instance(instance))]
      ensures ok ==> server.tick == old(server.tick) + 1 && AllFine(server.oracle, old(server.tick), server.tick)
      ensures ok ==> now == owned.(instanceOwned := true) && errors == []
      ensures old(server.tick) <= server.tick && (AllFine(server.oracle, old(server.tick), server.tick) && Instance(instance) !in old(server.store).present ==> ok)
      ensures Ledger(s0, server.store, now.Claims(instance, c.volume), errors)
    {
      ghost var s := server.store;
      now, errors := owned, [];
      var err := server.CreateResource(Instance(instance));
      CreatedInstance(s0, s, server.store, c, [], err);
      if err.Some? {
        var submitted := err.value.ticket.Some?;
        now := now.(instanceOwned := submitted, instanceAmbiguous := submitted);
        if submitted {
          errors := [err.value];
          assert [] + [err.value] == errors;
        }
        return false, now, errors;
      }
      ok, now := true, now.(instanceOwned := true);
    }

    method Launch(instance: string, owned: RootOwned, ghost s0: Store, ghost c: Claim)
        returns (ok: bool, now: RootOwned, errors: seq<Error>)
      requires owned == RootOwned(true, true, false, false, false, false)
      requires c == owned.Claims(instance, c.volume) && Ledger(s0, server.store, c, [])
      modifies server
      ensures forall e | e in errors :: e.ticket.Some?
      ensures ok ==> errors == []
      ensures ok ==> instance in server.store.active && server.store.confirmed == old(server.store).confirmed + [Start(instance)]
      ensures ok ==> server.tick == old(server.tick) + 3 && AllFine(server.oracle, old(server.tick), server.tick)
      ensures old(server.tick) <= server.tick && (AllFine(server.oracle, old(server.tick), server.tick) ==> ok)
      ensures now.Claims(instance, c.volume) == c
      ensures Ledger(s0, server.store, c, errors)
    {
      ghost var s := server.store;
      now, errors := owned, [];
      var err := server.ChangeInstance(Start(instance));
      if err.Some? {
        now := now.(startAmbiguous := err.value.ticket.Some?);
        if now.startAmbiguous {
          errors := [err.value];
        }
        ChangeKeepsLedger(s0, s, server.store, c, [], errors);
        assert [] + errors == errors;
        return false, now, errors;
      }
      ChangeKeepsLedger(s0, s, server.store, c, [], []);
      now := now.(running := true);
      s := server.store;
      ok := server.ChecksPass(2);        // prepare the workspace, wait for the RPC address
      QuietKeepsLedger(s0, s, server.store, c, []);
    }

    method Attempt(instance: string, volume: string) returns (ok: bool, owned: RootOwned, errors: seq<Error>)
      requires NonePending(server.store, Instance(instance)) && NonePending(server.store, Volume(volume))
      modifies server
      ensures forall e | e in errors :: e.ticket.Some?
      ensures ok ==> errors == []
      ensures ok ==> instance in server.store.active && Built(old(server.store), server.store, instance, volume)
      ensures ok ==> server.tick == old(server.tick) + 17 && AllFine(server.oracle, old(server.tick), server.tick)
      ensures server.store.submitted != old(server.store).submitted ==>
                AllFine(server.oracle, old(server.tick), old(server.tick) + 10)
      ensures ok ==> owned.Claims(instance, volume) == Claim(instance, volume, true, true, true, true)
      ensures old(server.tick) <= server.tick && (AllFine(server.oracle, old(server.tick), server.tick) && Vacant(old(server.store), instance, volume) ==> ok)
      ensures Ledger(old(server.store), server.store, owned.Claims(instance, volume), errors)
    {
      ghost var s0 := server.store;
      owned, errors := RootOwned(false, false, false, false, false, false), [];
      ok := server.ChecksPass(10);       // pool, proxy CA, network, two profiles, proxy, image, seed volume, name
      QuietKeepsLedger(s0, s0, server.store, NoClaim(instance, volume), []);
      if !ok { return; }
      ok, owned, errors := CopySeed(volume, s0, NoClaim(instance, volume));
      if !ok { return; }
      ghost var c := owned.Claims(instance, volume);
      ghost var s := server.store;
      ok := server.ChecksPass(2);        // read the copied volume, write its metadata
      QuietKeepsLedger(s0, s, server.store, c, []);
      if !ok { return; }
      ok, owned, errors := CreateInstance(instance, owned, s0, c);
      if !ok { return; }
      ok, owned, errors := Launch(instance, owned, s0, owned.Claims(instance, volume));
    }

    /** The promise of ProvisionChild, for roots. */
    method ProvisionRoot(instance: string, volume: string) returns (outcome: Outcome)
      requires NonePending(server.store, Instance(instance)) && NonePending(server.store, Volume(volume))
      modifies server
      ensures Settled(old(server.store), server.store, Instance(instance), outcome)
      ensures Settled(old(server.store), server.store, Volume(volume), outcome)
      ensures Honest(old(server.store), server.store, {Instance(instance), Volume(volume)})
      ensures old(server.tick) <= server.tick
      ensures outcome == Ready ==>
                && instance in server.store.active && Built(old(server.store), server.store, instance, volume)
                && server.tick == old(server.tick) + 17 && AllFine(server.oracle, old(server.tick), server.tick)
      ensures server.store.submitted != old(server.store).submitted ==>
                AllFine(server.oracle, old(server.tick), old(server.tick) + 10)
      ensures AllFine(server.oracle, old(server.tick), server.tick) && Vacant(old(server.store), instance, volume) ==> outcome == Ready
    {
      ghost var s0 := server.store;
      var ok, owned, errors := Attempt(instance, volume);
      if ok {
        return Ready;
      }
      ghost var c := owned.Claims(instance, volume);
      ghost var s1 := server.store;
      var unawaited, awaitFailed := AwaitAll(server, errors);
      ghost var s2 := server.store;
      var cleanupFailed := CleanupRoot(instance, volume, owned);
      outcome := Failed(unawaited, awaitFailed, cleanupFailed);
      RollbackSettles(s0, s1, s2, server.store, c, errors, outcome);
    }

    /** The promise of the child's Destroy; an unreachable server is a failure. */
    method Destroy(instance: string, volume: string) returns (failed: bool)
      modifies server
      ensures !failed && instance != "" ==> Dropped(old(server.store), server.store, Instance(instance))
      ensures !failed && volume != "" ==>
                Volume(volume) !in server.store.present && Dropped(old(server.store), server.store, Volume(volume))
      ensures server.store.deleted <= old(server.store.deleted) + {Instance(instance), Volume(volume)}
    {
      ghost var s := server.store;
      var connected := server.Check();
      if !connected {
        return true;
      }
      assert Undisturbed(s, server.store, Instance(instance)) && Undisturbed(s, server.store, Volume(volume));
      var owned := RootOwned(instance != "", volume != "", false, false, false, instance != "");
      var remains := CleanupRoot(instance, volume, owned);
      failed := remains != {};
    }
  }

  /** Volume copied, then the instance created with its devices, then started. */
  ghost predicate Built(s: Store, t: Store, instance: string, volume: string) {
    t.confirmed == s.confirmed + [Create(Volume(volume)), Create(Instance(instance)), Start(instance)]
  }

  /** Time passes even while an instance is not owned. */
  lemma RootCleanupComposes(s: Store, t: Store, u: Store, c: Claim, failed: set<Resource>)
    requires if c.io then OnlyDeletes(s, t, Instance(c.instance)) else Quiet(s, t)
    requires if c.vo then OnlyDeletes(t, u, Volume(c.volume)) else u == t
    requires failed <= c.Submitted()
    requires c.io && Instance(c.instance) !in failed ==> Dropped(s, t, Instance(c.instance))
    requires c.vo && Volume(c.volume) !in failed ==> Dropped(t, u, Volume(c.volume))
    ensures CleanedUp(s, u, c, failed)
  {
    if c.io {
      CleanupComposes(s, t, u, c, failed);
    } else {
      CleanupComposes(t, t, u, c, failed);
      forall r | r !in c.Submitted() ensures Undisturbed(s, u, r) {
        assert Undisturbed(s, t, r) && Undisturbed(t, u, r);
      }
      forall r | r in c.Submitted() && r !in failed ensures Dropped(s, u, r) {
        assert Undisturbed(s, t, r) && Dropped(t, u, r);
      }
    }
  }
}
