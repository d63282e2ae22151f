/** Child sessions (internal/supervisor/provision/child.go). */
module ProvisionChild {
  import opened Wrappers
  import opened Incus
  import opened Provision

  class ChildProvisioner {
    const server: Server

    constructor (server: Server)
      ensures this.server == server
    {
      this.server := server;
    }

    // ---------------------------------------------------------------- cleanup

    method DeleteOwnedInstance(name: string) returns (failed: bool)
      modifies server
      ensures OnlyDeletes(old(server.store), server.store, Instance(name))
      ensures !failed ==> Instance(name) !in server.store.present && Dropped(old(server.store), server.store, Instance(name))
      ensures old(server.tick) <= server.tick
      ensures failed ==> !AllFine(server.oracle, old(server.tick), server.tick) || StartPending(old(server.store), name)
    {
      ghost var s := server.store;
      var probe := server.ProbeResource(Instance(name));
      if probe == NotFound {
        return false;
      }
      if !probe.Found? {
        return true;
      }
      if probe.active {
        ghost var mid := server.store;
        var stopped := server.StopInstance(name);
        QuietCompose(s, mid, server.store);
        if stopped == NotRemoved {
          return true;
        }
      }
      ghost var t := server.store;
      var removal := server.DeleteResource(Instance(name));
      QuietOnlyDeletes(s, t, server.store, Instance(name));
      failed := removal == NotRemoved;
    }

    /** A volume whose copy was never confirmed is probed first; the instance's metadata is not a gate. */
    method DeleteOwnedVolume(name: string, confirmed: bool) returns (failed: bool)
      modifies server
      ensures OnlyDeletes(old(server.store), server.store, Volume(name))
      ensures !failed ==> Volume(name) !in server.store.present && Dropped(old(server.store), server.store, Volume(name))
      ensures old(server.tick) <= server.tick
      ensures failed ==> !AllFine(server.oracle, old(server.tick), server.tick)
      ensures !confirmed && Still(server.oracle(old(server.tick)), Fine) && Volume(name) !in old(server.store).present ==>
                !failed && server.store == old(server.store)
    {
      ghost var s := server.store;
      if !confirmed {
        var probe := server.ProbeResource(Volume(name));
        if probe == NotFound {
          return false;
        }
        if !probe.Found? {
          return true;
        }
      }
      ghost var t := server.store;
      assert Quiet(s, t);
      var removal := server.DeleteResource(Volume(name));
      QuietOnlyDeletes(s, t, server.store, Volume(name));
      failed := removal == NotRemoved;
    }

    /** Nothing was submitted before the pool was resolved, so there is nothing to clean up then. */
    method CleanupOwned(resolved: bool, i: OwnedResource, v: OwnedResource) returns (failed: set<Resource>)
      requires i.submitted || v.submitted ==> resolved
      modifies server
      ensures CleanedUp(old(server.store), server.store, ClaimOf(i.name, v.name, i, v), failed)
      ensures old(server.tick) <= server.tick
      ensures failed != {} ==> !AllFine(server.oracle, old(server.tick), server.tick) || StartPending(old(server.store), i.name)
      ensures !i.submitted && v.submitted && !v.confirmed && Still(server.oracle(old(server.tick)), Fine)
              && Volume(v.name) !in old(server.store).present ==>
                failed == {} && server.store == old(server.store)
    {
      failed := {};
      if !resolved {
        return;
      }
      ghost var s := server.store;
      if i.submitted {
        var instanceFailed := DeleteOwnedInstance(i.name);
        failed := if instanceFailed then {Instance(i.name)} else {};
      }
      ghost var t := server.store;
      if v.submitted {
        var volumeFailed := DeleteOwnedVolume(v.name, v.confirmed);
        failed := failed + if volumeFailed then {Volume(v.name)} else {};
      }
      CleanupComposes(s, t, server.store, ClaimOf(i.name, v.name, i, v), failed);
    }

    // ---------------------------------------------------------------- the attempt, phase by phase

    /** Everything before the first creation only reads. */
    method Preflight() returns (ok: bool, resolved: bool)
      modifies server
      ensures Quiet(old(server.store), server.store)
      ensures ok ==> resolved && server.tick == old(server.tick) + 6
      ensures ok ==> AllFine(server.oracle, old(server.tick), server.tick)
      ensures server.tick <= old(server.tick) + 6
      ensures old(server.tick) <= server.tick && (AllFine(server.oracle, old(server.tick), server.tick) ==> ok)
    {
      resolved := false;
      ok := server.ChecksPass(1);               // proxy listener
      if !ok { return; }
      ghost var mid := server.store;
      ok := server.Check();              // workspace pool
      QuietCompose(old(server.store), mid, server.store);
      resolved := ok;
      if !ok { return; }
      mid := server.store;
      ok := server.ChecksPass(4);               // parent and its root pool, storage pool, same pool, parent volume
      QuietCompose(old(server.store), mid, server.store);
    }

    method CopyVolume(ownership: Ownership, volume: string, ghost s0: Store, ghost c: Claim)
        returns (ok: bool, errors: seq<Error>)
      requires c == NoClaim(c.instance, volume) && Ledger(s0, server.store, c, [])
      requires ownership.volume == OwnedResource("", false, false)
      modifies server, ownership`volume
      ensures forall e | e in errors :: e.ticket.Some?
      ensures ok ==> ownership.volume == OwnedResource(volume, true, true) && errors == []
      ensures ok ==> server.store.confirmed == old(server.store).confirmed + [Create(Volume(volume))]
      ensures ownership.volume.submitted ==> ownership.volume.name == volume
      ensures old(server.tick) <= server.tick && (AllFine(server.oracle, old(server.tick), server.tick) && Volume(volume) !in old(server.store).present ==> ok)
      ensures ok ==> KeepsIdle(old(server.store), server.store)
      ensures server.oracle(old(server.tick)).reply == Slow ==>
                && !ok && server.tick == old(server.tick) + 1 && ownership.volume == OwnedResource(volume, true, false)
                && Retained(old(server.store), server.store, Volume(volume), errors)
      ensures Ledger(s0, server.store, c.(vo := ownership.volume.submitted, vc := ownership.volume.confirmed), errors)
    {
      ghost var s := server.store;
      errors := [];
      var err := server.CreateResource(Volume(volume));
      CreatedVolume(s0, s, server.store, c, [], err);
      if err.Some? {
        if err.value.ticket.Some? {
          ownership.RecordVolumeSubmitted(volume);
          errors := [err.value];
          assert [] + [err.value] == errors;
        }
        return false, errors;
      }
      ownership.RecordVolumeSubmitted(volume);
      ownership.RecordVolumeConfirmed();
      ok := true;
    }

    method CopyInstance(ownership: Ownership, instance: string, ghost s0: Store, ghost c: Claim)
        returns (ok: bool, errors: seq<Error>)
      requires c == NoClaim(instance, c.volume).(vo := true, vc := true) && Ledger(s0, server.store, c, [])
      requires ownership.instance == OwnedResource("", false, false)
      modifies server, ownership`instance
      ensures forall e | e in errors :: e.ticket.Some?
      ensures ok ==> ownership.instance == OwnedResource(instance, true, true) && errors == []
      ensures ok ==> server.store.confirmed == old(server.store).confirmed + [Create(Instance(instance))]
      ensures ownership.instance.submitted ==> ownership.instance.name == instance
      ensures old(server.tick) <= server.tick && (AllFine(server.oracle, old(server.tick), server.tick) && Instance(instance) !in old(server.store).present ==> ok)
      ensures ok ==> KeepsIdle(old(server.store), server.store)
      ensures Ledger(s0, server.store, c.(io := ownership.instance.submitted, ic := ownership.instance.confirmed), errors)
    {
      ghost var s := server.store;
      errors := [];
      var err := server.CreateResource(Instance(instance));
      CreatedInstance(s0, s, server.store, c, [], err);
      if err.Some? {
        if err.value.ticket.Some? {
          ownership.RecordInstanceSubmitted(instance);
          errors := [err.value];
          assert [] + [err.value] == errors;
        }
        return false, errors;
      }
      ownership.RecordInstanceSubmitted(instance);
      ownership.RecordInstanceConfirmed();
      ok := true;
    }

    /** Devices and metadata of the stopped copies. */
    method Configure(instance: string, ghost s0: Store, ghost c: Claim) returns (ok: bool, errors: seq<Error>)
      requires Ledger(s0, server.store, c, [])
      modifies server
      ensures forall e | e in errors :: e.ticket.Some?
      ensures ok ==> errors == []
      ensures ok ==>
                && server.store.confirmed == old(server.store).confirmed + [Change(instance)]
                && server.tick == old(server.tick) + 5 && AllFine(server.oracle, old(server.tick), server.tick)
      ensures old(server.tick) <= server.tick && (AllFine(server.oracle, old(server.tick), server.tick) && c.ic && c.instance == instance && Idle(old(server.store), instance) ==> ok)
      ensures Ledger(s0, server.store, c, errors)
    {
      errors := [];
      ghost var s := server.store;
      var probe := server.ProbeResource(Instance(instance));
      QuietKeepsLedger(s0, s, server.store, c, []);
      if !probe.Found? || probe.active {
        return false, [];
      }
      s := server.store;
      var err := server.ChangeInstance(Change(instance));
      if err.Some? {
        errors := if err.value.ticket.Some? then [err.value] else [];
        ChangeKeepsLedger(s0, s, server.store, c, [], errors);
        assert [] + errors == errors;
        return false, errors;
      }
      ChangeKeepsLedger(s0, s, server.store, c, [], []);
      s := server.store;
      ok := server.ChecksPass(3);               // read the volume, write its metadata, verify the devices
      QuietKeepsLedger(s0, s, server.store, c, []);
    }

    /** A start refused for a MAC address collision is retried once; the joined error retains the first operation. */
    method RegenerateNICMACAndRetryStart(instance: string, collision: Error, ghost s0: Store, ghost c: Claim)
        returns (err: Option<Error>)
      requires Ledger(s0, server.store, c, [])
      modifies server
      ensures Ledger(s0, server.store, c, [])
      ensures old(server.tick) <= server.tick
      ensures err.None? ==>
                && instance in server.store.active
                && server.store.confirmed == old(server.store).confirmed + [Change(instance), Start(instance)]
      ensures err.Some? && collision.ticket.Some? ==> err.value.ticket == collision.ticket
    {
      ghost var s := server.store;
      var probe := server.ProbeResource(Instance(instance));
      QuietKeepsLedger(s0, s, server.store, c, []);
      if !probe.Found? {
        return Some(Join(collision, Error(None)));
      }
      s := server.store;
      var regenerated := server.Check();
      QuietKeepsLedger(s0, s, server.store, c, []);
      if !regenerated {
        return Some(collision);
      }
      s := server.store;
      err := server.ChangeInstance(Change(instance));
      ChangeKeepsLedger(s0, s, server.store, c, [], []);
      if err.Some? {
        return Some(Join(collision, err.value));
      }
      s := server.store;
      err := server.ChangeInstance(Start(instance));
      ChangeKeepsLedger(s0, s, server.store, c, [], []);
      if err.Some? {
        return Some(Join(collision, err.value));
      }
    }

    method Launch(instance: string, ghost s0: Store, ghost c: Claim) returns (ok: bool, errors: seq<Error>)
      requires Ledger(s0, server.store, c, [])
      modifies server
      ensures forall e | e in errors :: e.ticket.Some?
      ensures ok ==> errors == []
      ensures ok ==> instance in server.store.active && Launched(old(server.store), server.store, instance)
      ensures ok ==> old(server.tick) + 2 <= server.tick && AllFine(server.oracle, server.tick - 2, server.tick)
      ensures old(server.tick) <= server.tick && (AllFine(server.oracle, old(server.tick), server.tick) ==> ok)
      ensures Ledger(s0, server.store, c, errors)
    {
      errors := [];
      ghost var s := server.store;
      var err := server.ChangeInstance(Start(instance));
      ChangeKeepsLedger(s0, s, server.store, c, [], []);
      if err.Some? {
        s := server.store;
        var duplicateMAC := server.Check();
        QuietKeepsLedger(s0, s, server.store, c, []);
        if duplicateMAC {
          err := RegenerateNICMACAndRetryStart(instance, err.value, s0, c);
        }
      }
      if err.Some? {
        errors := if err.value.ticket.Some? then [err.value] else [];
        return false, errors;
      }
      s := server.store;
      ok := server.ChecksPass(2);               // prepare the workspace, wait for the RPC address
      QuietKeepsLedger(s0, s, server.store, c, []);
    }

    method Attempt(ownership: Ownership, instance: string, volume: string)
        returns (ok: bool, resolved: bool, errors: seq<Error>)
      requires NonePending(server.store, Instance(instance)) && NonePending(server.store, Volume(volume))
      requires ownership.instance == OwnedResource("", false, false) && ownership.volume == OwnedResource("", false, false)
      modifies server, ownership
      ensures forall e | e in errors :: e.ticket.Some?
      ensures ok ==> errors == [] && ClaimOf(instance, volume, ownership.instance, ownership.volume) == Claim(instance, volume, true, true, true, true)
      ensures ok ==> instance in server.store.active && Built(old(server.store), server.store, instance, volume)
      ensures ok ==> old(server.tick) + 2 <= server.tick && AllFine(server.oracle, server.tick - 2, server.tick)
      ensures server.store.submitted != old(server.store).submitted ==>
                AllFine(server.oracle, old(server.tick), old(server.tick) + 6)
      ensures ownership.instance.submitted ==> ownership.instance.name == instance
      ensures ownership.volume.submitted ==> ownership.volume.name == volume
      ensures ownership.instance.submitted || ownership.volume.submitted ==> resolved
      ensures old(server.tick) <= server.tick && (AllFine(server.oracle, old(server.tick), server.tick) && Vacant(old(server.store), instance, volume) ==> ok)
      ensures SlowCopy(server.oracle, old(server.tick)) ==>
                && !ok && resolved && server.tick == old(server.tick) + 7
                && ownership.volume == OwnedResource(volume, true, false) && !ownership.instance.submitted
                && Retained(old(server.store), server.store, Volume(volume), errors)
      ensures Ledger(old(server.store), server.store, ClaimOf(instance, volume, ownership.instance, ownership.volume), errors)
    {
      ghost var s0 := server.store;
      ghost var c := NoClaim(instance, volume);
      errors := [];
      ok, resolved := Preflight();
      QuietKeepsLedger(s0, s0, server.store, c, []);
      if !ok { return; }
      ok, errors := CopyVolume(ownership, volume, s0, c);
      if !ok { return; }
      c := c.(vo := true, vc := true);
      ok, errors := CopyInstance(ownership, instance, s0, c);
      if !ok { return; }
      c := c.(io := true, ic := true);
      ok, errors := Configure(instance, s0, c);
      if !ok { return; }
      ok, errors := Launch(instance, s0, c);
    }

    /** The deferred cleanup: wait for what was submitted, then delete what is owned. */
    method Rollback(resolved: bool, i: OwnedResource, v: OwnedResource, errors: seq<Error>, ghost s0: Store, ghost c: Claim)
        returns (outcome: Outcome)
      requires forall e | e in errors :: e.ticket.Some?
      requires i.submitted || v.submitted ==> resolved
      requires c == ClaimOf(c.instance, c.volume, i, v) && Ledger(s0, server.store, c, errors)
      requires (i.submitted ==> i.name == c.instance) && (v.submitted ==> v.name == c.volume)
      modifies server
      ensures outcome.Failed? && old(server.tick) <= server.tick && server.store.submitted == old(server.store).submitted
      ensures Settled(s0, server.store, Instance(c.instance), outcome) && Settled(s0, server.store, Volume(c.volume), outcome)
      ensures Honest(s0, server.store, {Instance(c.instance), Volume(c.volume)})
      ensures outcome.unawaited != {} ==>
                exists k: nat :: old(server.tick) <= k < server.tick && server.oracle(k).reply == Slow
      ensures !i.submitted && v.submitted && !v.confirmed && Volume(c.volume) !in old(server.store).present
              && |errors| == 1 && errors[0].ticket.value.operation == Create(Volume(c.volume))
              && errors[0].ticket.value.id in old(server.store).pending
              && Still(server.oracle(old(server.tick)), Slow) && Still(server.oracle(old(server.tick) + 1), Fine) ==>
                outcome == Failed({Create(Volume(c.volume))}, false, {}) && server.store == old(server.store)
    {
      hide Quiet, Ledger, Settled, Honest, CleanedUp;
      ghost var s1 := server.store;
      var unawaited, awaitFailed := AwaitAll(server, errors);
      ghost var s2 := server.store;
      var cleanupFailed := CleanupOwned(resolved, i, v);
      outcome := Failed(unawaited, awaitFailed, cleanupFailed);
      SameClaim(s2, server.store, ClaimOf(i.name, v.name, i, v), c, cleanupFailed);
      RollbackSettles(s0, s1, s2, server.store, c, errors, outcome);
    }

    /**
     Whatever fails, and wherever: a name this call submitted is gone and nothing can bring it back,
     unless the wait for its own creation timed out or its own cleanup failed, and nothing else was
     deleted or changed. The exemption is needed: when only the copy's two waits are slow, the rollback
     reports no cleanup error and the volume may still appear.
    */
    method ProvisionChild(instance: string, volume: string) returns (outcome: Outcome)
      requires NonePending(server.store, Instance(instance)) && NonePending(server.store, Volume(volume))
      modifies server
      ensures Settled(old(server.store), server.store, Instance(instance), outcome)
      ensures Settled(old(server.store), server.store, Volume(volume), outcome)
      ensures Honest(old(server.store), server.store, {Instance(instance), Volume(volume)})
      ensures old(server.tick) <= server.tick
      // ready means built and started, in this order, with the workspace prepared and the RPC address known
      ensures outcome == Ready ==>
                && instance in server.store.active && Built(old(server.store), server.store, instance, volume)
                && old(server.tick) + 2 <= server.tick && AllFine(server.oracle, server.tick - 2, server.tick)
      // nothing is submitted before the proxy, the pool and the parent were checked
      ensures server.store.submitted != old(server.store).submitted ==>
                AllFine(server.oracle, old(server.tick), old(server.tick) + 6)
      ensures AllFine(server.oracle, old(server.tick), server.tick) && Vacant(old(server.store), instance, volume) ==> outcome == Ready
      ensures SlowCopy(server.oracle, old(server.tick)) && Still(server.oracle(old(server.tick) + 7), Slow)
              && Still(server.oracle(old(server.tick) + 8), Fine) && Volume(volume) !in old(server.store).present ==>
                && outcome == Failed({Create(Volume(volume))}, false, {})
                && Volume(volume) !in server.store.present && CreatePending(server.store, Volume(volume))
    {
      hide Ledger, Settled, Honest;
      var ownership := new Ownership();
      ghost var s0 := server.store;
      var ok, resolved, errors := Attempt(ownership, instance, volume);
      if ok {
        ReadySettles(s0, server.store, instance, volume);
        return Ready;
      }
      ghost var c := ClaimOf(instance, volume, ownership.instance, ownership.volume);
      outcome := Rollback(resolved, ownership.instance, ownership.volume, errors, s0, c);
    }

    /** Destroy reports success only when both names are gone; only a creation still pending can bring one back. */
    method Destroy(instance: string, volume: string) returns (failed: bool)
      modifies server
      ensures !failed && instance != "" ==> Dropped(old(server.store), server.store, Instance(instance))
      ensures !failed && volume != "" ==>
                Volume(volume) !in server.store.present && Dropped(old(server.store), server.store, Volume(volume))
      ensures server.store.deleted <= old(server.store.deleted) + {Instance(instance), Volume(volume)}
    {
      ghost var s := server.store;
      failed := false;
      if instance != "" {
        failed := DeleteOwnedInstance(instance);
      }
      ghost var t := server.store;
      assert Undisturbed(s, t, Volume(volume));
      if volume != "" {
        var volumeFailed := DeleteOwnedVolume(volume, true);
        failed := failed || volumeFailed;
        assert Undisturbed(t, server.store, Instance(instance));
      }
    }
  }

  /** A start was confirmed last, after nothing but changes of the instance. */
  ghost predicate Launched(s: Store, t: Store, instance: string) {
    t.confirmed == s.confirmed + [Start(instance)] || t.confirmed == s.confirmed + [Change(instance), Start(instance)]
  }

  /** Volume and instance copied, then the devices changed, then the instance started. */
  ghost predicate Built(s: Store, t: Store, instance: string, volume: string) {
    var copied := s.confirmed + [Create(Volume(volume)), Create(Instance(instance)), Change(instance)];
    t.confirmed == copied + [Start(instance)] || t.confirmed == copied + [Change(instance), Start(instance)]
  }

  /** One error retains the creation of the resource, which is pending, and the resource did not appear otherwise. */
  ghost predicate Retained(s: Store, t: Store, resource: Resource, errors: seq<Error>) {
    && |errors| == 1 && errors[0].ticket.Some? && errors[0].ticket.value.operation == Create(resource)
    && errors[0].ticket.value.id in t.pending && t.pending[errors[0].ticket.value.id] == Create(resource)
    && (resource in t.present ==> resource in s.present || CreatePending(s, resource))
  }

  lemma ReadySettles(s0: Store, s: Store, instance: string, volume: string)
    requires Ledger(s0, s, Claim(instance, volume, true, true, true, true), [])
    ensures Settled(s0, s, Instance(instance), Ready) && Settled(s0, s, Volume(volume), Ready)
    ensures Honest(s0, s, {Instance(instance), Volume(volume)})
  {
  }

  /** A name that was not submitted plays no part in a claim. */
  lemma SameClaim(s: Store, t: Store, one: Claim, other: Claim, failed: set<Resource>)
    requires CleanedUp(s, t, one, failed) && one.Submitted() == other.Submitted()
    ensures CleanedUp(s, t, other, failed)
  {
  }

  /** The run that shows the exemption is needed, on a server of its own. */
  method SlowCopyOutlivesRollback() returns (server: Server, outcome: Outcome)
    ensures outcome == Failed({Create(Volume("v"))}, false, {})
    ensures Volume("v") !in server.store.present
    ensures MayAppear(server.store, Volume("v"))
  {
    server := new Server(k => Response(if k == 6 || k == 7 then Slow else Fine, {}, {}, false));
    var provisioner := new ChildProvisioner(server);
    outcome := provisioner.ProvisionChild("i", "v");
    AppearsExactly(server.store, Volume("v"));
  }
}
