/**
 Provisioning of child and root sessions with rollback (internal/supervisor/provision/child.go,
 internal/supervisor/provision/root.go, internal/supervisor/provision/ownership.go).

 Every server call may fail before it is submitted, after it was submitted, or while its operation
 keeps running; the deferred cleanup is the second half of each Provision method.
*/
module Provision {
  import opened Wrappers
  import opened Incus

  datatype OwnedResource = OwnedResource(name: string, submitted: bool, confirmed: bool)

  class Ownership {
    var instance: OwnedResource
    var volume: OwnedResource

    constructor ()
      ensures instance == OwnedResource("", false, false) && volume == OwnedResource("", false, false)
    {
      instance, volume := OwnedResource("", false, false), OwnedResource("", false, false);
    }

    method RecordInstanceSubmitted(name: string)
      modifies this`instance
      ensures instance == OwnedResource(name, true, old(instance.confirmed))
    {
      instance := instance.(name := name, submitted := true);
    }

    method RecordInstanceConfirmed()
      modifies this`instance
      ensures instance == old(instance).(confirmed := old(instance.confirmed) || old(instance.submitted))
    {
      if instance.submitted {
        instance := instance.(confirmed := true);
      }
    }

    method RecordVolumeSubmitted(name: string)
      modifies this`volume
      ensures volume == OwnedResource(name, true, old(volume.confirmed))
    {
      volume := volume.(name := name, submitted := true);
    }

    method RecordVolumeConfirmed()
      modifies this`volume
      ensures volume == old(volume).(confirmed := old(volume.confirmed) || old(volume.submitted))
    {
      if volume.submitted {
        volume := volume.(confirmed := true);
      }
    }
  }

  /** `unawaited` are the operations whose wait timed out, `cleanupFailed` the resources whose cleanup reported an error. */
  datatype Outcome = Ready | Failed(unawaited: set<Operation>, awaitFailed: bool, cleanupFailed: set<Resource>)

  // ---------------------------------------------------------------- what the record knows about the store

  /** What is not submitted is untouched; what is submitted can only still be created by an operation in `errors`. */
  ghost predicate Tracks(s0: Store, s: Store, resource: Resource, owned: bool, confirmed: bool, errors: seq<Error>) {
    && (owned ==>
          && !RemovePending(s, resource)
          && forall id | id in s.pending && s.pending[id] == Create(resource) ::
               Error(Some(Ticket(id, Create(resource)))) in errors)
    && (!owned ==> NonePending(s, resource) && (resource in s.present <==> resource in s0.present))
    && (confirmed ==> owned && NonePending(s, resource) && resource in s.present)
  }

  /** The claims a session has made on its two names. */
  datatype Claim = Claim(instance: string, volume: string, io: bool, ic: bool, vo: bool, vc: bool) {
    function Submitted(): set<Resource> {
      (if io then {Instance(instance)} else {}) + (if vo then {Volume(volume)} else {})
    }
  }

  ghost predicate Ledger(s0: Store, s: Store, c: Claim, errors: seq<Error>) {
    && Tracks(s0, s, Instance(c.instance), c.io, c.ic, errors)
    && Tracks(s0, s, Volume(c.volume), c.vo, c.vc, errors)
    && s.submitted == s0.submitted + c.Submitted()
    && s.deleted == s0.deleted
  }

  function NoClaim(instance: string, volume: string): Claim { Claim(instance, volume, false, false, false, false) }

  function ClaimOf(instance: string, volume: string, i: OwnedResource, v: OwnedResource): Claim {
    Claim(instance, volume, i.submitted, i.confirmed, v.submitted, v.confirmed)
  }

  lemma QuietKeepsLedger(s0: Store, s: Store, t: Store, c: Claim, errors: seq<Error>)
    requires Ledger(s0, s, c, errors) && Quiet(s, t)
    ensures Ledger(s0, t, c, errors)
  {
    assert Undisturbed(s, t, Instance(c.instance)) && Undisturbed(s, t, Volume(c.volume));
  }

  lemma ChangeKeepsLedger(s0: Store, s: Store, t: Store, c: Claim, errors: seq<Error>, err: seq<Error>)
    requires Ledger(s0, s, c, errors) && ChangedOnly(s, t)
    ensures Ledger(s0, t, c, errors + err)
  {
    assert Undisturbed(s, t, Instance(c.instance)) && Undisturbed(s, t, Volume(c.volume));
  }

  lemma CreatedVolume(s0: Store, s: Store, t: Store, c: Claim, errors: seq<Error>, err: Option<Error>)
    requires Ledger(s0, s, c, errors) && Created(s, t, Volume(c.volume), err)
    requires !c.vo && !c.vc && !c.io && !c.ic
    ensures err.None? ==> Ledger(s0, t, c.(vo := true, vc := true), errors)
    ensures err.Some? && err.value.ticket.Some? ==> Ledger(s0, t, c.(vo := true), errors + [err.value])
    ensures err.Some? && err.value.ticket.None? ==> Ledger(s0, t, c, errors)
  {
    assert Undisturbed(s, t, Instance(c.instance));
  }

  lemma CreatedInstance(s0: Store, s: Store, t: Store, c: Claim, errors: seq<Error>, err: Option<Error>)
    requires Ledger(s0, s, c, errors) && Created(s, t, Instance(c.instance), err)
    requires !c.io && !c.ic && c.vc
    ensures err.None? ==> Ledger(s0, t, c.(io := true, ic := true), errors)
    ensures err.Some? && err.value.ticket.Some? ==> Ledger(s0, t, c.(io := true), errors + [err.value])
    ensures err.Some? && err.value.ticket.None? ==> Ledger(s0, t, c, errors)
  {
    assert Undisturbed(s, t, Volume(c.volume));
  }

  // ---------------------------------------------------------------- waiting

  /** Waiting for every retained operation, as both deferred cleanups do first. */
  method AwaitAll(server: Server, errors: seq<Error>) returns (unawaited: set<Operation>, failed: bool)
    requires forall e | e in errors :: e.ticket.Some?
    modifies server
    ensures Quiet(old(server.store), server.store)
    ensures forall e | e in errors && e.ticket.value.operation !in unawaited :: e.ticket.value.id !in server.store.pending
    ensures forall operation | operation in unawaited :: exists e :: e in errors && e.ticket.value.operation == operation
    ensures server.tick == old(server.tick) + |errors|
    ensures unawaited != {} ==> exists k: nat :: old(server.tick) <= k < server.tick && server.oracle(k).reply == Slow
    ensures |errors| == 1 && errors[0].ticket.value.id in old(server.store).pending && Still(server.oracle(old(server.tick)), Slow) ==>
              unawaited == {errors[0].ticket.value.operation} && !failed && server.store == old(server.store)
  {
    unawaited, failed := {}, false;
    for k := 0 to |errors|
      invariant Quiet(old(server.store), server.store)
      invariant server.tick == old(server.tick) + k
      invariant unawaited != {} ==> exists j: nat :: old(server.tick) <= j < server.tick && server.oracle(j).reply == Slow
      invariant forall j | 0 <= j < k && errors[j].ticket.value.operation !in unawaited ::
                  errors[j].ticket.value.id !in server.store.pending
      invariant forall operation | operation in unawaited :: exists e :: e in errors && e.ticket.value.operation == operation
      invariant k == 0 ==> server.store == old(server.store) && unawaited == {} && !failed
      invariant k == 1 && errors[0].ticket.value.id in old(server.store).pending && Still(server.oracle(old(server.tick)), Slow) ==>
                  unawaited == {errors[0].ticket.value.operation} && !failed && server.store == old(server.store)
    {
      ghost var before := server.store;
      var wait := server.AwaitSubmitted(errors[k]);
      QuietCompose(old(server.store), before, server.store);
      match wait {
        case Finished(ok) => failed := failed || !ok;
        case TimedOut => unawaited := unawaited + {errors[k].ticket.value.operation};
        case NotSubmitted => failed := true;
      }
    }
  }

  /** Calls that concern one resource leave every other one alone. */
  ghost predicate OnlyDeletes(s: Store, t: Store, resource: Resource) {
    && t.submitted == s.submitted
    && s.deleted <= t.deleted <= s.deleted + {resource}
    && forall r | r != resource :: Undisturbed(s, t, r)
  }

  /** Gone, unless a pending creation brings it back. */
  ghost predicate Dropped(s: Store, t: Store, resource: Resource) {
    && (resource in t.present ==> CreatePending(s, resource))
    && (CreatePending(t, resource) ==> CreatePending(s, resource))
    && (RemovePending(t, resource) ==> RemovePending(s, resource))
  }

  lemma QuietOnlyDeletes(s: Store, t: Store, u: Store, resource: Resource)
    requires (Quiet(s, t) && OnlyDeletes(t, u, resource)) || (OnlyDeletes(s, t, resource) && Quiet(t, u))
    ensures OnlyDeletes(s, u, resource)
  {
    forall r | r != resource ensures Undisturbed(s, u, r) {
      assert Undisturbed(s, t, r) && Undisturbed(t, u, r);
    }
  }

  // ---------------------------------------------------------------- what the outcome means

  /** Cleanup of a claim: a claimed resource is gone unless its own cleanup failed, and nothing else is touched. */
  ghost predicate CleanedUp(s: Store, t: Store, c: Claim, failed: set<Resource>) {
    && t.submitted == s.submitted
    && s.deleted <= t.deleted <= s.deleted + c.Submitted()
    && failed <= c.Submitted()
    && (forall r | r !in c.Submitted() :: Undisturbed(s, t, r))
    && (forall r | r in c.Submitted() && r !in failed :: Dropped(s, t, r))
  }

  lemma CleanupComposes(s: Store, t: Store, u: Store, c: Claim, failed: set<Resource>)
    requires if c.io then OnlyDeletes(s, t, Instance(c.instance)) else t == s
    requires if c.vo then OnlyDeletes(t, u, Volume(c.volume)) else u == t
    requires failed <= c.Submitted()
    requires c.io && Instance(c.instance) !in failed ==> Dropped(s, t, Instance(c.instance))
    requires c.vo && Volume(c.volume) !in failed ==> Dropped(t, u, Volume(c.volume))
    ensures CleanedUp(s, u, c, failed)
  {
    forall r | r != Instance(c.instance) ensures Undisturbed(s, t, r) {
    }
    forall r | r != Volume(c.volume) ensures Undisturbed(t, u, r) {
    }
    forall r | r !in c.Submitted() ensures Undisturbed(s, u, r) {
      assert Undisturbed(s, t, r) && Undisturbed(t, u, r);
    }
    forall r | r in c.Submitted() && r !in failed ensures Dropped(s, u, r) {
      if r == Instance(c.instance) {
        assert Undisturbed(t, u, r);
      } else {
        assert Undisturbed(s, t, r);
      }
    }
  }

  /**
   Provisioned: the resource is there and stays. Failed: unless it was the wait for the resource's own
   creation that timed out, or its own cleanup that failed, no operation on it is pending any more, and it
   is gone if this call was the first to submit it and as before if nobody did.
  */
  ghost predicate Settled(s0: Store, t: Store, resource: Resource, outcome: Outcome) {
    match outcome
    case Ready => resource in t.present && NonePending(t, resource) && resource in t.submitted
    case Failed(unawaited, _, cleanupFailed) =>
      Create(resource) !in unawaited && resource !in cleanupFailed ==>
        && NonePending(t, resource)
        && (resource in t.present ==> resource in s0.present)
        && (resource in t.submitted && resource !in s0.submitted ==> resource !in t.present)
        && (resource !in t.submitted ==> (resource in t.present <==> resource in s0.present))
  }

  /** The names a session gets are new ones. */
  ghost predicate Vacant(s: Store, instance: string, volume: string) {
    Instance(instance) !in s.present && Volume(volume) !in s.present && Idle(s, instance)
  }

  ghost predicate StartPending(s: Store, name: string) {
    exists id :: id in s.pending && s.pending[id] == Start(name)
  }

  /** Only the session's own two names were submitted, and only submitted names were deleted. */
  ghost predicate Honest(s0: Store, t: Store, own: set<Resource>) {
    && s0.submitted <= t.submitted <= s0.submitted + own
    && s0.deleted <= t.deleted <= s0.deleted + (t.submitted * own)
  }

  lemma ResourceSettles(s0: Store, s1: Store, s2: Store, t: Store, c: Claim, resource: Resource, owned: bool, confirmed: bool,
                        errors: seq<Error>, outcome: Outcome)
    requires Tracks(s0, s1, resource, owned, confirmed, errors) && Quiet(s1, s2) && outcome.Failed?
    requires forall e | e in errors :: e.ticket.Some?
    requires forall e | e in errors && e.ticket.value.operation !in outcome.unawaited :: e.ticket.value.id !in s2.pending
    requires CleanedUp(s2, t, c, outcome.cleanupFailed) && (owned <==> resource in c.Submitted())
    requires s1.submitted == s0.submitted + c.Submitted()
    ensures Settled(s0, t, resource, outcome)
  {
    assert Undisturbed(s1, s2, resource);
    assert !owned ==> Undisturbed(s2, t, resource);
    assert owned && resource !in outcome.cleanupFailed ==> Dropped(s2, t, resource);
  }

  lemma RollbackSettles(s0: Store, s1: Store, s2: Store, t: Store, c: Claim, errors: seq<Error>, outcome: Outcome)
    requires Ledger(s0, s1, c, errors) && Quiet(s1, s2) && outcome.Failed?
    requires forall e | e in errors :: e.ticket.Some?
    requires forall e | e in errors && e.ticket.value.operation !in outcome.unawaited :: e.ticket.value.id !in s2.pending
    requires CleanedUp(s2, t, c, outcome.cleanupFailed)
    ensures Settled(s0, t, Instance(c.instance), outcome) && Settled(s0, t, Volume(c.volume), outcome)
    ensures Honest(s0, t, {Instance(c.instance), Volume(c.volume)})
  {
    ResourceSettles(s0, s1, s2, t, c, Instance(c.instance), c.io, c.ic, errors, outcome);
    ResourceSettles(s0, s1, s2, t, c, Volume(c.volume), c.vo, c.vc, errors, outcome);
  }

  /** After a settled failure nothing that is still to happen brings a submitted name back or takes another away. */
  lemma SettledForGood(s0: Store, t: Store, resource: Resource, outcome: Outcome)
    requires outcome.Failed? && Settled(s0, t, resource, outcome)
    requires Create(resource) !in outcome.unawaited && resource !in outcome.cleanupFailed
    ensures if resource in t.present then !MayVanish(t, resource) else !MayAppear(t, resource)
  {
    if resource in t.present {
      VanishesExactly(t, resource);
    } else {
      AppearsExactly(t, resource);
    }
  }

  /** The replies of a run whose volume copy outlives both waits while nothing else goes wrong. */
  ghost predicate SlowCopy(oracle: nat -> Response, tick: nat) {
    AllFine(oracle, tick, tick + 6) && oracle(tick + 6).reply == Slow
  }
}
