/**
 The Incus server as the provisioners see it: a store of named instances and volumes, asynchronous
 operations that may outlive the wait for them, and replies an arbitrary oracle chooses.
*/
module Incus {
  import opened Wrappers

  datatype Resource = Instance(name: string) | Volume(name: string)

  datatype Operation = Create(resource: Resource) | Remove(resource: Resource) | Change(name: string) | Start(name: string)

  /**
   `submitted` and `deleted` are histories: what clients asked the server to create and to delete;
   `confirmed` lists, in order, the creations and changes the server answered with success.
  */
  datatype Store = Store(
    present: set<Resource>,
    active: set<string>,
    pending: map<nat, Operation>,
    nextID: nat,
    submitted: set<Resource>,
    deleted: set<Resource>,
    confirmed: seq<Operation>)

  ghost predicate CreatePending(s: Store, resource: Resource) {
    exists id :: id in s.pending && s.pending[id] == Create(resource)
  }

  ghost predicate RemovePending(s: Store, resource: Resource) {
    exists id :: id in s.pending && s.pending[id] == Remove(resource)
  }

  ghost predicate NonePending(s: Store, resource: Resource) {
    !CreatePending(s, resource) && !RemovePending(s, resource)
  }

  /** A resource appears only by a pending creation, vanishes only by a pending removal, and neither is added. */
  ghost predicate Undisturbed(s: Store, t: Store, r: Resource) {
    && (CreatePending(t, r) ==> CreatePending(s, r))
    && (RemovePending(t, r) ==> RemovePending(s, r))
    && (r in t.present && r !in s.present ==> CreatePending(s, r))
    && (r in s.present && r !in t.present ==> RemovePending(s, r))
  }

  /** The instance is not running, and nothing pending will start it. */
  ghost predicate Idle(s: Store, name: string) {
    name !in s.active && forall id | id in s.pending :: s.pending[id] != Start(name)
  }

  ghost predicate KeepsIdle(s: Store, t: Store) {
    forall name: string | Idle(s, name) :: Idle(t, name)
  }

  /** Time passes: pending operations end, with or without their effect, and nothing else happens. */
  ghost predicate Quiet(s: Store, t: Store) {
    && t.submitted == s.submitted && t.deleted == s.deleted && t.nextID == s.nextID && t.confirmed == s.confirmed
    && (forall id | id in t.pending :: id in s.pending && t.pending[id] == s.pending[id])
    && (forall r :: Undisturbed(s, t, r))
    && KeepsIdle(s, t)
  }

  lemma QuietCompose(s: Store, t: Store, u: Store)
    requires Quiet(s, t) && Quiet(t, u)
    ensures Quiet(s, u)
  {
    forall r ensures Undisturbed(s, u, r) {
      assert Undisturbed(s, t, r) && Undisturbed(t, u, r);
    }
  }

  function Ended(s: Store, completed: set<nat>, aborted: set<nat>): Store {
    var created := set id | id in completed && id in s.pending && s.pending[id].Create? :: s.pending[id].resource;
    var removed := set id | id in completed && id in s.pending && s.pending[id].Remove? :: s.pending[id].resource;
    var present := (s.present + created) - removed;
    s.(present := present,
       active := s.active + set id | id in completed && id in s.pending && s.pending[id].Start? :: s.pending[id].name,
       pending := map id | id in s.pending && id !in completed && id !in aborted :: s.pending[id])
  }

  lemma EndedIsQuiet(s: Store, completed: set<nat>, aborted: set<nat>)
    ensures Quiet(s, Ended(s, completed, aborted))
  {
  }

  lemma EndedByNothing(s: Store)
    ensures Ended(s, {}, {}) == s
  {
    assert Ended(s, {}, {}).pending == s.pending;
  }

  // ---------------------------------------------------------------- what may still happen

  /** Any number of further endings. */
  datatype Ending = Ending(completed: set<nat>, aborted: set<nat>)

  function After(s: Store, endings: seq<Ending>): Store
    decreases |endings|
  {
    if endings == [] then s else After(Ended(s, endings[0].completed, endings[0].aborted), endings[1..])
  }

  lemma {:induction false} AfterIsQuiet(s: Store, endings: seq<Ending>)
    ensures Quiet(s, After(s, endings))
    decreases |endings|
  {
    if endings != [] {
      var t := Ended(s, endings[0].completed, endings[0].aborted);
      EndedIsQuiet(s, endings[0].completed, endings[0].aborted);
      AfterIsQuiet(t, endings[1..]);
      QuietCompose(s, t, After(t, endings[1..]));
    }
  }

  ghost predicate MayAppear(s: Store, resource: Resource) {
    exists endings: seq<Ending> :: resource in After(s, endings).present
  }

  ghost predicate MayVanish(s: Store, resource: Resource) {
    exists endings: seq<Ending> :: resource !in After(s, endings).present
  }

  lemma AfterOne(s: Store, id: nat)
    ensures After(s, [Ending({id}, {})]) == Ended(s, {id}, {})
  {
    assert [Ending({id}, {})][1..] == [];
  }

  lemma OnlyPendingChanges(s: Store, resource: Resource, endings: seq<Ending>)
    ensures resource in After(s, endings).present && resource !in s.present ==> CreatePending(s, resource)
    ensures resource !in After(s, endings).present && resource in s.present ==> RemovePending(s, resource)
  {
    AfterIsQuiet(s, endings);
    assert Undisturbed(s, After(s, endings), resource);
  }

  /** An absent resource can still appear if and only if a creation of it is pending. */
  lemma AppearsExactly(s: Store, resource: Resource)
    requires resource !in s.present
    ensures MayAppear(s, resource) <==> CreatePending(s, resource)
  {
    if CreatePending(s, resource) {
      var id :| id in s.pending && s.pending[id] == Create(resource);
      AfterOne(s, id);
      assert resource in After(s, [Ending({id}, {})]).present;
    }
    forall endings: seq<Ending> | resource in After(s, endings).present ensures CreatePending(s, resource) {
      OnlyPendingChanges(s, resource, endings);
    }
  }

  /** A present resource can still vanish if and only if a removal of it is pending. */
  lemma VanishesExactly(s: Store, resource: Resource)
    requires resource in s.present
    ensures MayVanish(s, resource) <==> RemovePending(s, resource)
  {
    if RemovePending(s, resource) {
      var id :| id in s.pending && s.pending[id] == Remove(resource);
      AfterOne(s, id);
      assert resource !in After(s, [Ending({id}, {})]).present;
    }
    forall endings: seq<Ending> | resource !in After(s, endings).present ensures RemovePending(s, resource) {
      OnlyPendingChanges(s, resource, endings);
    }
  }

  // ---------------------------------------------------------------- the server

  datatype Reply = Fine | Refused | Broken | Slow

  /** What the oracle decides about one call: who ended in the meantime, and how the call itself goes. */
  datatype Response = Response(reply: Reply, completed: set<nat>, aborted: set<nat>, applied: bool)

  datatype Ticket = Ticket(id: nat, operation: Operation)

  /** An error keeps the operation it was submitted as, if it was; `ticket` is the first one errors.As finds. */
  datatype Error = Error(ticket: Option<Ticket>)

  function Join(first: Error, second: Error): Error {
    if first.ticket.Some? then first else second
  }

  datatype Probe = Found(active: bool) | NotFound | NoValue | Unreachable

  datatype Removal = Gone | Absent | NotRemoved

  /** Every reply between two moments was fine. */
  ghost predicate AllFine(oracle: nat -> Response, first: nat, end: nat) {
    forall k: nat | first <= k < end :: oracle(k).reply == Fine
  }

  /** A reply during which nothing ended. */
  predicate Still(r: Response, reply: Reply) { r.reply == reply && r.completed == {} && r.aborted == {} }

  /** The store after a creation was submitted that outlived the wait for it. */
  function Outlived(s: Store, resource: Resource, r: Response): Store {
    var t := Ended(s, r.completed, r.aborted);
    t.(submitted := t.submitted + {resource}, pending := t.pending[t.nextID := Create(resource)], nextID := t.nextID + 1)
  }

  datatype Wait = Finished(ok: bool) | TimedOut | NotSubmitted

  class Server {
    const oracle: nat -> Response
    var tick: nat
    var store: Store

    constructor (oracle: nat -> Response)
      ensures this.oracle == oracle && tick == 0 && store == Store({}, {}, map[], 0, {}, {}, [])
    {
      this.oracle := oracle;
      tick, store := 0, Store({}, {}, map[], 0, {}, {}, []);
    }

    method Next() returns (r: Response)
      modifies this
      ensures Quiet(old(store), store)
      ensures r == oracle(old(tick)) && tick == old(tick) + 1
      ensures store == Ended(old(store), r.completed, r.aborted)
      ensures old(store).active <= store.active
    {
      r := oracle(tick);
      tick := tick + 1;
      EndedIsQuiet(store, r.completed, r.aborted);
      store := Ended(store, r.completed, r.aborted);
    }

    /** Any read-only call or local check. */
    method Check() returns (ok: bool)
      modifies this
      ensures Quiet(old(store), store)
      ensures tick == old(tick) + 1 && (ok <==> oracle(old(tick)).reply == Fine)
      ensures old(store).active <= store.active
    {
      var r := Next();
      ok := r.reply == Fine;
    }

    /** A run of such checks, stopped by the first that fails. */
    method ChecksPass(n: nat) returns (ok: bool)
      modifies this
      ensures Quiet(old(store), store)
      ensures old(tick) <= tick <= old(tick) + n && (ok <==> AllFine(oracle, old(tick), tick)) && (ok ==> tick == old(tick) + n)
      ensures old(store).active <= store.active
    {
      ok := true;
      for k := 0 to n
        invariant Quiet(old(store), store) && old(store).active <= store.active
        invariant ok && tick == old(tick) + k && AllFine(oracle, old(tick), tick)
      {
        ghost var mid := store;
        ok := Check();
        QuietCompose(old(store), mid, store);
        if !ok {
          assert oracle(tick - 1).reply != Fine;
          return;
        }
      }
    }

    method Submit(operation: Operation) returns (id: nat)
      modifies this`store
      ensures id == old(store).nextID
      ensures store == old(store).(pending := old(store).pending[id := operation], nextID := id + 1)
    {
      id := store.nextID;
      store := store.(pending := store.pending[id := operation], nextID := id + 1);
    }

    /** Copying or creating under a new name. */
    method CreateResource(resource: Resource) returns (err: Option<Error>)
      modifies this
      ensures Created(old(store), store, resource, err)
      ensures tick == old(tick) + 1
      ensures oracle(old(tick)).reply == Fine && NonePending(old(store), resource) && resource !in old(store).present ==> err.None?
      ensures oracle(old(tick)).reply == Slow ==>
                && err == Some(Error(Some(Ticket(old(store).nextID, Create(resource)))))
                && store == Outlived(old(store), resource, oracle(old(tick)))
      ensures store.confirmed == old(store).confirmed + if err.None? then [Create(resource)] else []
      ensures err.None? ==> oracle(old(tick)).reply == Fine
    {
      var r := Next();
      ghost var mid := store;
      if r.reply == Refused {
        return Some(Error(None));
      }
      store := store.(submitted := store.submitted + {resource});
      if r.reply == Slow {
        var id := Submit(Create(resource));
        return Some(Error(Some(Ticket(id, Create(resource)))));
      }
      if r.reply == Fine && resource !in store.present {
        store := store.(present := store.present + {resource}, confirmed := store.confirmed + [Create(resource)]);
        return None;
      }
      var id := store.nextID;
      store := store.(nextID := id + 1, present := if r.applied then store.present + {resource} else store.present);
      err := Some(Error(Some(Ticket(id, Create(resource)))));
    }

    /** An asynchronous change of an existing instance: an update, or a start. */
    method ChangeInstance(operation: Operation) returns (err: Option<Error>)
      requires operation.Change? || operation.Start?
      modifies this
      ensures ChangedOnly(old(store), store)
      ensures operation.Change? ==> KeepsIdle(old(store), store)
      ensures tick == old(tick) + 1 && (err.None? <==> oracle(old(tick)).reply == Fine)
      ensures err.Some? && err.value.ticket.Some? ==> err.value.ticket.value.operation == operation
      ensures store.confirmed == old(store).confirmed + if err.None? then [operation] else []
      ensures old(store).active <= store.active && (operation.Start? && err.None? ==> operation.name in store.active)
    {
      var r := Next();
      match r.reply {
        case Refused => err := Some(Error(None));
        case Slow =>
          var id := Submit(operation);
          err := Some(Error(Some(Ticket(id, operation))));
        case Broken =>
          err := Some(Error(Some(Ticket(store.nextID, operation))));
          store := store.(nextID := store.nextID + 1);
        case Fine =>
          err := None;
          store := store.(confirmed := store.confirmed + [operation]);
          if operation.Start? {
            store := store.(active := store.active + {operation.name});
          }
      }
    }

    method ProbeResource(resource: Resource) returns (p: Probe)
      modifies this
      ensures Quiet(old(store), store)
      ensures p == NotFound ==> resource !in store.present
      ensures p.Found? ==> resource in store.present && (p.active <==> resource.name in store.active)
      ensures tick == old(tick) + 1 && (oracle(old(tick)).reply == Fine <==> p.Found? || p.NotFound?)
      ensures Still(oracle(old(tick)), Fine) ==> store == old(store) && (p.NotFound? <==> resource !in store.present)
    {
      EndedByNothing(store);
      var r := Next();
      match r.reply {
        case Fine => p := if resource in store.present then Found(resource.name in store.active) else NotFound;
        case Refused => p := NoValue;
        case Broken => p := Unreachable;
        case Slow => p := Unreachable;
      }
    }

    method StopInstance(name: string) returns (removal: Removal)
      modifies this
      ensures Quiet(old(store), store)
      ensures tick == old(tick) + 1 && (removal == NotRemoved <==> oracle(old(tick)).reply != Fine)
      ensures removal != NotRemoved ==> name !in store.active
    {
      var r := Next();
      if r.reply == Fine {
        removal := if Instance(name) in store.present then Gone else Absent;
        store := store.(active := store.active - {name});
      } else {
        removal := NotRemoved;
      }
    }

    /** An active instance cannot be deleted, and a deletion may outlive its wait. */
    method DeleteResource(resource: Resource) returns (removal: Removal)
      modifies this
      ensures Deleted(old(store), store, resource, removal)
      ensures tick == old(tick) + 1
      ensures oracle(old(tick)).reply == Fine && (resource.Volume? || Idle(old(store), resource.name)) ==> removal != NotRemoved
    {
      var r := Next();
      ghost var mid := store;
      store := store.(deleted := store.deleted + {resource});
      if r.reply == Slow {
        var id := Submit(Remove(resource));
        return NotRemoved;
      }
      if resource !in store.present && r.reply == Fine {
        return Absent;
      }
      if r.reply == Fine && !(resource.Instance? && resource.name in store.active) {
        store := store.(present := store.present - {resource});
        return Gone;
      }
      removal := NotRemoved;
      if r.applied {
        store := store.(present := store.present - {resource});
      }
    }

    /** Waiting again for the operation an error retained. */
    method AwaitSubmitted(err: Error) returns (wait: Wait)
      modifies this
      ensures Quiet(old(store), store)
      ensures wait.Finished? ==> err.ticket.Some? && err.ticket.value.id !in store.pending
      ensures wait.NotSubmitted? <==> err.ticket.None?
      ensures tick == old(tick) + 1 && (wait.TimedOut? ==> oracle(old(tick)).reply == Slow)
      ensures Still(oracle(old(tick)), Slow) && err.ticket.Some? && err.ticket.value.id in old(store).pending ==>
                wait == TimedOut && store == old(store)
    {
      EndedByNothing(store);
      var r := Next();
      if err.ticket.None? {
        return NotSubmitted;
      }
      var id := err.ticket.value.id;
      if id !in store.pending {
        return Finished(r.applied);
      }
      if r.reply == Slow {
        return TimedOut;
      }
      EndedIsQuiet(store, if r.applied then {id} else {}, {id});
      QuietCompose(old(store), store, Ended(store, if r.applied then {id} else {}, {id}));
      store := Ended(store, if r.applied then {id} else {}, {id});
      wait := Finished(r.reply == Fine && r.applied);
    }
  }

  /** What a creation leaves: it was refused, or submitted and then done, failed or still pending. */
  ghost predicate Created(s: Store, t: Store, resource: Resource, err: Option<Error>) {
    && (forall r | r != resource :: Undisturbed(s, t, r))
    && t.deleted == s.deleted && KeepsIdle(s, t)
    && t.submitted == (if err.Some? && err.value.ticket.None? then s.submitted else s.submitted + {resource})
    && (err.Some? && err.value.ticket.None? ==> Undisturbed(s, t, resource))
    && (err.None? && NonePending(s, resource) ==> resource in t.present && NonePending(t, resource))
    && (err.Some? && err.value.ticket.Some? ==> err.value.ticket.value.operation == Create(resource))
    && (err.Some? && err.value.ticket.Some? && NonePending(s, resource) ==>
          && !RemovePending(t, resource)
          && forall id | id in t.pending && t.pending[id] == Create(resource) :: id == err.value.ticket.value.id)
  }

  /** Changing an instance creates and deletes nothing. */
  ghost predicate ChangedOnly(s: Store, t: Store) {
    && t.deleted == s.deleted && t.submitted == s.submitted
    && (forall r :: Undisturbed(s, t, r))
    && (forall id | id in t.pending && (t.pending[id].Create? || t.pending[id].Remove?) ::
          id in s.pending && t.pending[id] == s.pending[id])
  }

  /** A deletion that says it worked leaves the resource absent and adds nothing pending. */
  ghost predicate Deleted(s: Store, t: Store, resource: Resource, removal: Removal) {
    && t.submitted == s.submitted && t.deleted == s.deleted + {resource} && KeepsIdle(s, t)
    && (forall r | r != resource :: Undisturbed(s, t, r))
    && (CreatePending(t, resource) ==> CreatePending(s, resource))
    && (removal != NotRemoved ==> resource !in t.present && (RemovePending(t, resource) ==> RemovePending(s, resource)))
  }
}
