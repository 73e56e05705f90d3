/**
 The methods of the plugin lease manager (services/sandbox-manager/app/plugin_runtimes.py)
 as one thread runs them, with anything the other threads do in between.
*/
module PluginRuntimesManager {
  import opened Common
  import opened PluginRuntimes

  /** The outcome of each engine call of a clean-up: None works, Some(message) raises. */
  datatype CleanScript = CleanScript(
    kill: Option<string>, remove: Option<string>,
    disconnectParent: Option<string>, disconnectProxy: Option<string>, removeNetwork: Option<string>)

  datatype BuildScript = BuildScript(
    found: bool, network: bool, proxy: bool, parent: bool, container: bool, started: bool, saved: bool)

  datatype Failure = InProgress | CleanupFailed(first: string) | SaveFailed | EngineFailed

  /** What `_cleanup` reports: the calls that apply to what there is, in order. */
  function Errors(c: CleanScript, container: bool, network: bool, parent: bool, proxy: bool): seq<string> {
    (if container then Message(c.kill) + Message(c.remove) else [])
    + (if network
       then (if parent then Message(c.disconnectParent) else []) + (if proxy then Message(c.disconnectProxy) else [])
            + Message(c.removeNetwork)
       else [])
  }

  function Message(m: Option<string>): seq<string> {
    if m.Some? then [m.value] else []
  }

  predicate AllWork(c: CleanScript) {
    c.kill.None? && c.remove.None? && c.disconnectParent.None? && c.disconnectProxy.None? && c.removeNetwork.None?
  }

  /** A clean-up reports nothing exactly when every call for what there is works, and else what raised first. */
  lemma ErrorsExactly(c: CleanScript, container: bool, network: bool, parent: bool, proxy: bool)
    ensures var errors := Errors(c, container, network, parent, proxy);
      && (errors == [] <==>
            && (container ==> c.kill.None? && c.remove.None?)
            && (network ==> (parent ==> c.disconnectParent.None?) && (proxy ==> c.disconnectProxy.None?)
                            && c.removeNetwork.None?))
      && (container && c.kill.Some? ==> errors != [] && errors[0] == c.kill.value)
      && (container && c.kill.None? && c.remove.Some? ==> errors != [] && errors[0] == c.remove.value)
      && (forall m :: m in errors <==>
            || (container && (c.kill == Some(m) || c.remove == Some(m)))
            || (network && ((parent && c.disconnectParent == Some(m)) || (proxy && c.disconnectProxy == Some(m))
                            || c.removeNetwork == Some(m))))
  {}

  /** A step of another thread of this process, if it is one and it is enabled. */
  function Interfere(s: State, me: Tid, a: Action): (r: State)
    requires Reachable(s)
    ensures Reachable(r) && ThreadOf(r, me) == ThreadOf(s, me) && s.nextLease <= r.nextLease
  {
    if !a.Restart? && a.t != me && Step(s, a).Some? then
      var r := Step(s, a).value;
      ReachableStep(s, a, r);
      StepOther(s, me, a, r);
      r
    else s
  }

  lemma StepOther(s: State, me: Tid, a: Action, r: State)
    requires !a.Restart? && a.t != me && Step(s, a) == Some(r)
    ensures ThreadOf(r, me) == ThreadOf(s, me) && s.nextLease <= r.nextLease
  {}

  lemma CleanStep(s: State, me: Tid, container: bool, network: bool, rest: bool) returns (r: State)
    requires Reachable(s) && ThreadOf(s, me).Cleaning?
    ensures Step(s, Clean(me, container, network, rest)) == Some(r) && Reachable(r)
    ensures var th := ThreadOf(s, me);
      r == s.(
        threads := s.threads[me := if container && network && rest then Popping(th.owner, th.id, th.lease)
                                   else AfterDispose(th.owner, false)],
        live := s.live - Dropped(Some(th.lease.container), container) - Dropped(Some(th.lease.network), network))
  {
    r := Step(s, Clean(me, container, network, rest)).value;
    ReachableStep(s, Clean(me, container, network, rest), r);
  }

  lemma PopStep(s: State, me: Tid, saved: bool) returns (r: State)
    requires Reachable(s) && ThreadOf(s, me).Popping?
    ensures Step(s, Pop(me, saved)) == Some(r) && Reachable(r)
    ensures var th := ThreadOf(s, me);
      r == s.(
        threads := s.threads[me := AfterDispose(th.owner, saved)],
        leases := s.leases - {th.id},
        stored := if saved then s.leases - {th.id} else s.stored)
  {
    r := Step(s, Pop(me, saved)).value;
    ReachableStep(s, Pop(me, saved), r);
  }

  lemma TakeStep(s: State, a: Action) returns (r: State)
    requires Reachable(s) && Step(s, a).Some?
    ensures Step(s, a) == Some(r) && Reachable(r)
  {
    r := Step(s, a).value;
    ReachableStep(s, a, r);
  }

  lemma InsertStep(s: State, me: Tid, saved: bool) returns (r: State)
    requires Reachable(s) && ThreadOf(s, me).Building? && ThreadOf(s, me).network.Some?
    requires ThreadOf(s, me).container.Some?
    ensures Step(s, Insert(me, saved)) == Some(r) && Reachable(r) && s.nextLease !in s.leases
    ensures var th := ThreadOf(s, me);
      var leases := s.leases[s.nextLease := Lease(th.key, th.container.value, th.network.value)];
      r == s.(
        threads := s.threads[me := if saved then Leaving(th.key) else Failing(th.key, th.network, th.container)],
        leases := if saved then leases else s.leases, stored := if saved then leases else s.stored,
        nextLease := s.nextLease + 1)
  {
    ReachableBase(s);
    r := Step(s, Insert(me, saved)).value;
    ReachableStep(s, Insert(me, saved), r);
  }

  lemma CleanFailedStep(s: State, me: Tid, container: bool, network: bool) returns (r: State)
    requires Reachable(s) && ThreadOf(s, me).Failing?
    ensures Step(s, CleanFailed(me, container, network)) == Some(r) && Reachable(r)
    ensures var th := ThreadOf(s, me);
      r == s.(
        threads := s.threads[me := Leaving(th.key)],
        live := s.live - Dropped(th.container, container) - Dropped(th.network, network),
        lost := s.lost + (Dropped(th.container, !container) + Dropped(th.network, !network)))
  {
    r := Step(s, CleanFailed(me, container, network)).value;
    ReachableStep(s, CleanFailed(me, container, network), r);
    var th := ThreadOf(s, me);
    assert r.live == s.live - Dropped(th.container, container) - Dropped(th.network, network);
  }

  lemma NewIdRemoved(table: Table, id: LeaseId, lease: Lease)
    requires id !in table
    ensures table[id := lease] - {id} == table
  {}

  predicate Adds(before: Table, after: Table, key: Key, id: LeaseId) {
    id !in before && id in after && after[id].key == key && after == before[id := after[id]]
  }

  /** `after` is `before` with all leases of the key exchanged for the new one. */
  predicate Replaces(before: Table, after: Table, key: Key, id: LeaseId) {
    && id !in before && id in after && after[id].key == key
    && (forall i :: i in after && i != id ==> i in before && after[i] == before[i] && before[i].key != key)
    && (forall i :: i in before && before[i].key != key ==> i in after)
  }

  predicate BuildWorks(b: BuildScript) {
    b.found && b.network && b.proxy && b.parent && b.container && b.started && b.saved
  }

  predicate HasLease(table: Table, key: Key) {
    exists id :: id in table && table[id].key == key
  }

  lemma OldIds(s: State)
    requires Reachable(s)
    ensures forall id :: id in s.leases ==> id < s.nextLease
  {
    ReachableBase(s);
  }

  /** Only leases of the key may have gone. */
  predicate KeepsOthers(before: Table, after: Table, key: Key) {
    && (forall i :: i in after ==> i in before && after[i] == before[i])
    && (forall i :: i in before && before[i].key != key ==> i in after)
  }

  /** The lease of the key has gone, if the disposal went through, and no other lease. */
  ghost predicate Cleared(before: Table, kept: Table, key: Key, done: bool) {
    KeepsOthers(before, kept, key) && (done && UniqueKeys(before) ==> forall i :: i in kept ==> kept[i].key != key)
  }

  /** The table has the new lease besides leases it had; with one lease per key, no other of this key. */
  predicate Granted(before: Table, after: Table, key: Key, id: LeaseId) {
    && id !in before && id in after && after[id].key == key && KeepsOthers(before, after - {id}, key)
    && (UniqueKeys(before) ==> Replaces(before, after, key, id))
  }

  lemma NowGranted(before: Table, kept: Table, after: Table, key: Key, id: LeaseId)
    requires Cleared(before, kept, key, true) && Adds(kept, after, key, id) && id !in before
    ensures Granted(before, after, key, id)
  {}

  class PluginManager {
    var leases: Table
    var stored: Table
    var creating: set<Key>
    var live: set<nat>
    var lost: set<nat>
    var nextObject: nat
    var nextLease: nat
    var threads: map<Tid, Thread>

    function View(): State
      reads this
    {
      State(leases, stored, creating, live, lost, nextObject, nextLease, threads)
    }

    function Mine(me: Tid): Thread
      reads this
    {
      ThreadOf(View(), me)
    }

    ghost predicate Valid()
      reads this
    {
      Reachable(View())
    }

    /** Reads the lease file. */
    constructor (loaded: Table, live: set<nat>, nextObject: nat, nextLease: nat)
      requires NewIdentifiers(loaded, live, nextObject, nextLease)
      ensures View() == Init(loaded, live, nextObject, nextLease) && Valid()
    {
      this.leases, this.stored, this.creating, this.live := loaded, loaded, {}, live;
      this.lost := set x | x in live && !InTable(loaded, x);
      this.nextObject, this.nextLease, this.threads := nextObject, nextLease, map[];
      new;
      ReachableInit(loaded, live, nextObject, nextLease);
    }

    /** Everything the other threads manage to do while this one is between two of its own steps. */
    method Others(me: Tid, schedule: seq<Action>)
      requires Valid()
      modifies this
      ensures Valid() && Mine(me) == old(Mine(me)) && old(nextLease) <= nextLease
      ensures schedule == [] ==> View() == old(View())
    {
      var s := View();
      for i := 0 to |schedule|
        invariant Reachable(s) && ThreadOf(s, me) == Mine(me) && nextLease <= s.nextLease
        invariant i == 0 ==> s == View()
      {
        s := Interfere(s, me, schedule[i]);
      }
      leases, stored, creating, live := s.leases, s.stored, s.creating, s.live;
      lost, nextObject, nextLease, threads := s.lost, s.nextObject, s.nextLease, s.threads;
      assert View() == s;
    }

    /** `_store.save`: the file takes over the table, or stays as it was. */
    method Save(works: bool)
      modifies this`stored
      ensures stored == if works then leases else old(stored)
    {
      if works {
        stored := leases;
      }
    }

    /**
     `_cleanup`: every call that applies is made, whatever the ones before it
     raised, and the first error is reported once all have been made.
    */
    method CleanUp(container: Option<nat>, network: Option<nat>, parent: bool, proxy: bool, c: CleanScript)
      returns (r: Result<(), string>)
      modifies this`live
      ensures live == old(live) - Dropped(container, c.remove.None?) - Dropped(network, c.removeNetwork.None?)
      ensures var errors := Errors(c, container.Some?, network.Some?, parent, proxy);
        if errors == [] then r == Ok(()) else r == Err(errors[0])
    {
      var errors: seq<string> := [];
      if container.Some? {
        errors := errors + Message(c.kill);
        errors := errors + Message(c.remove);
        if c.remove.None? {
          live := live - {container.value};
        }
      }
      if network.Some? {
        if parent {
          errors := errors + Message(c.disconnectParent);
        }
        if proxy {
          errors := errors + Message(c.disconnectProxy);
        }
        errors := errors + Message(c.removeNetwork);
        if c.removeNetwork.None? {
          live := live - {network.value};
        }
      }
      return if errors == [] then Ok(()) else Err(errors[0]);
    }

    /** The lease of the key, searched through the values of the table. */
    method FindLease(key: Key) returns (found: Option<LeaseId>)
      ensures Finds(leases, key, found)
    {
      var rest := leases.Keys;
      while rest != {}
        invariant rest <= leases.Keys
        invariant forall id :: id in leases && id !in rest ==> leases[id].key != key
        decreases |rest|
      {
        var id :| id in rest;
        if leases[id].key == key {
          return Some(id);
        }
        rest := rest - {id};
      }
      return None;
    }

    // ------------------------------------------------------------ dispose

    /** Under the lock: the lease to dispose, or nothing to do. */
    method LookUp(me: Tid, id: LeaseId, owner: Option<Key>) returns (lease: Option<Lease>)
      requires Valid() && Mine(me) == (if owner.Some? then Replacing(owner.value, id) else Idle)
      modifies this
      ensures Valid()
      ensures View() == Step(old(View()), if owner.Some? then LookUpPrevious(me) else StartDispose(me, id)).value
      ensures lease == if id in old(leases) then Some(old(leases)[id]) else None
      ensures Mine(me) == if lease.Some? then Cleaning(owner, id, lease.value) else AfterDispose(owner, true)
    {
      var a := if owner.Some? then LookUpPrevious(me) else StartDispose(me, id);
      ReachableStep(View(), a, Step(View(), a).value);
      if id in leases {
        lease := Some(leases[id]);
        threads := threads[me := Cleaning(owner, id, leases[id])];
      } else {
        lease := None;
        if owner.Some? {
          threads := threads[me := Building(owner.value, None, None)];
        }
      }
    }

    method CleanLease(me: Tid, c: CleanScript) returns (r: Result<(), string>)
      requires Valid() && Mine(me).Cleaning?
      modifies this
      ensures Valid() && leases == old(leases) && stored == old(stored) && nextLease == old(nextLease)
      ensures r.Ok? <==> AllWork(c)
      ensures var th := old(Mine(me));
        Mine(me) == if r.Ok? then Popping(th.owner, th.id, th.lease) else AfterDispose(th.owner, false)
    {
      var th := threads[me];
      ghost var s' := CleanStep(View(), me, c.remove.None?, c.removeNetwork.None?,
                                c.kill.None? && c.disconnectParent.None? && c.disconnectProxy.None?);
      r := CleanUp(Some(th.lease.container), Some(th.lease.network), true, true, c);
      threads := threads[me := if r.Ok? then Popping(th.owner, th.id, th.lease) else AfterDispose(th.owner, false)];
      assert View() == s';
    }

    /** Under the lock: the lease leaves memory for good, and the file if the save works. */
    method PopLease(me: Tid, saved: bool)
      requires Valid() && Mine(me).Popping?
      modifies this
      ensures Valid() && View() == Step(old(View()), Pop(me, saved)).value
      ensures leases == old(leases) - {old(Mine(me)).id} && stored == if saved then leases else old(stored)
      ensures Mine(me) == AfterDispose(old(Mine(me)).owner, saved) && nextLease == old(nextLease)
    {
      var th := threads[me];
      ghost var s' := PopStep(View(), me, saved);
      leases := leases - {th.id};
      Save(saved);
      threads := threads[me := AfterDispose(th.owner, saved)];
      assert View() == s';
    }

    /**
     dispose, on its own (`owner` None) or from create. With no other thread about,
     success means the lease is gone and failure of the clean-up changes no table.
    */
    method Dispose(me: Tid, id: LeaseId, owner: Option<Key>, c: CleanScript, saved: bool, others: nat -> seq<Action>)
      returns (r: Result<(), Failure>)
      requires Valid() && Mine(me) == (if owner.Some? then Replacing(owner.value, id) else Idle)
      modifies this
      ensures Valid() && Mine(me) == AfterDispose(owner, r.Ok?) && old(nextLease) <= nextLease && r != Err(InProgress)
      ensures (forall k :: others(k) == []) ==>
        && (r.Ok? <==> id !in old(leases) || (AllWork(c) && saved))
        && leases == (if AllWork(c) then old(leases) - {id} else old(leases))
        && stored == (if id in old(leases) && AllWork(c) && saved then leases else old(stored))
    {
      var lease := LookUp(me, id, owner);
      if lease.None? {
        return Ok(());
      }
      Others(me, others(0));
      var cleaned := CleanLease(me, c);
      if cleaned.Err? {
        return Err(CleanupFailed(cleaned.error));
      }
      Others(me, others(1));
      PopLease(me, saved);
      return if saved then Ok(()) else Err(SaveFailed);
    }

    // ------------------------------------------------------------ create

    /** Under the lock: refuse a key that is being created, otherwise reserve it. */
    method ReserveKey(me: Tid, key: Key) returns (reserved: bool)
      requires Valid() && Mine(me).Idle?
      modifies this`creating, this`threads
      ensures Valid() && View() == Step(old(View()), Reserve(me, key)).value
      ensures reserved == (key !in old(creating))
      ensures if reserved then Mine(me) == Reserved(key) else View() == old(View())
    {
      ghost var s' := TakeStep(View(), Reserve(me, key));
      reserved := key !in creating;
      if reserved {
        creating := creating + {key};
        threads := threads[me := Reserved(key)];
      }
      assert View() == s';
    }

    /** Under the lock: the lease of the key, if there is one, is to be disposed first. */
    method ChoosePrevious(me: Tid, key: Key) returns (found: Option<LeaseId>)
      requires Valid() && Mine(me) == Reserved(key)
      modifies this`threads
      ensures Valid() && Finds(leases, key, found)
      ensures Mine(me) == if found.Some? then Replacing(key, found.value) else Building(key, None, None)
    {
      found := FindLease(key);
      ghost var s' := TakeStep(View(), FindPrevious(me, found));
      threads := threads[me := if found.Some? then Replacing(key, found.value) else Building(key, None, None)];
      assert View() == s';
    }

    method AddNetwork(me: Tid)
      requires Valid() && Mine(me).Building? && Mine(me).network.None? && Mine(me).container.None?
      modifies this`threads, this`live, this`nextObject
      ensures Valid() && Mine(me) == Building(old(Mine(me)).key, Some(old(nextObject)), None)
      ensures live == old(live) + {old(nextObject)}
    {
      ghost var s' := TakeStep(View(), MakeNetwork(me));
      threads := threads[me := Building(threads[me].key, Some(nextObject), None)];
      live, nextObject := live + {nextObject}, nextObject + 1;
      assert View() == s';
    }

    method AddContainer(me: Tid)
      requires Valid() && Mine(me).Building? && Mine(me).network.Some? && Mine(me).container.None?
      modifies this`threads, this`live, this`nextObject
      ensures Valid() && Mine(me) == Building(old(Mine(me)).key, old(Mine(me)).network, Some(old(nextObject)))
      ensures live == old(live) + {old(nextObject)}
    {
      ghost var s' := TakeStep(View(), MakeContainer(me));
      threads := threads[me := Building(threads[me].key, threads[me].network, Some(nextObject))];
      live, nextObject := live + {nextObject}, nextObject + 1;
      assert View() == s';
    }

    /** Under the lock: the lease enters the table, and leaves it again if the table cannot be saved. */
    method InsertLease(me: Tid, saved: bool) returns (id: LeaseId)
      requires Valid() && Mine(me).Building? && Mine(me).network.Some? && Mine(me).container.Some?
      modifies this`threads, this`leases, this`stored, this`nextLease
      ensures Valid() && id == old(nextLease) && id !in old(leases) && nextLease == id + 1
      ensures var th := old(Mine(me)); var lease := Lease(th.key, th.container.value, th.network.value);
        && leases == (if saved then old(leases)[id := lease] else old(leases))
        && stored == (if saved then leases else old(stored))
        && Mine(me) == (if saved then Leaving(th.key) else Failing(th.key, th.network, th.container))
    {
      var th := threads[me];
      ghost var s' := InsertStep(View(), me, saved);
      id := TryInsert(Lease(th.key, th.container.value, th.network.value), saved);
      threads := threads[me := if saved then Leaving(th.key) else Failing(th.key, th.network, th.container)];
      assert View() == s';
    }

    method TryInsert(lease: Lease, saved: bool) returns (id: LeaseId)
      requires nextLease !in leases
      modifies this`leases, this`stored, this`nextLease
      ensures id == old(nextLease) && nextLease == id + 1
      ensures leases == (if saved then old(leases)[id := lease] else old(leases))
      ensures stored == (if saved then leases else old(stored))
    {
      id := nextLease;
      nextLease := nextLease + 1;
      leases := leases[id := lease];
      Save(saved);
      if !saved {
        NewIdRemoved(old(leases), id, lease);
        leases := leases - {id};
      }
    }

    method FailBuild(me: Tid)
      requires Valid() && Mine(me).Building?
      modifies this`threads
      ensures Valid() && Mine(me) == Failing(old(Mine(me)).key, old(Mine(me)).network, old(Mine(me)).container)
    {
      ghost var s' := TakeStep(View(), BuildFails(me));
      threads := threads[me := Failing(threads[me].key, threads[me].network, threads[me].container)];
      assert View() == s';
    }

    /** The clean-up of a failed build, whose own errors are swallowed. */
    method CleanUpFailed(me: Tid, parent: bool, proxy: bool, c: CleanScript)
      requires Valid() && Mine(me).Failing?
      modifies this`threads, this`live, this`lost
      ensures Valid() && Mine(me) == Leaving(old(Mine(me)).key)
      ensures old(Mine(me)).container.Some? && old(Mine(me)).container.value in live ==> c.remove.Some?
      ensures old(Mine(me)).network.Some? && old(Mine(me)).network.value in live ==> c.removeNetwork.Some?
    {
      var th := threads[me];
      ghost var s' := CleanFailedStep(View(), me, c.remove.None?, c.removeNetwork.None?);
      var _ := CleanUp(th.container, th.network, parent, proxy, c);
      lost := lost + (Dropped(th.container, c.remove.Some?) + Dropped(th.network, c.removeNetwork.Some?));
      threads := threads[me := Leaving(th.key)];
      assert View() == s';
    }

    method UnreserveKey(me: Tid)
      requires Valid() && Mine(me).Leaving?
      modifies this`threads, this`creating
      ensures Valid() && Mine(me) == Idle && creating == old(creating) - {old(Mine(me)).key}
    {
      ghost var s' := TakeStep(View(), Unreserve(me));
      creating := creating - {threads[me].key};
      threads := threads[me := Idle];
      assert View() == s';
    }

    /** The engine calls of a build; the first that raises ends it. */
    method MakeObjects(me: Tid, key: Key, b: BuildScript, others: nat -> seq<Action>) returns (made: bool)
      requires Valid() && Mine(me) == Building(key, None, None)
      modifies this
      ensures Valid() && Mine(me).Building? && Mine(me).key == key && nextLease >= old(nextLease)
      ensures made <==> b.found && b.network && b.proxy && b.parent && b.container && b.started
      ensures made ==> Mine(me).network.Some? && Mine(me).container.Some?
      ensures (forall k :: others(k) == []) ==>
        leases == old(leases) && stored == old(stored) && nextLease == old(nextLease)
    {
      if !b.found || !b.network {
        return false;
      }
      AddNetwork(me);
      Others(me, others(4));
      if !b.proxy || !b.parent || !b.container {
        return false;
      }
      AddContainer(me);
      Others(me, others(5));
      if !b.started {
        return false;
      }
      return true;
    }

    /** The lease enters the table if the objects are there and the save works; otherwise the build has failed. */
    method InsertOrFail(me: Tid, made: bool, saved: bool) returns (r: Result<LeaseId, Failure>)
      requires Valid() && Mine(me).Building?
      requires made ==> Mine(me).network.Some? && Mine(me).container.Some?
      modifies this
      ensures Valid() && (r.Ok? <==> made && saved) && r != Err(InProgress)
      ensures if r.Ok? then Mine(me) == Leaving(old(Mine(me)).key)
        else Mine(me).Failing? && Mine(me).key == old(Mine(me)).key
      ensures if r.Ok?
        then r.value == old(nextLease) && Adds(old(leases), leases, old(Mine(me)).key, r.value) && stored == leases
        else leases == old(leases) && stored == old(stored)
    {
      if !made {
        FailBuild(me);
        return Err(EngineFailed);
      }
      var id := InsertLease(me, saved);
      return if saved then Ok(id) else Err(SaveFailed);
    }

    /** From the first engine call to the lease in the table, or to the clean-up of whatever was made. */
    method Build(me: Tid, key: Key, b: BuildScript, c: CleanScript, others: nat -> seq<Action>)
      returns (r: Result<LeaseId, Failure>)
      requires Valid() && Mine(me) == Building(key, None, None)
      modifies this
      ensures Valid() && Mine(me) == Leaving(key) && r != Err(InProgress)
      ensures r.Ok? <==> BuildWorks(b)
      ensures r.Ok? ==> b.found && b.network && b.proxy && b.parent && b.container && b.started && b.saved
      ensures r.Ok? ==> r.value >= old(nextLease)
      ensures (forall k :: others(k) == []) ==>
        if r.Ok? then r.value == old(nextLease) && Adds(old(leases), leases, key, r.value) && stored == leases
        else leases == old(leases) && stored == old(stored)
    {
      var made := MakeObjects(me, key, b, others);
      Others(me, others(6));
      r := InsertOrFail(me, made, b.saved);
      if r.Err? {
        Others(me, others(7));
        CleanUpFailed(me, b.parent && b.proxy, b.proxy, c);
      }
    }

    /**
     create. Whatever fails and whatever the others do, the key is given back. With
     no other thread about, success exchanges the lease of this key for a new one,
     in memory and in the file alike, and failure can at most have disposed the
     lease that was to be replaced. Only a table that was loaded with several
     leases of this key keeps the others.
    */
    method Create(me: Tid, key: Key, previous: CleanScript, popped: bool, b: BuildScript, c: CleanScript,
        others: nat -> seq<Action>)
      returns (r: Result<LeaseId, Failure>)
      requires Valid() && Mine(me) == Idle
      modifies this
      ensures Valid() && Mine(me) == Idle
      ensures r == Err(InProgress) <==> key in old(creating)
      ensures r == Err(InProgress) ==> View() == old(View())
      ensures r.Ok? ==> r.value >= old(nextLease)
      ensures r.Ok? ==> b.found && b.network && b.proxy && b.parent && b.container && b.started && b.saved
      ensures (forall k :: others(k) == []) ==>
        if r.Ok? then Granted(old(leases), leases, key, r.value) && stored == leases
        else KeepsOthers(old(leases), leases, key)
      ensures (forall k :: others(k) == []) ==>
        (r.Ok? <==> key !in old(creating) && BuildWorks(b)
                    && (HasLease(old(leases), key) ==> AllWork(previous) && popped))
    {
      var reserved := ReserveKey(me, key);
      if !reserved {
        return Err(InProgress);
      }
      Others(me, others(8));
      r := Replace(me, key, previous, popped, b, c, others);
      Others(me, others(9));
      UnreserveKey(me);
    }

    /** The first half of `_create`: what the key has is disposed. */
    method ClearKey(me: Tid, key: Key, previous: CleanScript, popped: bool, others: nat -> seq<Action>)
      returns (r: Result<(), Failure>)
      requires Valid() && Mine(me) == Reserved(key)
      modifies this
      ensures Valid() && Mine(me) == AfterDispose(Some(key), r.Ok?) && old(nextLease) <= nextLease
      ensures r != Err(InProgress)
      ensures (forall k :: others(k) == []) ==>
        && Cleared(old(leases), leases, key, r.Ok?)
        && (r.Ok? <==> !HasLease(old(leases), key) || (AllWork(previous) && popped))
    {
      var found := ChoosePrevious(me, key);
      r := Ok(());
      if found.Some? {
        Others(me, others(2));
        r := Dispose(me, found.value, Some(key), previous, popped, others);
      }
    }

    /** `_create`: dispose what the key has, then build. */
    method Replace(me: Tid, key: Key, previous: CleanScript, popped: bool, b: BuildScript, c: CleanScript,
        others: nat -> seq<Action>)
      returns (r: Result<LeaseId, Failure>)
      requires Valid() && Mine(me) == Reserved(key)
      modifies this
      ensures Valid() && Mine(me) == Leaving(key) && r != Err(InProgress)
      ensures r.Ok? ==> r.value >= old(nextLease)
      ensures r.Ok? ==> b.found && b.network && b.proxy && b.parent && b.container && b.started && b.saved
      ensures (forall k :: others(k) == []) ==>
        if r.Ok? then Granted(old(leases), leases, key, r.value) && stored == leases
        else KeepsOthers(old(leases), leases, key)
      ensures (forall k :: others(k) == []) ==>
        (r.Ok? <==> BuildWorks(b) && (HasLease(old(leases), key) ==> AllWork(previous) && popped))
    {
      OldIds(View());
      var cleared := ClearKey(me, key, previous, popped, others);
      if cleared.Err? {
        return Err(cleared.error);
      }
      ghost var kept := leases;
      Others(me, others(3));
      r := Build(me, key, b, c, others);
      if r.Ok? && (forall k :: others(k) == []) {
        NowGranted(old(leases), kept, leases, key, r.value);
      }
    }
  }
}
