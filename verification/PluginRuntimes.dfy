/**
 Container leases for plugins (services/sandbox-manager/app/plugin_runtimes.py):
 one lease per isolation key, a table in memory and a copy of it in a file. A step
 is one visit to the locked table or one group of engine calls; saves and engine
 calls fail at any point, and the manager may restart at any point.
*/
module PluginRuntimes {
  import opened Common

  type Tid = nat
  type Key = string
  type LeaseId = nat

  datatype Lease = Lease(key: Key, container: nat, network: nat)

  type Table = map<LeaseId, Lease>

  /** Where a thread is; `owner` is the key of the create call this dispose runs for, if any. */
  datatype Thread =
    | Idle
    | Reserved(key: Key)
    | Replacing(key: Key, id: LeaseId)                              // create is about to dispose `id`
    | Cleaning(owner: Option<Key>, id: LeaseId, lease: Lease)       // dispose has looked the lease up
    | Popping(owner: Option<Key>, id: LeaseId, lease: Lease)        // its clean-up worked
    | Building(key: Key, network: Option<nat>, container: Option<nat>)
    | Failing(key: Key, network: Option<nat>, container: Option<nat>)
    | Leaving(key: Key)                                             // before the last `finally`

  datatype State = State(
    leases: Table,           // in memory
    stored: Table,           // in the file
    creating: set<Key>,
    live: set<nat>,          // containers and networks the engine has
    lost: set<nat>,          // those nobody will remove any more
    nextObject: nat,
    nextLease: nat,
    threads: map<Tid, Thread>)

  datatype Action =
    | Reserve(t: Tid, key: Key)
    | FindPrevious(t: Tid, found: Option<LeaseId>)
    | LookUpPrevious(t: Tid)
    | StartDispose(t: Tid, id: LeaseId)
    | Clean(t: Tid, container: bool, network: bool, others: bool)
    | Pop(t: Tid, saved: bool)
    | MakeNetwork(t: Tid)
    | MakeContainer(t: Tid)
    | BuildFails(t: Tid)
    | Insert(t: Tid, saved: bool)
    | CleanFailed(t: Tid, container: bool, network: bool)
    | Unreserve(t: Tid)
    | Restart

  function ThreadOf(s: State, t: Tid): Thread {
    if t in s.threads then s.threads[t] else Idle
  }

  function Go(s: State, t: Tid, th: Thread): State {
    s.(threads := s.threads[t := th])
  }

  predicate Has(l: Lease, x: nat) {
    l.container == x || l.network == x
  }

  /** `x` belongs to a lease of the table. */
  predicate InTable(table: Table, x: nat) {
    exists id :: id in table && Has(table[id], x)
  }

  /** The lease create finds for its key, if the table has one. */
  predicate Finds(table: Table, key: Key, found: Option<LeaseId>) {
    match found
    case Some(id) => id in table && table[id].key == key
    case None => forall id :: id in table ==> table[id].key != key
  }

  /** Where a dispose goes when it ends: back into the create it serves, or away. */
  function AfterDispose(owner: Option<Key>, works: bool): Thread {
    match owner
    case None => Idle
    case Some(key) => if works then Building(key, None, None) else Leaving(key)
  }

  function Dropped(thing: Option<nat>, works: bool): set<nat> {
    if thing.Some? && works then {thing.value} else {}
  }

  function Orphans(s: State): set<nat> {
    set x | x in s.live && !InTable(s.stored, x)
  }

  /** A new process: the file is all there is, and objects the file does not know stay behind. */
  function Restarted(s: State, lost: set<nat>): State {
    s.(leases := s.stored, creating := {}, threads := map[], lost := lost)
  }

  function Step(s: State, a: Action): Option<State> {
    match a
    case Restart =>
      Some(Restarted(s, s.lost + Orphans(s)))
    case _ => StepThread(s, a, ThreadOf(s, a.t))
  }

  function StepThread(s: State, a: Action, th: Thread): Option<State>
    requires !a.Restart?
  {
    match a
    case Reserve(t, key) =>
      if !th.Idle? then None
      else if key in s.creating then Some(s)
      else Some(Go(s, t, Reserved(key)).(creating := s.creating + {key}))
    case FindPrevious(t, found) =>
      if !th.Reserved? || !Finds(s.leases, th.key, found) then None
      else Some(Go(s, t, if found.Some? then Replacing(th.key, found.value) else Building(th.key, None, None)))
    case LookUpPrevious(t) =>
      if !th.Replacing? then None
      else if th.id in s.leases then Some(Go(s, t, Cleaning(Some(th.key), th.id, s.leases[th.id])))
      else Some(Go(s, t, Building(th.key, None, None)))
    case StartDispose(t, id) =>
      if !th.Idle? then None
      else Some(if id in s.leases then Go(s, t, Cleaning(None, id, s.leases[id])) else s)
    case Clean(t, container, network, others) =>
      if !th.Cleaning? then None
      else
        var done := container && network && others;
        var gone := Dropped(Some(th.lease.container), container) + Dropped(Some(th.lease.network), network);
        Some(Go(s, t, if done then Popping(th.owner, th.id, th.lease) else AfterDispose(th.owner, false))
             .(live := s.live - gone))
    case Pop(t, saved) =>
      if !th.Popping? then None
      else
        var leases := s.leases - {th.id};
        Some(Go(s, t, AfterDispose(th.owner, saved)).(leases := leases, stored := if saved then leases else s.stored))
    case MakeNetwork(t) =>
      if !(th.Building? && th.network.None? && th.container.None?) then None
      else Some(Go(s, t, Building(th.key, Some(s.nextObject), None)).(live := s.live + {s.nextObject},
                                                                      nextObject := s.nextObject + 1))
    case MakeContainer(t) =>
      if !(th.Building? && th.network.Some? && th.container.None?) then None
      else Some(Go(s, t, Building(th.key, th.network, Some(s.nextObject)))
                .(live := s.live + {s.nextObject}, nextObject := s.nextObject + 1))
    case BuildFails(t) =>
      if th.Building? then Some(Go(s, t, Failing(th.key, th.network, th.container))) else None
    case Insert(t, saved) =>
      if !(th.Building? && th.network.Some? && th.container.Some?) then None
      else if !saved then Some(Go(s, t, Failing(th.key, th.network, th.container)).(nextLease := s.nextLease + 1))
      else
        var leases := s.leases[s.nextLease := Lease(th.key, th.container.value, th.network.value)];
        Some(Go(s, t, Leaving(th.key)).(leases := leases, stored := leases, nextLease := s.nextLease + 1))
    case CleanFailed(t, container, network) =>
      if !th.Failing? then None
      else
        var gone := Dropped(th.container, container) + Dropped(th.network, network);
        var left := Dropped(th.container, !container) + Dropped(th.network, !network);
        Some(Go(s, t, Leaving(th.key)).(live := s.live - gone, lost := s.lost + left))
    case Unreserve(t) =>
      if th.Leaving? then Some(Go(s, t, Idle).(creating := s.creating - {th.key})) else None
  }

  // ---------------------------------------------------------------- the invariant

  /** At most one lease per isolation key. */
  predicate UniqueKeys(table: Table) {
    forall a, b :: a in table && b in table && table[a].key == table[b].key ==> a == b
  }

  /** Every lease of `a` is in `b`, unchanged. */
  predicate Within(a: Table, b: Table) {
    forall id :: id in a ==> id in b && a[id] == b[id]
  }

  /** The isolation key a thread has reserved. */
  function KeyOf(th: Thread): Option<Key> {
    match th
    case Idle => None
    case Cleaning(owner, _, _) => owner
    case Popping(owner, _, _) => owner
    case _ => Some(th.key)
  }

  predicate SameKey(a: Thread, b: Thread) {
    KeyOf(a).Some? && KeyOf(a) == KeyOf(b)
  }

  predicate Disposing(th: Thread) {
    th.Cleaning? || th.Popping?
  }

  /** The objects of a build in progress. */
  predicate Holds(th: Thread, x: nat) {
    (th.Building? || th.Failing?) && (th.network == Some(x) || th.container == Some(x))
  }

  ghost predicate FreshIds(s: State) {
    && (forall id :: id in s.stored ==> id < s.nextLease)
    && (forall x :: x in s.live ==> x < s.nextObject)
    && (forall t :: t in s.threads && Disposing(s.threads[t]) ==>
          && s.threads[t].id < s.nextLease
          && s.threads[t].lease.container < s.nextObject && s.threads[t].lease.network < s.nextObject)
    && (forall t, x: nat :: t in s.threads && Holds(s.threads[t], x) ==> x < s.nextObject)
    && (forall id :: id in s.stored ==> s.stored[id].container < s.nextObject && s.stored[id].network < s.nextObject)
  }

  predicate Tables(s: State) {
    && Within(s.leases, s.stored)
    && (forall t :: t in s.threads && Disposing(s.threads[t]) && s.threads[t].id in s.leases ==>
          s.leases[s.threads[t].id] == s.threads[t].lease)
  }

  /** One lease per key, in memory and in the file. */
  predicate Unique(s: State) {
    UniqueKeys(s.leases) && UniqueKeys(s.stored)
  }

  /** Keys in use are reserved. */
  ghost predicate KeysReserved(threads: map<Tid, Thread>, creating: set<Key>) {
    forall t :: t in threads && KeyOf(threads[t]).Some? ==> KeyOf(threads[t]).value in creating
  }

  ghost predicate KeysDistinct(threads: map<Tid, Thread>) {
    forall t, u :: t in threads && u in threads && SameKey(threads[t], threads[u]) ==> t == u
  }

  /** Reserved keys are in use. */
  ghost predicate KeysUsed(threads: map<Tid, Thread>, creating: set<Key>) {
    forall key :: key in creating ==> exists t :: t in threads && KeyOf(threads[t]) == Some(key)
  }

  ghost predicate Reservations(s: State) {
    KeysReserved(s.threads, s.creating) && KeysDistinct(s.threads) && KeysUsed(s.threads, s.creating)
  }

  /** What a create call knows about the leases of its key while it goes on. */
  predicate Knows(leases: Table, th: Thread) {
    match th
    case Replacing(key, id) => forall i :: i in leases && leases[i].key == key ==> i == id
    case Cleaning(Some(key), id, _) => forall i :: i in leases && leases[i].key == key ==> i == id
    case Popping(Some(key), id, _) => forall i :: i in leases && leases[i].key == key ==> i == id
    case Building(key, _, _) => forall i :: i in leases ==> leases[i].key != key
    case _ => true
  }

  predicate Replacements(s: State) {
    forall t :: t in s.threads ==> Knows(s.leases, s.threads[t])
  }

  /** Every engine object belongs to a stored lease, to a build in progress, or is lost. */
  ghost predicate Accounted(s: State) {
    && (forall x :: x in s.live ==>
          x in s.lost || InTable(s.stored, x) || exists t :: t in s.threads && Holds(s.threads[t], x))
    && (forall id, x :: id in s.stored && id !in s.leases && Has(s.stored[id], x) ==> x !in s.live)
    && (forall t, x :: t in s.threads && s.threads[t].Popping? && Has(s.threads[t].lease, x) ==> x !in s.live)
  }

  /** What holds whatever table was loaded. */
  ghost predicate Base(s: State) {
    FreshIds(s) && Tables(s) && Reservations(s) && Accounted(s)
  }

  /** What holds besides when the loaded table has one lease per key. */
  ghost predicate Inv(s: State) {
    Base(s) && Unique(s) && Replacements(s)
  }

  // ---------------------------------------------------------------- every step keeps it

  /** What the moving thread itself knows to be in range. */
  predicate InRange(th: Thread, nextLease: nat, nextObject: nat) {
    match th
    case Cleaning(_, id, lease) => id < nextLease && lease.container < nextObject && lease.network < nextObject
    case Popping(_, id, lease) => id < nextLease && lease.container < nextObject && lease.network < nextObject
    case Building(_, n, c) => (n.Some? ==> n.value < nextObject) && (c.Some? ==> c.value < nextObject)
    case Failing(_, n, c) => (n.Some? ==> n.value < nextObject) && (c.Some? ==> c.value < nextObject)
    case _ => true
  }

  /** One thread moves on, and everything that appears is new. */
  predicate FreshMove(s: State, s': State, t: Tid, th: Thread) {
    && s'.threads == s.threads[t := th]
    && s.nextLease <= s'.nextLease && s.nextObject <= s'.nextObject
    && InRange(th, s'.nextLease, s'.nextObject)
    && (forall id :: id in s'.stored ==>
          || (id in s.stored && s'.stored[id] == s.stored[id])
          || (id < s'.nextLease && s'.stored[id].container < s.nextObject && s'.stored[id].network < s.nextObject))
    && (forall x :: x in s'.live ==> x in s.live || x < s'.nextObject)
  }

  lemma FreshIdsMove(s: State, s': State, t: Tid, th: Thread)
    requires FreshIds(s) && FreshMove(s, s', t, th)
    ensures FreshIds(s')
  {}

  lemma ThreadInRange(s: State, t: Tid)
    requires FreshIds(s)
    ensures InRange(ThreadOf(s, t), s.nextLease, s.nextObject)
  {
    var th := ThreadOf(s, t);
    if th.Building? || th.Failing? {
      assert th.network.Some? ==> Holds(th, th.network.value);
      assert th.container.Some? ==> Holds(th, th.container.value);
    }
  }

  lemma StepInRange(s: State, a: Action)
    requires !a.Restart? && Step(s, a).Some? && Step(s, a).value != s
    requires FreshIds(s) && Within(s.leases, s.stored) && InRange(ThreadOf(s, a.t), s.nextLease, s.nextObject)
    ensures a.t in Step(s, a).value.threads && FreshMove(s, Step(s, a).value, a.t, Step(s, a).value.threads[a.t])
  {}

  lemma RestartFreshIds(s: State, lost: set<nat>)
    requires FreshIds(s)
    ensures FreshIds(Restarted(s, lost))
  {}

  lemma KeepsFreshIds(s: State, a: Action, s': State)
    requires FreshIds(s) && Within(s.leases, s.stored) && Step(s, a) == Some(s')
    ensures FreshIds(s')
  {
    if a.Restart? {
      RestartFreshIds(s, s'.lost);
    } else if s' != s {
      ThreadInRange(s, a.t);
      StepInRange(s, a);
      FreshIdsMove(s, s', a.t, s'.threads[a.t]);
    }
  }

  lemma TablesMove(s: State, s': State, t: Tid, th: Thread)
    requires FreshIds(s) && Tables(s) && s'.threads == s.threads[t := th]
    requires s'.leases == s.leases && s'.stored == s.stored
    requires Disposing(th) && th.id in s.leases ==> s.leases[th.id] == th.lease
    ensures Tables(s')
  {}

  lemma InsertTables(s: State, s': State, t: Tid, th: Thread, lease: Lease)
    requires FreshIds(s) && Tables(s) && s'.threads == s.threads[t := th] && !Disposing(th)
    requires s'.leases == s'.stored == s.leases[s.nextLease := lease]
    ensures Tables(s')
  {}

  lemma PopTables(s: State, s': State, t: Tid, th: Thread, id: LeaseId)
    requires FreshIds(s) && Tables(s) && s'.threads == s.threads[t := th] && !Disposing(th)
    requires s'.leases == s.leases - {id}
    requires s'.stored == s'.leases || s'.stored == s.stored
    ensures Tables(s')
  {}

  lemma KeepsTables(s: State, a: Action)
    requires FreshIds(s) && Tables(s) && Step(s, a).Some?
    ensures Tables(Step(s, a).value)
  {
    var s' := Step(s, a).value;
    if !a.Restart? && s' != s {
      if a.Insert? && a.saved {
        InsertTables(s, s', a.t, s'.threads[a.t], s'.leases[s.nextLease]);
      } else if a.Pop? {
        PopTables(s, s', a.t, s'.threads[a.t], ThreadOf(s, a.t).id);
      } else {
        TablesMove(s, s', a.t, s'.threads[a.t]);
      }
    }
  }

  /** Only a create that knows of no lease of its key adds one. */
  lemma KeepsUnique(s: State, a: Action)
    requires Unique(s) && Replacements(s) && Step(s, a).Some?
    ensures Unique(Step(s, a).value)
  {
    if !a.Restart? {
      assert a.t in s.threads ==> Knows(s.leases, s.threads[a.t]);
    }
  }

  /** A thread keeps its key, or reserves one that nobody has, or gives its own back. */
  predicate KeyMoves(from: Option<Key>, to: Option<Key>, creating: set<Key>, after: set<Key>) {
    || (from == to && after == creating)
    || (from.None? && to.Some? && to.value !in creating && after == creating + {to.value})
    || (from.Some? && to.None? && after == creating - {from.value})
  }

  lemma ReservedMove(s: State, s': State, t: Tid, th: Thread)
    requires Reservations(s) && s'.threads == s.threads[t := th]
    requires KeyMoves(KeyOf(ThreadOf(s, t)), KeyOf(th), s.creating, s'.creating)
    ensures KeysReserved(s'.threads, s'.creating)
  {
    forall u | u in s'.threads && KeyOf(s'.threads[u]).Some? ensures KeyOf(s'.threads[u]).value in s'.creating {
      if u != t && t in s.threads {
        assert !SameKey(s.threads[t], s.threads[u]);
      }
    }
  }

  lemma DistinctMove(s: State, s': State, t: Tid, th: Thread)
    requires Reservations(s) && s'.threads == s.threads[t := th]
    requires KeyMoves(KeyOf(ThreadOf(s, t)), KeyOf(th), s.creating, s'.creating)
    ensures KeysDistinct(s'.threads)
  {
    forall u | u in s.threads && u != t ensures !SameKey(th, s.threads[u]) {
      if t in s.threads {
        assert !SameKey(s.threads[t], s.threads[u]);
      }
    }
  }

  lemma UsedMove(s: State, s': State, t: Tid, th: Thread)
    requires Reservations(s) && s'.threads == s.threads[t := th]
    requires KeyMoves(KeyOf(ThreadOf(s, t)), KeyOf(th), s.creating, s'.creating)
    ensures KeysUsed(s'.threads, s'.creating)
  {
    forall key | key in s'.creating ensures exists u :: u in s'.threads && KeyOf(s'.threads[u]) == Some(key) {
      if KeyOf(th) == Some(key) {
        assert t in s'.threads && KeyOf(s'.threads[t]) == Some(key);
      } else {
        var u :| u in s.threads && KeyOf(s.threads[u]) == Some(key);
        assert u in s'.threads && KeyOf(s'.threads[u]) == Some(key);
      }
    }
  }

  lemma ReservationsMove(s: State, s': State, t: Tid, th: Thread)
    requires Reservations(s) && s'.threads == s.threads[t := th]
    requires KeyMoves(KeyOf(ThreadOf(s, t)), KeyOf(th), s.creating, s'.creating)
    ensures Reservations(s')
  {
    ReservedMove(s, s', t, th);
    DistinctMove(s, s', t, th);
    UsedMove(s, s', t, th);
  }

  lemma StepKeyMoves(s: State, a: Action)
    requires Step(s, a).Some? && !a.Restart? && Step(s, a).value != s
    ensures var s' := Step(s, a).value;
      && a.t in s'.threads && s'.threads == s.threads[a.t := s'.threads[a.t]]
      && KeyMoves(KeyOf(ThreadOf(s, a.t)), KeyOf(s'.threads[a.t]), s.creating, s'.creating)
  {}

  lemma KeepsReservations(s: State, a: Action)
    requires Reservations(s) && Step(s, a).Some?
    ensures Reservations(Step(s, a).value)
  {
    var s' := Step(s, a).value;
    if !a.Restart? && s' != s {
      StepKeyMoves(s, a);
      ReservationsMove(s, s', a.t, s'.threads[a.t]);
    }
  }

  /** The table grows only by a key the moving thread has reserved, and otherwise shrinks. */
  lemma ReplacementsMove(s: State, s': State, t: Tid, th: Thread)
    requires Replacements(s) && Reservations(s) && s'.threads == s.threads[t := th]
    requires Knows(s'.leases, th)
    requires forall id :: id in s'.leases ==>
      (id in s.leases && s.leases[id] == s'.leases[id]) || KeyOf(ThreadOf(s, t)) == Some(s'.leases[id].key)
    ensures Replacements(s')
  {
    forall u | u in s'.threads && u != t ensures Knows(s'.leases, s'.threads[u]) {
      assert t in s.threads && SameKey(s.threads[t], s.threads[u]) ==> t == u;
    }
  }

  lemma StepKnows(s: State, a: Action)
    requires Unique(s) && Replacements(s) && Step(s, a).Some? && !a.Restart? && Step(s, a).value != s
    ensures var s' := Step(s, a).value;
      && a.t in s'.threads && s'.threads == s.threads[a.t := s'.threads[a.t]] && Knows(s'.leases, s'.threads[a.t])
      && forall id :: id in s'.leases ==>
           (id in s.leases && s.leases[id] == s'.leases[id]) || KeyOf(ThreadOf(s, a.t)) == Some(s'.leases[id].key)
  {
    assert a.t in s.threads ==> Knows(s.leases, s.threads[a.t]);
  }

  lemma KeepsReplacements(s: State, a: Action)
    requires Unique(s) && Replacements(s) && Reservations(s) && Step(s, a).Some?
    ensures Replacements(Step(s, a).value)
  {
    var s' := Step(s, a).value;
    if !a.Restart? && s' != s {
      StepKnows(s, a);
      ReplacementsMove(s, s', a.t, s'.threads[a.t]);
    }
  }

  /** Where the objects of the moving thread go, and why nothing else is disturbed. */
  ghost predicate ObjectsMove(s: State, s': State, t: Tid, th: Thread) {
    && s'.threads == s.threads[t := th]
    && (forall x :: x in s'.live && x !in s.live ==> x >= s.nextObject && Holds(th, x))
    && s.lost <= s'.lost
    && (forall x :: x in s'.live && InTable(s.stored, x) ==> InTable(s'.stored, x))
    && (forall x: nat :: Holds(ThreadOf(s, t), x) && x in s'.live ==>
          Holds(th, x) || x in s'.lost || InTable(s'.stored, x))
    && (forall id, x :: id in s'.stored && id !in s'.leases && Has(s'.stored[id], x) ==> x !in s'.live)
    && (th.Popping? ==> th.lease.container !in s'.live && th.lease.network !in s'.live)
  }

  lemma AccountedMove(s: State, s': State, t: Tid, th: Thread)
    requires Accounted(s) && FreshIds(s) && ObjectsMove(s, s', t, th)
    ensures Accounted(s')
  {
    forall x | x in s'.live
      ensures x in s'.lost || InTable(s'.stored, x) || exists u :: u in s'.threads && Holds(s'.threads[u], x)
    {
      if Holds(th, x) {
        assert t in s'.threads && Holds(s'.threads[t], x);
      } else if x !in s.lost && !InTable(s.stored, x) {
        var u :| u in s.threads && Holds(s.threads[u], x);
        assert u != t ==> u in s'.threads && Holds(s'.threads[u], x);
      }
    }
  }

  lemma RestartAccounted(s: State)
    requires Accounted(s)
    ensures Accounted(Restarted(s, s.lost + Orphans(s)))
  {}

  /** Steps that leave both tables alone and create no object. */
  lemma QuietObjects(s: State, s': State, t: Tid, th: Thread)
    requires Accounted(s) && s'.threads == s.threads[t := th]
    requires s'.leases == s.leases && s'.stored == s.stored && s'.live <= s.live && s.lost <= s'.lost
    requires forall x: nat :: Holds(ThreadOf(s, t), x) && x in s'.live ==> Holds(th, x) || x in s'.lost
    requires th.Popping? ==> th.lease.container !in s'.live && th.lease.network !in s'.live
    ensures ObjectsMove(s, s', t, th)
  {}

  lemma MakeObjects(s: State, s': State, t: Tid, th: Thread)
    requires Accounted(s) && FreshIds(s) && s'.threads == s.threads[t := th]
    requires s'.leases == s.leases && s'.stored == s.stored && s'.live == s.live + {s.nextObject} && s.lost == s'.lost
    requires Holds(th, s.nextObject) && forall x: nat :: Holds(ThreadOf(s, t), x) ==> Holds(th, x)
    ensures ObjectsMove(s, s', t, th)
  {}

  lemma InsertObjects(s: State, s': State, t: Tid, th: Thread, lease: Lease)
    requires Accounted(s) && FreshIds(s) && Tables(s) && s'.threads == s.threads[t := th] && !th.Popping?
    requires s'.leases == s'.stored == s.leases[s.nextLease := lease] && s'.live == s.live && s.lost == s'.lost
    requires forall x: nat :: Holds(ThreadOf(s, t), x) ==> Has(lease, x)
    ensures ObjectsMove(s, s', t, th)
  {
    forall x | x in s'.live && InTable(s.stored, x) ensures InTable(s'.stored, x) {
      var id :| id in s.stored && Has(s.stored[id], x);
      assert id in s.leases && s'.stored[id] == s.stored[id];
    }
    assert forall x :: Has(lease, x) ==> s.nextLease in s'.stored && Has(s'.stored[s.nextLease], x);
  }

  lemma PopObjects(s: State, s': State, t: Tid, th: Thread, id: LeaseId)
    requires Accounted(s) && FreshIds(s) && Tables(s) && s'.threads == s.threads[t := th] && !th.Popping?
    requires ThreadOf(s, t).Popping? && ThreadOf(s, t).id == id
    requires s'.leases == s.leases - {id} && (s'.stored == s.stored || s'.stored == s'.leases)
    requires s'.live == s.live && s.lost == s'.lost
    ensures ObjectsMove(s, s', t, th)
  {
    var lease := s.threads[t].lease;
    assert Has(lease, lease.container) && Has(lease, lease.network);
    forall x | x in s'.live && InTable(s.stored, x) ensures InTable(s'.stored, x) {
      var i :| i in s.stored && Has(s.stored[i], x);
      assert i in s.leases && i != id;
      assert i in s'.stored && s'.stored[i] == s.stored[i];
    }
  }

  lemma KeepsAccounted(s: State, a: Action, s': State)
    requires Accounted(s) && FreshIds(s) && Tables(s) && Step(s, a) == Some(s')
    ensures Accounted(s')
  {
    if a.Restart? {
      RestartAccounted(s);
    } else if s' != s {
      StepObjects(s, a, s');
      AccountedMove(s, s', a.t, s'.threads[a.t]);
    }
  }

  lemma StepObjects(s: State, a: Action, s': State)
    requires Accounted(s) && FreshIds(s) && Tables(s) && !a.Restart? && Step(s, a) == Some(s') && s' != s
    ensures a.t in s'.threads && ObjectsMove(s, s', a.t, s'.threads[a.t])
  {
    var th := ThreadOf(s, a.t);
    if a.Insert? && a.saved {
      InsertObjects(s, s', a.t, s'.threads[a.t], s'.leases[s.nextLease]);
    } else if a.Pop? {
      PopObjects(s, s', a.t, s'.threads[a.t], th.id);
    } else if a.MakeNetwork? || a.MakeContainer? {
      MakeObjects(s, s', a.t, s'.threads[a.t]);
    } else {
      QuietObjects(s, s', a.t, s'.threads[a.t]);
    }
  }

  lemma StepKeepsBase(s: State, a: Action, s': State)
    requires Base(s) && Step(s, a) == Some(s')
    ensures Base(s')
  {
    KeepsFreshIds(s, a, s');
    KeepsTables(s, a);
    KeepsReservations(s, a);
    KeepsAccounted(s, a, s');
  }

  lemma StepKeeps(s: State, a: Action, s': State)
    requires Inv(s) && Step(s, a) == Some(s')
    ensures Inv(s')
  {
    StepKeepsBase(s, a, s');
    KeepsUnique(s, a);
    KeepsReplacements(s, a);
  }

  // ---------------------------------------------------------------- runs from a loaded table

  /** A new manager: the file is read, and what the engine still has but no lease names is nobody's. */
  function Init(loaded: Table, live: set<nat>, nextObject: nat, nextLease: nat): State {
    var lost := set x | x in live && !InTable(loaded, x);
    State(loaded, loaded, {}, live, lost, nextObject, nextLease, map[])
  }

  /** Identifiers issued from now on are new. */
  predicate NewIdentifiers(loaded: Table, live: set<nat>, nextObject: nat, nextLease: nat) {
    && (forall id :: id in loaded ==>
          id < nextLease && loaded[id].container < nextObject && loaded[id].network < nextObject)
    && (forall x :: x in live ==> x < nextObject)
  }

  ghost predicate PluginRun(loaded: Table, live: set<nat>, nextObject: nat, nextLease: nat, run: seq<State>,
      actions: seq<Action>) {
    && NewIdentifiers(loaded, live, nextObject, nextLease)
    && IsRun(Init(loaded, live, nextObject, nextLease), (s: State, a: Action) => Step(s, a), run, actions)
  }

  lemma RunBase(loaded: Table, live: set<nat>, nextObject: nat, nextLease: nat,
                run: seq<State>, actions: seq<Action>, i: nat)
    requires PluginRun(loaded, live, nextObject, nextLease, run, actions) && i < |run|
    ensures Base(run[i])
  {
    var step := (s: State, a: Action) => Step(s, a);
    var inv := (s: State) => Base(s);
    forall s, a | inv(s) && step(s, a).Some? ensures inv(step(s, a).value) {
      StepKeepsBase(s, a, step(s, a).value);
    }
    RunInduction(Init(loaded, live, nextObject, nextLease), step, inv, run, actions, i);
  }

  lemma RunInvariant(loaded: Table, live: set<nat>, nextObject: nat, nextLease: nat,
                     run: seq<State>, actions: seq<Action>, i: nat)
    requires PluginRun(loaded, live, nextObject, nextLease, run, actions) && i < |run| && UniqueKeys(loaded)
    ensures Inv(run[i])
  {
    var step := (s: State, a: Action) => Step(s, a);
    var inv := (s: State) => Inv(s);
    forall s, a | inv(s) && step(s, a).Some? ensures inv(step(s, a).value) {
      StepKeeps(s, a, step(s, a).value);
    }
    RunInduction(Init(loaded, live, nextObject, nextLease), step, inv, run, actions, i);
  }

  ghost predicate ReachedBy(s: State, loaded: Table, live: set<nat>, nextObject: nat, nextLease: nat, run: seq<State>,
      actions: seq<Action>) {
    && PluginRun(loaded, live, nextObject, nextLease, run, actions)
    && s == run[|run| - 1]
  }

  /** Some run of the manager, from any table it can load, ends in this state. */
  ghost predicate Reachable(s: State) {
    exists loaded, live, nextObject, nextLease, run, actions ::
      ReachedBy(s, loaded, live, nextObject, nextLease, run, actions)
  }

  lemma ReachableBase(s: State)
    requires Reachable(s)
    ensures Base(s)
  {
    var loaded, live, nextObject, nextLease, run, actions :| ReachedBy(s, loaded, live, nextObject, nextLease, run,
                                                                       actions);
    RunBase(loaded, live, nextObject, nextLease, run, actions, |run| - 1);
  }

  lemma ReachableInit(loaded: Table, live: set<nat>, nextObject: nat, nextLease: nat)
    requires NewIdentifiers(loaded, live, nextObject, nextLease)
    ensures Reachable(Init(loaded, live, nextObject, nextLease))
  {
    var s := Init(loaded, live, nextObject, nextLease);
    assert ReachedBy(s, loaded, live, nextObject, nextLease, [s], []);
  }

  lemma ReachableStep(s: State, a: Action, s': State)
    requires Reachable(s) && Step(s, a) == Some(s')
    ensures Reachable(s')
  {
    var loaded, live, nextObject, nextLease, run, actions :| ReachedBy(s, loaded, live, nextObject, nextLease, run,
                                                                       actions);
    RunExtend(Init(loaded, live, nextObject, nextLease), (s: State, a: Action) => Step(s, a), run, actions, a, s');
    assert ReachedBy(s', loaded, live, nextObject, nextLease, run + [s'], actions + [a]);
  }

  /** In every state of every run, whatever saves failed, each lease in memory is in the file, unchanged. */
  lemma MemoryWithinFile(loaded: Table, live: set<nat>, nextObject: nat, nextLease: nat, run: seq<State>,
      actions: seq<Action>, i: nat)
    requires PluginRun(loaded, live, nextObject, nextLease, run, actions) && i < |run|
    ensures Within(run[i].leases, run[i].stored)
  {
    RunBase(loaded, live, nextObject, nextLease, run, actions, i);
  }

  /**
   Whenever the manager restarts, every lease it had in memory is there again; only
   builds in progress are orphaned.
  */
  lemma RestartForgetsNoLease(loaded: Table, live: set<nat>, nextObject: nat, nextLease: nat, run: seq<State>,
      actions: seq<Action>, i: nat)
    requires PluginRun(loaded, live, nextObject, nextLease, run, actions) && i < |actions| && actions[i].Restart?
    ensures Within(run[i].leases, run[i + 1].leases)
    ensures forall x :: x in run[i + 1].lost && x !in run[i].lost ==>
              exists t :: t in run[i].threads && Holds(run[i].threads[t], x)
  {
    RunBase(loaded, live, nextObject, nextLease, run, actions, i);
  }

  /**
     Memory and file hold at most one lease per key in every state of every run
     exactly when the table read at the start does: the reservation and the
     replacement keep it so, and nothing repairs a table that breaks it.
  */
  lemma OneLeasePerKey(loaded: Table, live: set<nat>, nextObject: nat, nextLease: nat)
    requires NewIdentifiers(loaded, live, nextObject, nextLease)
    ensures UniqueKeys(loaded) <==>
      forall run: seq<State>, actions: seq<Action>, i: nat ::
        PluginRun(loaded, live, nextObject, nextLease, run, actions) && i < |run| ==>
        UniqueKeys(run[i].leases) && UniqueKeys(run[i].stored)
  {
    if UniqueKeys(loaded) {
      forall run: seq<State>, actions: seq<Action>, i: nat |
        PluginRun(loaded, live, nextObject, nextLease, run, actions) && i < |run|
        ensures UniqueKeys(run[i].leases) && UniqueKeys(run[i].stored)
      {
        RunInvariant(loaded, live, nextObject, nextLease, run, actions, i);
      }
    } else {
      var run := [Init(loaded, live, nextObject, nextLease)];
      assert PluginRun(loaded, live, nextObject, nextLease, run, []);
      assert !UniqueKeys(run[0].leases);
    }
  }

  /** A key is reserved exactly while one create call for it is on its way, and never by two. */
  lemma OneCreatePerKey(loaded: Table, live: set<nat>, nextObject: nat, nextLease: nat, run: seq<State>,
      actions: seq<Action>, i: nat, key: Key)
    requires PluginRun(loaded, live, nextObject, nextLease, run, actions) && i < |run|
    ensures key in run[i].creating <==> exists t :: t in run[i].threads && KeyOf(run[i].threads[t]) == Some(key)
    ensures forall t, u :: (t in run[i].threads && u in run[i].threads
              && KeyOf(run[i].threads[t]) == Some(key) && KeyOf(run[i].threads[u]) == Some(key)) ==> t == u
  {
    RunBase(loaded, live, nextObject, nextLease, run, actions, i);
    var s := run[i];
    forall t, u | t in s.threads && u in s.threads && KeyOf(s.threads[t]) == Some(key)
                  && KeyOf(s.threads[u]) == Some(key)
      ensures t == u
    {
      assert SameKey(s.threads[t], s.threads[u]);
    }
  }

  /** When no call is active, no key is reserved and every object the engine has is a lease's or lost. */
  lemma NothingForgotten(loaded: Table, live: set<nat>, nextObject: nat, nextLease: nat, run: seq<State>,
      actions: seq<Action>, i: nat)
    requires PluginRun(loaded, live, nextObject, nextLease, run, actions) && i < |run|
    requires forall t :: t in run[i].threads ==> run[i].threads[t].Idle?
    ensures run[i].creating == {}
    ensures forall x :: x in run[i].live ==> x in run[i].lost || InTable(run[i].leases, x)
  {
    RunBase(loaded, live, nextObject, nextLease, run, actions, i);
    var s := run[i];
    forall x | x in s.live && x !in s.lost ensures InTable(s.leases, x) {
      assert InTable(s.stored, x);
      var id :| id in s.stored && Has(s.stored[id], x);
      assert id in s.leases && Has(s.leases[id], x);
    }
  }

  /** A lease never changes, and leaves memory only after the engine has let go of its container and its network. */
  lemma LeaseLeavesClean(s: State, a: Action, s': State, id: LeaseId)
    requires Base(s) && Step(s, a) == Some(s') && id in s.leases
    ensures id in s'.leases ==> s'.leases[id] == s.leases[id]
    ensures id !in s'.leases ==> s.leases[id].container !in s.live && s.leases[id].network !in s.live
  {
    if id !in s'.leases {
      var th := s.threads[a.t];
      assert Has(th.lease, th.lease.container) && Has(th.lease, th.lease.network);
    }
  }

  /** A build ends in exactly one lease of its key, in memory and in the file, or with both tables as they were. */
  lemma InsertGrants(s: State, t: Tid, saved: bool, s': State)
    requires Inv(s) && Step(s, Insert(t, saved)) == Some(s')
    ensures !saved ==> s'.leases == s.leases && s'.stored == s.stored
    ensures saved ==> s'.stored == s'.leases && s.nextLease in s'.leases && s.nextLease !in s.leases
    ensures saved ==> forall id :: id in s'.leases ==> (s'.leases[id].key == s.threads[t].key <==> id == s.nextLease)
  {
    assert t in s.threads ==> Knows(s.leases, s.threads[t]);
  }

  /** Objects are lost only to a clean-up that failed after a failed build, or to a restart. */
  lemma LostOnlyByFailure(s: State, a: Action, s': State, x: nat)
    requires Step(s, a) == Some(s') && x in s'.lost && x !in s.lost
    ensures (a.CleanFailed? && !(a.container && a.network)) || (a.Restart? && x in Orphans(s))
  {}

  // ---------------------------------------------------------------- nobody waits

  /** An upper bound on the steps left in a call. */
  function StepsLeft(th: Thread): (n: nat)
    ensures n <= 9 && (n == 0 <==> th.Idle?)
  {
    match th
    case Idle => 0
    case Leaving(_) => 1
    case Failing(_, _, _) => 2
    case Building(_, n, c) => 3 + (if n.None? then 1 else 0) + (if c.None? then 1 else 0)
    case Popping(_, _, _) => 6
    case Cleaning(_, _, _) => 7
    case Replacing(_, _) => 8
    case Reserved(_) => 9
  }

  predicate Own(a: Action, t: Tid) {
    !a.Restart? && a.t == t
  }

  function OwnSteps(actions: seq<Action>, t: Tid): nat {
    |Filter((a: Action) => Own(a, t), actions)|
  }

  lemma OwnStepsSnoc(actions: seq<Action>, a: Action, t: Tid)
    ensures OwnSteps(actions + [a], t) == OwnSteps(actions, t) + (if Own(a, t) then 1 else 0)
  {
    FilterSnoc((b: Action) => Own(b, t), actions, a);
  }

  /** A thread inside a call has a next step, whatever the others have done. */
  lemma NextStep(s: State, t: Tid) returns (a: Action)
    requires !ThreadOf(s, t).Idle?
    ensures Own(a, t) && Step(s, a).Some?
  {
    var th := ThreadOf(s, t);
    match th
    case Reserved(key) =>
      if id :| id in s.leases && s.leases[id].key == key {
        a := FindPrevious(t, Some(id));
      } else {
        a := FindPrevious(t, None);
      }
    case Replacing(_, _) => a := LookUpPrevious(t);
    case Cleaning(_, _, _) => a := Clean(t, true, true, true);
    case Popping(_, _, _) => a := Pop(t, true);
    case Building(_, _, _) => a := BuildFails(t);
    case Failing(_, _, _) => a := CleanFailed(t, true, true);
    case Leaving(_) => a := Unreserve(t);
  }

  lemma StepShortens(s: State, a: Action, t: Tid, s': State)
    requires !a.Restart? && Step(s, a) == Some(s') && !ThreadOf(s, t).Idle?
    ensures if a.t == t then StepsLeft(ThreadOf(s', t)) < StepsLeft(ThreadOf(s, t))
      else ThreadOf(s', t) == ThreadOf(s, t)
  {}

  /** The states and actions of a stretch of a run in which thread `t` stays inside one call and no restart happens. */
  ghost predicate InsideCall(run: seq<State>, actions: seq<Action>, t: Tid) {
    && |run| == |actions| + 1
    && forall i :: 0 <= i < |actions| ==>
         !actions[i].Restart? && !ThreadOf(run[i], t).Idle? && Step(run[i], actions[i]) == Some(run[i + 1])
  }

  lemma {:induction false} OwnStepsShorten(run: seq<State>, actions: seq<Action>, t: Tid)
    requires InsideCall(run, actions, t)
    ensures OwnSteps(actions, t) + StepsLeft(ThreadOf(run[|actions|], t)) <= StepsLeft(ThreadOf(run[0], t))
    decreases |actions|
  {
    var n := |actions|;
    if n > 0 {
      var last := n - 1;
      OwnStepsShorten(run[..n], actions[..last], t);
      StepShortens(run[last], actions[last], t, run[n]);
      OwnStepsSnoc(actions[..last], actions[last], t);
      assert actions[..last] + [actions[last]] == actions;
    }
  }

  /**
     Nobody waits for anybody: however many steps the other threads take in between,
     a call takes at most nine steps of its own, and until it is over it can always
     take the next one.
  */
  lemma WaitFree(run: seq<State>, actions: seq<Action>, t: Tid)
    requires InsideCall(run, actions, t)
    ensures OwnSteps(actions, t) <= 9
    ensures !ThreadOf(run[|actions|], t).Idle? ==> exists a :: Own(a, t) && Step(run[|actions|], a).Some?
  {
    OwnStepsShorten(run, actions, t);
    if !ThreadOf(run[|actions|], t).Idle? {
      var a := NextStep(run[|actions|], t);
    }
  }
}
