/**
 The methods of the task-container manager (services/sandbox-manager/app/task_containers.py)
 as one thread runs them, with anything the other threads do in between.
*/
module TaskContainersManager {
  import opened Common
  import opened TaskContainers
  import opened TaskContainersSafety
  import opened TaskContainersProperties
  import opened TaskContainersLeases
  import opened TaskContainersCalls
  import opened TaskContainersAnswers

  /** A lease with its lock; `holder` is the thread that has it. */
  class TaskLease {
    const container: nat
    const digest: string
    var frozen: bool
    var holder: Option<Tid>

    constructor (container: nat, lease: Lease)
      ensures this.container == container && Lease(digest, frozen, holder) == lease
    {
      this.container, this.digest, this.frozen, this.holder := container, lease.digest, lease.frozen, lease.holder;
    }
  }

  // ---------------------------------------------------------------- what the others do

  /** What the other threads do at each point of a method. */
  type Schedule = nat -> seq<Action>

  ghost predicate Undisturbed(others: Schedule) {
    forall k :: others(k) == []
  }

  /** Leases known now are still there later, with the same digest. */
  ghost predicate KeepsDigests(heap: map<nat, Lease>, later: map<nat, Lease>) {
    forall l :: l in heap ==> l in later && later[l].digest == heap[l].digest
  }

  lemma OtherMoves(cfg: Config, s: State, me: Tid, a: Action)
    requires Reachable(cfg, s) && !a.Restart? && a.t != me && Move(cfg, s, a).Some?
    ensures var r := Move(cfg, s, a).value;
      Reachable(cfg, r) && ThreadOf(r, me) == ThreadOf(s, me) && KeepsDigests(s.heap, r.heap)
  {
    ReachableInv(cfg, s);
    ReachableStep(cfg, s, a, Move(cfg, s, a).value);
    StepGrows(cfg, s, a);
    StepBinds(cfg, s, a);
  }

  /** A step of another thread of this process, if it is one and it is enabled. */
  function Interfere(cfg: Config, s: State, me: Tid, a: Action): (r: State)
    requires Reachable(cfg, s)
    ensures Reachable(cfg, r) && ThreadOf(r, me) == ThreadOf(s, me) && KeepsDigests(s.heap, r.heap)
  {
    if !a.Restart? && a.t != me && Move(cfg, s, a).Some? then
      OtherMoves(cfg, s, me, a);
      Move(cfg, s, a).value
    else s
  }

  lemma AdvanceIsOwn(phase: Phase, u: Tid)
    ensures Advance(phase, u).t == u && !Advance(phase, u).Restart?
  {}

  lemma CanProceed(cfg: Config, s: State, me: Tid, u: Tid)
    requires Reachable(cfg, s) && Runnable(s, u) && u != me
    ensures var r := Interfere(cfg, s, me, Advance(s.threads[u].phase, u));
      TotalWeight(r.threads) < TotalWeight(s.threads)
  {
    ReachableInv(cfg, s);
    AdvanceIsOwn(s.threads[u].phase, u);
    AdvanceDescends(cfg, s, u);
    DescendsTotal(s, Step(cfg, s, Advance(s.threads[u].phase, u)).value, u);
  }

  /** Waits for one of the two kinds of locks. */
  predicate WantsLock(phase: Phase) {
    WantRank(phase) == 1 || WantRank(phase) == 2
  }

  lemma SomeoneElseRuns(cfg: Config, s: State, me: Tid)
    requires Reachable(cfg, s) && WantsLock(ThreadOf(s, me).phase) && !Runnable(s, me)
    ensures exists u :: u in s.threads && Runnable(s, u) && u != me
  {
    ReachableInv(cfg, s);
    var u := SomeoneRuns(cfg, s, me);
  }

  // ---------------------------------------------------------------- single steps of reachable states

  lemma TakeStep(cfg: Config, s: State, a: Action) returns (r: State)
    requires Reachable(cfg, s) && Step(cfg, s, a).Some?
    ensures Step(cfg, s, a) == Some(r) && Reachable(cfg, r)
  {
    r := Step(cfg, s, a).value;
    ReachableStep(cfg, s, a, r);
  }

  lemma TakeEnter(cfg: Config, s: State, me: Tid) returns (r: State)
    requires Reachable(cfg, s) && ThreadOf(s, me).phase.ExecEnter? && s.mutex.None?
    ensures r == EnteredState(cfg, s, me) && Reachable(cfg, r)
  {
    r := TakeStep(cfg, s, EnterTable(me));
  }

  function TakesLock(s: State, me: Tid): Action {
    if ThreadOf(s, me).phase.ExecLease? then GetLease(me) else GetLeaseToFreeze(me)
  }

  lemma TakeLease(cfg: Config, s: State, me: Tid)
    requires Reachable(cfg, s) && (ThreadOf(s, me).phase.ExecLease? || ThreadOf(s, me).phase.FreezeLease?)
    requires Runnable(s, me)
    ensures ThreadOf(s, me).lease in s.heap
    ensures Step(cfg, s, TakesLock(s, me)) == Some(LockTaken(s, me)) && Reachable(cfg, LockTaken(s, me))
  {
    ReachableStep(cfg, s, TakesLock(s, me), LockTaken(s, me));
  }

  lemma TakeCreate(cfg: Config, s: State, me: Tid, saved: bool) returns (r: State)
    requires Reachable(cfg, s) && ThreadOf(s, me).phase.ExecStart?
    ensures CreateStep(s, me, saved) == Some(r) && Reachable(cfg, r)
    ensures var th := ThreadOf(s, me); var made := WithNewLease(s, th.task, th.digest, th.lease);
      r == made.(stored := if saved then Snapshot(made.table, made.heap) else s.stored, saveFailed := !saved,
                 mutex := None,
                 threads := s.threads[me := if saved then th.(phase := ExecSlot) else IDLE])
  {
    r := TakeStep(cfg, s, CreateOk(me, saved));
  }

  lemma TakeSaveFrozen(cfg: Config, s: State, me: Tid, saved: bool)
    requires Reachable(cfg, s) && ThreadOf(s, me).phase.FreezeSave? && s.mutex.None? && ThreadOf(s, me).lease in s.heap
    ensures Reachable(cfg, FreezeSaved(s, me, saved))
  {
    ReachableStep(cfg, s, SaveFrozen(me, saved), FreezeSaved(s, me, saved));
  }

  lemma IdleLocks(s: State, me: Tid)
    requires LeaseLockInv(s) && ThreadInv(s) && ThreadOf(s, me).phase.Idle?
    ensures forall l :: l in s.heap ==> s.heap[l].holder != Some(me)
  {
    assert Consistent(ThreadOf(s, me));
  }

  /** A thread outside all calls has no slot and no lock. */
  lemma IdleHasNothing(cfg: Config, s: State, me: Tid)
    requires Reachable(cfg, s) && ThreadOf(s, me) == IDLE
    ensures me !in Where(s.threads, HoldsSlot) && s.mutex != Some(me)
    ensures forall l :: l in s.heap ==> s.heap[l].holder != Some(me)
  {
    ReachableInv(cfg, s);
    IdleLocks(s, me);
  }

  lemma NextIsNew(cfg: Config, s: State)
    requires Reachable(cfg, s)
    ensures s.next !in s.live
  {
    ReachableInv(cfg, s);
  }

  // ---------------------------------------------------------------- the start of a process

  predicate KeepsRow(stored: map<TaskId, Row>, answering: set<nat>, task: TaskId) {
    task in stored && stored[task].container in answering
  }

  /** The table, heap and file of a process that has kept the rows whose container answers. */
  ghost predicate KeepsRows(stored: map<TaskId, Row>, answering: set<nat>, s: State) {
    && (forall task :: task in s.table <==> KeepsRow(stored, answering, task))
    && (forall task :: task in s.table ==>
          s.table[task] == stored[task].container && s.table[task] in s.heap
          && s.heap[s.table[task]] == LeaseFrom(stored[task]))
    && (forall l :: l in s.heap ==> exists task :: task in s.table && s.table[task] == l)
  }

  lemma RestoredKeepsRows(cfg: Config, before: State, inspectable: set<nat>)
    requires OneRowPerContainer(before.stored)
    ensures KeepsRows(before.stored, inspectable * before.live, Restored(cfg, before, inspectable))
  {
    var s := Restored(cfg, before, inspectable);
    forall task | task in s.table
      ensures s.table[task] in s.heap && s.heap[s.table[task]] == LeaseFrom(before.stored[task])
    {
      RestoredLease(cfg, before, inspectable, task);
    }
    forall l | l in s.heap ensures exists task :: task in s.table && s.table[task] == l {
      var task :| task in s.stored && s.stored[task].container == l;
      assert task in s.table && s.table[task] == l;
    }
  }

  lemma RestoredReachable(cfg: Config, stored: map<TaskId, Row>, live: set<nat>, next: nat, inspectable: set<nat>)
    returns (s: State)
    requires OneRowPerContainer(stored) && NewIdentifiers(stored, live, next) && |stored| == cfg.loaded
    ensures s == Restored(cfg, Blank(cfg, stored, live, next), inspectable) && Reachable(cfg, s)
    ensures KeepsRows(stored, inspectable * live, s) && s.stored == Snapshot(s.table, s.heap)
    ensures s.next == next && s.mutex.None? && s.free == cfg.maxConcurrent && !s.saveFailed && s.live == live
    ensures s.threads == map[]
  {
    var before := Blank(cfg, stored, live, next);
    s := Restored(cfg, before, inspectable);
    RestoredKeepsRows(cfg, before, inspectable);
    RestoredTable(cfg, before, inspectable);
    assert StartedFrom(cfg, Origin(stored, live, next, inspectable), s);
    ReachableStart(cfg, s);
  }

  /** One of these tasks has the row of container `l`. */
  ghost predicate RowAmong(tasks: set<TaskId>, stored: map<TaskId, Row>, l: nat) {
    exists task :: task in tasks && task in stored && stored[task].container == l
  }

  lemma MoreRows(tasks: set<TaskId>, task: TaskId, stored: map<TaskId, Row>, l: nat)
    requires task in stored && (RowAmong(tasks, stored, l) || stored[task].container == l)
    ensures RowAmong(tasks + {task}, stored, l)
  {
    if stored[task].container == l {
      assert task in tasks + {task};
    } else {
      var t :| t in tasks && t in stored && stored[t].container == l;
      assert t in tasks + {task};
    }
  }

  /** The leases read so far are those of the rows not in `rest` whose container answers. */
  ghost predicate LoadedFrom(
      stored: map<TaskId, Row>, answering: set<nat>, rest: set<TaskId>,
      leases: map<TaskId, TaskLease>, objects: map<nat, TaskLease>, repr: set<TaskLease>)
    reads repr
  {
    && (forall task :: task in leases <==> KeepsRow(stored, answering, task) && task !in rest)
    && (forall task :: task in leases ==>
          && stored[task].container in objects && leases[task] == objects[stored[task].container]
          && leases[task] in repr
          && Lease(leases[task].digest, leases[task].frozen, leases[task].holder) == LeaseFrom(stored[task]))
    && (forall l :: l in objects ==> objects[l].container == l && RowAmong(leases.Keys, stored, l))
  }

  lemma LoadedNext(
      stored: map<TaskId, Row>, answering: set<nat>, rest: set<TaskId>,
      leases: map<TaskId, TaskLease>, objects: map<nat, TaskLease>, repr: set<TaskLease>,
      task: TaskId, lease: TaskLease)
    requires LoadedFrom(stored, answering, rest, leases, objects, repr) && OneRowPerContainer(stored)
    requires task in rest && task in stored && stored[task].container in answering
    requires lease.container == stored[task].container
    requires Lease(lease.digest, lease.frozen, lease.holder) == LeaseFrom(stored[task])
    ensures LoadedFrom(stored, answering, rest - {task},
                       leases[task := lease], objects[lease.container := lease], repr + {lease})
  {
    var more := objects[lease.container := lease];
    assert leases[task := lease].Keys == leases.Keys + {task};
    forall l | l in more ensures RowAmong(leases.Keys + {task}, stored, l) {
      MoreRows(leases.Keys, task, stored, l);
    }
  }

  class TaskManager {
    const capacity: nat
    const maxConcurrent: nat
    const loaded: nat
    var leases: map<TaskId, TaskLease>
    var objects: map<nat, TaskLease>       // every lease object of this process, by its container
    var next: nat
    var mutex: Option<Tid>
    var free: nat
    var stored: map<TaskId, Row>
    var saveFailed: bool
    var live: set<nat>
    var threads: map<Tid, Thread>
    ghost var state: State
    ghost var Repr: set<TaskLease>

    function Cfg(): Config {
      Config(capacity, maxConcurrent, loaded)
    }

    ghost predicate HeapFits(heap: map<nat, Lease>)
      reads this`objects, this`Repr, Repr
    {
      && objects.Keys == heap.Keys
      && forall l {:trigger objects[l]} :: l in objects ==>
           objects[l] in Repr && objects[l].container == l
           && heap[l] == Lease(objects[l].digest, objects[l].frozen, objects[l].holder)
    }

    ghost predicate TableFits(table: map<TaskId, nat>)
      reads this`leases, this`objects
    {
      && leases.Keys == table.Keys
      && forall task {:trigger leases[task]} :: task in table ==>
        table[task] in objects && leases[task] == objects[table[task]]
    }

    /** The fields and the lease objects are the state `s` of the protocol. */
    ghost predicate Represents(s: State)
      reads this, Repr
    {
      && HeapFits(s.heap) && TableFits(s.table)
      && next == s.next && mutex == s.mutex && free == s.free && stored == s.stored && saveFailed == s.saveFailed
      && live == s.live && threads == s.threads
    }

    ghost predicate Valid()
      reads this, Repr
    {
      Represents(state) && Reachable(Cfg(), state)
    }

    ghost function Mine(me: Tid): Thread
      reads this`state
    {
      ThreadOf(state, me)
    }

    function View(): State
      requires forall l :: l in objects ==> objects[l] in Repr
      reads this, Repr
    {
      State(map task | task in leases :: leases[task].container,
            map l | l in objects :: Lease(objects[l].digest, objects[l].frozen, objects[l].holder),
            next, mutex, free, stored, saveFailed, live, threads)
    }

    lemma ViewIsState()
      requires Represents(state)
      ensures (forall l :: l in objects ==> objects[l] in Repr) && View() == state
    {
      assert View().table == state.table && View().heap == state.heap;
    }

    /** The lease table as rows. */
    function Rows(): map<TaskId, Row>
      requires forall task :: task in leases ==> leases[task] in Repr
      reads this`leases, this`Repr, Repr
    {
      map task | task in leases :: Row(leases[task].container, leases[task].digest, leases[task].frozen)
    }

    lemma RowsAreSnapshot(table: map<TaskId, nat>, heap: map<nat, Lease>)
      requires HeapFits(heap) && TableFits(table)
      ensures (forall task :: task in leases ==> leases[task] in Repr) && Rows() == Snapshot(table, heap)
    {}

    /** The table and the lease objects are those of these maps. */
    ghost predicate Fits(table: map<TaskId, nat>, heap: map<nat, Lease>)
      reads this`leases, this`objects, this`Repr, Repr
    {
      HeapFits(heap) && TableFits(table)
    }

    /** `_save`: the file takes over the whole table, or stays as it was. */
    method SaveTable(ghost table: map<TaskId, nat>, ghost heap: map<nat, Lease>, works: bool)
      requires Fits(table, heap)
      modifies this`stored, this`saveFailed
      ensures Fits(table, heap)
      ensures stored == (if works then Snapshot(table, heap) else old(stored)) && saveFailed == !works
    {
      RowsAreSnapshot(table, heap);
      if works {
        stored := Rows();
      }
      saveFailed := !works;
    }

    /** The lock of a lease is taken or given back. */
    method SetHolderOf(l: nat, holder: Option<Tid>, ghost s: State)
      requires Fits(s.table, s.heap) && l in s.heap
      modifies Repr
      ensures Fits(s.table, SetHolder(s, l, holder).heap)
    {
      objects[l].holder := holder;
    }

    method SetFrozenBit(l: nat, ghost s: State)
      requires Fits(s.table, s.heap) && l in s.heap
      modifies Repr
      ensures Fits(s.table, SetFrozen(s, l).heap)
    {
      objects[l].frozen := true;
    }

    /** A new lease enters the table. */
    method AddLease(task: TaskId, l: nat, digest: string, ghost table: map<TaskId, nat>, ghost heap: map<nat, Lease>)
      requires Fits(table, heap) && l !in heap
      modifies this`leases, this`objects, this`Repr
      ensures Fits(table[task := l], heap[l := Lease(digest, false, None)])
      ensures old(Repr) <= Repr && (forall o :: o in Repr ==> o in old(Repr) || fresh(o))
    {
      AddObject(l, digest, table, heap);
      PutLease(task, l, table, heap[l := Lease(digest, false, None)]);
    }

    method PutLease(task: TaskId, l: nat, ghost table: map<TaskId, nat>, ghost heap: map<nat, Lease>)
      requires Fits(table, heap) && l in heap
      modifies this`leases
      ensures Fits(table[task := l], heap)
    {
      leases := leases[task := objects[l]];
    }

    method AddObject(l: nat, digest: string, ghost table: map<TaskId, nat>, ghost heap: map<nat, Lease>)
      requires Fits(table, heap) && l !in heap
      modifies this`objects, this`Repr
      ensures Fits(table, heap[l := Lease(digest, false, None)])
      ensures old(Repr) <= Repr && (forall o :: o in Repr ==> o in old(Repr) || fresh(o))
    {
      var lease := new TaskLease(l, Lease(digest, false, None));
      objects, Repr := objects[l := lease], Repr + {lease};
    }

    /** The table takes over that of a later state. */
    method SetTable(table: map<TaskId, nat>, ghost heap: map<nat, Lease>)
      requires HeapFits(heap) && forall task :: task in table ==> table[task] in heap
      modifies this`leases
      ensures Fits(table, heap)
    {
      leases := map task | task in table :: objects[table[task]];
    }

    /** The end of a step: the threads move, and the manager is in the state `s`. */
    method Finish(moved: map<Tid, Thread>, lock: Option<Tid>, ghost s: State)
      requires Fits(s.table, s.heap) && Reachable(Cfg(), s)
      requires next == s.next && free == s.free && stored == s.stored && saveFailed == s.saveFailed && live == s.live
      requires lock == s.mutex && moved == s.threads
      modifies this`mutex, this`threads, this`state
      ensures Valid() && state == s
    {
      mutex, threads, state := lock, moved, s;
    }

    // ------------------------------------------------------------ the start of the process

    /** `__init__`: takes the settings, and reads the lease file. */
    constructor (capacity: nat, maxConcurrent: nat, stored: map<TaskId, Row>, live: set<nat>, next: nat,
        inspectable: set<nat>)
      requires OneRowPerContainer(stored) && NewIdentifiers(stored, live, next)
      ensures Valid() && Cfg() == Config(capacity, maxConcurrent, |stored|)
      ensures state == Restored(Cfg(), Blank(Cfg(), stored, live, next), inspectable)
      ensures fresh(Repr)
    {
      ghost var s := RestoredReachable(Config(capacity, maxConcurrent, |stored|), stored, live, next, inspectable);
      this.capacity, this.maxConcurrent, this.loaded := capacity, maxConcurrent, |stored|;
      this.leases, this.objects, this.next, this.mutex, this.free := map[], map[], next, None, maxConcurrent;
      this.stored, this.saveFailed, this.live, this.threads, this.state, this.Repr := stored, false, live, map[], s, {};
      new;
      Restore(inspectable * live, s);
    }

    ghost predicate Loaded(rest: set<TaskId>, answering: set<nat>)
      reads this`stored, this`leases, this`objects, this`Repr, Repr
    {
      LoadedFrom(stored, answering, rest, leases, objects, Repr)
    }

    /** `_restore`: a lease for every row whose container can be inspected, in whatever order, and a save. */
    method Restore(answering: set<nat>, ghost s: State)
      requires leases == map[] && objects == map[] && Repr == {} && OneRowPerContainer(stored)
      requires KeepsRows(stored, answering, s)
      modifies this`leases, this`objects, this`Repr, this`stored, this`saveFailed
      ensures HeapFits(s.heap) && TableFits(s.table) && stored == Snapshot(s.table, s.heap) && !saveFailed
      ensures fresh(Repr)
    {
      LoadAll(answering, s);
      SaveTable(s.table, s.heap, true);
    }

    method LoadAll(answering: set<nat>, ghost s: State)
      requires leases == map[] && objects == map[] && Repr == {} && OneRowPerContainer(stored)
      requires KeepsRows(stored, answering, s)
      modifies this`leases, this`objects, this`Repr
      ensures HeapFits(s.heap) && TableFits(s.table) && fresh(Repr)
    {
      LoadLeases(answering);
      LoadedTable(answering, s);
      LoadedHeap(answering, s);
    }

    lemma LoadedTable(answering: set<nat>, s: State)
      requires Loaded({}, answering) && KeepsRows(stored, answering, s)
      ensures TableFits(s.table)
    {}

    lemma LoadedHeap(answering: set<nat>, s: State)
      requires Loaded({}, answering) && KeepsRows(stored, answering, s)
      ensures HeapFits(s.heap)
    {
      forall l | l in s.heap
        ensures l in objects && s.heap[l] == Lease(objects[l].digest, objects[l].frozen, objects[l].holder)
      {
        var task :| task in s.table && s.table[task] == l;
        assert task in leases && leases[task] == objects[l];
      }
      forall l | l in objects ensures l in s.heap {
        var task :| task in leases && stored[task].container == l;
        assert task in s.table;
      }
    }

    method LoadLeases(answering: set<nat>)
      requires leases == map[] && objects == map[] && Repr == {} && OneRowPerContainer(stored)
      modifies this`leases, this`objects, this`Repr
      ensures Loaded({}, answering) && fresh(Repr)
    {
      var rest := stored.Keys;
      while rest != {}
        invariant rest <= stored.Keys && Loaded(rest, answering) && fresh(Repr)
        decreases |rest|
      {
        var task :| task in rest;
        if stored[task].container in answering {
          Load(task, stored[task], rest, answering);
        }
        rest := rest - {task};
      }
    }

    /** One row whose container answers. */
    method Load(task: TaskId, row: Row, ghost rest: set<TaskId>, ghost answering: set<nat>)
      requires Loaded(rest, answering) && OneRowPerContainer(stored)
      requires task in rest && task in stored && stored[task] == row && row.container in answering
      modifies this`leases, this`objects, this`Repr
      ensures Loaded(rest - {task}, answering) && (forall o :: o in Repr ==> o in old(Repr) || fresh(o))
    {
      var lease := new TaskLease(row.container, LeaseFrom(row));
      leases, objects, Repr := leases[task := lease], objects[row.container := lease], Repr + {lease};
      LoadedNext(stored, answering, rest, old(leases), old(objects), old(Repr), task, lease);
    }

    // ------------------------------------------------------------ the other threads

    /** The objects take over the leases of a later heap: known ones change, new ones are made. */
    method Remember(heap: map<nat, Lease>)
      requires HeapFits(state.heap) && KeepsDigests(state.heap, heap)
      modifies this`objects, this`Repr, Repr
      ensures HeapFits(heap) && old(Repr) <= Repr && (forall o :: o in Repr ==> o in old(Repr) || fresh(o))
    {
      var rest := heap.Keys;
      while rest != {}
        invariant rest <= heap.Keys && heap.Keys - rest <= objects.Keys <= heap.Keys
        invariant forall l :: l in objects ==>
          objects[l] in Repr && objects[l].container == l && objects[l].digest == heap[l].digest
        invariant forall l :: l in objects && l !in rest ==>
          heap[l] == Lease(objects[l].digest, objects[l].frozen, objects[l].holder)
        invariant old(Repr) <= Repr && (forall o :: o in Repr ==> o in old(Repr) || fresh(o))
        decreases |rest|
      {
        var l :| l in rest;
        if l in objects {
          objects[l].frozen, objects[l].holder := heap[l].frozen, heap[l].holder;
        } else {
          var lease := new TaskLease(l, heap[l]);
          objects, Repr := objects[l := lease], Repr + {lease};
        }
        rest := rest - {l};
      }
    }

    method SetFields(s: State)
      requires Fits(s.table, s.heap)
      modifies this`next, this`free, this`stored, this`saveFailed, this`live
      ensures Fits(s.table, s.heap)
      ensures next == s.next && free == s.free && stored == s.stored && saveFailed == s.saveFailed && live == s.live
    {
      next, free, stored, saveFailed, live := s.next, s.free, s.stored, s.saveFailed, s.live;
    }

    /** The manager is in the state `s` that other threads have led to. */
    method Become(s: State)
      requires Valid() && Reachable(Cfg(), s) && KeepsDigests(state.heap, s.heap)
      modifies this, Repr
      ensures Valid() && state == s && (forall o :: o in Repr ==> o in old(Repr) || fresh(o))
    {
      TableKnown(Cfg(), s);
      Remember(s.heap);
      SetTable(s.table, s.heap);
      SetFields(s);
      Finish(s.threads, s.mutex, s);
    }

    /** Everything the other threads manage to do while this one is between two of its own steps. */
    method Others(me: Tid, schedule: seq<Action>)
      requires Valid()
      modifies this, Repr
      ensures Valid() && Mine(me) == old(Mine(me)) && (forall o :: o in Repr ==> o in old(Repr) || fresh(o))
      ensures schedule == [] ==> state == old(state)
    {
      ViewIsState();
      var s := Interfered(me, View(), schedule);
      Become(s);
    }

    method Interfered(me: Tid, before: State, schedule: seq<Action>) returns (s: State)
      requires Reachable(Cfg(), before)
      ensures Reachable(Cfg(), s) && ThreadOf(s, me) == ThreadOf(before, me) && KeepsDigests(before.heap, s.heap)
      ensures schedule == [] ==> s == before
    {
      s := before;
      for i := 0 to |schedule|
        invariant Reachable(Cfg(), s) && ThreadOf(s, me) == ThreadOf(before, me) && KeepsDigests(before.heap, s.heap)
        invariant i == 0 ==> s == before
      {
        s := Interfere(Cfg(), s, me, schedule[i]);
      }
    }

    /**
     The thread waits for the table lock or a lease lock: the others do what they
     do, and if the lock is still taken they go on until it is free.
    */
    method Await(me: Tid, schedule: seq<Action>)
      requires Valid() && WantsLock(Mine(me).phase)
      modifies this, Repr
      ensures Valid() && Mine(me) == old(Mine(me)) && Runnable(state, me)
      ensures (forall o :: o in Repr ==> o in old(Repr) || fresh(o))
      ensures schedule == [] && old(Runnable(state, me)) ==> state == old(state)
    {
      ViewIsState();
      var s := Interfered(me, View(), schedule);
      s := Unblocked(me, s);
      Become(s);
    }

    method Unblocked(me: Tid, before: State) returns (s: State)
      requires Reachable(Cfg(), before) && WantsLock(ThreadOf(before, me).phase)
      ensures Reachable(Cfg(), s) && ThreadOf(s, me) == ThreadOf(before, me) && KeepsDigests(before.heap, s.heap)
      ensures Runnable(s, me) && (Runnable(before, me) ==> s == before)
    {
      s := before;
      while !Runnable(s, me)
        invariant Reachable(Cfg(), s) && ThreadOf(s, me) == ThreadOf(before, me) && KeepsDigests(before.heap, s.heap)
        invariant Runnable(before, me) ==> s == before
        decreases TotalWeight(s.threads)
      {
        SomeoneElseRuns(Cfg(), s, me);
        var u :| u in s.threads && Runnable(s, u) && u != me;
        CanProceed(Cfg(), s, me, u);
        s := Interfere(Cfg(), s, me, Advance(s.threads[u].phase, u));
      }
    }

    // ------------------------------------------------------------ single steps

    method Start(me: Tid, th: Thread)
      requires Valid() && Mine(me).phase.Idle?
      requires th == IDLE.(phase := th.phase, task := th.task, digest := if th.phase.ExecEnter? then th.digest else "")
      requires th.phase.ExecEnter? || th.phase.DisposeLookup? || th.phase.FreezeLookup?
      modifies this`threads, this`state
      ensures Valid() && StartStep(old(state), me, th) == Some(state)
    {
      state := TakeStep(Cfg(), state, match th.phase
                                      case ExecEnter => StartExecute(me, th.task, th.digest)
                                      case DisposeLookup => StartDispose(me, th.task)
                                      case _ => StartFreeze(me, th.task));
      threads := threads[me := th];
    }

    /** The lease it finds or does not find, the capacity, the digest and the freeze bit decide. */
    method Judge(task: TaskId, digest: string) returns (d: Decision)
      requires Represents(state)
      ensures d == DecisionFor(Cfg(), state, task, digest)
      ensures d.Reuse? ==> task in leases
    {
      assert |leases| == |leases.Keys| && |state.table| == |state.table.Keys|;
      if task !in leases {
        return if |leases| >= capacity then Full else Create;
      }
      var lease := leases[task];
      return if lease.digest != digest then WrongDigest else if lease.frozen then Finalizing else Reuse;
    }

    /** Under the table lock: what execute does with the lease it finds or does not find. */
    method Enter(me: Tid) returns (d: Decision)
      requires Valid() && Mine(me).phase.ExecEnter? && mutex.None?
      modifies this`threads, this`mutex, this`state
      ensures Valid() && EnterEnds(Cfg(), old(state), me, state, d)
    {
      ghost var s := TakeEnter(Cfg(), state, me);
      var th := threads[me];
      d := Judge(th.task, th.digest);
      var moved := if d.Reuse? then th.(phase := ExecSlot, lease := leases[th.task].container)
                   else if d.Create? then th.(phase := ExecCreate) else IDLE;
      Finish(threads[me := moved], if d.Create? then Some(me) else None, s);
    }

    method AddContainer(me: Tid)
      requires Valid() && Mine(me).phase.ExecCreate?
      modifies this`threads, this`live, this`next, this`state
      ensures Valid() && MakeStep(old(state), me) == Some(state)
    {
      ghost var s := TakeStep(Cfg(), state, MakeContainer(me));
      threads := threads[me := threads[me].(phase := ExecStart, lease := next)];
      live, next := live + {next}, next + 1;
      state := s;
    }

    method AddAndStore(task: TaskId, l: nat, digest: string, saved: bool, ghost s: State)
      requires Fits(s.table, s.heap) && l !in s.heap
      modifies this`leases, this`objects, this`Repr, this`stored, this`saveFailed
      ensures var made := WithNewLease(s, task, digest, l);
        && Fits(made.table, made.heap)
        && stored == (if saved then Snapshot(made.table, made.heap) else old(stored)) && saveFailed == !saved
      ensures old(Repr) <= Repr && (forall o :: o in Repr ==> o in old(Repr) || fresh(o))
    {
      AddLease(task, l, digest, s.table, s.heap);
      SaveTable(s.table[task := l], s.heap[l := Lease(digest, false, None)], saved);
    }

    /** The lease enters the table, and stays there even if the table cannot be saved. */
    method Insert(me: Tid, saved: bool)
      requires Valid() && Mine(me).phase.ExecStart?
      modifies this`leases, this`objects, this`Repr, this`threads, this`mutex, this`stored, this`saveFailed, this`state
      ensures Valid() && CreateStep(old(state), me, saved) == Some(state)
      ensures (forall o :: o in Repr ==> o in old(Repr) || fresh(o))
    {
      OwnLease(Cfg(), state, me);
      var th := threads[me];
      ghost var s := TakeCreate(Cfg(), state, me, saved);
      AddAndStore(th.task, th.lease, th.digest, saved, state);
      Finish(threads[me := if saved then th.(phase := ExecSlot) else IDLE], None, s);
    }

    /** Some call of `_create` has raised; the container is removed, unless that raises too. */
    method FailCreate(me: Tid, removed: bool)
      requires Valid() && Creating(Mine(me).phase)
      modifies this`threads, this`mutex, this`live, this`state
      ensures Valid() && CreateFailsStep(old(state), me, removed) == Some(state)
    {
      ghost var s := TakeStep(Cfg(), state, CreateFails(me, removed));
      if threads[me].phase.ExecStart? && removed {
        live := live - {threads[me].lease};
      }
      mutex, threads := None, threads[me := IDLE];
      state := s;
    }

    /** `slots.acquire(timeout=20)`. */
    method AcquireSlot(me: Tid, inTime: bool) returns (acquired: bool)
      requires Valid() && Mine(me).phase.ExecSlot?
      modifies this`threads, this`free, this`state
      ensures Valid() && acquired == (inTime && old(free) > 0)
      ensures state == if acquired then SlotTaken(old(state), me) else Go(old(state), me, IDLE)
    {
      acquired := inTime && free > 0;
      ghost var s := TakeStep(Cfg(), state, if acquired then GetSlot(me) else SlotTimeout(me));
      if acquired {
        free := free - 1;
        threads := threads[me := threads[me].(phase := ExecLease, slot := true)];
      } else {
        threads := threads[me := IDLE];
      }
      state := s;
    }

    /** `with lease.lock`, once the lock is free. */
    method TakeLock(me: Tid)
      requires Valid() && (Mine(me).phase.ExecLease? || Mine(me).phase.FreezeLease?) && Runnable(state, me)
      modifies this`threads, this`mutex, this`state, Repr
      ensures Valid()
      ensures old(Mine(me)).lease in old(state).heap && state == LockTaken(old(state), me)
    {
      TakeLease(Cfg(), state, me);
      var th := threads[me];
      ghost var before := state;
      SetHolderOf(th.lease, Some(me), before);
      Finish(threads[me := WithLock(th)], mutex, LockTaken(before, me));
    }

    /** `engine.execute` returns or raises. */
    method EndCall(me: Tid, works: bool)
      requires Valid() && Mine(me).phase.Calling?
      modifies this`threads, this`state
      ensures Valid()
      ensures state == Go(old(state), me, old(Mine(me)).(phase := if works then Unlocking else DisposeLookup))
    {
      ghost var s := TakeStep(Cfg(), state, if works then CallReturns(me) else CallRaises(me));
      threads := threads[me := threads[me].(phase := if works then Unlocking else DisposeLookup)];
      state := s;
    }

    method ReleaseLock(me: Tid)
      requires Valid() && Mine(me).phase.Unlocking?
      modifies this`threads, this`mutex, this`state, Repr
      ensures Valid()
      ensures old(Mine(me)).locked.Some? && old(Mine(me)).locked.value in old(state).heap
      ensures state == LockGiven(old(state), me)
    {
      OwnLease(Cfg(), state, me);
      var th := threads[me];
      ghost var s := TakeStep(Cfg(), state, Unlock(me));
      SetHolderOf(th.locked.value, None, state);
      Finish(threads[me := th.(phase := FreeingSlot, locked := None)], mutex, s);
    }

    method ReleaseSlot(me: Tid)
      requires Valid() && Mine(me).phase.FreeingSlot?
      modifies this`threads, this`free, this`state
      ensures Valid() && state == Go(old(state), me, IDLE).(free := old(state).free + 1)
    {
      ghost var s := TakeStep(Cfg(), state, FreeSlot(me));
      free, threads := free + 1, threads[me := IDLE];
      state := s;
    }

    /** Under the table lock: the lease to dispose, if there is one. */
    method LookUp(me: Tid) returns (found: bool)
      requires Valid() && Mine(me).phase.DisposeLookup? && mutex.None?
      modifies this`threads, this`state
      ensures Valid() && DisposeLookupStep(old(state), me) == Some(state)
      ensures found == (old(Mine(me)).task in old(state).table)
    {
      ghost var s := TakeStep(Cfg(), state, LookupToDispose(me));
      var th := threads[me];
      found := th.task in leases;
      threads := threads[me := if found then th.(phase := DisposeEngine, lease := leases[th.task].container)
                               else AfterDispose(th)];
      state := s;
    }

    /** The nested clean-up of the container and its network. */
    method RunEngine(me: Tid, removed: bool, cleaned: bool)
      requires Valid() && Mine(me).phase.DisposeEngine?
      modifies this`threads, this`live, this`state
      ensures Valid() && state == EngineDone(old(state), me, removed, cleaned)
    {
      ghost var s := TakeStep(Cfg(), state, EngineDispose(me, removed, !removed || !cleaned));
      var th := threads[me];
      if removed {
        live := live - {th.lease};
      }
      threads := threads[me := if removed && cleaned then th.(phase := DisposePop) else AfterDispose(th)];
      state := s;
    }

    /** Under the table lock: whatever lease the task has by now leaves the table. */
    method PopLease(me: Tid, saved: bool)
      requires Valid() && Mine(me).phase.DisposePop? && mutex.None?
      modifies this`leases, this`threads, this`mutex, this`stored, this`saveFailed, this`state
      ensures Valid() && state == Popped(old(state), me, saved)
    {
      var th := threads[me];
      ghost var s := TakeStep(Cfg(), state, PopAndSave(me, saved));
      DropLease(th.task, state.table, state.heap);
      SaveTable(state.table - {th.task}, state.heap, saved);
      Finish(threads[me := AfterDispose(th)], mutex, s);
    }

    method DropLease(task: TaskId, ghost table: map<TaskId, nat>, ghost heap: map<nat, Lease>)
      requires Fits(table, heap)
      modifies this`leases
      ensures Fits(table - {task}, heap)
    {
      leases := leases - {task};
    }

    method LookUpToFreeze(me: Tid) returns (found: bool)
      requires Valid() && Mine(me).phase.FreezeLookup? && mutex.None?
      modifies this`threads, this`state
      ensures Valid() && FreezeLookupStep(old(state), me) == Some(state)
      ensures found == (old(Mine(me)).task in old(state).table)
    {
      ghost var s := TakeStep(Cfg(), state, LookupToFreeze(me));
      var th := threads[me];
      found := th.task in leases;
      threads := threads[me := if found then th.(phase := FreezeLease, lease := leases[th.task].container) else IDLE];
      state := s;
    }

    method KillContainer(me: Tid, works: bool)
      requires Valid() && Mine(me).phase.FreezeKill?
      modifies this`threads, this`mutex, this`state, Repr
      ensures old(Mine(me)).lease in old(state).heap
      ensures Valid() && state == KillDone(old(state), me, works)
    {
      OwnLease(Cfg(), state, me);
      var th := threads[me];
      ghost var s := TakeStep(Cfg(), state, Kill(me, !works));
      if works {
        SetFrozenBit(th.lease, state);
        Finish(threads[me := th.(phase := FreezeSave)], mutex, s);
      } else {
        SetHolderOf(th.lease, None, state);
        Finish(threads[me := IDLE], mutex, s);
      }
    }

    method StoreAndRelease(l: nat, saved: bool, ghost s: State)
      requires Fits(s.table, s.heap) && l in s.heap
      modifies this`stored, this`saveFailed, Repr
      ensures Fits(s.table, SetHolder(s, l, None).heap)
      ensures stored == (if saved then Snapshot(s.table, s.heap) else old(stored)) && saveFailed == !saved
    {
      SaveTable(s.table, s.heap, saved);
      SetHolderOf(l, None, s);
    }

    /** Under the table lock: the end of a freeze, which gives the lease lock back whether or not the save works. */
    method SaveFreeze(me: Tid, saved: bool)
      requires Valid() && Mine(me).phase.FreezeSave? && mutex.None?
      modifies this`threads, this`mutex, this`stored, this`saveFailed, this`state, Repr
      ensures Valid()
      ensures old(Mine(me)).lease in old(state).heap && state == FreezeSaved(old(state), me, saved)
    {
      OwnLease(Cfg(), state, me);
      TakeSaveFrozen(Cfg(), state, me, saved);
      ghost var before := state;
      StoreAndRelease(threads[me].lease, saved, before);
      Finish(threads[me := IDLE], mutex, FreezeSaved(before, me, saved));
    }

    // ------------------------------------------------------------ the lease of a new task

    method EndStart(me: Tid, c: CreateScript)
      requires Valid() && Mine(me).phase.ExecStart?
      modifies this, Repr
      ensures Valid() && (forall o :: o in Repr ==> o in old(Repr) || fresh(o))
      ensures StartEnds(old(state), me, c) == Some(state)
      ensures Mine(me) == if c.started && c.saved then old(Mine(me)).(phase := ExecSlot) else IDLE
    {
      if c.started {
        Insert(me, c.saved);
      } else {
        FailCreate(me, c.removed);
      }
    }

    /** `_create` and the save after it, all under the table lock. */
    method MakeLease(me: Tid, c: CreateScript, others: Schedule) returns (r: Option<Refusal>)
      requires Valid() && Mine(me) == IDLE.(phase := ExecCreate, task := Mine(me).task, digest := Mine(me).digest)
      modifies this, Repr
      ensures Valid() && (forall o :: o in Repr ==> o in old(Repr) || fresh(o)) && r == CreateResult(c)
      ensures Mine(me) == if r.Some? then IDLE else Waiter(old(Mine(me)).task, old(Mine(me)).digest, Mine(me).lease)
      ensures Undisturbed(others) ==> state == CreateEnds(old(state), me, c)
    {
      r := CreateResult(c);
      if !c.made {
        FailCreate(me, c.removed);
        return;
      }
      NextIsNew(Cfg(), state);
      CreateSteps(state, me, c);
      AddContainer(me);
      Others(me, others(1));
      EndStart(me, c);
    }

    // ------------------------------------------------------------ dispose

    /** The clean-up of the lease that was found, and the pop of the task. */
    method RemoveLease(me: Tid, script: DisposeScript, others: Schedule) returns (r: Result<(), Refusal>)
      requires Valid() && Mine(me).phase.DisposeEngine?
      modifies this, Repr
      ensures Valid() && (forall o :: o in Repr ==> o in old(Repr) || fresh(o))
      ensures Mine(me) == AfterDispose(old(Mine(me)))
      ensures r == DisposeEnds(script)
      ensures Undisturbed(others) && old(mutex).None? ==>
        state == Go(Removed(old(state), old(Mine(me)).task, old(Mine(me)).lease, script), me,
                    AfterDispose(old(Mine(me))))
    {
      r := DisposeEnds(script);
      CleanStepsEnd(state, me, script);
      RunEngine(me, script.removed, script.cleaned);
      if script.removed && script.cleaned {
        Await(me, others(7));
        PopLease(me, script.saved);
      }
    }

    /** The visit to the table that begins a dispose. */
    method AwaitLookUp(me: Tid, others: Schedule) returns (found: bool)
      requires Valid() && Mine(me).phase.DisposeLookup?
      modifies this, Repr
      ensures Valid() && (forall o :: o in Repr ==> o in old(Repr) || fresh(o))
      ensures Mine(me) == if found then old(Mine(me)).(phase := DisposeEngine, lease := Mine(me).lease)
        else AfterDispose(old(Mine(me)))
      ensures Undisturbed(others) && old(mutex).None? ==>
        state == LookedUp(old(state), me) && found == (old(Mine(me)).task in old(state).table)
    {
      Await(me, others(5));
      found := LookUp(me);
      Others(me, others(6));
    }

    /** The body of dispose, for a thread that may still have the slot and the lock of a failed call. */
    method CleanUp(me: Tid, script: DisposeScript, others: Schedule) returns (r: Result<(), Refusal>)
      requires Valid() && Mine(me).phase.DisposeLookup?
      modifies this, Repr
      ensures Valid() && (forall o :: o in Repr ==> o in old(Repr) || fresh(o)) && (r.Ok? || r == DisposeEnds(script))
      ensures Mine(me) == AfterDispose(old(Mine(me)).(lease := Mine(me).lease))
      ensures Undisturbed(others) && old(mutex).None? ==>
        (state == CleanedUp(old(state), me, script) && r == DisposeResult(old(state), old(Mine(me)).task, script))
    {
      CleanUpEnd(state, me, script);
      var found := AwaitLookUp(me, others);
      if !found {
        return Ok(());
      }
      r := RemoveLease(me, script, others);
    }

    /** dispose. */
    method Dispose(me: Tid, task: TaskId, script: DisposeScript, others: Schedule) returns (r: Result<(), Refusal>)
      requires Valid() && Mine(me).phase.Idle?
      modifies this, Repr
      ensures Valid() && (forall o :: o in Repr ==> o in old(Repr) || fresh(o)) && (r.Ok? || r == DisposeEnds(script))
      ensures Mine(me) == IDLE
      ensures Undisturbed(others) && old(mutex).None? ==>
        (state == Go(Disposed(old(state), task, script), me, IDLE) && r == DisposeResult(old(state), task, script))
    {
      StartedCleanUp(state, me, task, script);
      Start(me, IDLE.(phase := DisposeLookup, task := task));
      r := CleanUp(me, script, others);
    }

    // ------------------------------------------------------------ the call itself

    /**
     The call in the container; when it fails, the thread disposes its task with the slot
     and the lock still taken.
    */
    method UseContainer(me: Tid, works: bool, script: DisposeScript, others: Schedule) returns (r: Result<(), Refusal>)
      requires Valid() && Mine(me).phase.Calling? && Mine(me).slot
      modifies this, Repr
      ensures Valid() && (forall o :: o in Repr ==> o in old(Repr) || fresh(o))
      ensures Mine(me) == old(Mine(me)).(phase := Unlocking, lease := Mine(me).lease)
      ensures works ==> r.Ok?
      ensures !works ==> r == Err(CallFailed) || (r.Err? && r == DisposeEnds(script))
      ensures Undisturbed(others) && old(mutex).None? ==>
        (state == Used(old(state), me, works, script) && r == UseResult(old(state), old(Mine(me)).task, works, script))
    {
      UsedEnd(state, me, works, script);
      EndCall(me, works);
      if works {
        return Ok(());
      }
      r := CleanUp(me, script, others);
      if r.Ok? {
        r := Err(CallFailed);
      }
    }

    /** Gives the lock of the lease and the slot back. */
    method GiveBack(me: Tid, others: Schedule)
      requires Valid() && Mine(me).phase.Unlocking?
      modifies this, Repr
      ensures Valid() && (forall o :: o in Repr ==> o in old(Repr) || fresh(o)) && Mine(me) == IDLE
      ensures old(Mine(me)).locked.Some? && old(Mine(me)).locked.value in old(state).heap
      ensures Undisturbed(others) ==> state == GivenBack(old(state), me)
    {
      GivenBackEnd(Cfg(), state, me);
      GiveLockBack(me, others);
      ReleaseSlot(me);
    }

    method GiveLockBack(me: Tid, others: Schedule)
      requires Valid() && Mine(me).phase.Unlocking?
      modifies this, Repr
      ensures Valid() && (forall o :: o in Repr ==> o in old(Repr) || fresh(o)) && Mine(me).phase.FreeingSlot?
      ensures old(Mine(me)).locked.Some? && old(Mine(me)).locked.value in old(state).heap
      ensures Undisturbed(others) ==> state == LockGiven(old(state), me)
    {
      ReleaseLock(me);
      Others(me, others(8));
    }

    /** The part of execute under the lock of its lease. */
    method CallLocked(me: Tid, works: bool, script: DisposeScript, others: Schedule) returns (r: Result<(), Refusal>)
      requires Valid() && Mine(me).phase.Calling? && Mine(me).slot
      modifies this, Repr
      ensures Valid() && (forall o :: o in Repr ==> o in old(Repr) || fresh(o)) && Mine(me) == IDLE
      ensures works ==> r.Ok?
      ensures !works ==> r == Err(CallFailed) || (r.Err? && r == DisposeEnds(script))
      ensures Undisturbed(others) && old(mutex).None? ==> LockedEnds(old(state), me, works, script, state, r)
    {
      Others(me, others(3));
      r := UseContainer(me, works, script, others);
      Others(me, others(4));
      GiveBack(me, others);
    }

    method GetLock(me: Tid, others: Schedule)
      requires Valid() && (Mine(me).phase.ExecLease? || Mine(me).phase.FreezeLease?)
      modifies this, Repr
      ensures Valid() && (forall o :: o in Repr ==> o in old(Repr) || fresh(o)) && Mine(me) == WithLock(old(Mine(me)))
      ensures Undisturbed(others) && LeaseFree(old(state), old(Mine(me)).lease) ==> state == LockTaken(old(state), me)
    {
      if LeaseFree(state, Mine(me).lease) {
        FreeRunnable(state, me);
      }
      Await(me, others(2));
      TakeLock(me);
    }

    /** The part of execute that has a slot. */
    method CallWithSlot(me: Tid, works: bool, script: DisposeScript, others: Schedule) returns (r: Result<(), Refusal>)
      requires Valid() && Mine(me).phase.ExecLease? && Mine(me).slot
      modifies this, Repr
      ensures Valid() && (forall o :: o in Repr ==> o in old(Repr) || fresh(o)) && Mine(me) == IDLE
      ensures works ==> r.Ok?
      ensures !works ==> r == Err(CallFailed) || (r.Err? && r == DisposeEnds(script))
      ensures Undisturbed(others) && old(mutex).None? && LeaseFree(old(state), old(Mine(me)).lease) ==>
        WithSlotEnds(old(state), me, works, script, state, r)
    {
      GetLock(me, others);
      r := CallLocked(me, works, script, others);
    }

    /** From the wait for a slot on. On every path the thread ends without the slot and without the lock. */
    method Call(me: Tid, call: CallScript, script: DisposeScript, others: Schedule) returns (r: Result<(), Refusal>)
      requires Valid() && Mine(me) == Waiter(Mine(me).task, Mine(me).digest, Mine(me).lease)
      modifies this, Repr
      ensures Valid() && (forall o :: o in Repr ==> o in old(Repr) || fresh(o)) && Mine(me) == IDLE
      ensures CallAnswers(r, call, script)
      ensures Undisturbed(others) && old(mutex).None? && LeaseFree(old(state), old(Mine(me)).lease) ==>
        (state == Called(old(state), me, old(Mine(me)).task, call, script)
         && r == CallResult(old(state), old(Mine(me)).task, call, script))
    {
      if free > 0 && LeaseFree(state, Mine(me).lease) && call.inTime {
        CalledEnd(state, me, call, script);
      }
      var acquired := AcquireSlot(me, call.inTime);
      if !acquired {
        return Err(QueueTimeout);
      }
      r := CallWithSlot(me, call.works, script, others);
    }

    // ------------------------------------------------------------ execute

    /** Waits for the table lock and looks at the table. */
    method AwaitEnter(me: Tid, others: Schedule) returns (d: Decision)
      requires Valid() && Mine(me).phase.ExecEnter?
      modifies this, Repr
      ensures Valid() && (forall o :: o in Repr ==> o in old(Repr) || fresh(o))
      ensures Mine(me) == EnteredAt(old(Mine(me)), d, Mine(me).lease)
      ensures Undisturbed(others) && old(mutex).None? ==> EnterEnds(Cfg(), old(state), me, state, d)
    {
      Await(me, others(0));
      ghost var before := state;
      d := Enter(me);
      EnteredThread(Cfg(), before, me, state, d);
    }

    /** Looks at the table, and makes the lease if there is none and there is room. */
    method Visit(me: Tid, c: CreateScript, others: Schedule) returns (r: Option<Refusal>)
      requires Valid() && Mine(me) == IDLE.(phase := ExecEnter, task := Mine(me).task, digest := Mine(me).digest)
      modifies this, Repr
      ensures Valid() && (forall o :: o in Repr ==> o in old(Repr) || fresh(o)) && TurnsDown(r, c)
      ensures Mine(me) == if r.Some? then IDLE else Waiter(old(Mine(me)).task, old(Mine(me)).digest, Mine(me).lease)
      ensures Undisturbed(others) && old(mutex).None? ==> VisitEnds(Cfg(), old(state), me, c, state, r)
    {
      var d := AwaitEnter(me, others);
      r := Turned(d, c);
      if d.Create? {
        r := MakeLease(me, c, others);
      }
    }

    /** The section under the table lock: None admits the call, which then waits for a slot. */
    method Admit(me: Tid, task: TaskId, digest: string, c: CreateScript, others: Schedule) returns (r: Option<Refusal>)
      requires Valid() && Mine(me).phase.Idle?
      modifies this, Repr
      ensures Valid() && (forall o :: o in Repr ==> o in old(Repr) || fresh(o)) && TurnsDown(r, c)
      ensures Mine(me) == if r.Some? then IDLE else Waiter(task, digest, Mine(me).lease)
      ensures Undisturbed(others) && old(mutex).None? ==>
        && state == Admitted(Cfg(), old(state), me, task, digest, c)
        && r == Turned(DecisionFor(Cfg(), old(state), task, digest), c)
        && AdmissionIs(Cfg(), old(state), task, digest, c, r)
    {
      TableKnown(Cfg(), state);
      AdmissionExactly(Cfg(), state, task, digest, c);
      if mutex.None? {
        AdmittedEnd(Cfg(), state, me, task, digest, c);
      }
      Start(me, IDLE.(phase := ExecEnter, task := task, digest := digest));
      r := Visit(me, c, others);
    }

    /**
     One call, while any other threads do anything they can between its steps. On
     every path the thread ends with no slot and no lock.
    */
    method Execute(me: Tid, task: TaskId, digest: string, c: CreateScript, call: CallScript, script: DisposeScript,
        others: Schedule)
      returns (r: Result<(), Refusal>)
      requires Valid() && Mine(me).phase.Idle?
      modifies this, Repr
      ensures Valid() && (forall o :: o in Repr ==> o in old(Repr) || fresh(o))
      ensures Mine(me) == IDLE && me !in Where(state.threads, HoldsSlot) && state.mutex != Some(me)
      ensures forall l :: l in state.heap ==> state.heap[l].holder != Some(me)
      ensures CallAnswers(r, call, script) || (r.Err? && TurnsDown(Some(r.error), c))
      ensures Undisturbed(others) && old(mutex).None? && LockFree(old(state), task) ==>
        && state == Executed(Cfg(), old(state), me, task, digest, c, call, script)
        && r == ExecuteResult(Cfg(), old(state), me, task, digest, c, call, script)
        && AnswerIs(Cfg(), old(state), task, digest, c, call, script, r)
    {
      TableKnown(Cfg(), state);
      AnswerExactly(Cfg(), state, me, task, digest, c, call, script);
      r := RunCall(me, task, digest, c, call, script, others);
      IdleHasNothing(Cfg(), state, me);
    }

    method RunCall(me: Tid, task: TaskId, digest: string, c: CreateScript, call: CallScript, script: DisposeScript,
        others: Schedule)
      returns (r: Result<(), Refusal>)
      requires Valid() && Mine(me).phase.Idle?
      modifies this, Repr
      ensures Valid() && (forall o :: o in Repr ==> o in old(Repr) || fresh(o)) && Mine(me) == IDLE
      ensures CallAnswers(r, call, script) || (r.Err? && TurnsDown(Some(r.error), c))
      ensures Undisturbed(others) && old(mutex).None? && LockFree(old(state), task) ==>
        (state == Executed(Cfg(), old(state), me, task, digest, c, call, script)
         && r == ExecuteResult(Cfg(), old(state), me, task, digest, c, call, script))
    {
      ghost var before := state;
      var turned := Admit(me, task, digest, c, others);
      if turned.Some? {
        return Err(turned.value);
      }
      if LockFree(before, task) && before.mutex.None? && Turned(DecisionFor(Cfg(), before, task, digest), c).None? {
        AdmittedFree(Cfg(), before, me, task, digest, c);
      }
      Others(me, others(9));
      r := Call(me, call, script, others);
    }

    // ------------------------------------------------------------ freeze

    method EndFreeze(me: Tid, saved: bool, others: Schedule)
      requires Valid() && Mine(me).phase.FreezeSave?
      modifies this, Repr
      ensures Valid() && (forall o :: o in Repr ==> o in old(Repr) || fresh(o)) && Mine(me) == IDLE
      ensures old(Mine(me)).lease in old(state).heap
      ensures Undisturbed(others) && old(mutex).None? ==> state == FreezeSaved(old(state), me, saved)
    {
      OwnLease(Cfg(), state, me);
      Await(me, others(12));
      SaveFreeze(me, saved);
    }

    /** The part of freeze under the lock of its lease, which is given back on every path. */
    method FreezeLocked(me: Tid, works: bool, saved: bool, others: Schedule) returns (r: Result<(), Refusal>)
      requires Valid() && Mine(me).phase.FreezeKill?
      modifies this, Repr
      ensures Valid() && (forall o :: o in Repr ==> o in old(Repr) || fresh(o)) && Mine(me) == IDLE
      ensures r == if !works then Err(CleanupFailed) else if !saved then Err(SaveFailed) else Ok(())
      ensures old(Mine(me)).lease in old(state).heap
      ensures Undisturbed(others) && old(mutex).None? ==> state == FreezeEnds(old(state), me, works, saved)
    {
      KillContainer(me, works);
      if !works {
        return Err(CleanupFailed);
      }
      EndFreeze(me, saved, others);
      return if saved then Ok(()) else Err(SaveFailed);
    }

    /** The visit to the table that begins a freeze. */
    method AwaitFind(me: Tid, others: Schedule) returns (found: bool)
      requires Valid() && Mine(me).phase.FreezeLookup?
      modifies this, Repr
      ensures Valid() && (forall o :: o in Repr ==> o in old(Repr) || fresh(o))
      ensures Mine(me) == if found then old(Mine(me)).(phase := FreezeLease, lease := Mine(me).lease) else IDLE
      ensures Undisturbed(others) && old(mutex).None? ==>
        state == FreezeFound(old(state), me) && found == (old(Mine(me)).task in old(state).table)
    {
      Await(me, others(10));
      found := LookUpToFreeze(me);
      Others(me, others(11));
    }

    method FindToFreeze(me: Tid, task: TaskId, others: Schedule) returns (found: bool)
      requires Valid() && Mine(me).phase.Idle?
      modifies this, Repr
      ensures Valid() && (forall o :: o in Repr ==> o in old(Repr) || fresh(o))
      ensures if found then Mine(me).phase.FreezeLease? else Mine(me) == IDLE
      ensures Undisturbed(others) && old(mutex).None? ==>
        state == FreezeFound(Go(old(state), me, LookingToFreeze(task)), me) && found == (task in old(state).table)
    {
      Start(me, LookingToFreeze(task));
      found := AwaitFind(me, others);
    }

    method LockAndFreeze(me: Tid, works: bool, saved: bool, others: Schedule) returns (r: Result<(), Refusal>)
      requires Valid() && Mine(me).phase.FreezeLease?
      modifies this, Repr
      ensures Valid() && (forall o :: o in Repr ==> o in old(Repr) || fresh(o)) && Mine(me) == IDLE
      ensures r == if !works then Err(CleanupFailed) else if !saved then Err(SaveFailed) else Ok(())
      ensures Undisturbed(others) && old(mutex).None? && LeaseFree(old(state), old(Mine(me)).lease) ==>
        state == FreezeEnds(LockTaken(old(state), me), me, works, saved)
    {
      GetLock(me, others);
      Others(me, others(13));
      r := FreezeLocked(me, works, saved, others);
    }

    /** freeze: kills the container and freezes the lease for good; with nobody else about, only this lease changes. */
    method Freeze(me: Tid, task: TaskId, works: bool, saved: bool, others: Schedule) returns (r: Result<(), Refusal>)
      requires Valid() && Mine(me).phase.Idle?
      modifies this, Repr
      ensures Valid() && (forall o :: o in Repr ==> o in old(Repr) || fresh(o)) && Mine(me) == IDLE
      ensures r == Err(CleanupFailed) ==> !works
      ensures r == Err(SaveFailed) ==> works && !saved
      ensures r.Ok? || r == Err(CleanupFailed) || r == Err(SaveFailed)
      ensures Undisturbed(others) && old(mutex).None? && LockFree(old(state), task) ==>
        (state == Frozen(old(state), me, task, works, saved) && r == FreezeResult(old(state), task, works, saved))
    {
      FreezeEnd(me, task, works, saved);
      var found := FindToFreeze(me, task, others);
      if !found {
        return Ok(());
      }
      r := LockAndFreeze(me, works, saved, others);
    }

    /** How the steps of a freeze add up from here. */
    lemma FreezeEnd(me: Tid, task: TaskId, works: bool, saved: bool)
      requires Valid()
      ensures var found := FreezeFound(Go(state, me, LookingToFreeze(task)), me);
        LockFree(state, task) ==> (
          if task in state.table
          then ThreadOf(found, me).phase.FreezeLease? && LeaseFree(found, ThreadOf(found, me).lease)
               && FreezeEnds(LockTaken(found, me), me, works, saved) == Frozen(state, me, task, works, saved)
          else found == Frozen(state, me, task, works, saved))
    {
      TableKnown(Cfg(), state);
      if task !in state.table {
        GoGo(state, me, LookingToFreeze(task), IDLE);
      } else if LockFree(state, task) {
        FrozenEnd(state, me, task, works, saved);
      }
    }
  }
}
