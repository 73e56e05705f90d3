/** The invariant of the task-container manager holds in every state of every run. */
module TaskContainersSafety {
  import opened Common
  import opened TaskContainers

  // ---------------------------------------------------------------- one part of the invariant at a time

  lemma MutexMove(s: State, s': State, t: Tid, th: Thread)
    requires MutexInv(s) && s'.threads == s.threads[t := th]
    requires Creating(th.phase) ==> s'.mutex == Some(t) && (s.mutex.None? || s.mutex == Some(t))
    requires !Creating(th.phase) ==> s'.mutex == if s.mutex == Some(t) then None else s.mutex
    ensures MutexInv(s')
  {}

  lemma SlotMove(cfg: Config, s: State, s': State, t: Tid, th: Thread)
    requires SlotInv(cfg, s) && s'.threads == s.threads[t := th]
    requires s'.free == s.free + (if ThreadOf(s, t).slot then 1 else 0) - (if th.slot then 1 else 0)
    ensures SlotInv(cfg, s')
  {
    CountUpdate(s.threads, HoldsSlot, t, th);
  }

  function HolderOf(heap: map<nat, Lease>, l: nat): Option<Tid> {
    if l in heap then heap[l].holder else None
  }

  lemma LockMove(s: State, s': State, t: Tid, th: Thread)
    requires LeaseLockInv(s) && ThreadInv(s) && s'.threads == s.threads[t := th]
    requires forall l :: l in s'.heap ==>
      s'.heap[l].holder == if th.locked == Some(l) then Some(t)
                           else if ThreadOf(s, t).locked == Some(l) then None
                           else HolderOf(s.heap, l)
    requires th.locked != ThreadOf(s, t).locked && th.locked.Some? ==>
      HolderOf(s.heap, th.locked.value).None? && th.locked.value in s.heap
    ensures LeaseLockInv(s')
  {}

  lemma ThreadMove(s: State, s': State, t: Tid, th: Thread)
    requires ThreadInv(s) && s'.threads == s.threads[t := th] && s.heap.Keys <= s'.heap.Keys
    requires Consistent(th)
    requires th.locked.Some? ==> th.locked.value in s'.heap
    requires UsesLease(th.phase) ==> th.lease in s'.heap
    ensures ThreadInv(s')
  {}

  lemma CapacityMove(cfg: Config, s: State, s': State, t: Tid, th: Thread)
    requires CapacityInv(cfg, s) && s'.threads == s.threads[t := th]
    requires s'.table == s.table && s'.stored == s.stored
    requires Creating(th.phase) ==> th.task !in s.table && |s.table| < cfg.capacity
    ensures CapacityInv(cfg, s')
  {}

  lemma MakingMove(s: State, s': State, t: Tid, th: Thread)
    requires MakingInv(s) && s'.threads == s.threads[t := th]
    requires s.next <= s'.next && s'.heap.Keys == s.heap.Keys
    requires th.phase.ExecStart? ==> th.lease < s'.next && th.lease !in s'.heap
    ensures MakingInv(s')
  {}

  /** The leases of the first heap keep their digest and freeze bit in the second. */
  ghost predicate SameLeases(heap: map<nat, Lease>, heap': map<nat, Lease>) {
    forall l :: l in heap ==> l in heap' && heap'[l].digest == heap[l].digest && heap'[l].frozen == heap[l].frozen
  }

  lemma PendingMove(s: State, s': State, t: Tid, th: Thread)
    requires s'.threads == s.threads[t := th] && !ThreadOf(s, t).phase.FreezeSave?
    ensures forall l :: FreezePending(s, l) ==> FreezePending(s', l)
  {
    forall l | FreezePending(s, l) ensures FreezePending(s', l) {
      var u :| u in s.threads && s.threads[u].phase.FreezeSave? && s.threads[u].lease == l;
      assert u in s'.threads && s'.threads[u].phase.FreezeSave? && s'.threads[u].lease == l;
    }
  }

  lemma StoreFrame(s: State, s': State)
    requires StoreInv(s) && HeapInv(s)
    requires s'.table == s.table && s'.stored == s.stored && s'.saveFailed == s.saveFailed
    requires SameLeases(s.heap, s'.heap)
    requires forall l :: FreezePending(s, l) ==> FreezePending(s', l)
    ensures StoreInv(s')
  {}

  /** After a save that failed, the file still describes leases that exist. */
  lemma StoreFailed(s: State, s': State)
    requires RowsInv(s) && s'.stored == s.stored && s'.saveFailed
    requires SameLeases(s.heap, s'.heap)
    ensures StoreInv(s')
  {}

  /** After a save that succeeded, the file is the table. */
  lemma StoreSaved(s': State)
    requires HeapInv(s') && s'.stored == Snapshot(s'.table, s'.heap)
    ensures StoreInv(s') && |s'.stored| == |s'.table|
  {
    assert s'.stored.Keys == s'.table.Keys;
    assert |s'.stored| == |s'.stored.Keys| && |s'.table| == |s'.table.Keys|;
  }

  ghost predicate LocksOk(cfg: Config, s: State) {
    MutexInv(s) && LeaseLockInv(s) && SlotInv(cfg, s) && ThreadInv(s)
  }

  /** The lock half of `Inv` after any step of thread `t`. */
  lemma LocksMove(cfg: Config, s: State, s': State, t: Tid, th: Thread)
    requires LocksOk(cfg, s) && s'.threads == s.threads[t := th]
    requires s.heap.Keys <= s'.heap.Keys
    requires Creating(th.phase) ==> s'.mutex == Some(t) && (s.mutex.None? || s.mutex == Some(t))
    requires !Creating(th.phase) ==> s'.mutex == if s.mutex == Some(t) then None else s.mutex
    requires s'.free == s.free + (if ThreadOf(s, t).slot then 1 else 0) - (if th.slot then 1 else 0)
    requires forall l :: l in s'.heap ==>
      s'.heap[l].holder == if th.locked == Some(l) then Some(t)
                           else if ThreadOf(s, t).locked == Some(l) then None
                           else HolderOf(s.heap, l)
    requires th.locked != ThreadOf(s, t).locked && th.locked.Some? ==>
      HolderOf(s.heap, th.locked.value).None? && th.locked.value in s.heap
    requires Consistent(th)
    requires th.locked.Some? ==> th.locked.value in s'.heap
    requires UsesLease(th.phase) ==> th.lease in s'.heap
    ensures LocksOk(cfg, s')
  {
    MutexMove(s, s', t, th);
    SlotMove(cfg, s, s', t, th);
    LockMove(s, s', t, th);
    ThreadMove(s, s', t, th);
  }

  // ---------------------------------------------------------------- steps that leave the table alone

  /** A thread moves, locks and slots change hands accordingly, and the leases read as before. */
  lemma Moves(cfg: Config, s: State, s': State, t: Tid, th: Thread)
    requires Inv(cfg, s) && s'.threads == s.threads[t := th]
    requires s'.table == s.table && s'.stored == s.stored && s'.saveFailed == s.saveFailed && s'.next == s.next
    requires s'.live <= s.live && s'.heap.Keys == s.heap.Keys && SameLeases(s.heap, s'.heap)
    requires !ThreadOf(s, t).phase.FreezeSave?
    requires Creating(th.phase) ==>
      th.phase.ExecCreate? && s'.mutex == Some(t) && s.mutex.None? && th.task !in s.table && |s.table| < cfg.capacity
    requires !Creating(th.phase) ==> s'.mutex == if s.mutex == Some(t) then None else s.mutex
    requires s'.free == s.free + (if ThreadOf(s, t).slot then 1 else 0) - (if th.slot then 1 else 0)
    requires forall l :: l in s'.heap ==>
      s'.heap[l].holder == if th.locked == Some(l) then Some(t)
                           else if ThreadOf(s, t).locked == Some(l) then None
                           else HolderOf(s.heap, l)
    requires th.locked != ThreadOf(s, t).locked && th.locked.Some? ==>
      HolderOf(s.heap, th.locked.value).None? && th.locked.value in s.heap
    requires Consistent(th)
    requires th.locked.Some? ==> th.locked.value in s.heap
    requires UsesLease(th.phase) ==> th.lease in s.heap
    ensures Inv(cfg, s')
  {
    MutexMove(s, s', t, th);
    SlotMove(cfg, s, s', t, th);
    LockMove(s, s', t, th);
    ThreadMove(s, s', t, th);
    CapacityMove(cfg, s, s', t, th);
    MakingMove(s, s', t, th);
    PendingMove(s, s', t, th);
    StoreFrame(s, s');
  }

  /** A thread moves and nothing changes hands. */
  lemma Walks(cfg: Config, s: State, t: Tid, th: Thread)
    requires Inv(cfg, s)
    requires !Creating(th.phase) && !Creating(ThreadOf(s, t).phase) && !ThreadOf(s, t).phase.FreezeSave?
    requires th.locked == ThreadOf(s, t).locked && th.slot == ThreadOf(s, t).slot
    requires Consistent(th) && (UsesLease(th.phase) ==> th.lease in s.heap)
    ensures Inv(cfg, Go(s, t, th))
  {
    Moves(cfg, s, Go(s, t, th), t, th);
  }

  lemma EnterCreates(cfg: Config, s: State, t: Tid)
    requires Inv(cfg, s) && s.mutex.None? && ThreadOf(s, t).phase.ExecEnter?
    requires ThreadOf(s, t).task !in s.table && |s.table| < cfg.capacity
    ensures Inv(cfg, Go(s, t, ThreadOf(s, t).(phase := ExecCreate)).(mutex := Some(t)))
  {
    var th := ThreadOf(s, t).(phase := ExecCreate);
    Moves(cfg, s, Go(s, t, th).(mutex := Some(t)), t, th);
  }

  lemma TableInHeap(s: State, task: TaskId)
    requires HeapInv(s) && task in s.table
    ensures s.table[task] in s.heap && Found(s, task).Some?
  {}

  lemma HoldsNothing(s: State, t: Tid)
    requires ThreadInv(s)
    ensures Consistent(ThreadOf(s, t))
  {}

  /** The table has the task: the call goes on to the slots with its lease, or is over. */
  lemma EnterFoundShape(cfg: Config, s: State, t: Tid)
    requires EnterStep(cfg, s, t).Some? && ThreadOf(s, t).task in s.table && Found(s, ThreadOf(s, t).task).Some?
    ensures EnterStep(cfg, s, t).value == Go(s, t, IDLE)
         || EnterStep(cfg, s, t).value == Go(s, t, ThreadOf(s, t).(phase := ExecSlot,
                                                                   lease := s.table[ThreadOf(s, t).task]))
  {}

  lemma EnterFound(cfg: Config, s: State, t: Tid)
    requires Inv(cfg, s) && EnterStep(cfg, s, t).Some? && ThreadOf(s, t).task in s.table
    ensures Inv(cfg, EnterStep(cfg, s, t).value)
  {
    var th := ThreadOf(s, t);
    HoldsNothing(s, t);
    TableInHeap(s, th.task);
    EnterFoundShape(cfg, s, t);
    Walks(cfg, s, t, IDLE);
    Walks(cfg, s, t, th.(phase := ExecSlot, lease := s.table[th.task]));
  }

  lemma EnterKeeps(cfg: Config, s: State, t: Tid)
    requires Inv(cfg, s) && EnterStep(cfg, s, t).Some?
    ensures Inv(cfg, EnterStep(cfg, s, t).value)
  {
    if ThreadOf(s, t).task in s.table {
      EnterFound(cfg, s, t);
    } else if |s.table| < cfg.capacity {
      EnterCreates(cfg, s, t);
    } else {
      HoldsNothing(s, t);
      Walks(cfg, s, t, IDLE);
    }
  }

  lemma DisposeLookupKeeps(cfg: Config, s: State, t: Tid)
    requires Inv(cfg, s) && DisposeLookupStep(s, t).Some?
    ensures Inv(cfg, DisposeLookupStep(s, t).value)
  {
    var th := ThreadOf(s, t);
    HoldsNothing(s, t);
    if th.task in s.table {
      TableInHeap(s, th.task);
      Walks(cfg, s, t, th.(phase := DisposeEngine, lease := s.table[th.task]));
    } else {
      Walks(cfg, s, t, AfterDispose(th));
    }
  }

  lemma FreezeLookupKeeps(cfg: Config, s: State, t: Tid)
    requires Inv(cfg, s) && FreezeLookupStep(s, t).Some?
    ensures Inv(cfg, FreezeLookupStep(s, t).value)
  {
    var th := ThreadOf(s, t);
    HoldsNothing(s, t);
    if th.task in s.table {
      TableInHeap(s, th.task);
      Walks(cfg, s, t, th.(phase := FreezeLease, lease := s.table[th.task]));
    } else {
      Walks(cfg, s, t, IDLE);
    }
  }

  lemma CallKeeps(cfg: Config, s: State, t: Tid, raised: bool)
    requires Inv(cfg, s) && CallStep(s, t, raised).Some?
    ensures Inv(cfg, CallStep(s, t, raised).value)
  {
    Walks(cfg, s, t, ThreadOf(s, t).(phase := if raised then DisposeLookup else Unlocking));
  }

  lemma SlotKeeps(cfg: Config, s: State, t: Tid)
    requires Inv(cfg, s) && SlotStep(s, t).Some?
    ensures Inv(cfg, SlotStep(s, t).value)
  {
    Moves(cfg, s, SlotStep(s, t).value, t, ThreadOf(s, t).(phase := ExecLease, slot := true));
  }

  lemma FreeSlotKeeps(cfg: Config, s: State, t: Tid)
    requires Inv(cfg, s) && FreeSlotStep(s, t).Some?
    ensures Inv(cfg, FreeSlotStep(s, t).value)
  {
    Moves(cfg, s, FreeSlotStep(s, t).value, t, IDLE);
  }

  lemma CreateFailsKeeps(cfg: Config, s: State, t: Tid, removed: bool)
    requires Inv(cfg, s) && CreateFailsStep(s, t, removed).Some?
    ensures Inv(cfg, CreateFailsStep(s, t, removed).value)
  {
    Moves(cfg, s, CreateFailsStep(s, t, removed).value, t, IDLE);
  }

  /** A thread takes a lease lock that is free. */
  lemma Takes(cfg: Config, s: State, t: Tid, l: nat, th: Thread)
    requires Inv(cfg, s) && l in s.heap && s.heap[l].holder.None? && ThreadOf(s, t).locked.None?
    requires !ThreadOf(s, t).phase.FreezeSave? && !Creating(ThreadOf(s, t).phase) && !Creating(th.phase)
    requires Consistent(th) && th.locked == Some(l) && th.slot == ThreadOf(s, t).slot && th.lease == l
    ensures Inv(cfg, Go(SetHolder(s, l, Some(t)), t, th))
  {
    Moves(cfg, s, Go(SetHolder(s, l, Some(t)), t, th), t, th);
  }

  lemma LeaseKeeps(cfg: Config, s: State, t: Tid, from: Phase, to: Phase)
    requires Inv(cfg, s) && LeaseStep(s, t, from, to).Some?
    requires (from, to) == (ExecLease, Calling) || (from, to) == (FreezeLease, FreezeKill)
    ensures Inv(cfg, LeaseStep(s, t, from, to).value)
  {
    var th := ThreadOf(s, t);
    HoldsNothing(s, t);
    Takes(cfg, s, t, th.lease, th.(phase := to, locked := Some(th.lease)));
  }

  /** A thread gives a lease lock back. */
  lemma Releases(cfg: Config, s: State, t: Tid, l: nat, th: Thread)
    requires Inv(cfg, s) && l in s.heap && ThreadOf(s, t).locked == Some(l)
    requires !ThreadOf(s, t).phase.FreezeSave? && !Creating(ThreadOf(s, t).phase) && !Creating(th.phase)
    requires Consistent(th) && th.locked.None? && th.slot == ThreadOf(s, t).slot && !UsesLease(th.phase)
    ensures Inv(cfg, Go(SetHolder(s, l, None), t, th))
  {
    Moves(cfg, s, Go(SetHolder(s, l, None), t, th), t, th);
  }

  lemma UnlockKeeps(cfg: Config, s: State, t: Tid)
    requires Inv(cfg, s) && UnlockStep(s, t).Some?
    ensures Inv(cfg, UnlockStep(s, t).value)
  {
    var th := ThreadOf(s, t);
    Releases(cfg, s, t, th.locked.value, th.(phase := FreeingSlot, locked := None));
  }

  lemma EngineKeeps(cfg: Config, s: State, t: Tid, removed: bool, raised: bool)
    requires Inv(cfg, s) && EngineStep(s, t, removed, raised).Some?
    ensures Inv(cfg, EngineStep(s, t, removed, raised).value)
  {
    var th := ThreadOf(s, t);
    Moves(cfg, s, EngineStep(s, t, removed, raised).value, t,
          if raised then AfterDispose(th) else th.(phase := DisposePop));
  }

  // ---------------------------------------------------------------- steps that change or save the table

  lemma MakeLocks(cfg: Config, s: State, t: Tid)
    requires LocksOk(cfg, s) && MakeStep(s, t).Some?
    ensures LocksOk(cfg, MakeStep(s, t).value)
  {
    assert s.mutex == Some(t);
    LocksMove(cfg, s, MakeStep(s, t).value, t, ThreadOf(s, t).(phase := ExecStart, lease := s.next));
  }

  lemma MakeTable(cfg: Config, s: State, t: Tid)
    requires HeapInv(s) && MakingInv(s) && CapacityInv(cfg, s) && StoreInv(s) && MakeStep(s, t).Some?
    ensures var s' := MakeStep(s, t).value; HeapInv(s') && MakingInv(s') && CapacityInv(cfg, s') && StoreInv(s')
  {
    var s', th := MakeStep(s, t).value, ThreadOf(s, t).(phase := ExecStart, lease := s.next);
    CapacityMove(cfg, s, s', t, th);
    MakingMove(s, s', t, th);
    PendingMove(s, s', t, th);
    StoreFrame(s, s');
  }

  lemma MakeKeeps(cfg: Config, s: State, t: Tid)
    requires Inv(cfg, s) && MakeStep(s, t).Some?
    ensures Inv(cfg, MakeStep(s, t).value)
  {
    MakeLocks(cfg, s, t);
    MakeTable(cfg, s, t);
  }

  lemma CreateLocks(cfg: Config, s: State, t: Tid, saved: bool)
    requires LocksOk(cfg, s) && MakingInv(s) && CreateStep(s, t, saved).Some?
    ensures LocksOk(cfg, CreateStep(s, t, saved).value)
  {
    var was := ThreadOf(s, t);
    LocksMove(cfg, s, CreateStep(s, t, saved).value, t, if saved then was.(phase := ExecSlot) else IDLE);
  }

  ghost predicate OneTaskPerLease(table: map<TaskId, nat>) {
    forall a, b :: a in table && b in table && table[a] == table[b] ==> a == b
  }

  lemma NewEntry(table: map<TaskId, nat>, task: TaskId, l: nat)
    requires OneTaskPerLease(table) && task !in table && forall a :: a in table ==> table[a] != l
    ensures OneTaskPerLease(table[task := l]) && |table[task := l]| == |table| + 1
  {
    assert table[task := l].Keys == table.Keys + {task};
    assert |table[task := l]| == |table[task := l].Keys| && |table| == |table.Keys|;
  }

  lemma NewLeaseHeap(s: State, task: TaskId, digest: string, l: nat)
    requires HeapInv(s) && task !in s.table && l !in s.heap && l < s.next
    ensures var s' := WithNewLease(s, task, digest, l); HeapInv(s') && |s'.table| == |s.table| + 1
  {
    NewEntry(s.table, task, l);
  }

  lemma HeapFrame(s: State, s': State)
    requires HeapInv(s) && s'.table == s.table && s'.heap == s.heap && s'.next == s.next && s'.live == s.live
    ensures HeapInv(s')
  {}

  /** Dropping leases from the table, and whatever happens to locks and bits, leaves the heap in order. */
  lemma HeapShrinks(s: State, s': State)
    requires HeapInv(s) && s'.heap.Keys == s.heap.Keys && s'.next == s.next && s'.live == s.live
    requires forall task :: task in s'.table ==> task in s.table && s'.table[task] == s.table[task]
    ensures HeapInv(s') && |s'.table| <= |s.table|
  {
    assert s'.table.Keys <= s.table.Keys;
    SubsetSize(s'.table.Keys, s.table.Keys);
    assert |s'.table| == |s'.table.Keys| && |s.table| == |s.table.Keys|;
  }

  /** A step that shrinks the table and writes at most a table of that size to the file. */
  lemma CapacityShrinks(cfg: Config, s: State, s': State, t: Tid, th: Thread)
    requires CapacityInv(cfg, s) && s'.threads == s.threads[t := th] && !Creating(th.phase)
    requires forall task :: task in s'.table ==> task in s.table
    requires |s'.table| <= |s.table| && (s'.stored == s.stored || |s'.stored| == |s'.table|)
    ensures CapacityInv(cfg, s')
  {}

  lemma CreateHeap(s: State, t: Tid, saved: bool)
    requires HeapInv(s) && MakingInv(s) && CreateStep(s, t, saved).Some? && ThreadOf(s, t).task !in s.table
    ensures var s' := CreateStep(s, t, saved).value; HeapInv(s') && |s'.table| == |s.table| + 1
  {
    var th := ThreadOf(s, t);
    NewLeaseHeap(s, th.task, th.digest, th.lease);
    HeapFrame(WithNewLease(s, th.task, th.digest, th.lease), CreateStep(s, t, saved).value);
  }

  lemma CreateTable(cfg: Config, s: State, t: Tid, saved: bool)
    requires MutexInv(s) && HeapInv(s) && MakingInv(s) && CapacityInv(cfg, s) && StoreInv(s)
    requires CreateStep(s, t, saved).Some?
    ensures var s' := CreateStep(s, t, saved).value;
      HeapInv(s') && MakingInv(s') && CapacityInv(cfg, s') && StoreInv(s')
  {
    var s' := CreateStep(s, t, saved).value;
    CreateHeap(s, t, saved);
    assert s.mutex == Some(t);
    assert forall u :: u in s'.threads ==> !Creating(s'.threads[u].phase);
    if saved { StoreSaved(s'); } else { StoreFailed(s, s'); }
  }

  lemma CreateKeeps(cfg: Config, s: State, t: Tid, saved: bool)
    requires Inv(cfg, s) && CreateStep(s, t, saved).Some?
    ensures Inv(cfg, CreateStep(s, t, saved).value)
  {
    CreateLocks(cfg, s, t, saved);
    CreateTable(cfg, s, t, saved);
  }

  lemma PopLocks(cfg: Config, s: State, t: Tid, saved: bool)
    requires LocksOk(cfg, s) && PopStep(s, t, saved).Some?
    ensures LocksOk(cfg, PopStep(s, t, saved).value)
  {
    LocksMove(cfg, s, PopStep(s, t, saved).value, t, AfterDispose(ThreadOf(s, t)));
  }

  lemma PopTable(cfg: Config, s: State, t: Tid, saved: bool)
    requires HeapInv(s) && MakingInv(s) && CapacityInv(cfg, s) && StoreInv(s) && PopStep(s, t, saved).Some?
    ensures var s' := PopStep(s, t, saved).value; HeapInv(s') && MakingInv(s') && CapacityInv(cfg, s') && StoreInv(s')
  {
    var s' := PopStep(s, t, saved).value;
    HeapShrinks(s, s');
    MakingMove(s, s', t, AfterDispose(ThreadOf(s, t)));
    if saved { StoreSaved(s'); } else { StoreFailed(s, s'); }
    CapacityShrinks(cfg, s, s', t, AfterDispose(ThreadOf(s, t)));
  }

  lemma PopKeeps(cfg: Config, s: State, t: Tid, saved: bool)
    requires Inv(cfg, s) && PopStep(s, t, saved).Some?
    ensures Inv(cfg, PopStep(s, t, saved).value)
  {
    PopLocks(cfg, s, t, saved);
    PopTable(cfg, s, t, saved);
  }

  lemma KillLocks(cfg: Config, s: State, t: Tid)
    requires LocksOk(cfg, s) && KillStep(s, t, false).Some?
    ensures LocksOk(cfg, KillStep(s, t, false).value)
  {
    LocksMove(cfg, s, KillStep(s, t, false).value, t, ThreadOf(s, t).(phase := FreezeSave));
  }

  lemma KillStore(s: State, t: Tid)
    requires HeapInv(s) && StoreInv(s) && KillStep(s, t, false).Some?
    ensures StoreInv(KillStep(s, t, false).value)
  {
    var s', th := KillStep(s, t, false).value, ThreadOf(s, t).(phase := FreezeSave);
    PendingMove(s, s', t, th);
    assert s'.threads[t].phase.FreezeSave? && s'.threads[t].lease == th.lease;
    assert FreezePending(s', th.lease);
  }

  lemma KillTable(cfg: Config, s: State, t: Tid)
    requires HeapInv(s) && MakingInv(s) && CapacityInv(cfg, s) && StoreInv(s) && KillStep(s, t, false).Some?
    ensures var s' := KillStep(s, t, false).value; HeapInv(s') && MakingInv(s') && CapacityInv(cfg, s') && StoreInv(s')
  {
    var s', th := KillStep(s, t, false).value, ThreadOf(s, t).(phase := FreezeSave);
    CapacityMove(cfg, s, s', t, th);
    MakingMove(s, s', t, th);
    KillStore(s, t);
  }

  lemma KillKeeps(cfg: Config, s: State, t: Tid, raised: bool)
    requires Inv(cfg, s) && KillStep(s, t, raised).Some?
    ensures Inv(cfg, KillStep(s, t, raised).value)
  {
    if raised {
      KillRaises(cfg, s, t);
    } else {
      KillLocks(cfg, s, t);
      KillTable(cfg, s, t);
    }
  }

  lemma KillRaises(cfg: Config, s: State, t: Tid)
    requires Inv(cfg, s) && KillStep(s, t, true).Some?
    ensures Inv(cfg, KillStep(s, t, true).value)
  {
    Releases(cfg, s, t, ThreadOf(s, t).lease, IDLE);
  }

  /** What the last step of freeze does: the lock comes back, and the file is written or not. */
  lemma SaveFrozenShape(s: State, t: Tid, saved: bool)
    requires SaveFrozenStep(s, t, saved).Some?
    ensures var s', l := SaveFrozenStep(s, t, saved).value, ThreadOf(s, t).lease;
      && l in s.heap && s'.heap == s.heap[l := s.heap[l].(holder := None)] && s'.threads == s.threads[t := IDLE]
      && s'.table == s.table && s'.mutex == s.mutex && s'.mutex.None? && s'.free == s.free && s'.next == s.next
      && s'.live == s.live
      && s'.saveFailed == !saved && s'.stored == (if saved then Snapshot(s.table, s.heap) else s.stored)
  {}

  /** A thread that has the lock of `l`, and nothing else, gives it back and is done. */
  lemma ReleaseLocks(cfg: Config, s: State, s': State, t: Tid, l: nat)
    requires LocksOk(cfg, s) && s'.threads == s.threads[t := IDLE] && l in s.heap && s.mutex.None?
    requires ThreadOf(s, t).locked == Some(l) && !ThreadOf(s, t).slot
    requires s'.heap == s.heap[l := s.heap[l].(holder := None)] && s'.mutex == s.mutex && s'.free == s.free
    ensures LocksOk(cfg, s')
  {
    LocksMove(cfg, s, s', t, IDLE);
  }

  lemma SaveFrozenLocks(cfg: Config, s: State, t: Tid, saved: bool)
    requires LocksOk(cfg, s) && SaveFrozenStep(s, t, saved).Some?
    ensures LocksOk(cfg, SaveFrozenStep(s, t, saved).value)
  {
    SaveFrozenShape(s, t, saved);
    assert Consistent(ThreadOf(s, t));
    ReleaseLocks(cfg, s, SaveFrozenStep(s, t, saved).value, t, ThreadOf(s, t).lease);
  }

  lemma SnapshotIgnoresHolder(table: map<TaskId, nat>, heap: map<nat, Lease>, l: nat, holder: Option<Tid>)
    requires l in heap
    ensures Snapshot(table, heap[l := heap[l].(holder := holder)]) == Snapshot(table, heap)
  {}

  lemma SaveFrozenTable(cfg: Config, s: State, t: Tid, saved: bool)
    requires HeapInv(s) && MakingInv(s) && CapacityInv(cfg, s) && StoreInv(s) && SaveFrozenStep(s, t, saved).Some?
    ensures var s' := SaveFrozenStep(s, t, saved).value;
      HeapInv(s') && MakingInv(s') && CapacityInv(cfg, s') && StoreInv(s')
  {
    SaveFrozenShape(s, t, saved);
    SavedTable(cfg, s, SaveFrozenStep(s, t, saved).value, t, ThreadOf(s, t).lease, saved);
  }

  lemma SavedTable(cfg: Config, s: State, s': State, t: Tid, l: nat, saved: bool)
    requires HeapInv(s) && MakingInv(s) && CapacityInv(cfg, s) && StoreInv(s) && l in s.heap
    requires s'.heap == s.heap[l := s.heap[l].(holder := None)] && s'.threads == s.threads[t := IDLE]
    requires s'.table == s.table && s'.next == s.next && s'.live == s.live
    requires s'.saveFailed == !saved && s'.stored == (if saved then Snapshot(s.table, s.heap) else s.stored)
    ensures HeapInv(s') && MakingInv(s') && CapacityInv(cfg, s') && StoreInv(s')
  {
    SnapshotIgnoresHolder(s.table, s.heap, l, None);
    HeapShrinks(s, s');
    MakingMove(s, s', t, IDLE);
    if saved { StoreSaved(s'); } else { StoreFailed(s, s'); }
    CapacityShrinks(cfg, s, s', t, IDLE);
  }

  lemma SaveFrozenKeeps(cfg: Config, s: State, t: Tid, saved: bool)
    requires Inv(cfg, s) && SaveFrozenStep(s, t, saved).Some?
    ensures Inv(cfg, SaveFrozenStep(s, t, saved).value)
  {
    SaveFrozenLocks(cfg, s, t, saved);
    SaveFrozenTable(cfg, s, t, saved);
  }

  /** Each kept row has its container to itself, so its lease is made from it. */
  lemma RestoredLease(cfg: Config, s: State, inspectable: set<nat>, task: TaskId)
    requires OneRowPerContainer(s.stored) && task in s.stored && s.stored[task].container in inspectable * s.live
    ensures var s' := Restored(cfg, s, inspectable);
      && task in s'.table && s'.table[task] == s.stored[task].container
      && s'.table[task] in s'.heap && s'.heap[s'.table[task]] == LeaseFrom(s.stored[task])
  {
    var kept := Kept(s.stored, inspectable * s.live);
    var l := kept[task].container;
    assert l in Containers(kept);
    var row := RowOf(kept, l);
  }

  lemma RestoredTable(cfg: Config, s: State, inspectable: set<nat>)
    requires OneRowPerContainer(s.stored) && NewIdentifiers(s.stored, s.live, s.next)
    ensures var s' := Restored(cfg, s, inspectable); HeapInv(s') && s'.stored == Snapshot(s'.table, s'.heap)
  {
    var s' := Restored(cfg, s, inspectable);
    forall task | task in s'.table
      ensures s'.table[task] in s'.heap && s'.heap[s'.table[task]] == LeaseFrom(s.stored[task])
    {
      RestoredLease(cfg, s, inspectable, task);
    }
    forall l | l in s'.heap ensures l < s'.next {
      var row := RowOf(s'.stored, l);
    }
    assert s'.stored == Snapshot(s'.table, s'.heap);
  }

  lemma RestoredLocks(cfg: Config, s: State, inspectable: set<nat>)
    ensures LocksOk(cfg, Restored(cfg, s, inspectable))
  {
    assert Where(Restored(cfg, s, inspectable).threads, HoldsSlot) == {};
  }

  lemma RestoredCapacity(cfg: Config, s: State, inspectable: set<nat>)
    requires |s.stored| <= Bound(cfg)
    ensures CapacityInv(cfg, Restored(cfg, s, inspectable))
  {
    var s' := Restored(cfg, s, inspectable);
    SubsetSize(s'.table.Keys, s.stored.Keys);
    assert s'.stored.Keys == s'.table.Keys;
    assert |s.stored| == |s.stored.Keys| && |s'.table| == |s'.table.Keys| && |s'.stored| == |s'.stored.Keys|;
  }

  lemma RestoredInv(cfg: Config, s: State, inspectable: set<nat>)
    requires OneRowPerContainer(s.stored) && NewIdentifiers(s.stored, s.live, s.next) && |s.stored| <= Bound(cfg)
    ensures Inv(cfg, Restored(cfg, s, inspectable))
  {
    RestoredLocks(cfg, s, inspectable);
    RestoredTable(cfg, s, inspectable);
    RestoredCapacity(cfg, s, inspectable);
    StoreSaved(Restored(cfg, s, inspectable));
  }

  lemma RowsBelowNext(s: State)
    requires RowsInv(s) && HeapInv(s)
    ensures NewIdentifiers(s.stored, s.live, s.next)
  {
    forall task | task in s.stored ensures s.stored[task].container < s.next {
      assert RowFits(s.heap, s.stored[task]);
    }
  }

  lemma RestartKeeps(cfg: Config, s: State, inspectable: set<nat>)
    requires Inv(cfg, s)
    ensures Inv(cfg, Restored(cfg, s, inspectable))
  {
    RowsBelowNext(s);
    RestoredInv(cfg, s, inspectable);
  }

  lemma StartKeeps(cfg: Config, s: State, t: Tid, th: Thread)
    requires Inv(cfg, s) && StartStep(s, t, th).Some?
    requires Consistent(th) && !th.slot && th.locked.None? && !UsesLease(th.phase) && !Creating(th.phase)
    ensures Inv(cfg, StartStep(s, t, th).value)
  {
    Walks(cfg, s, t, th);
  }

  lemma TimeoutKeeps(cfg: Config, s: State, t: Tid)
    requires Inv(cfg, s) && TimeoutStep(s, t).Some?
    ensures Inv(cfg, TimeoutStep(s, t).value)
  {
    Walks(cfg, s, t, IDLE);
  }

  lemma CreateStepKeeps(cfg: Config, s: State, a: Action)
    requires Inv(cfg, s) && Step(cfg, s, a).Some?
    requires a.StartExecute? || a.EnterTable? || a.MakeContainer? || a.CreateOk? || a.CreateFails?
    ensures Inv(cfg, Step(cfg, s, a).value)
  {
    match a
    case StartExecute(t, task, digest) => StartKeeps(cfg, s, t, IDLE.(phase := ExecEnter, task := task,
                                                                      digest := digest));
    case EnterTable(t) => EnterKeeps(cfg, s, t);
    case MakeContainer(t) => MakeKeeps(cfg, s, t);
    case CreateOk(t, saved) => CreateKeeps(cfg, s, t, saved);
    case CreateFails(t, removed) => CreateFailsKeeps(cfg, s, t, removed);
  }

  lemma CallStepKeeps(cfg: Config, s: State, a: Action)
    requires Inv(cfg, s) && Step(cfg, s, a).Some?
    requires a.GetSlot? || a.SlotTimeout? || a.GetLease? || a.CallReturns? || a.CallRaises? || a.Unlock? || a.FreeSlot?
    ensures Inv(cfg, Step(cfg, s, a).value)
  {
    match a
    case GetSlot(t) => SlotKeeps(cfg, s, t);
    case SlotTimeout(t) => TimeoutKeeps(cfg, s, t);
    case GetLease(t) => LeaseKeeps(cfg, s, t, ExecLease, Calling);
    case CallReturns(t) => CallKeeps(cfg, s, t, false);
    case CallRaises(t) => CallKeeps(cfg, s, t, true);
    case Unlock(t) => UnlockKeeps(cfg, s, t);
    case FreeSlot(t) => FreeSlotKeeps(cfg, s, t);
  }

  lemma DisposeStepKeeps(cfg: Config, s: State, a: Action)
    requires Inv(cfg, s) && Step(cfg, s, a).Some?
    requires a.StartDispose? || a.LookupToDispose? || a.EngineDispose? || a.PopAndSave?
    ensures Inv(cfg, Step(cfg, s, a).value)
  {
    match a
    case StartDispose(t, task) => StartKeeps(cfg, s, t, IDLE.(phase := DisposeLookup, task := task));
    case LookupToDispose(t) => DisposeLookupKeeps(cfg, s, t);
    case EngineDispose(t, removed, raised) => EngineKeeps(cfg, s, t, removed, raised);
    case PopAndSave(t, saved) => PopKeeps(cfg, s, t, saved);
  }

  lemma FreezeStepKeeps(cfg: Config, s: State, a: Action)
    requires Inv(cfg, s) && Step(cfg, s, a).Some?
    requires a.StartFreeze? || a.LookupToFreeze? || a.GetLeaseToFreeze? || a.Kill? || a.SaveFrozen?
    ensures Inv(cfg, Step(cfg, s, a).value)
  {
    match a
    case StartFreeze(t, task) => StartKeeps(cfg, s, t, IDLE.(phase := FreezeLookup, task := task));
    case LookupToFreeze(t) => FreezeLookupKeeps(cfg, s, t);
    case GetLeaseToFreeze(t) => LeaseKeeps(cfg, s, t, FreezeLease, FreezeKill);
    case Kill(t, raised) => KillKeeps(cfg, s, t, raised);
    case SaveFrozen(t, saved) => SaveFrozenKeeps(cfg, s, t, saved);
  }

  /** Every step keeps the invariant. */
  lemma StepKeeps(cfg: Config, s: State, a: Action)
    requires Inv(cfg, s) && Step(cfg, s, a).Some?
    ensures Inv(cfg, Step(cfg, s, a).value)
  {
    if a.StartDispose? || a.LookupToDispose? || a.EngineDispose? || a.PopAndSave? {
      DisposeStepKeeps(cfg, s, a);
    } else if a.StartFreeze? || a.LookupToFreeze? || a.GetLeaseToFreeze? || a.Kill? || a.SaveFrozen? {
      FreezeStepKeeps(cfg, s, a);
    } else if a.Restart? {
      RestartKeeps(cfg, s, a.inspectable);
    } else if a.StartExecute? || a.EnterTable? || a.MakeContainer? || a.CreateOk? || a.CreateFails? {
      CreateStepKeeps(cfg, s, a);
    } else {
      CallStepKeeps(cfg, s, a);
    }
  }

  lemma StartedInv(cfg: Config, s: State)
    requires Started(cfg, s)
    ensures Inv(cfg, s)
  {
    var o :| StartedFrom(cfg, o, s);
    RestoredInv(cfg, Blank(cfg, o.stored, o.live, o.next), o.inspectable);
  }

  /**
   The invariant holds throughout every run, whatever the engine and the file system do
   and whenever the manager restarts.
  */
  lemma RunInvariant(cfg: Config, run: seq<State>, actions: seq<Action>, i: nat)
    requires ManagerRun(cfg, run, actions) && i < |run|
    ensures Inv(cfg, run[i])
  {
    var step := (s: State, a: Action) => Step(cfg, s, a);
    var inv := (s: State) => Inv(cfg, s);
    StartedInv(cfg, run[0]);
    forall s, a | inv(s) && step(s, a).Some? ensures inv(step(s, a).value) {
      StepKeeps(cfg, s, a);
    }
    RunInduction(run[0], step, inv, run, actions, i);
  }

  // ---------------------------------------------------------------- reachable states

  /** All starts are in `states`, and no step leads out of it. */
  ghost predicate Closed(cfg: Config, states: iset<State>) {
    && (forall s :: Started(cfg, s) ==> s in states)
    && (forall s, a :: s in states && Step(cfg, s, a).Some? ==> Step(cfg, s, a).value in states)
  }

  /** Some run of the manager ends in this state (`ReachableRun`); said without naming the run. */
  ghost predicate Reachable(cfg: Config, s: State) {
    forall states: iset<State> :: Closed(cfg, states) ==> s in states
  }

  lemma ReachableInv(cfg: Config, s: State)
    requires Reachable(cfg, s)
    ensures Inv(cfg, s)
  {
    var states := iset s: State | Inv(cfg, s);
    forall s | Started(cfg, s) ensures Inv(cfg, s) {
      StartedInv(cfg, s);
    }
    forall s, a | Inv(cfg, s) && Step(cfg, s, a).Some? ensures Inv(cfg, Step(cfg, s, a).value) {
      StepKeeps(cfg, s, a);
    }
    assert Closed(cfg, states);
  }

  lemma ReachableStart(cfg: Config, s: State)
    requires Started(cfg, s)
    ensures Reachable(cfg, s)
  {}

  lemma ReachableStep(cfg: Config, s: State, a: Action, s': State)
    requires Reachable(cfg, s) && Step(cfg, s, a) == Some(s')
    ensures Reachable(cfg, s')
  {
    forall states: iset<State> | Closed(cfg, states) ensures s' in states {
      assert s in states;
    }
  }

  ghost predicate EndOfRun(cfg: Config, s: State, run: seq<State>, actions: seq<Action>) {
    ManagerRun(cfg, run, actions) && s == run[|run| - 1]
  }

  ghost predicate EndsSomeRun(cfg: Config, s: State) {
    exists run, actions :: EndOfRun(cfg, s, run, actions)
  }

  lemma RunLonger(cfg: Config, s: State, a: Action)
    requires EndsSomeRun(cfg, s) && Step(cfg, s, a).Some?
    ensures EndsSomeRun(cfg, Step(cfg, s, a).value)
  {
    var run, actions :| EndOfRun(cfg, s, run, actions);
    var s' := Step(cfg, s, a).value;
    RunExtend(run[0], (s: State, a: Action) => Step(cfg, s, a), run, actions, a, s');
    assert EndOfRun(cfg, s', run + [s'], actions + [a]);
  }

  lemma RunsClosed(cfg: Config)
    ensures Closed(cfg, iset s: State | EndsSomeRun(cfg, s))
  {
    forall s | Started(cfg, s) ensures EndsSomeRun(cfg, s) {
      assert EndOfRun(cfg, s, [s], []);
    }
    forall s, a | EndsSomeRun(cfg, s) && Step(cfg, s, a).Some? ensures EndsSomeRun(cfg, Step(cfg, s, a).value) {
      RunLonger(cfg, s, a);
    }
  }

  lemma {:induction false} RunReachable(cfg: Config, run: seq<State>, actions: seq<Action>, i: nat)
    requires ManagerRun(cfg, run, actions) && i < |run|
    ensures Reachable(cfg, run[i])
  {
    if i == 0 {
      ReachableStart(cfg, run[0]);
    } else {
      RunReachable(cfg, run, actions, i - 1);
      assert Step(cfg, run[i - 1], actions[i - 1]) == Some(run[i]);
      ReachableStep(cfg, run[i - 1], actions[i - 1], run[i]);
    }
  }

  /** The reachable states are the last states of the runs. */
  lemma ReachableRun(cfg: Config, s: State)
    ensures Reachable(cfg, s) <==> EndsSomeRun(cfg, s)
  {
    RunsClosed(cfg);
    if EndsSomeRun(cfg, s) {
      var run, actions :| EndOfRun(cfg, s, run, actions);
      RunReachable(cfg, run, actions, |run| - 1);
    }
  }
}
