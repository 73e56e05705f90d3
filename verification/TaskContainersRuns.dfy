/** Runs of the task-container manager, from the start, that reach what its names and comments suggest cannot happen. */
module TaskContainersRuns {
  import opened Common
  import opened TaskContainers
  import opened TaskContainersSafety
  import opened TaskContainersLeases

  // ---------------------------------------------------------------- what one thread does while the others rest

  lemma Then(cfg: Config, s: State, a: Action) returns (s': State)
    requires Reachable(cfg, s) && Step(cfg, s, a).Some?
    ensures Step(cfg, s, a) == Some(s') && Reachable(cfg, s')
  {
    s' := Step(cfg, s, a).value;
    ReachableStep(cfg, s, a, s');
  }

  /** A call for a new task has made its container. */
  lemma Starts(cfg: Config, s: State, t: Tid, task: TaskId, digest: string) returns (s': State)
    requires Reachable(cfg, s) && ThreadOf(s, t).phase.Idle? && s.mutex.None?
    requires task !in s.table && |s.table| < cfg.capacity
    ensures Reachable(cfg, s') && s' == s.(
      next := s.next + 1, mutex := Some(t), live := s.live + {s.next},
      threads := s.threads[t := Thread(ExecStart, task, digest, s.next, false, None)])
  {
    s' := Then(cfg, s, StartExecute(t, task, digest));
    s' := Then(cfg, s', EnterTable(t));
    s' := Then(cfg, s', MakeContainer(t));
    assert s'.threads == s.threads[t := Thread(ExecStart, task, digest, s.next, false, None)];
  }

  /**
   The state with a new lease for the container `l`, saved or not, and with thread `t`
   waiting for a slot if it was.
  */
  function WithLease(s: State, t: Tid, task: TaskId, digest: string, l: nat, saved: bool): State {
    var made := WithNewLease(s, task, digest, l);
    made.(stored := if saved then Snapshot(made.table, made.heap) else s.stored, saveFailed := !saved, mutex := None,
          threads := s.threads[t := if saved then Thread(ExecSlot, task, digest, l, false, None) else IDLE])
  }

  lemma Creates(cfg: Config, s: State, t: Tid, task: TaskId, digest: string, l: nat, saved: bool) returns (s': State)
    requires Reachable(cfg, s) && ThreadOf(s, t) == Thread(ExecStart, task, digest, l, false, None)
    ensures Reachable(cfg, s') && s' == WithLease(s, t, task, digest, l, saved)
  {
    s' := Then(cfg, s, CreateOk(t, saved));
  }

  /** Being on the way to the lease leaves no trace but the container. */
  lemma LeaseAfterStart(
      s: State, t: Tid, th: Thread, task: TaskId, digest: string, l: nat, live: set<nat>, saved: bool)
    requires s.mutex.None?
    ensures var s1 := s.(next := l + 1, mutex := Some(t), live := live, threads := s.threads[t := th]);
      WithLease(s1, t, task, digest, l, saved) == WithLease(s, t, task, digest, l, saved).(next := l + 1, live := live)
  {
    var s1 := s.(next := l + 1, mutex := Some(t), live := live, threads := s.threads[t := th]);
    assert WithLease(s1, t, task, digest, l, saved).threads == WithLease(s, t, task, digest, l, saved).threads;
  }

  /** A call for a new task has its lease and waits for a slot. */
  lemma Makes(cfg: Config, s: State, t: Tid, task: TaskId, digest: string, saved: bool) returns (s': State)
    requires Reachable(cfg, s) && ThreadOf(s, t).phase.Idle? && s.mutex.None?
    requires task !in s.table && |s.table| < cfg.capacity
    ensures Reachable(cfg, s')
    ensures s' == WithLease(s, t, task, digest, s.next, saved).(next := s.next + 1, live := s.live + {s.next})
  {
    var s1 := Starts(cfg, s, t, task, digest);
    s' := Creates(cfg, s1, t, task, digest, s.next, saved);
    LeaseAfterStart(s, t, Thread(ExecStart, task, digest, s.next, false, None), task, digest, s.next,
                    s.live + {s.next}, saved);
  }

  /** A call that waits for a slot gets one, and the lock of its lease. */
  lemma Begins(cfg: Config, s: State, t: Tid) returns (s': State)
    requires Reachable(cfg, s) && ThreadOf(s, t).phase.ExecSlot? && s.free > 0
    requires ThreadOf(s, t).lease in s.heap && s.heap[ThreadOf(s, t).lease].holder.None?
    ensures Reachable(cfg, s')
    ensures var th := ThreadOf(s, t); s' == SetHolder(s, th.lease, Some(t)).(
      free := s.free - 1, threads := s.threads[t := th.(phase := Calling, slot := true, locked := Some(th.lease))])
  {
    var th := ThreadOf(s, t);
    s' := Then(cfg, s, GetSlot(t));
    s' := Then(cfg, s', GetLease(t));
    assert s'.threads == s.threads[t := th.(phase := Calling, slot := true, locked := Some(th.lease))];
  }

  /** A freeze waits for the lock of its lease. */
  lemma Finds(cfg: Config, s: State, t: Tid, task: TaskId) returns (s': State)
    requires Reachable(cfg, s) && ThreadOf(s, t).phase.Idle? && s.mutex.None? && task in s.table
    ensures Reachable(cfg, s')
    ensures s' == s.(threads := s.threads[t := Thread(FreezeLease, task, "", s.table[task], false, None)])
  {
    s' := Then(cfg, s, StartFreeze(t, task));
    s' := Then(cfg, s', LookupToFreeze(t));
    assert s'.threads == s.threads[t := Thread(FreezeLease, task, "", s.table[task], false, None)];
  }

  lemma Locks(cfg: Config, s: State, t: Tid, task: TaskId) returns (s': State)
    requires Reachable(cfg, s) && ThreadOf(s, t).phase.Idle? && s.mutex.None?
    requires task in s.table && s.table[task] in s.heap && s.heap[s.table[task]].holder.None?
    ensures Reachable(cfg, s')
    ensures var l := s.table[task]; s' == SetHolder(s, l, Some(t)).(
      threads := s.threads[t := Thread(FreezeKill, task, "", l, false, Some(l))])
  {
    var s1 := Finds(cfg, s, t, task);
    s' := Then(cfg, s1, GetLeaseToFreeze(t));
    assert s'.threads == s.threads[t := Thread(FreezeKill, task, "", s.table[task], false, Some(s.table[task]))];
  }

  /** A freeze has killed the container and frozen the lease, but not saved the table. */
  lemma Kills(cfg: Config, s: State, t: Tid, task: TaskId) returns (s': State)
    requires Reachable(cfg, s) && ThreadOf(s, t).phase.Idle? && s.mutex.None?
    requires task in s.table && s.table[task] in s.heap && s.heap[s.table[task]].holder.None?
    ensures Reachable(cfg, s')
    ensures var l := s.table[task]; s' == s.(
      heap := s.heap[l := Lease(s.heap[l].digest, true, Some(t))],
      threads := s.threads[t := Thread(FreezeSave, task, "", l, false, Some(l))])
  {
    var l := s.table[task];
    var s1 := Locks(cfg, s, t, task);
    s' := Then(cfg, s1, Kill(t, false));
    assert s'.threads == s.threads[t := Thread(FreezeSave, task, "", l, false, Some(l))];
    assert s'.heap == s.heap[l := Lease(s.heap[l].digest, true, Some(t))];
  }

  lemma Saves(cfg: Config, s: State, t: Tid) returns (s': State)
    requires Reachable(cfg, s) && ThreadOf(s, t).phase.FreezeSave? && s.mutex.None? && ThreadOf(s, t).lease in s.heap
    ensures Reachable(cfg, s')
    ensures var l := ThreadOf(s, t).lease; s' == s.(
      heap := s.heap[l := s.heap[l].(holder := None)], stored := Snapshot(s.table, s.heap), saveFailed := false,
      threads := s.threads[t := IDLE])
  {
    s' := Then(cfg, s, SaveFrozen(t, true));
  }

  /** A dispose has looked its lease up. */
  lemma LooksUp(cfg: Config, s: State, t: Tid, task: TaskId) returns (s': State)
    requires Reachable(cfg, s) && ThreadOf(s, t).phase.Idle? && s.mutex.None? && task in s.table
    ensures Reachable(cfg, s')
    ensures s' == s.(threads := s.threads[t := Thread(DisposeEngine, task, "", s.table[task], false, None)])
  {
    s' := Then(cfg, s, StartDispose(t, task));
    s' := Then(cfg, s', LookupToDispose(t));
    assert s'.threads == s.threads[t := Thread(DisposeEngine, task, "", s.table[task], false, None)];
  }

  /** A dispose has removed the container, the network, everything. */
  lemma Removes(cfg: Config, s: State, t: Tid) returns (s': State)
    requires Reachable(cfg, s) && ThreadOf(s, t).phase.DisposeEngine?
    ensures Reachable(cfg, s')
    ensures s' == s.(live := s.live - {ThreadOf(s, t).lease},
                     threads := s.threads[t := ThreadOf(s, t).(phase := DisposePop)])
  {
    s' := Then(cfg, s, EngineDispose(t, true, false));
  }

  /** A dispose pops its task. */
  lemma Pops(cfg: Config, s: State, t: Tid) returns (s': State)
    requires Reachable(cfg, s) && ThreadOf(s, t).phase.DisposePop? && s.mutex.None?
    ensures Reachable(cfg, s')
    ensures s'.table == s.table - {ThreadOf(s, t).task} && s'.threads == s.threads[t := AfterDispose(ThreadOf(s, t))]
    ensures s'.heap == s.heap && s'.live == s.live && s'.next == s.next && s'.mutex.None? && s'.free == s.free
  {
    s' := Then(cfg, s, PopAndSave(t, true));
  }

  /** A call that has its lock works, and its thread is idle again. */
  lemma Finishes(cfg: Config, s: State, t: Tid) returns (s': State)
    requires Reachable(cfg, s) && ThreadOf(s, t).phase.Calling? && ThreadOf(s, t).slot
    requires ThreadOf(s, t).locked.Some? && ThreadOf(s, t).locked.value in s.heap
    ensures Reachable(cfg, s')
    ensures var l := ThreadOf(s, t).locked.value; s' == SetHolder(s, l, None).(
      free := s.free + 1, threads := s.threads[t := IDLE])
  {
    s' := Then(cfg, s, CallReturns(t));
    s' := Then(cfg, s', Unlock(t));
    s' := Then(cfg, s', FreeSlot(t));
    assert s'.threads == s.threads[t := IDLE];
  }

  /** A call for a task with a lease of this skill, not frozen, is running in that lease's container. */
  lemma Reuses(cfg: Config, s: State, t: Tid, task: TaskId) returns (s': State)
    requires Reachable(cfg, s) && ThreadOf(s, t).phase.Idle? && s.mutex.None? && s.free > 0
    requires task in s.table && s.table[task] in s.heap
    requires s.heap[s.table[task]].holder.None? && !s.heap[s.table[task]].frozen
    ensures Reachable(cfg, s') && Calls(s', t, s.table[task])
    ensures s'.table == s.table && s'.live == s.live && s'.next == s.next && s'.stored == s.stored
    ensures forall u :: u != t ==> ThreadOf(s', u) == ThreadOf(s, u)
  {
    var digest := s.heap[s.table[task]].digest;
    s' := Then(cfg, s, StartExecute(t, task, digest));
    s' := Then(cfg, s', EnterTable(t));
    assert ThreadOf(s', t) == Thread(ExecSlot, task, digest, s.table[task], false, None);
    s' := Begins(cfg, s', t);
  }

  // ---------------------------------------------------------------- freezes

  // All runs are about one task and one lease at a time; with as many slots as `slots` says.
  const TASK: TaskId := "a"

  function Small(slots: nat): Config {
    Config(1, slots, 0)
  }

  /** A manager without a lease file, and with an engine without containers. */
  lemma Begin(cfg: Config) returns (s: State)
    ensures Reachable(cfg, s) && s == Blank(cfg, map[], {}, 0)
  {
    var blank := Blank(cfg, map[], {}, 0);
    s := Restored(cfg, blank, {});
    assert Kept(blank.stored, {}) == map[];
    assert s.heap == map[];
    assert StartedFrom(cfg, Origin(map[], {}, 0, {}), s);
    ReachableStart(cfg, s);
  }

  /** Thread 0 has made the lease 0 and waits for a slot; nobody else is about. */
  predicate Waiting(s: State, slots: nat) {
    && s.table == map[TASK := 0] && s.heap == map[0 := Lease("", false, None)] && s.next == 1
    && s.mutex.None? && s.free == slots && s.live == {0} && !s.saveFailed && s.stored == map[TASK := Row(0, "", false)]
    && s.threads == map[0 := Thread(ExecSlot, TASK, "", 0, false, None)]
  }

  lemma ToWaiting(slots: nat) returns (s: State)
    ensures Reachable(Small(slots), s) && Waiting(s, slots)
  {
    s := Begin(Small(slots));
    s := Makes(Small(slots), s, 0, TASK, "", true);
    assert Snapshot(s.table, s.heap) == map[TASK := Row(0, "", false)];
  }

  /** Thread 0 waits for a slot to call the lease 0, which thread 1 has frozen; the file says `written`. */
  predicate FrozenMeanwhile(s: State, written: bool) {
    && s.table == map[TASK := 0] && 0 in s.heap && s.heap[0].digest == "" && s.heap[0].frozen && s.mutex.None?
    && s.free == 1
    && s.live == {0} && !s.saveFailed && s.stored == map[TASK := Row(0, "", written)]
    && ThreadOf(s, 0) == Thread(ExecSlot, TASK, "", 0, false, None)
    && (if written then s.heap[0].holder.None? else ThreadOf(s, 1) == Thread(FreezeSave, TASK, "", 0, false, Some(0)))
  }

  lemma ToKilled() returns (s: State)
    ensures Reachable(Small(1), s) && FrozenMeanwhile(s, false)
  {
    s := ToWaiting(1);
    s := Kills(Small(1), s, 1, TASK);
  }

  lemma ToFrozen() returns (s: State)
    ensures Reachable(Small(1), s) && FrozenMeanwhile(s, true)
  {
    var before := ToKilled();
    s := Saves(Small(1), before, 1);
    assert Snapshot(before.table, before.heap) == map[TASK := Row(0, "", true)];
  }

  /** A call can start on a lease that was frozen, and saved as frozen, while the call waited for its slot. */
  lemma CallOnFrozenLease() returns (s: State)
    ensures Reachable(Small(1), s) && Calls(s, 0, 0)
    ensures 0 in s.heap && s.heap[0].frozen && TASK in s.stored && s.stored[TASK].frozen
  {
    var before := ToFrozen();
    s := Begins(Small(1), before, 0);
  }

  // ---------------------------------------------------------------- a second call

  lemma ToFirstCall(digest: string) returns (s: State)
    ensures Reachable(Small(1), s) && Calls(s, 0, 0) && s.next == 1 && s.live == {0} && s.table == map[TASK := 0]
    ensures s.heap == map[0 := Lease(digest, false, Some(0))] && s.mutex.None? && s.free == 0
    ensures s.threads == map[0 := Thread(Calling, TASK, digest, 0, true, Some(0))]
  {
    s := Begin(Small(1));
    s := Makes(Small(1), s, 0, TASK, digest, true);
    s := Begins(Small(1), s, 0);
  }

  /**
   For every skill: a first call makes the lease of its task and works, and a second
   one runs in the same container; no other was ever made.
  */
  lemma SecondCallReuses(digest: string) returns (first: State, second: State)
    ensures Reachable(Small(1), first) && Calls(first, 0, 0) && first.heap.Keys == {0}
    ensures Reachable(Small(1), second) && Calls(second, 1, 0) && ThreadOf(second, 0) == IDLE
    ensures second.next == first.next == 1 && second.live == first.live == {0}
    ensures second.table == first.table == map[TASK := 0]
  {
    first := ToFirstCall(digest);
    second := Finishes(Small(1), first, 0);
    second := Reuses(Small(1), second, 1, TASK);
  }

  // ---------------------------------------------------------------- restarts

  /** A restart between the kill and the save of a freeze brings the lease back thawed. */
  lemma RestartThaws() returns (s: State)
    ensures Reachable(Small(1), s) && !s.saveFailed && Thawed(s, s.live, TASK)
    ensures !SameBit(s, Restored(Small(1), s, s.live), TASK)
  {
    s := ToKilled();
    ReachableInv(Small(1), s);
    RestartBit(Small(1), s, s.live, TASK);
  }

  /** A restart after the failed save of a new lease forgets the lease and its container. */
  lemma RestartLoses() returns (s: State)
    ensures Reachable(Small(1), s) && LostCreate(s, s.live, TASK) && TASK !in Restored(Small(1), s, s.live).table
    ensures Accounted(s) && !Accounted(Restored(Small(1), s, s.live))
  {
    var cfg := Small(1);
    s := Begin(cfg);
    s := Makes(cfg, s, 0, TASK, "", false);
    assert s.live == {0} && s.table[TASK] == 0 && s.stored == map[];
    ReachableInv(cfg, s);
    RestartForgets(cfg, s, s.live);
    assert !HasRow(s, s.live, 0);
  }

  // ---------------------------------------------------------------- overlapping disposes

  /** Threads 1 and 2 dispose the lease; both have removed the container, and thread 1 has popped it. */
  predicate OnePopped(s: State) {
    && s.table == map[] && s.next == 1 && s.mutex.None? && s.live == {}
    && ThreadOf(s, 2) == Thread(DisposePop, TASK, "", 0, false, None) && ThreadOf(s, 3).phase.Idle?
    && forall t :: t in s.threads ==> !s.threads[t].phase.ExecStart?
  }

  lemma ToOnePopped() returns (s: State)
    ensures Reachable(Small(1), s) && OnePopped(s)
  {
    var cfg := Small(1);
    s := ToWaiting(1);
    s := LooksUp(cfg, s, 1, TASK);
    s := LooksUp(cfg, s, 2, TASK);
    s := Removes(cfg, s, 1);
    s := Removes(cfg, s, 2);
    s := Pops(cfg, s, 1);
  }

  /** Two overlapping disposes of one task can pop a lease made in between: its container stays, its lease is gone. */
  lemma OverlapForgets() returns (s: State)
    ensures Reachable(Small(1), s) && !Accounted(s)
  {
    s := ToOnePopped();
    s := Makes(Small(1), s, 3, TASK, "", true);
    s := Pops(Small(1), s, 2);
    assert 1 in s.live && !HasLease(s, 1) && !BeingMade(s, 1);
  }

  // ---------------------------------------------------------------- failed calls

  /** Thread 1 has disposed the lease 0 that thread 0 waits to call, and thread 2 has made the lease 1. */
  predicate Renewed(s: State) {
    && s.table == map[TASK := 1] && 0 in s.heap && 1 in s.heap && s.heap[0].holder.None? && s.heap[1].holder.None?
    && s.mutex.None? && s.free == 2 && s.live == {1}
    && ThreadOf(s, 0) == Thread(ExecSlot, TASK, "", 0, false, None)
    && ThreadOf(s, 2) == Thread(ExecSlot, TASK, "", 1, false, None)
  }

  lemma ToRenewed() returns (s: State)
    ensures Reachable(Small(2), s) && Renewed(s)
  {
    var cfg := Small(2);
    s := ToWaiting(2);
    s := LooksUp(cfg, s, 1, TASK);
    s := Removes(cfg, s, 1);
    s := Pops(cfg, s, 1);
    s := Makes(cfg, s, 2, TASK, "", true);
  }

  /** Thread 0 is calling on the disposed lease 0, and thread 2 on the lease 1. */
  predicate TwoCalls(s: State) {
    && s.table == map[TASK := 1] && s.mutex.None? && s.live == {1} && Calls(s, 2, 1)
    && ThreadOf(s, 0) == Thread(Calling, TASK, "", 0, true, Some(0))
  }

  lemma ToTwoCalls() returns (s: State)
    ensures Reachable(Small(2), s) && TwoCalls(s)
  {
    s := ToRenewed();
    s := Begins(Small(2), s, 0);
    s := Begins(Small(2), s, 2);
  }

  /**
   A call that fails because its lease was disposed removes the container of the
   lease made since, while another call is running in it.
  */
  lemma FailedCallRemovesOther() returns (before: State, s: State)
    ensures Reachable(Small(2), before) && Calls(before, 2, 1) && 1 in before.live
    ensures ThreadOf(before, 0).locked == Some(0)
    ensures Reachable(Small(2), s) && Calls(s, 2, 1) && 1 !in s.live
  {
    var cfg := Small(2);
    before := ToTwoCalls();
    s := Then(cfg, before, CallRaises(0));
    s := Then(cfg, s, LookupToDispose(0));
    s := Removes(cfg, s, 0);
  }
}
