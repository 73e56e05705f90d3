/**
 What the invariant of the task-container manager gives: exclusion, no deadlock, a
 faithful lease file, no lost container.
*/
module TaskContainersProperties {
  import opened Common
  import opened TaskContainers
  import opened TaskContainersSafety

  /** The table has the lease under its task. */
  predicate TableHas(s: State, task: TaskId, l: nat) {
    task in s.table && s.table[task] == l
  }

  // ---------------------------------------------------------------- exclusion and bounds

  predicate UsesEngine(th: Thread) {
    th.phase.Calling? || th.phase.FreezeKill? || th.phase.FreezeSave?
  }

  function IsCalling(th: Thread): bool {
    th.phase.Calling?
  }

  lemma OneUserPerLease(cfg: Config, s: State, t: Tid, u: Tid)
    requires Inv(cfg, s) && t in s.threads && u in s.threads && t != u
    requires UsesEngine(s.threads[t]) && UsesEngine(s.threads[u])
    ensures s.threads[t].lease != s.threads[u].lease
  {
    assert Consistent(s.threads[t]) && Consistent(s.threads[u]);
    assert s.heap[s.threads[t].lease].holder == Some(t);
    assert s.heap[s.threads[u].lease].holder == Some(u);
  }

  lemma CallsHaveSlots(cfg: Config, s: State)
    requires ThreadInv(s) && SlotInv(cfg, s)
    requires s.free >= 0
    ensures |Where(s.threads, IsCalling)| <= cfg.maxConcurrent
  {
    forall t | t in Where(s.threads, IsCalling) ensures t in Where(s.threads, HoldsSlot) {
      assert Consistent(s.threads[t]);
    }
    SubsetSize(Where(s.threads, IsCalling), Where(s.threads, HoldsSlot));
  }

  /** In every state of every run: at most one call or freeze per lease, bounded calls, bounded leases. */
  lemma ExclusionAndBounds(cfg: Config, run: seq<State>, actions: seq<Action>, i: nat)
    requires ManagerRun(cfg, run, actions) && i < |run|
    ensures forall t, u :: (t in run[i].threads && u in run[i].threads && t != u
              && UsesEngine(run[i].threads[t]) && UsesEngine(run[i].threads[u]))
              ==> run[i].threads[t].lease != run[i].threads[u].lease
    ensures |Where(run[i].threads, IsCalling)| <= cfg.maxConcurrent
    ensures |run[i].table| <= Bound(cfg) && |run[i].stored| <= Bound(cfg)
  {
    var s := run[i];
    RunInvariant(cfg, run, actions, i);
    forall t, u | t in s.threads && u in s.threads && t != u && UsesEngine(s.threads[t]) && UsesEngine(s.threads[u])
      ensures s.threads[t].lease != s.threads[u].lease
    {
      OneUserPerLease(cfg, s, t, u);
    }
    CallsHaveSlots(cfg, s);
  }

  // ---------------------------------------------------------------- waiting

  /** What a thread waits for: a slot, then a lease lock, then the table lock, then nothing. */
  function WantRank(phase: Phase): nat {
    match phase
    case ExecSlot => 0
    case ExecLease => 1
    case FreezeLease => 1
    case ExecEnter => 2
    case DisposeLookup => 2
    case DisposePop => 2
    case FreezeLookup => 2
    case FreezeSave => 2
    case _ => 3
  }

  /** Thread `t` cannot move until thread `u` gives something back. */
  ghost predicate Waits(s: State, t: Tid, u: Tid) {
    && t in s.threads && u in s.threads
    && match WantRank(s.threads[t].phase)
       case 0 => s.free == 0 && s.threads[u].slot
       case 1 => s.threads[u].locked == Some(s.threads[t].lease)
       case 2 => s.mutex == Some(u)
       case _ => false
  }

  lemma WaitsClimb(cfg: Config, s: State, t: Tid, u: Tid)
    requires Inv(cfg, s) && Waits(s, t, u)
    ensures WantRank(s.threads[u].phase) > WantRank(s.threads[t].phase)
  {
    assert Consistent(s.threads[u]);
  }

  ghost predicate WaitPath(s: State, path: seq<Tid>) {
    forall i :: 0 <= i < |path| - 1 ==> Waits(s, path[i], path[i + 1])
  }

  /** A chain of waiting threads climbs the lock order, so it is short and never closes. */
  lemma {:induction false} NoWaitCycle(cfg: Config, s: State, path: seq<Tid>)
    requires Inv(cfg, s) && |path| >= 2 && WaitPath(s, path)
    ensures path[0] in s.threads && path[|path| - 1] in s.threads
    ensures WantRank(s.threads[path[|path| - 1]].phase) >= WantRank(s.threads[path[0]].phase) + |path| - 1
    ensures |path| <= 4 && path[0] != path[|path| - 1]
  {
    assert Waits(s, path[0], path[1]);
    WaitsClimb(cfg, s, path[0], path[1]);
    if |path| > 2 {
      assert WaitPath(s, path[1..]) by {
        forall i | 0 <= i < |path[1..]| - 1 ensures Waits(s, path[1..][i], path[1..][i + 1]) {
          assert Waits(s, path[i + 1], path[i + 2]);
        }
      }
      NoWaitCycle(cfg, s, path[1..]);
    }
  }

  /** The next step of a thread when nothing goes wrong. */
  function Advance(phase: Phase, t: Tid): Action {
    match phase
    case Idle => SlotTimeout(t)
    case ExecEnter => EnterTable(t)
    case ExecCreate => MakeContainer(t)
    case ExecStart => CreateOk(t, true)
    case ExecSlot => GetSlot(t)
    case ExecLease => GetLease(t)
    case Calling => CallReturns(t)
    case Unlocking => Unlock(t)
    case FreeingSlot => FreeSlot(t)
    case DisposeLookup => LookupToDispose(t)
    case DisposeEngine => EngineDispose(t, true, false)
    case DisposePop => PopAndSave(t, true)
    case FreezeLookup => LookupToFreeze(t)
    case FreezeLease => GetLeaseToFreeze(t)
    case FreezeKill => Kill(t, false)
    case FreezeSave => SaveFrozen(t, true)
  }

  /** Nothing the thread wants is taken. */
  predicate Runnable(s: State, t: Tid) {
    && t in s.threads && !s.threads[t].phase.Idle?
    && match WantRank(s.threads[t].phase)
       case 0 => s.free > 0
       case 1 => s.threads[t].lease in s.heap && s.heap[s.threads[t].lease].holder.None?
       case 2 => s.mutex.None?
       case _ => true
  }

  lemma SlotBlocked(cfg: Config, s: State, t: Tid)
    requires SlotInv(cfg, s) && cfg.maxConcurrent > 0 && t in s.threads && s.threads[t].phase.ExecSlot?
    requires !Runnable(s, t)
    ensures exists u :: Waits(s, t, u)
  {
    assert s.free == 0;
    assert Where(s.threads, HoldsSlot) != {};
    var u :| u in Where(s.threads, HoldsSlot);
    assert Waits(s, t, u);
  }

  lemma LeaseBlocked(s: State, t: Tid)
    requires LeaseLockInv(s) && t in s.threads && WantRank(s.threads[t].phase) == 1 && s.threads[t].lease in s.heap
    requires !Runnable(s, t)
    ensures exists u :: Waits(s, t, u)
  {
    var l := s.threads[t].lease;
    assert s.heap[l].holder.Some?;
    var u := s.heap[l].holder.value;
    assert s.heap[l].holder == Some(u);
    assert Waits(s, t, u);
  }

  lemma MutexBlocked(s: State, t: Tid)
    requires MutexInv(s) && t in s.threads && WantRank(s.threads[t].phase) == 2 && s.mutex.Some?
    ensures exists u :: Waits(s, t, u)
  {
    assert s.mutex == Some(s.mutex.value);
    assert Waits(s, t, s.mutex.value);
  }

  /** A thread that cannot move waits for another one. */
  lemma BlockedWaits(cfg: Config, s: State, t: Tid)
    requires Inv(cfg, s) && (cfg.maxConcurrent > 0 || !ThreadOf(s, t).phase.ExecSlot?)
    requires t in s.threads && !s.threads[t].phase.Idle? && !Runnable(s, t)
    ensures exists u :: Waits(s, t, u)
  {
    match WantRank(s.threads[t].phase)
    case 0 => SlotBlocked(cfg, s, t);
    case 1 => LeaseBlocked(s, t);
    case 2 => MutexBlocked(s, t);
    case _ =>
  }

  /** Behind every thread under way there is one that can move; only a manager without slots leaves calls waiting. */
  lemma {:induction false} SomeoneRuns(cfg: Config, s: State, t: Tid) returns (u: Tid)
    requires Inv(cfg, s) && t in s.threads && !s.threads[t].phase.Idle?
    requires cfg.maxConcurrent > 0 || !s.threads[t].phase.ExecSlot?
    ensures Runnable(s, u)
    decreases 3 - WantRank(s.threads[t].phase)
  {
    if Runnable(s, t) {
      return t;
    }
    BlockedWaits(cfg, s, t);
    var v :| Waits(s, t, v);
    WaitsClimb(cfg, s, t, v);
    assert Consistent(s.threads[v]);
    u := SomeoneRuns(cfg, s, v);
  }

  // ---------------------------------------------------------------- running dry

  function Weight(phase: Phase): nat {
    match phase
    case Idle => 0
    case FreeingSlot => 1
    case Unlocking => 2
    case Calling => 3
    case ExecLease => 4
    case ExecSlot => 5
    case ExecStart => 6
    case ExecCreate => 7
    case ExecEnter => 8
    case DisposePop => 3
    case DisposeEngine => 4
    case DisposeLookup => 5
    case FreezeSave => 1
    case FreezeKill => 2
    case FreezeLease => 3
    case FreezeLookup => 4
  }

  ghost function TotalWeight(threads: map<Tid, Thread>): nat {
    if threads == map[] then 0
    else var t :| t in threads; Weight(threads[t].phase) + TotalWeight(threads - {t})
  }

  lemma {:induction false} TotalWithout(threads: map<Tid, Thread>, t: Tid)
    requires t in threads
    ensures TotalWeight(threads) == Weight(threads[t].phase) + TotalWeight(threads - {t})
    decreases |threads|
  {
    var u :| u in threads && TotalWeight(threads) == Weight(threads[u].phase) + TotalWeight(threads - {u});
    if u != t {
      assert t in threads - {u} && u in threads - {t};
      assert |(threads - {u}).Keys| < |threads.Keys| && |(threads - {t}).Keys| < |threads.Keys| by {
        assert (threads - {u}).Keys == threads.Keys - {u} && (threads - {t}).Keys == threads.Keys - {t};
      }
      TotalWithout(threads - {u}, t);
      TotalWithout(threads - {t}, u);
      assert threads - {u} - {t} == threads - {t} - {u};
    }
  }

  lemma TotalUpdate(threads: map<Tid, Thread>, t: Tid, th: Thread)
    requires t in threads
    ensures TotalWeight(threads[t := th]) == TotalWeight(threads) - Weight(threads[t].phase) + Weight(th.phase)
  {
    TotalWithout(threads, t);
    TotalWithout(threads[t := th], t);
    assert threads[t := th] - {t} == threads - {t};
  }

  /** The step of thread `t` moved it, and only it, closer to its end. */
  ghost predicate Descends(s: State, s': State, t: Tid) {
    t in s.threads && t in s'.threads && s'.threads == s.threads[t := s'.threads[t]]
    && Weight(s'.threads[t].phase) < Weight(s.threads[t].phase)
  }

  lemma EnterDescends(cfg: Config, s: State, t: Tid)
    requires Runnable(s, t) && ThreadInv(s)
    requires var p := s.threads[t].phase; p.ExecEnter?
    ensures var next := Step(cfg, s, Advance(s.threads[t].phase, t)); next.Some? && Descends(s, next.value, t)
  {}

  lemma MakeDescends(cfg: Config, s: State, t: Tid)
    requires Runnable(s, t) && ThreadInv(s) && s.threads[t].phase.ExecCreate?
    ensures var next := Step(cfg, s, MakeContainer(t)); next.Some? && Descends(s, next.value, t)
  {
    assert MakeStep(s, t).value.threads == s.threads[t := s.threads[t].(phase := ExecStart, lease := s.next)];
  }

  lemma InsertDescends(cfg: Config, s: State, t: Tid)
    requires Runnable(s, t) && ThreadInv(s) && s.threads[t].phase.ExecStart?
    ensures var next := Step(cfg, s, CreateOk(t, true)); next.Some? && Descends(s, next.value, t)
  {
    assert CreateStep(s, t, true).value.threads == s.threads[t := s.threads[t].(phase := ExecSlot)];
  }

  lemma CreateDescends(cfg: Config, s: State, t: Tid)
    requires Runnable(s, t) && ThreadInv(s) && Creating(s.threads[t].phase)
    ensures var next := Step(cfg, s, Advance(s.threads[t].phase, t)); next.Some? && Descends(s, next.value, t)
  {
    if s.threads[t].phase.ExecCreate? {
      MakeDescends(cfg, s, t);
    } else {
      InsertDescends(cfg, s, t);
    }
  }

  lemma LockDescends(cfg: Config, s: State, t: Tid)
    requires Runnable(s, t) && ThreadInv(s)
    requires var p := s.threads[t].phase; p.ExecSlot? || p.ExecLease?
    ensures var next := Step(cfg, s, Advance(s.threads[t].phase, t)); next.Some? && Descends(s, next.value, t)
  {}

  lemma CallDescends(cfg: Config, s: State, t: Tid)
    requires Runnable(s, t) && ThreadInv(s)
    requires var p := s.threads[t].phase; p.Calling? || p.Unlocking? || p.FreeingSlot?
    ensures var next := Step(cfg, s, Advance(s.threads[t].phase, t)); next.Some? && Descends(s, next.value, t)
  {
    assert Consistent(s.threads[t]);
  }

  lemma DisposeDescends(cfg: Config, s: State, t: Tid)
    requires Runnable(s, t) && ThreadInv(s)
    requires var p := s.threads[t].phase; Disposing(p)
    ensures var next := Step(cfg, s, Advance(s.threads[t].phase, t)); next.Some? && Descends(s, next.value, t)
  {}

  lemma FreezeDescends(cfg: Config, s: State, t: Tid)
    requires Runnable(s, t) && ThreadInv(s)
    requires var p := s.threads[t].phase; p.FreezeLookup? || p.FreezeLease?
    ensures var next := Step(cfg, s, Advance(s.threads[t].phase, t)); next.Some? && Descends(s, next.value, t)
  {}

  lemma FrozenDescends(cfg: Config, s: State, t: Tid)
    requires Runnable(s, t) && ThreadInv(s)
    requires var p := s.threads[t].phase; p.FreezeKill? || p.FreezeSave?
    ensures var next := Step(cfg, s, Advance(s.threads[t].phase, t)); next.Some? && Descends(s, next.value, t)
  {}

  lemma AdvanceDescends(cfg: Config, s: State, t: Tid)
    requires Runnable(s, t) && ThreadInv(s)
    ensures var next := Step(cfg, s, Advance(s.threads[t].phase, t)); next.Some? && Descends(s, next.value, t)
  {
    var p := s.threads[t].phase;
    if p.ExecEnter? {
      EnterDescends(cfg, s, t);
    } else if Creating(p) {
      CreateDescends(cfg, s, t);
    } else if p.ExecSlot? || p.ExecLease? {
      LockDescends(cfg, s, t);
    } else if Disposing(p) {
      DisposeDescends(cfg, s, t);
    } else if p.FreezeLookup? || p.FreezeLease? {
      FreezeDescends(cfg, s, t);
    } else if p.FreezeKill? || p.FreezeSave? {
      FrozenDescends(cfg, s, t);
    } else {
      CallDescends(cfg, s, t);
    }
  }

  lemma DescendsTotal(s: State, s': State, t: Tid)
    requires Descends(s, s', t)
    ensures TotalWeight(s'.threads) < TotalWeight(s.threads)
  {
    TotalUpdate(s.threads, t, s'.threads[t]);
  }

  ghost predicate AllIdle(s: State) {
    forall t :: t in s.threads ==> s.threads[t].phase.Idle?
  }

  ghost predicate Quiescent(cfg: Config, s: State) {
    && AllIdle(s) && s.mutex.None? && s.free == cfg.maxConcurrent
    && (forall l :: l in s.heap ==> s.heap[l].holder.None?)
  }

  lemma NotAnyone(o: Option<Tid>)
    requires forall t :: o != Some(t)
    ensures o.None?
  {
    match o
    case None =>
    case Some(t) => assert false;
  }

  lemma IdleLocks(s: State)
    requires AllIdle(s) && ThreadInv(s) && LeaseLockInv(s)
    ensures forall l :: l in s.heap ==> s.heap[l].holder.None?
  {
    forall t | t in s.threads ensures s.threads[t].locked.None? {
      assert Consistent(s.threads[t]);
    }
    forall l | l in s.heap ensures s.heap[l].holder.None? {
      NotAnyone(s.heap[l].holder);
    }
  }

  lemma IdleSlots(cfg: Config, s: State)
    requires AllIdle(s) && ThreadInv(s) && SlotInv(cfg, s)
    ensures s.free == cfg.maxConcurrent
  {
    forall t | t in s.threads ensures !s.threads[t].slot {
      assert Consistent(s.threads[t]);
    }
    assert Where(s.threads, HoldsSlot) == {};
  }

  lemma IdleMutex(s: State)
    requires AllIdle(s) && MutexInv(s)
    ensures s.mutex.None?
  {
    NotAnyone(s.mutex);
  }

  lemma IdleQuiescent(cfg: Config, s: State)
    requires Inv(cfg, s) && AllIdle(s)
    ensures Quiescent(cfg, s)
  {
    IdleLocks(s);
    IdleSlots(cfg, s);
    IdleMutex(s);
  }

  /** The state after the given actions, if each of them was enabled. */
  ghost function After(cfg: Config, s: State, actions: seq<Action>): Option<State>
    decreases |actions|
  {
    if actions == [] then Some(s)
    else match Step(cfg, s, actions[0])
      case None => None
      case Some(s') => After(cfg, s', actions[1..])
  }

  /** Steps under way that neither fail nor time out. */
  predicate Succeeds(a: Action) {
    match a
    case CreateOk(_, saved) => saved
    case EngineDispose(_, removed, raised) => removed && !raised
    case PopAndSave(_, saved) => saved
    case Kill(_, raised) => !raised
    case SaveFrozen(_, saved) => saved
    case _ =>
      a.EnterTable? || a.MakeContainer? || a.GetSlot? || a.GetLease? || a.CallReturns? || a.Unlock? || a.FreeSlot?
              || a.LookupToDispose? || a.LookupToFreeze? || a.GetLeaseToFreeze?
  }

  lemma AdvanceSucceeds(phase: Phase, t: Tid)
    requires !phase.Idle?
    ensures Succeeds(Advance(phase, t))
  {}

  lemma DrainStep(cfg: Config, s: State) returns (a: Action)
    requires Inv(cfg, s) && cfg.maxConcurrent > 0
    requires !AllIdle(s)
    ensures Step(cfg, s, a).Some? && Inv(cfg, Step(cfg, s, a).value) && Succeeds(a)
    ensures TotalWeight(Step(cfg, s, a).value.threads) < TotalWeight(s.threads)
  {
    var t :| t in s.threads && !s.threads[t].phase.Idle?;
    var u := SomeoneRuns(cfg, s, t);
    a := Advance(s.threads[u].phase, u);
    AdvanceDescends(cfg, s, u);
    DescendsTotal(s, Step(cfg, s, a).value, u);
    StepKeeps(cfg, s, a);
    AdvanceSucceeds(s.threads[u].phase, u);
  }

  /** These steps, none of which fails, finish everything under way. */
  ghost predicate Drains(cfg: Config, s: State, actions: seq<Action>) {
    && After(cfg, s, actions).Some? && Quiescent(cfg, After(cfg, s, actions).value)
    && forall a :: a in actions ==> Succeeds(a)
  }

  lemma AfterFirst(cfg: Config, s: State, a: Action, rest: seq<Action>)
    requires Step(cfg, s, a).Some?
    ensures After(cfg, s, [a] + rest) == After(cfg, Step(cfg, s, a).value, rest)
  {
    assert ([a] + rest)[1..] == rest;
  }

  lemma DrainsCons(cfg: Config, s: State, a: Action, rest: seq<Action>)
    requires Step(cfg, s, a).Some? && Succeeds(a) && Drains(cfg, Step(cfg, s, a).value, rest)
    ensures Drains(cfg, s, [a] + rest)
  {
    AfterFirst(cfg, s, a, rest);
  }

  /**
   No deadlock: from every state a run can reach, the threads under way can all
   be finished without a timeout or a failure, and then every slot and lock is free.
  */
  lemma {:induction false} CanDrain(cfg: Config, s: State) returns (actions: seq<Action>)
    requires Inv(cfg, s) && cfg.maxConcurrent > 0
    ensures Drains(cfg, s, actions)
    decreases TotalWeight(s.threads)
  {
    if AllIdle(s) {
      IdleQuiescent(cfg, s);
      return [];
    }
    var a := DrainStep(cfg, s);
    var rest := CanDrain(cfg, Step(cfg, s, a).value);
    DrainsCons(cfg, s, a, rest);
    actions := [a] + rest;
  }
}
