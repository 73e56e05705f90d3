/**
 Script containers shared by the calls of one assistant turn
 (services/sandbox-manager/app/task_containers.py), as the interleaving of any
 number of threads running execute, dispose and freeze, with restarts of the
 manager in between. One step is what a thread does between two points where
 another thread can run: taking or giving back a lock or a slot, one visit to
 the lease table, or one engine call.
*/
module TaskContainers {
  import opened Common

  type Tid = nat
  type TaskId = string

  /** A lease object. Its number also names the container made for it. */
  datatype Lease = Lease(digest: string, frozen: bool, holder: Option<Tid>)

  /** The stored form of a lease. */
  datatype Row = Row(container: nat, digest: string, frozen: bool)

  datatype Phase =
    | Idle
    | ExecEnter | ExecCreate | ExecStart | ExecSlot | ExecLease | Calling | Unlocking | FreeingSlot
    | DisposeLookup | DisposeEngine | DisposePop
    | FreezeLookup | FreezeLease | FreezeKill | FreezeSave

  /**
   A thread: where it is, its local variables, and the `with` blocks it is in.
   A dispose that runs with `slot` set was called by a failed call.
  */
  datatype Thread = Thread(
    phase: Phase,
    task: TaskId,
    digest: string,
    lease: nat,               // the lease object the running method looked up, or the container it is starting
    slot: bool,               // holds a permit of slots
    locked: Option<nat>)      // holds the lock of this lease

  const IDLE := Thread(Idle, "", "", 0, false, None)

  /** `loaded` is the number of rows in the lease file the manager starts from. */
  datatype Config = Config(capacity: nat, maxConcurrent: nat, loaded: nat)

  /** The capacity is only checked for new leases, so a longer file keeps its length. */
  function Bound(cfg: Config): nat {
    if cfg.loaded > cfg.capacity then cfg.loaded else cfg.capacity
  }

  datatype State = State(
    table: map<TaskId, nat>,      // _leases
    heap: map<nat, Lease>,        // every lease object made so far
    next: nat,                    // supply of fresh objects and containers
    mutex: Option<Tid>,           // _lock, when held across engine calls
    free: nat,                    // permits left in slots
    stored: map<TaskId, Row>,     // the lease file
    saveFailed: bool,             // the last save raised
    live: set<nat>,               // containers the engine has
    threads: map<Tid, Thread>)

  datatype Action =
    | StartExecute(t: Tid, task: TaskId, digest: string)
    | StartDispose(t: Tid, task: TaskId)
    | StartFreeze(t: Tid, task: TaskId)
    | EnterTable(t: Tid)
    | MakeContainer(t: Tid)
    | CreateOk(t: Tid, saved: bool)
    | CreateFails(t: Tid, removed: bool)
    | GetSlot(t: Tid)
    | SlotTimeout(t: Tid)
    | GetLease(t: Tid)
    | CallReturns(t: Tid)
    | CallRaises(t: Tid)
    | Unlock(t: Tid)
    | FreeSlot(t: Tid)
    | LookupToDispose(t: Tid)
    | EngineDispose(t: Tid, removed: bool, raised: bool)
    | PopAndSave(t: Tid, saved: bool)
    | LookupToFreeze(t: Tid)
    | GetLeaseToFreeze(t: Tid)
    | Kill(t: Tid, raised: bool)
    | SaveFrozen(t: Tid, saved: bool)
    | Restart(t: Tid, inspectable: set<nat>)

  function ThreadOf(s: State, t: Tid): Thread {
    if t in s.threads then s.threads[t] else IDLE
  }

  function Go(s: State, t: Tid, th: Thread): State {
    s.(threads := s.threads[t := th])
  }

  function HoldsSlot(th: Thread): bool {
    th.slot
  }

  predicate UsesLease(phase: Phase) {
    || phase.ExecSlot? || phase.ExecLease? || phase.Calling? || phase.DisposeEngine? || phase.DisposePop?
    || phase.FreezeLease? || phase.FreezeKill? || phase.FreezeSave?
  }

  /** Inside `_create`, under the table lock. */
  predicate Creating(phase: Phase) {
    phase.ExecCreate? || phase.ExecStart?
  }

  predicate Disposing(phase: Phase) {
    phase.DisposeLookup? || phase.DisposeEngine? || phase.DisposePop?
  }

  /** What a thread holds at each point of its method. */
  predicate Consistent(th: Thread) {
    match th.phase
    case ExecLease => th.slot && th.locked.None?
    case FreeingSlot => th.slot && th.locked.None?
    case Calling => th.slot && th.locked == Some(th.lease)
    case Unlocking => th.slot && th.locked.Some?
    case DisposeLookup => th.slot <==> th.locked.Some?
    case DisposeEngine => th.slot <==> th.locked.Some?
    case DisposePop => th.slot <==> th.locked.Some?
    case FreezeKill => !th.slot && th.locked == Some(th.lease)
    case FreezeSave => !th.slot && th.locked == Some(th.lease)
    case _ => !th.slot && th.locked.None?
  }

  // ---------------------------------------------------------------- the table

  datatype Decision = Full | Create | WrongDigest | Finalizing | Reuse

  /** What execute does with the lease it finds or does not find. */
  function Decide(found: Option<(string, bool)>, count: nat, capacity: nat, digest: string): Decision {
    match found
    case None => if count >= capacity then Full else Create
    case Some((d, frozen)) => if d != digest then WrongDigest else if frozen then Finalizing else Reuse
  }

  function Found(s: State, task: TaskId): Option<(string, bool)> {
    if task in s.table && s.table[task] in s.heap
    then Some((s.heap[s.table[task]].digest, s.heap[s.table[task]].frozen))
    else None
  }

  /** What a save writes. */
  function Snapshot(table: map<TaskId, nat>, heap: map<nat, Lease>): map<TaskId, Row> {
    map task | task in table && table[task] in heap
      :: Row(table[task], heap[table[task]].digest, heap[table[task]].frozen)
  }

  function Save(s: State, saved: bool): State {
    if saved then s.(stored := Snapshot(s.table, s.heap), saveFailed := false) else s.(saveFailed := true)
  }

  function SetHolder(s: State, l: nat, holder: Option<Tid>): State
    requires l in s.heap
  {
    s.(heap := s.heap[l := s.heap[l].(holder := holder)])
  }

  /** Where a thread goes when its dispose is over, whether it returned or raised. */
  function AfterDispose(th: Thread): Thread {
    if th.slot then th.(phase := Unlocking) else IDLE
  }

  // ---------------------------------------------------------------- steps

  function StartStep(s: State, t: Tid, th: Thread): Option<State> {
    if ThreadOf(s, t).phase.Idle? then Some(Go(s, t, th)) else None
  }

  function EnterStep(cfg: Config, s: State, t: Tid): Option<State> {
    var th := ThreadOf(s, t);
    if th.phase.ExecEnter? && s.mutex.None? then
      Some(match Decide(Found(s, th.task), |s.table|, cfg.capacity, th.digest)
           case Create => Go(s, t, th.(phase := ExecCreate)).(mutex := Some(t))
           case Reuse => Go(s, t, th.(phase := ExecSlot, lease := s.table[th.task]))
           case _ => Go(s, t, IDLE))
    else None
  }

  /** `engine.create` returns: the container is there, and only its maker knows. */
  function MakeStep(s: State, t: Tid): Option<State> {
    var th := ThreadOf(s, t);
    if th.phase.ExecCreate? then
      Some(Go(s, t, th.(phase := ExecStart, lease := s.next)).(live := s.live + {s.next}, next := s.next + 1))
    else None
  }

  /** The table and the heap once the started container `l` has its lease. */
  function WithNewLease(s: State, task: TaskId, digest: string, l: nat): State {
    s.(table := s.table[task := l], heap := s.heap[l := Lease(digest, false, None)])
  }

  function CreateStep(s: State, t: Tid, saved: bool): Option<State> {
    var th := ThreadOf(s, t);
    if th.phase.ExecStart? then
      Some(Go(Save(WithNewLease(s, th.task, th.digest, th.lease), saved).(mutex := None), t,
              if saved then th.(phase := ExecSlot) else IDLE))
    else None
  }

  /** Some engine call of `_create` raises; a container that was made is removed, unless that raises too. */
  function CreateFailsStep(s: State, t: Tid, removed: bool): Option<State> {
    var th := ThreadOf(s, t);
    if Creating(th.phase) then
      Some(Go(s, t, IDLE).(mutex := None,
                           live := if th.phase.ExecStart? && removed then s.live - {th.lease} else s.live))
    else None
  }

  function SlotStep(s: State, t: Tid): Option<State> {
    var th := ThreadOf(s, t);
    if th.phase.ExecSlot? && s.free > 0
    then Some(Go(s, t, th.(phase := ExecLease, slot := true)).(free := s.free - 1))
    else None
  }

  function TimeoutStep(s: State, t: Tid): Option<State> {
    if ThreadOf(s, t).phase.ExecSlot? then Some(Go(s, t, IDLE)) else None
  }

  function LeaseStep(s: State, t: Tid, from: Phase, to: Phase): Option<State> {
    var th := ThreadOf(s, t);
    if th.phase == from && th.lease in s.heap && s.heap[th.lease].holder.None? then
      Some(Go(SetHolder(s, th.lease, Some(t)), t, th.(phase := to, locked := Some(th.lease))))
    else None
  }

  function CallStep(s: State, t: Tid, raised: bool): Option<State> {
    var th := ThreadOf(s, t);
    if th.phase.Calling? then Some(Go(s, t, th.(phase := if raised then DisposeLookup else Unlocking))) else None
  }

  function UnlockStep(s: State, t: Tid): Option<State> {
    var th := ThreadOf(s, t);
    if th.phase.Unlocking? && th.locked.Some? && th.locked.value in s.heap
    then Some(Go(SetHolder(s, th.locked.value, None), t, th.(phase := FreeingSlot, locked := None)))
    else None
  }

  function FreeSlotStep(s: State, t: Tid): Option<State> {
    if ThreadOf(s, t).phase.FreeingSlot? then Some(Go(s, t, IDLE).(free := s.free + 1)) else None
  }

  function DisposeLookupStep(s: State, t: Tid): Option<State> {
    var th := ThreadOf(s, t);
    if th.phase.DisposeLookup? && s.mutex.None? then
      Some(Go(s, t, if th.task in s.table then th.(phase := DisposeEngine, lease := s.table[th.task])
                    else AfterDispose(th)))
    else None
  }

  /** Removal, disconnection and network removal, chained by `finally`: `raised` when any of them raised. */
  function EngineStep(s: State, t: Tid, removed: bool, raised: bool): Option<State> {
    var th := ThreadOf(s, t);
    if th.phase.DisposeEngine? && (removed || raised) then
      Some(Go(s.(live := if removed then s.live - {th.lease} else s.live), t,
              if raised then AfterDispose(th) else th.(phase := DisposePop)))
    else None
  }

  function PopStep(s: State, t: Tid, saved: bool): Option<State> {
    var th := ThreadOf(s, t);
    if th.phase.DisposePop? && s.mutex.None? then
      Some(Go(Save(s.(table := s.table - {th.task}), saved), t, AfterDispose(th)))
    else None
  }

  function FreezeLookupStep(s: State, t: Tid): Option<State> {
    var th := ThreadOf(s, t);
    if th.phase.FreezeLookup? && s.mutex.None? then
      Some(Go(s, t, if th.task in s.table then th.(phase := FreezeLease, lease := s.table[th.task]) else IDLE))
    else None
  }

  function SetFrozen(s: State, l: nat): State
    requires l in s.heap
  {
    s.(heap := s.heap[l := s.heap[l].(frozen := true)])
  }

  function KillStep(s: State, t: Tid, raised: bool): Option<State> {
    var th := ThreadOf(s, t);
    if th.phase.FreezeKill? && th.lease in s.heap then
      Some(if raised then Go(SetHolder(s, th.lease, None), t, IDLE)
           else Go(SetFrozen(s, th.lease), t, th.(phase := FreezeSave)))
    else None
  }

  function SaveFrozenStep(s: State, t: Tid, saved: bool): Option<State> {
    var th := ThreadOf(s, t);
    if th.phase.FreezeSave? && s.mutex.None? && th.lease in s.heap then
      Some(Go(SetHolder(Save(s, saved), th.lease, None), t, IDLE))
    else None
  }

  /** The stored rows whose container can be inspected. */
  function Kept(stored: map<TaskId, Row>, answering: set<nat>): map<TaskId, Row> {
    map task | task in stored && stored[task].container in answering :: stored[task]
  }

  function Containers(rows: map<TaskId, Row>): set<nat> {
    set task | task in rows :: rows[task].container
  }

  function LeaseFrom(row: Row): Lease {
    Lease(row.digest, row.frozen, None)
  }

  /** The row of a container. */
  ghost function RowOf(rows: map<TaskId, Row>, l: nat): (row: Row)
    requires l in Containers(rows)
    ensures exists task :: task in rows && rows[task] == row && row.container == l
  {
    var task :| task in rows && rows[task].container == l;
    rows[task]
  }

  /** `_restore` in a new process: a lease for each stored row whose container answers, saved again. */
  ghost function Restored(cfg: Config, s: State, inspectable: set<nat>): State {
    var kept := Kept(s.stored, inspectable * s.live);
    s.(table := map task | task in kept :: kept[task].container,
       heap := map l | l in Containers(kept) :: LeaseFrom(RowOf(kept, l)),
       mutex := None, free := cfg.maxConcurrent, stored := kept, saveFailed := false, threads := map[])
  }

  ghost function Step(cfg: Config, s: State, a: Action): Option<State> {
    if a.Restart? then Some(Restored(cfg, s, a.inspectable)) else Move(cfg, s, a)
  }

  function Move(cfg: Config, s: State, a: Action): Option<State>
    requires !a.Restart?
  {
    match a
    case StartExecute(t, task, digest) => StartStep(s, t, IDLE.(phase := ExecEnter, task := task, digest := digest))
    case StartDispose(t, task) => StartStep(s, t, IDLE.(phase := DisposeLookup, task := task))
    case StartFreeze(t, task) => StartStep(s, t, IDLE.(phase := FreezeLookup, task := task))
    case EnterTable(t) => EnterStep(cfg, s, t)
    case MakeContainer(t) => MakeStep(s, t)
    case CreateOk(t, saved) => CreateStep(s, t, saved)
    case CreateFails(t, removed) => CreateFailsStep(s, t, removed)
    case GetSlot(t) => SlotStep(s, t)
    case SlotTimeout(t) => TimeoutStep(s, t)
    case GetLease(t) => LeaseStep(s, t, ExecLease, Calling)
    case CallReturns(t) => CallStep(s, t, false)
    case CallRaises(t) => CallStep(s, t, true)
    case Unlock(t) => UnlockStep(s, t)
    case FreeSlot(t) => FreeSlotStep(s, t)
    case LookupToDispose(t) => DisposeLookupStep(s, t)
    case EngineDispose(t, removed, raised) => EngineStep(s, t, removed, raised)
    case PopAndSave(t, saved) => PopStep(s, t, saved)
    case LookupToFreeze(t) => FreezeLookupStep(s, t)
    case GetLeaseToFreeze(t) => LeaseStep(s, t, FreezeLease, FreezeKill)
    case Kill(t, raised) => KillStep(s, t, raised)
    case SaveFrozen(t, saved) => SaveFrozenStep(s, t, saved)
  }

  ghost predicate OneRowPerContainer(stored: map<TaskId, Row>) {
    forall a, b :: a in stored && b in stored && stored[a].container == stored[b].container ==> a == b
  }

  /** Identifiers issued from now on are new. */
  ghost predicate NewIdentifiers(stored: map<TaskId, Row>, live: set<nat>, next: nat) {
    && (forall task :: task in stored ==> stored[task].container < next)
    && (forall c :: c in live ==> c < next)
  }

  /** What a new process finds: the lease file and the engine. */
  function Blank(cfg: Config, stored: map<TaskId, Row>, live: set<nat>, next: nat): State {
    State(map[], map[], next, None, cfg.maxConcurrent, stored, false, live, map[])
  }

  datatype Origin = Origin(stored: map<TaskId, Row>, live: set<nat>, next: nat, inspectable: set<nat>)

  /** A manager that has just started, on any lease file with one row per container. */
  ghost predicate StartedFrom(cfg: Config, o: Origin, s: State) {
    && OneRowPerContainer(o.stored) && NewIdentifiers(o.stored, o.live, o.next) && |o.stored| <= cfg.loaded
    && s == Restored(cfg, Blank(cfg, o.stored, o.live, o.next), o.inspectable)
  }

  ghost predicate Started(cfg: Config, s: State) {
    exists o :: StartedFrom(cfg, o, s)
  }

  /** Every state a run of the manager passes through. */
  ghost predicate ManagerRun(cfg: Config, run: seq<State>, actions: seq<Action>) {
    && run != [] && Started(cfg, run[0])
    && IsRun(run[0], (s: State, a: Action) => Step(cfg, s, a), run, actions)
  }

  // ---------------------------------------------------------------- the invariant

  /** Locks and slots are held by exactly the threads that believe so. */
  ghost predicate MutexInv(s: State) {
    forall t :: t in s.threads && Creating(s.threads[t].phase) <==> s.mutex == Some(t)
  }

  ghost predicate LeaseLockInv(s: State) {
    forall l, t :: l in s.heap ==> (s.heap[l].holder == Some(t) <==> t in s.threads && s.threads[t].locked == Some(l))
  }

  ghost predicate SlotInv(cfg: Config, s: State) {
    s.free + |Where(s.threads, HoldsSlot)| == cfg.maxConcurrent
  }

  ghost predicate ThreadInv(s: State) {
    forall t :: t in s.threads ==>
      && Consistent(s.threads[t])
      && (s.threads[t].locked.Some? ==> s.threads[t].locked.value in s.heap)
      && (UsesLease(s.threads[t].phase) ==> s.threads[t].lease in s.heap)
  }

  ghost predicate HeapInv(s: State) {
    && (forall l :: l in s.heap ==> l < s.next)
    && (forall task :: task in s.table ==> s.table[task] in s.heap)
    && (forall c :: c in s.live ==> c < s.next)
    && (forall a, b :: a in s.table && b in s.table && s.table[a] == s.table[b] ==> a == b)
  }

  /** The container being started has no lease yet. */
  ghost predicate MakingInv(s: State) {
    forall t :: t in s.threads && s.threads[t].phase.ExecStart? ==>
      s.threads[t].lease < s.next && s.threads[t].lease !in s.heap
  }

  ghost predicate CapacityInv(cfg: Config, s: State) {
    && |s.table| <= Bound(cfg) && |s.stored| <= Bound(cfg)
    && (forall t :: t in s.threads && Creating(s.threads[t].phase) ==>
          s.threads[t].task !in s.table && |s.table| < cfg.capacity)
  }

  /** A thread that has frozen the lease and not saved it yet. */
  ghost predicate FreezePending(s: State, l: nat) {
    exists t :: t in s.threads && s.threads[t].phase.FreezeSave? && s.threads[t].lease == l
  }

  /** A stored row describes its lease; it can only lag behind by a freeze. */
  ghost predicate RowFits(heap: map<nat, Lease>, row: Row) {
    row.container in heap && row.digest == heap[row.container].digest && (row.frozen ==> heap[row.container].frozen)
  }

  ghost predicate RowsInv(s: State) {
    && (forall task :: task in s.stored ==> RowFits(s.heap, s.stored[task]))
    && OneRowPerContainer(s.stored)
  }

  /** The lease file is the lease table, up to freezes in progress. */
  ghost predicate StoredCurrent(s: State) {
    && s.stored.Keys == s.table.Keys
    && forall task :: task in s.table && s.table[task] in s.heap ==>
         && s.stored[task].container == s.table[task]
         && (s.stored[task].frozen == s.heap[s.table[task]].frozen || FreezePending(s, s.table[task]))
  }

  ghost predicate StoreInv(s: State) {
    RowsInv(s) && (!s.saveFailed ==> StoredCurrent(s))
  }

  ghost predicate Inv(cfg: Config, s: State) {
    && MutexInv(s) && LeaseLockInv(s) && SlotInv(cfg, s) && ThreadInv(s)
    && HeapInv(s) && MakingInv(s) && CapacityInv(cfg, s) && StoreInv(s)
  }
}
