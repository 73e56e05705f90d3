/**
 What the methods of the task-container manager do to its state when no other
 thread is about: the state after each of them and its answer, for every way the
 engine and the file system can fail; what that means for the caller; and how the
 single steps of the protocol add up to it.
*/
module TaskContainersCalls {
  import opened Common
  import opened TaskContainers
  import opened TaskContainersSafety
  import opened TaskContainersProperties

  // ---------------------------------------------------------------- answers

  datatype Refusal =
    | CapacityFull | DigestChanged | AlreadyFinalizing | CreateFailed | SaveFailed
    | QueueTimeout | CallFailed | CleanupFailed

  /**
   What works in `_create`: the calls up to the container, its start, its removal if
   the start fails; and the save after it.
  */
  datatype CreateScript = CreateScript(made: bool, started: bool, removed: bool, saved: bool)

  /** What works in a dispose: the removal of the container, that of the network, and the save. */
  datatype DisposeScript = DisposeScript(removed: bool, cleaned: bool, saved: bool)

  datatype CallScript = CallScript(inTime: bool, works: bool)

  /** How `_create` ends. */
  function CreateResult(c: CreateScript): Option<Refusal> {
    if !c.made || !c.started then Some(CreateFailed) else if !c.saved then Some(SaveFailed) else None
  }

  /** How the section under the table lock ends: None admits the call. */
  function Turned(d: Decision, c: CreateScript): Option<Refusal> {
    match d
    case Full => Some(CapacityFull)
    case WrongDigest => Some(DigestChanged)
    case Finalizing => Some(AlreadyFinalizing)
    case Create => if !c.made || !c.started then Some(CreateFailed) else if !c.saved then Some(SaveFailed) else None
    case Reuse => None
  }

  /** What can turn a call down, whoever interferes. */
  predicate TurnsDown(r: Option<Refusal>, c: CreateScript) {
    || r.None? || r == Some(CapacityFull) || r == Some(DigestChanged) || r == Some(AlreadyFinalizing)
    || (r == Some(CreateFailed) && !(c.made && c.started))
    || (r == Some(SaveFailed) && c.made && c.started && !c.saved)
  }

  /** How the clean-up of a lease ends. */
  function DisposeEnds(script: DisposeScript): Result<(), Refusal> {
    if !script.removed || !script.cleaned then Err(CleanupFailed)
    else if !script.saved then Err(SaveFailed)
    else Ok(())
  }

  /** What a call can answer, whoever interferes. */
  predicate CallAnswers(r: Result<(), Refusal>, call: CallScript, script: DisposeScript) {
    || (r.Ok? && call.inTime && call.works)
    || r == Err(QueueTimeout)
    || (r == Err(CallFailed) && !call.works)
    || (r.Err? && r == DisposeEnds(script) && !call.works)
  }

  // ---------------------------------------------------------------- whole methods

  function DecisionFor(cfg: Config, s: State, task: TaskId, digest: string): Decision {
    Decide(Found(s, task), |s.table|, cfg.capacity, digest)
  }

  function Waiter(task: TaskId, digest: string, l: nat): Thread {
    Thread(ExecSlot, task, digest, l, false, None)
  }

  /** The state after `_create` has made the container `s.next`. */
  function Created(s: State, me: Tid, task: TaskId, digest: string, c: CreateScript): State {
    if c.started then
      Go(Save(WithNewLease(s.(live := s.live + {s.next}, next := s.next + 1), task, digest, s.next), c.saved), me,
         if c.saved then Waiter(task, digest, s.next) else IDLE)
    else Go(s.(live := if c.removed then s.live else s.live + {s.next}, next := s.next + 1), me, IDLE)
  }

  /** The state after the section under the table lock. */
  function Admitted(cfg: Config, s: State, me: Tid, task: TaskId, digest: string, c: CreateScript): State {
    var d := DecisionFor(cfg, s, task, digest);
    if d.Reuse? && task in s.table then Go(s, me, Waiter(task, digest, s.table[task]))
    else if d.Create? && c.made then Created(s, me, task, digest, c)
    else Go(s, me, IDLE)
  }

  /** The engine, the table and the file after the clean-up of the lease `l` that was found for the task. */
  function Removed(s: State, task: TaskId, l: nat, script: DisposeScript): State {
    var left := s.(live := if script.removed then s.live - {l} else s.live);
    if script.removed && script.cleaned then Save(left.(table := s.table - {task}), script.saved) else left
  }

  /** The same after a dispose of the task. */
  function Disposed(s: State, task: TaskId, script: DisposeScript): State {
    if task in s.table then Removed(s, task, s.table[task], script) else s
  }

  function DisposeResult(s: State, task: TaskId, script: DisposeScript): Result<(), Refusal> {
    if task in s.table then DisposeEnds(script) else Ok(())
  }

  function UseResult(s: State, task: TaskId, works: bool, script: DisposeScript): Result<(), Refusal> {
    if works then Ok(())
    else if DisposeResult(s, task, script).Err? then DisposeResult(s, task, script)
    else Err(CallFailed)
  }

  /** The state after a call that waits for a slot; what its failure disposes is what the table has for its task. */
  function Called(s: State, me: Tid, task: TaskId, call: CallScript, script: DisposeScript): State {
    if !call.inTime || s.free == 0 || call.works then Go(s, me, IDLE)
    else Go(Disposed(s, task, script), me, IDLE)
  }

  function CallResult(s: State, task: TaskId, call: CallScript, script: DisposeScript): Result<(), Refusal> {
    if !call.inTime || s.free == 0 then Err(QueueTimeout) else UseResult(s, task, call.works, script)
  }

  function Executed(cfg: Config, s: State, me: Tid, task: TaskId, digest: string, c: CreateScript, call: CallScript,
                    script: DisposeScript): State {
    var admitted := Admitted(cfg, s, me, task, digest, c);
    if Turned(DecisionFor(cfg, s, task, digest), c).Some? then admitted else Called(admitted, me, task, call, script)
  }

  /** What a whole call answers, and the state after it. */
  function ExecuteResult(cfg: Config, s: State, me: Tid, task: TaskId, digest: string, c: CreateScript,
      call: CallScript,
                         script: DisposeScript): Result<(), Refusal> {
    var turned := Turned(DecisionFor(cfg, s, task, digest), c);
    if turned.Some? then Err(turned.value) else CallResult(Admitted(cfg, s, me, task, digest, c), task, call, script)
  }

  /** The state after a freeze. */
  function Frozen(s: State, me: Tid, task: TaskId, killWorks: bool, saved: bool): State {
    if task in s.table && s.table[task] in s.heap && killWorks then
      Go(Save(SetFrozen(s, s.table[task]), saved), me, IDLE)
    else Go(s, me, IDLE)
  }

  function FreezeResult(s: State, task: TaskId, works: bool, saved: bool): Result<(), Refusal> {
    if task !in s.table || (works && saved) then Ok(()) else if !works then Err(CleanupFailed) else Err(SaveFailed)
  }

  predicate LeaseFree(s: State, l: nat) {
    l in s.heap && s.heap[l].holder.None?
  }

  /** The lock of the task's lease is free, if it has one. */
  predicate LockFree(s: State, task: TaskId) {
    task in s.table && s.table[task] in s.heap ==> s.heap[s.table[task]].holder.None?
  }

  // ---------------------------------------------------------------- what a call leaves behind

  lemma TableKnown(cfg: Config, s: State)
    requires Reachable(cfg, s)
    ensures forall task :: task in s.table ==> s.table[task] in s.heap
  {
    ReachableInv(cfg, s);
  }

  lemma GoGo(s: State, me: Tid, a: Thread, b: Thread)
    ensures Go(Go(s, me, a), me, b) == Go(s, me, b)
  {
    assert s.threads[me := a][me := b] == s.threads[me := b];
  }

  /** The lease file is the lease table. */
  ghost predicate Synced(s: State) {
    s.stored == Snapshot(s.table, s.heap)
  }

  lemma DisposedSynced(s: State, task: TaskId, script: DisposeScript)
    requires Synced(s) && script.saved
    ensures Synced(Disposed(s, task, script))
  {}

  lemma AdmittedSynced(cfg: Config, s: State, me: Tid, task: TaskId, digest: string, c: CreateScript)
    requires Synced(s) && c.saved
    ensures Synced(Admitted(cfg, s, me, task, digest, c))
  {}

  /** A saved table stays saved through a whole call, unless a save fails. */
  lemma ExecuteSynced(cfg: Config, s: State, me: Tid, task: TaskId, digest: string, c: CreateScript, call: CallScript,
                      script: DisposeScript)
    requires Synced(s) && c.saved && script.saved
    ensures Synced(Executed(cfg, s, me, task, digest, c, call, script))
  {
    AdmittedSynced(cfg, s, me, task, digest, c);
    DisposedSynced(Admitted(cfg, s, me, task, digest, c), task, script);
  }

  /** An admitted call has a thawed lease of its digest under its task; the other tasks keep theirs. */
  lemma AdmittedUses(cfg: Config, s: State, me: Tid, task: TaskId, digest: string, c: CreateScript)
    requires Turned(DecisionFor(cfg, s, task, digest), c).None? && (task in s.table ==> s.table[task] in s.heap)
    ensures var s' := Admitted(cfg, s, me, task, digest, c);
      && task in s'.table && s'.table[task] in s'.heap
      && s'.heap[s'.table[task]].digest == digest && !s'.heap[s'.table[task]].frozen
      && s'.free == s.free && s'.table - {task} == s.table - {task}
      && (if task in s.table then s' == Go(s, me, Waiter(task, digest, s.table[task])) else s'.table[task] == s.next)
  {
    if task !in s.table {
      assert s.table[task := s.next] - {task} == s.table - {task};
    }
  }

  /** So has a call that ran, and if the task had its lease before nothing at all has changed. */
  lemma ExecuteUses(cfg: Config, s: State, me: Tid, task: TaskId, digest: string, c: CreateScript, call: CallScript,
                    script: DisposeScript)
    requires Reachable(cfg, s) && ExecuteResult(cfg, s, me, task, digest, c, call, script).Ok?
    ensures var s' := Executed(cfg, s, me, task, digest, c, call, script);
      && task in s'.table && s'.table[task] in s'.heap
      && s'.heap[s'.table[task]].digest == digest && !s'.heap[s'.table[task]].frozen
      && s'.free == s.free && s'.table - {task} == s.table - {task}
      && (task in s.table ==> s' == Go(s, me, IDLE))
  {
    TableKnown(cfg, s);
    AdmittedUses(cfg, s, me, task, digest, c);
    if task in s.table {
      GoGo(s, me, Waiter(task, digest, s.table[task]), IDLE);
    }
  }

  /**
   A refused call leaves everything as it was, but for the container of a failed start
   that could not be removed, and the lease whose table could not be saved.
  */
  lemma ExecuteRefuses(cfg: Config, s: State, me: Tid, task: TaskId, digest: string, c: CreateScript, call: CallScript,
                       script: DisposeScript)
    requires Turned(DecisionFor(cfg, s, task, digest), c).Some?
    ensures var s', refusal := Executed(cfg, s, me, task, digest, c, call, script),
                                Turned(DecisionFor(cfg, s, task, digest), c).value;
      && ExecuteResult(cfg, s, me, task, digest, c, call, script) == Err(refusal)
      && s'.stored == s.stored && s'.free == s.free && s'.threads == s.threads[me := IDLE]
      && s'.table == (if refusal == SaveFailed then s.table[task := s.next] else s.table)
      && s'.live == (if refusal == SaveFailed || (refusal == CreateFailed && c.made && !c.removed)
                     then s.live + {s.next} else s.live)
  {}

  lemma DisposedTable(s: State, task: TaskId, script: DisposeScript)
    requires script.removed && script.cleaned
    ensures Disposed(s, task, script).table == s.table - {task}
  {
    if task !in s.table {
      assert s.table - {task} == s.table;
    }
  }

  /** After a failed call whose clean-up worked the task has no lease, whether it had one before or not. */
  lemma ExecuteFails(cfg: Config, s: State, me: Tid, task: TaskId, digest: string, c: CreateScript, call: CallScript,
                     script: DisposeScript)
    requires Reachable(cfg, s) && script.removed && script.cleaned
    requires ExecuteResult(cfg, s, me, task, digest, c, call, script) == Err(CallFailed)
    ensures Executed(cfg, s, me, task, digest, c, call, script).table == s.table - {task}
  {
    TableKnown(cfg, s);
    AdmittedUses(cfg, s, me, task, digest, c);
    DisposedTable(Admitted(cfg, s, me, task, digest, c), task, script);
  }

  // ---------------------------------------------------------------- the steps of execute up to the slots

  /** The thread after the section under the table lock has decided. */
  function Entered(s: State, th: Thread, d: Decision): Thread {
    if d.Reuse? && th.task in s.table then th.(phase := ExecSlot, lease := s.table[th.task])
    else if d.Create? then th.(phase := ExecCreate)
    else IDLE
  }

  /** A thread with this decision, and with the lease `l` if the decision is to use one. */
  function EnteredAt(th: Thread, d: Decision, l: nat): Thread {
    match d
    case Reuse => th.(phase := ExecSlot, lease := l)
    case Create => th.(phase := ExecCreate)
    case _ => IDLE
  }

  function EnteredState(cfg: Config, s: State, me: Tid): State {
    var th := ThreadOf(s, me);
    var d := DecisionFor(cfg, s, th.task, th.digest);
    Go(s, me, Entered(s, th, d)).(mutex := if d.Create? then Some(me) else None)
  }

  ghost predicate EnterEnds(cfg: Config, s: State, me: Tid, s': State, d: Decision) {
    s' == EnteredState(cfg, s, me) && d == DecisionFor(cfg, s, ThreadOf(s, me).task, ThreadOf(s, me).digest)
  }

  lemma EnteredThread(cfg: Config, s: State, me: Tid, s': State, d: Decision)
    requires EnterEnds(cfg, s, me, s', d)
    ensures ThreadOf(s', me) == EnteredAt(ThreadOf(s, me), d, ThreadOf(s', me).lease)
  {}

  /** The state after `_create` and the save. */
  function CreateEnds(s: State, me: Tid, c: CreateScript): State {
    var unlocked := s.(mutex := None);
    if c.made then Created(unlocked, me, ThreadOf(s, me).task, ThreadOf(s, me).digest, c) else Go(unlocked, me, IDLE)
  }

  /** The second half of `_create`: the start of the container, and the save or the clean-up. */
  function StartEnds(s: State, me: Tid, c: CreateScript): Option<State> {
    if c.started then CreateStep(s, me, c.saved) else CreateFailsStep(s, me, c.removed)
  }

  lemma CreateSteps(s: State, me: Tid, c: CreateScript)
    requires ThreadOf(s, me) == IDLE.(phase := ExecCreate, task := ThreadOf(s, me).task,
                                      digest := ThreadOf(s, me).digest)
    requires c.made && s.next !in s.live
    ensures StartEnds(MakeStep(s, me).value, me, c) == Some(CreateEnds(s, me, c))
  {
    var s1, r := MakeStep(s, me).value, CreateEnds(s, me, c);
    assert StartEnds(s1, me, c).value.threads == r.threads;
    assert StartEnds(s1, me, c).value.live == r.live;
  }

  /** The state after the section under the table lock, for a thread that waits to enter it. */
  function Visited(cfg: Config, s: State, me: Tid, c: CreateScript): State {
    var d := DecisionFor(cfg, s, ThreadOf(s, me).task, ThreadOf(s, me).digest);
    if d.Create? then CreateEnds(EnteredState(cfg, s, me), me, c) else EnteredState(cfg, s, me)
  }

  ghost predicate VisitEnds(cfg: Config, s: State, me: Tid, c: CreateScript, s': State, r: Option<Refusal>) {
    s' == Visited(cfg, s, me, c) && r == Turned(DecisionFor(cfg, s, ThreadOf(s, me).task, ThreadOf(s, me).digest), c)
  }

  lemma CreatedGo(s: State, me: Tid, x: Thread, task: TaskId, digest: string, c: CreateScript)
    ensures Created(Go(s, me, x), me, task, digest, c) == Created(s, me, task, digest, c)
  {
    var y, z := Waiter(task, digest, s.next), IDLE;
    assert s.threads[me := x][me := y] == s.threads[me := y];
    assert s.threads[me := x][me := z] == s.threads[me := z];
  }

  lemma AdmittedEnd(cfg: Config, s: State, me: Tid, task: TaskId, digest: string, c: CreateScript)
    requires s.mutex.None?
    ensures var started := Go(s, me, IDLE.(phase := ExecEnter, task := task, digest := digest));
      && DecisionFor(cfg, started, task, digest) == DecisionFor(cfg, s, task, digest)
      && Visited(cfg, started, me, c) == Admitted(cfg, s, me, task, digest, c)
  {
    var th := IDLE.(phase := ExecEnter, task := task, digest := digest);
    var started, d := Go(s, me, th), DecisionFor(cfg, s, task, digest);
    var entered := Entered(started, th, d);
    assert EnteredState(cfg, started, me).(mutex := None) == Go(s, me, entered) by {
      GoGo(s, me, th, entered);
    }
    if d.Create? {
      CreatedGo(s, me, entered, task, digest, c);
      GoGo(s, me, entered, IDLE);
    }
  }

  lemma AdmittedFree(cfg: Config, s: State, me: Tid, task: TaskId, digest: string, c: CreateScript)
    requires LockFree(s, task) && s.mutex.None? && Turned(DecisionFor(cfg, s, task, digest), c).None?
    ensures var admitted := Admitted(cfg, s, me, task, digest, c);
      admitted.mutex.None? && LeaseFree(admitted, ThreadOf(admitted, me).lease)
      && ThreadOf(admitted, me) == Waiter(task, digest, ThreadOf(admitted, me).lease)
  {}

  // ---------------------------------------------------------------- the steps of dispose

  /** The engine calls of a dispose are over. */
  function EngineDone(s: State, me: Tid, removed: bool, cleaned: bool): State {
    var th := ThreadOf(s, me);
    Go(s.(live := if removed then s.live - {th.lease} else s.live), me,
       if removed && cleaned then th.(phase := DisposePop) else AfterDispose(th))
  }

  /** The pop of a dispose is over, and its save. */
  function Popped(s: State, me: Tid, saved: bool): State {
    var th := ThreadOf(s, me);
    Go(Save(s.(table := s.table - {th.task}), saved), me, AfterDispose(th))
  }

  lemma CleanStepsEnd(s: State, me: Tid, script: DisposeScript)
    ensures var th := ThreadOf(s, me); var done := EngineDone(s, me, script.removed, script.cleaned);
      Go(Removed(s, th.task, th.lease, script), me, AfterDispose(th))
      == if script.removed && script.cleaned then Popped(done, me, script.saved) else done
  {
    var th := ThreadOf(s, me);
    if script.removed && script.cleaned {
      assert s.threads[me := th.(phase := DisposePop)][me := AfterDispose(th)] == s.threads[me := AfterDispose(th)];
    }
  }

  function LookedUp(s: State, me: Tid): State {
    var th := ThreadOf(s, me);
    Go(s, me, if th.task in s.table then th.(phase := DisposeEngine, lease := s.table[th.task]) else AfterDispose(th))
  }

  /** The state after the body of a dispose; the thread keeps the number of the lease it found. */
  function CleanedUp(s: State, me: Tid, script: DisposeScript): State {
    var th := ThreadOf(s, me);
    Go(Disposed(s, th.task, script), me,
       AfterDispose(if th.task in s.table then th.(lease := s.table[th.task]) else th))
  }

  lemma RemovedGo(s: State, me: Tid, a: Thread, b: Thread, task: TaskId, l: nat, script: DisposeScript)
    ensures Go(Removed(Go(s, me, a), task, l, script), me, b) == Go(Removed(s, task, l, script), me, b)
  {
    assert s.threads[me := a][me := b] == s.threads[me := b];
  }

  lemma CleanUpEnd(s: State, me: Tid, script: DisposeScript)
    ensures var th := ThreadOf(s, me); var looked := LookedUp(s, me);
      if th.task in s.table
      then CleanedUp(s, me, script)
           == Go(Removed(looked, th.task, s.table[th.task], script), me,
                 AfterDispose(th.(phase := DisposeEngine, lease := s.table[th.task])))
      else CleanedUp(s, me, script) == looked
  {
    var th := ThreadOf(s, me);
    if th.task in s.table {
      var looked := th.(phase := DisposeEngine, lease := s.table[th.task]);
      RemovedGo(s, me, looked, AfterDispose(looked), th.task, s.table[th.task], script);
    }
  }

  lemma StartedCleanUp(s: State, me: Tid, task: TaskId, script: DisposeScript)
    ensures CleanedUp(Go(s, me, IDLE.(phase := DisposeLookup, task := task)), me, script)
         == Go(Disposed(s, task, script), me, IDLE)
  {
    var th := IDLE.(phase := DisposeLookup, task := task);
    if task in s.table {
      RemovedGo(s, me, th, IDLE, task, s.table[task], script);
    } else {
      GoGo(s, me, th, IDLE);
    }
  }

  // ---------------------------------------------------------------- the steps of a call

  /** What a thread knows of its own lease and locks. */
  lemma OwnLease(cfg: Config, s: State, t: Tid)
    requires Reachable(cfg, s)
    ensures var th := ThreadOf(s, t);
      && Consistent(th) && (th.locked.Some? ==> th.locked.value in s.heap)
      && (UsesLease(th.phase) ==> th.lease in s.heap)
      && (th.phase.ExecStart? ==> th.lease !in s.heap)
  {
    ReachableInv(cfg, s);
  }

  /** The thread has a slot. */
  function SlotTaken(s: State, me: Tid): State
    requires s.free > 0
  {
    Go(s, me, ThreadOf(s, me).(phase := ExecLease, slot := true)).(free := s.free - 1)
  }

  function WithLock(th: Thread): Thread {
    th.(phase := if th.phase.ExecLease? then Calling else FreezeKill, locked := Some(th.lease))
  }

  /** The thread has the lock it waited for. */
  function LockTaken(s: State, me: Tid): State
    requires ThreadOf(s, me).lease in s.heap
  {
    var th := ThreadOf(s, me);
    Go(SetHolder(s, th.lease, Some(me)), me, WithLock(th))
  }

  lemma FreeRunnable(s: State, me: Tid)
    requires (ThreadOf(s, me).phase.ExecLease? || ThreadOf(s, me).phase.FreezeLease?)
    requires LeaseFree(s, ThreadOf(s, me).lease)
    ensures Runnable(s, me)
  {}

  /** The state after the use of the container, with the slot and the lock still taken. */
  function Used(s: State, me: Tid, works: bool, script: DisposeScript): State {
    var th := ThreadOf(s, me);
    if works then Go(s, me, th.(phase := Unlocking))
    else Go(Disposed(s, th.task, script), me,
            th.(phase := Unlocking, lease := if th.task in s.table then s.table[th.task] else th.lease))
  }

  lemma UsedEnd(s: State, me: Tid, works: bool, script: DisposeScript)
    requires ThreadOf(s, me).slot
    ensures var failed := Go(s, me, ThreadOf(s, me).(phase := DisposeLookup));
      && (!works ==> CleanedUp(failed, me, script) == Used(s, me, works, script))
      && DisposeResult(failed, ThreadOf(s, me).task, script) == DisposeResult(s, ThreadOf(s, me).task, script)
  {
    var th := ThreadOf(s, me);
    var failing := th.(phase := DisposeLookup);
    if th.task in s.table {
      RemovedGo(s, me, failing, th.(phase := Unlocking, lease := s.table[th.task]), th.task, s.table[th.task], script);
    } else {
      GoGo(s, me, failing, th.(phase := Unlocking));
    }
  }

  function LockGiven(s: State, me: Tid): State
    requires ThreadOf(s, me).locked.Some? && ThreadOf(s, me).locked.value in s.heap
  {
    Go(SetHolder(s, ThreadOf(s, me).locked.value, None), me, ThreadOf(s, me).(phase := FreeingSlot, locked := None))
  }

  function GivenBack(s: State, me: Tid): State
    requires ThreadOf(s, me).locked.Some? && ThreadOf(s, me).locked.value in s.heap
  {
    Go(SetHolder(s, ThreadOf(s, me).locked.value, None), me, IDLE).(free := s.free + 1)
  }

  lemma GivenBackEnd(cfg: Config, s: State, me: Tid)
    requires Reachable(cfg, s) && ThreadOf(s, me).phase.Unlocking?
    ensures ThreadOf(s, me).locked.Some? && ThreadOf(s, me).locked.value in s.heap
    ensures var unlocked := LockGiven(s, me); Go(unlocked, me, IDLE).(free := unlocked.free + 1) == GivenBack(s, me)
  {
    OwnLease(cfg, s, me);
    assert LockGiven(s, me).threads[me := IDLE] == s.threads[me := IDLE];
  }

  /** From the state with the lock taken, the container is used, and lock and slot are given back. */
  ghost predicate LockedEnds(s: State, me: Tid, works: bool, script: DisposeScript, s': State, r: Result<(), Refusal>) {
    var used := Used(s, me, works, script);
    && ThreadOf(used, me).locked.Some? && ThreadOf(used, me).locked.value in used.heap
    && s' == GivenBack(used, me) && r == UseResult(s, ThreadOf(s, me).task, works, script)
  }

  ghost predicate WithSlotEnds(s: State, me: Tid, works: bool, script: DisposeScript, s': State, r: Result<(),
      Refusal>) {
    ThreadOf(s, me).lease in s.heap && LockedEnds(LockTaken(s, me), me, works, script, s', r)
  }

  /** The lock of a lease, the slots and the threads make no difference to a dispose. */
  lemma LockedDisposed(s: State, l: nat, holder: Option<Tid>, free: nat, threads: map<Tid, Thread>, task: TaskId,
      script: DisposeScript)
    requires l in s.heap
    ensures var heap := s.heap[l := s.heap[l].(holder := holder)];
      Disposed(s.(heap := heap, free := free, threads := threads), task, script)
      == Disposed(s, task, script).(heap := heap, free := free, threads := threads)
  {
    SnapshotIgnoresHolder(s.table - {task}, s.heap, l, holder);
  }

  /** The thread has its slot and the lock of its lease. */
  function Under(s: State, me: Tid): State
    requires s.free > 0 && ThreadOf(s, me).lease in s.heap
  {
    LockTaken(SlotTaken(s, me), me)
  }

  function Holding(th: Thread): Thread {
    th.(phase := Calling, slot := true, locked := Some(th.lease))
  }

  lemma UnderShape(s: State, me: Tid)
    requires s.free > 0 && LeaseFree(s, ThreadOf(s, me).lease)
    ensures var th := ThreadOf(s, me);
      Under(s, me) == s.(heap := s.heap[th.lease := s.heap[th.lease].(holder := Some(me))], free := s.free - 1,
                         threads := s.threads[me := Holding(th)])
  {
    assert SlotTaken(s, me).threads[me := Holding(ThreadOf(s, me))] == s.threads[me := Holding(ThreadOf(s, me))];
  }

  lemma BackAgain(s: State, me: Tid, l: nat, th: Thread, held: State, x: Thread)
    requires LeaseFree(s, l) && x.locked == Some(l)
    requires held.heap == s.heap[l := s.heap[l].(holder := Some(me))] && held.threads == s.threads[me := th][me := x]
    ensures ThreadOf(held, me) == x && l in held.heap
    ensures GivenBack(held, me) == held.(heap := s.heap, free := held.free + 1, threads := s.threads[me := IDLE])
  {
    assert held.heap[l := held.heap[l].(holder := None)] == s.heap;
    assert held.threads[me := IDLE] == s.threads[me := IDLE];
  }

  lemma WorkedEnd(s: State, me: Tid, script: DisposeScript)
    requires s.free > 0 && LeaseFree(s, ThreadOf(s, me).lease)
    ensures var used := Used(Under(s, me), me, true, script);
      && ThreadOf(used, me).locked.Some? && ThreadOf(used, me).locked.value in used.heap
      && GivenBack(used, me) == Go(s, me, IDLE)
  {
    var th := ThreadOf(s, me);
    UnderShape(s, me);
    BackAgain(s, me, th.lease, Holding(th), Used(Under(s, me), me, true, script), Holding(th).(phase := Unlocking));
  }

  lemma FailedEnd(s: State, me: Tid, script: DisposeScript)
    requires s.free > 0 && LeaseFree(s, ThreadOf(s, me).lease)
    ensures var used := Used(Under(s, me), me, false, script);
      && ThreadOf(used, me).locked.Some? && ThreadOf(used, me).locked.value in used.heap
      && GivenBack(used, me) == Go(Disposed(s, ThreadOf(s, me).task, script), me, IDLE)
  {
    var th := ThreadOf(s, me);
    UnderShape(s, me);
    LockedDisposed(s, th.lease, Some(me), s.free - 1, s.threads[me := Holding(th)], th.task, script);
    var used := Used(Under(s, me), me, false, script);
    BackAgain(s, me, th.lease, Holding(th), used, ThreadOf(used, me));
  }

  /** Taking a slot and a lock, using the container, and giving both back. */
  lemma CalledEnd(s: State, me: Tid, call: CallScript, script: DisposeScript)
    requires s.free > 0 && LeaseFree(s, ThreadOf(s, me).lease) && call.inTime
    ensures var task := ThreadOf(s, me).task; var used := Used(Under(s, me), me, call.works, script);
      && ThreadOf(used, me).locked.Some? && ThreadOf(used, me).locked.value in used.heap
      && GivenBack(used, me) == Called(s, me, task, call, script)
      && UseResult(Under(s, me), task, call.works, script) == CallResult(s, task, call, script)
  {
    if call.works {
      WorkedEnd(s, me, script);
    } else {
      FailedEnd(s, me, script);
    }
  }

  // ---------------------------------------------------------------- the steps of freeze

  /** The freeze is over: the table is saved or not, and the lock of the lease is given back. */
  function FreezeSaved(s: State, me: Tid, saved: bool): State
    requires ThreadOf(s, me).lease in s.heap
  {
    SetHolder(s, ThreadOf(s, me).lease, None).(
      stored := if saved then Snapshot(s.table, s.heap)
        else s.stored, saveFailed := !saved, threads := s.threads[me := IDLE])
  }

  /** The kill of a freeze has worked, and the lease is frozen; or it has raised, and the lock is given back. */
  function KillDone(s: State, me: Tid, works: bool): State
    requires ThreadOf(s, me).lease in s.heap
  {
    var th := ThreadOf(s, me);
    if works then Go(SetFrozen(s, th.lease), me, th.(phase := FreezeSave))
      else Go(SetHolder(s, th.lease, None), me, IDLE)
  }

  /** The rest of a freeze that has the lock of its lease. */
  function FreezeEnds(s: State, me: Tid, works: bool, saved: bool): State
    requires ThreadOf(s, me).lease in s.heap
  {
    if works then FreezeSaved(KillDone(s, me, works), me, saved) else KillDone(s, me, works)
  }

  function FreezeFound(s: State, me: Tid): State {
    var th := ThreadOf(s, me);
    Go(s, me, if th.task in s.table then th.(phase := FreezeLease, lease := s.table[th.task]) else IDLE)
  }

  function LookingToFreeze(task: TaskId): Thread {
    IDLE.(phase := FreezeLookup, task := task)
  }

  lemma FrozenHeap(heap: map<nat, Lease>, table: map<TaskId, nat>, l: nat, me: Tid)
    requires l in heap && heap[l].holder.None?
    ensures var frozen := heap[l := heap[l].(frozen := true)];
      var locked := heap[l := heap[l].(holder := Some(me))];
      var held := locked[l := locked[l].(frozen := true)];
      held[l := held[l].(holder := None)] == frozen && Snapshot(table, held) == Snapshot(table, frozen)
  {
    var frozen := heap[l := heap[l].(frozen := true)];
    assert Snapshot(table, frozen[l := frozen[l].(holder := Some(me))]) == Snapshot(table, frozen) by {
      SnapshotIgnoresHolder(table, frozen, l, Some(me));
    }
    var locked := heap[l := heap[l].(holder := Some(me))];
    assert locked[l := locked[l].(frozen := true)] == frozen[l := frozen[l].(holder := Some(me))];
  }

  lemma FrozenFromFound(s: State, me: Tid, task: TaskId, works: bool, saved: bool)
    requires task in s.table && LeaseFree(s, s.table[task])
    ensures var found := Go(s, me, Thread(FreezeLease, task, "", s.table[task], false, None));
      FreezeEnds(LockTaken(found, me), me, works, saved) == Frozen(s, me, task, works, saved)
  {
    var l := s.table[task];
    var found := Go(s, me, Thread(FreezeLease, task, "", l, false, None));
    var killing := Thread(FreezeKill, task, "", l, false, Some(l));
    assert found.threads[me := killing] == s.threads[me := killing];
    assert s.threads[me := killing][me := IDLE] == s.threads[me := IDLE];
    if works {
      FrozenHeap(s.heap, s.table, l, me);
      assert s.threads[me := killing][me := killing.(phase := FreezeSave)][me := IDLE] == s.threads[me := IDLE];
    } else {
      assert s.heap[l := s.heap[l].(holder := Some(me))][l := s.heap[l]] == s.heap;
    }
  }

  /** Looking up, locking, killing and saving in a row. */
  lemma FrozenEnd(s: State, me: Tid, task: TaskId, works: bool, saved: bool)
    requires task in s.table && LeaseFree(s, s.table[task])
    ensures var found := FreezeFound(Go(s, me, LookingToFreeze(task)), me);
      && ThreadOf(found, me).phase.FreezeLease? && LeaseFree(found, ThreadOf(found, me).lease)
      && FreezeEnds(LockTaken(found, me), me, works, saved) == Frozen(s, me, task, works, saved)
  {
    var l := s.table[task];
    var looking, finding := LookingToFreeze(task), Thread(FreezeLease, task, "", s.table[task], false, None);
    var found := FreezeFound(Go(s, me, looking), me);
    GoGo(s, me, looking, finding);
    assert found == Go(s, me, finding);
    FrozenFromFound(s, me, task, works, saved);
  }
}
