/**
 What a call is answered (services/sandbox-manager/app/task_containers.py, execute),
 said of the lease table alone: when it reuses the lease of its task, when it makes
 one, and when it is refused.
*/
module TaskContainersAnswers {
  import opened Common
  import opened TaskContainers
  import opened TaskContainersSafety
  import opened TaskContainersProperties
  import opened TaskContainersCalls

  // ---------------------------------------------------------------- the table

  /** The task has a lease for this skill that has not been frozen. */
  predicate UsableLease(s: State, task: TaskId, digest: string) {
    task in s.table && s.table[task] in s.heap
    && s.heap[s.table[task]].digest == digest && !s.heap[s.table[task]].frozen
  }

  predicate OtherSkill(s: State, task: TaskId, digest: string) {
    task in s.table && s.table[task] in s.heap && s.heap[s.table[task]].digest != digest
  }

  predicate FrozenLease(s: State, task: TaskId, digest: string) {
    task in s.table && s.table[task] in s.heap
    && s.heap[s.table[task]].digest == digest && s.heap[s.table[task]].frozen
  }

  /** There is room for a lease of a task without one. */
  predicate HasRoom(cfg: Config, s: State, task: TaskId) {
    task !in s.table && |s.table| < cfg.capacity
  }

  // ---------------------------------------------------------------- answers

  /** The call has a lease: its task's, or one it has made and saved. */
  predicate GetsLease(cfg: Config, s: State, task: TaskId, digest: string, c: CreateScript) {
    UsableLease(s, task, digest) || (HasRoom(cfg, s, task) && c.made && c.started && c.saved)
  }

  predicate FailsToSave(cfg: Config, s: State, task: TaskId, c: CreateScript) {
    HasRoom(cfg, s, task) && c.made && c.started && !c.saved
  }

  /** The answer under the table lock, with None for a call that goes on to wait for a slot. */
  predicate AdmissionIs(cfg: Config, s: State, task: TaskId, digest: string, c: CreateScript, r: Option<Refusal>) {
    && (r == None <==> GetsLease(cfg, s, task, digest, c))
    && (r == Some(CapacityFull) <==> task !in s.table && |s.table| >= cfg.capacity)
    && (r == Some(DigestChanged) <==> OtherSkill(s, task, digest))
    && (r == Some(AlreadyFinalizing) <==> FrozenLease(s, task, digest))
    && (r == Some(CreateFailed) <==> HasRoom(cfg, s, task) && !(c.made && c.started))
    && (r == Some(SaveFailed) <==> FailsToSave(cfg, s, task, c))
  }

  /** The call gets as far as the engine: it has a lease, and a slot in time. */
  predicate GetsThrough(cfg: Config, s: State, task: TaskId, digest: string, c: CreateScript, call: CallScript) {
    GetsLease(cfg, s, task, digest, c) && call.inTime && s.free > 0
  }

  /** The answer to a whole call. */
  predicate AnswerIs(cfg: Config, s: State, task: TaskId, digest: string, c: CreateScript, call: CallScript,
                     script: DisposeScript, r: Result<(), Refusal>) {
    && (r.Ok? <==> GetsThrough(cfg, s, task, digest, c, call) && call.works)
    && (r == Err(QueueTimeout) <==>
          GetsLease(cfg, s, task, digest, c) && !(call.inTime && s.free > 0))
    && (r == Err(CallFailed) <==>
          GetsThrough(cfg, s, task, digest, c, call) && !call.works && script == DisposeScript(true, true, true))
    && (r == Err(CleanupFailed) <==>
          GetsThrough(cfg, s, task, digest, c, call) && !call.works && !(script.removed && script.cleaned))
    && (r == Err(SaveFailed) <==>
          || FailsToSave(cfg, s, task, c)
          || (GetsThrough(cfg, s, task, digest, c, call) && !call.works
              && script.removed && script.cleaned && !script.saved))
    && (r == Err(CapacityFull) <==> task !in s.table && |s.table| >= cfg.capacity)
    && (r == Err(DigestChanged) <==> OtherSkill(s, task, digest))
    && (r == Err(AlreadyFinalizing) <==> FrozenLease(s, task, digest))
    && (r == Err(CreateFailed) <==> HasRoom(cfg, s, task) && !(c.made && c.started))
  }

  /** The section under the table lock reuses, makes or refuses by the table and the capacity alone. */
  lemma AdmissionExactly(cfg: Config, s: State, task: TaskId, digest: string, c: CreateScript)
    requires task in s.table ==> s.table[task] in s.heap
    ensures AdmissionIs(cfg, s, task, digest, c, Turned(DecisionFor(cfg, s, task, digest), c))
  {}

  lemma AnswerExactly(cfg: Config, s: State, me: Tid, task: TaskId, digest: string, c: CreateScript, call: CallScript,
                      script: DisposeScript)
    requires task in s.table ==> s.table[task] in s.heap
    ensures AnswerIs(cfg, s, task, digest, c, call, script,
                     ExecuteResult(cfg, s, me, task, digest, c, call, script))
  {
    AdmissionExactly(cfg, s, task, digest, c);
  }

  // ---------------------------------------------------------------- dispose and freeze

  /** A dispose removes the container first, and the lease only when all the engine calls have worked. */
  lemma DisposeExactly(s: State, task: TaskId, script: DisposeScript)
    ensures var s', r := Disposed(s, task, script), DisposeResult(s, task, script);
      if task !in s.table then s' == s && r == Ok(())
      else
        var cleaned := script.removed && script.cleaned;
        && s'.live == (if script.removed then s.live - {s.table[task]} else s.live)
        && s'.table == (if cleaned then s.table - {task} else s.table)
        && s'.stored == (if cleaned && script.saved then Snapshot(s.table - {task}, s.heap) else s.stored)
        && s'.heap == s.heap && s'.threads == s.threads
        && (r == Ok(()) <==> cleaned && script.saved) && (r == Err(CleanupFailed) <==> !cleaned)
        && (r == Err(SaveFailed) <==> cleaned && !script.saved)
  {}

  /** A freeze that works sets the bit of its task's lease, and touches no other lease. */
  lemma FreezeExactly(s: State, me: Tid, task: TaskId, works: bool, saved: bool)
    requires task in s.table && s.table[task] in s.heap
    ensures var s', r, l := Frozen(s, me, task, works, saved), FreezeResult(s, task, works, saved), s.table[task];
      && s'.table == s.table && s'.live == s.live && s'.heap.Keys == s.heap.Keys
      && (forall k :: k in s.heap && k != l ==> s'.heap[k] == s.heap[k])
      && s'.heap[l].digest == s.heap[l].digest && s'.heap[l].holder == s.heap[l].holder
      && (s'.heap[l].frozen <==> works || s.heap[l].frozen)
      && s'.stored == (if works && saved then Snapshot(s'.table, s'.heap) else s.stored)
      && (r == Ok(()) <==> works && saved) && (r == Err(CleanupFailed) <==> !works)
      && (r == Err(SaveFailed) <==> works && !saved)
  {}

  // ---------------------------------------------------------------- steps

  /** The two steps with which a call enters the table. */
  function Entering(t: Tid, task: TaskId, digest: string): seq<Action> {
    [StartExecute(t, task, digest), EnterTable(t)]
  }

  lemma AfterTwo(cfg: Config, s: State, a: Action, b: Action)
    requires Step(cfg, s, a).Some?
    ensures After(cfg, s, [a, b]) == Step(cfg, Step(cfg, s, a).value, b)
  {
    assert [a, b][1..] == [b] && [b][1..] == [];
    var s' := Step(cfg, s, a).value;
    assert After(cfg, s, [a, b]) == After(cfg, s', [b]);
    if Step(cfg, s', b).Some? {
      assert After(cfg, s', [b]) == After(cfg, Step(cfg, s', b).value, []);
    }
  }

  /** A call enters with the lease of its task, begins to make one, or is gone, exactly as the table says. */
  lemma EntersExactly(cfg: Config, s: State, t: Tid, task: TaskId, digest: string)
    requires Reachable(cfg, s) && ThreadOf(s, t).phase.Idle? && s.mutex.None?
    ensures var after := After(cfg, s, Entering(t, task, digest));
      && after.Some?
      && (UsableLease(s, task, digest) <==>
            ThreadOf(after.value, t).phase.ExecSlot? && TableHas(s, task, ThreadOf(after.value, t).lease))
      && (HasRoom(cfg, s, task) <==> ThreadOf(after.value, t).phase.ExecCreate?)
      && (!UsableLease(s, task, digest) && !HasRoom(cfg, s, task) <==> ThreadOf(after.value, t) == IDLE)
  {
    TableKnown(cfg, s);
    AfterTwo(cfg, s, StartExecute(t, task, digest), EnterTable(t));
  }
}
