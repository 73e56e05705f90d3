/**
 The life of leases and containers under interleaving: what is kept, and the exact
 conditions under which it is lost.
*/
module TaskContainersLeases {
  import opened Common
  import opened TaskContainers
  import opened TaskContainersSafety
  import opened TaskContainersProperties

  // ---------------------------------------------------------------- leases never change their skill

  /** Leases are kept, keep their digest, and stay frozen once frozen. */
  ghost predicate LeasesGrow(s: State, s': State) {
    forall l :: l in s.heap ==> l in s'.heap && s'.heap[l].digest == s.heap[l].digest
                                && (s.heap[l].frozen ==> s'.heap[l].frozen)
  }

  lemma CreateGrows(s: State, t: Tid, saved: bool)
    requires MakingInv(s) && CreateStep(s, t, saved).Some?
    ensures LeasesGrow(s, CreateStep(s, t, saved).value)
  {}

  lemma ExecuteGrows(cfg: Config, s: State, a: Action)
    requires Step(cfg, s, a).Some?
    requires a.StartExecute? || a.EnterTable? || a.MakeContainer? || a.CreateFails? || a.GetSlot? || a.SlotTimeout?
             || a.GetLease? || a.CallReturns? || a.CallRaises? || a.Unlock? || a.FreeSlot?
    ensures LeasesGrow(s, Step(cfg, s, a).value)
  {}

  lemma DisposeGrows(cfg: Config, s: State, a: Action)
    requires Step(cfg, s, a).Some?
    requires a.StartDispose? || a.StartFreeze? || a.LookupToDispose? || a.EngineDispose? || a.PopAndSave?
    ensures LeasesGrow(s, Step(cfg, s, a).value)
  {}

  lemma FreezeGrows(cfg: Config, s: State, a: Action)
    requires Step(cfg, s, a).Some? && (a.LookupToFreeze? || a.GetLeaseToFreeze? || a.Kill?)
    ensures LeasesGrow(s, Step(cfg, s, a).value)
  {}

  lemma SaveFrozenGrows(s: State, t: Tid, saved: bool)
    requires SaveFrozenStep(s, t, saved).Some?
    ensures LeasesGrow(s, SaveFrozenStep(s, t, saved).value)
  {
    SaveFrozenShape(s, t, saved);
  }

  lemma StepGrows(cfg: Config, s: State, a: Action)
    requires MakingInv(s) && Step(cfg, s, a).Some? && !a.Restart?
    ensures LeasesGrow(s, Step(cfg, s, a).value)
  {
    if a.CreateOk? {
      CreateGrows(s, a.t, a.saved);
    } else if a.StartDispose? || a.StartFreeze? || a.LookupToDispose? || a.EngineDispose? || a.PopAndSave? {
      DisposeGrows(cfg, s, a);
    } else if a.SaveFrozen? {
      SaveFrozenGrows(s, a.t, a.saved);
    } else if a.LookupToFreeze? || a.GetLeaseToFreeze? || a.Kill? {
      FreezeGrows(cfg, s, a);
    } else {
      ExecuteGrows(cfg, s, a);
    }
  }

  /** A lease made again by a restart has the digest it had, and thaws only if its row was written before the freeze. */
  lemma RestartLease(cfg: Config, s: State, inspectable: set<nat>, l: nat)
    requires RowsInv(s) && l in Restored(cfg, s, inspectable).heap
    ensures var s' := Restored(cfg, s, inspectable);
      && l in s.heap && s'.heap[l].digest == s.heap[l].digest
      && (s.heap[l].frozen && !s'.heap[l].frozen ==>
            exists task :: task in s.stored && s.stored[task].container == l && !s.stored[task].frozen)
  {
    var s' := Restored(cfg, s, inspectable);
    var row := RowOf(s'.stored, l);
    var task :| task in s'.stored && s'.stored[task] == row;
    assert RowFits(s.heap, s.stored[task]);
  }

  /** No step changes the digest of a lease; only a restart drops one, or thaws one whose stored row is not frozen. */
  lemma LeasesKept(cfg: Config, s: State, a: Action, l: nat)
    requires Inv(cfg, s) && Step(cfg, s, a).Some? && l in s.heap
    ensures var s' := Step(cfg, s, a).value;
      && (!a.Restart? ==> l in s'.heap)
      && (l in s'.heap ==> s'.heap[l].digest == s.heap[l].digest)
      && (l in s'.heap && s.heap[l].frozen && !s'.heap[l].frozen ==>
            a.Restart? && exists task :: task in s.stored && s.stored[task].container == l && !s.stored[task].frozen)
  {
    if a.Restart? {
      if l in Restored(cfg, s, a.inspectable).heap {
        RestartLease(cfg, s, a.inspectable, l);
      }
    } else {
      StepGrows(cfg, s, a);
    }
  }

  // ---------------------------------------------------------------- calls on frozen leases

  /** No thread is on its way to a call on lease `l`. */
  ghost predicate Quiet(s: State, l: nat) {
    l in s.heap && s.heap[l].frozen
    && forall t :: t in s.threads && BoundForCall(s.threads[t].phase) ==> s.threads[t].lease != l
  }

  predicate BoundForCall(phase: Phase) {
    phase.ExecSlot? || phase.ExecLease? || phase.Calling?
  }

  /** Only a thawed lease from the table, or a new one, binds a thread for a call. */
  ghost predicate BindsThawed(s: State, s': State, t: Tid) {
    && t in s'.threads && s'.threads == s.threads[t := s'.threads[t]]
    && (BoundForCall(s'.threads[t].phase) ==>
          || (BoundForCall(ThreadOf(s, t).phase) && s'.threads[t].lease == ThreadOf(s, t).lease)
          || s'.threads[t].lease !in s.heap
          || !s.heap[s'.threads[t].lease].frozen)
  }

  lemma EnterBinds(cfg: Config, s: State, t: Tid)
    requires EnterStep(cfg, s, t).Some?
    ensures BindsThawed(s, EnterStep(cfg, s, t).value, t)
  {}

  lemma CreateBinds(s: State, t: Tid, saved: bool)
    requires MakingInv(s) && CreateStep(s, t, saved).Some?
    ensures BindsThawed(s, CreateStep(s, t, saved).value, t)
  {}

  lemma ExecuteBinds(cfg: Config, s: State, a: Action)
    requires Step(cfg, s, a).Some?
    requires a.StartExecute? || a.MakeContainer? || a.CreateFails? || a.GetSlot? || a.SlotTimeout?
             || a.GetLease? || a.CallReturns? || a.CallRaises? || a.Unlock? || a.FreeSlot?
    ensures BindsThawed(s, Step(cfg, s, a).value, a.t)
  {}

  lemma DisposeBinds(cfg: Config, s: State, a: Action)
    requires Step(cfg, s, a).Some?
    requires a.StartDispose? || a.StartFreeze? || a.LookupToDispose? || a.EngineDispose? || a.PopAndSave?
    ensures BindsThawed(s, Step(cfg, s, a).value, a.t)
  {}

  lemma FreezeBinds(cfg: Config, s: State, a: Action)
    requires Step(cfg, s, a).Some?
    requires a.LookupToFreeze? || a.GetLeaseToFreeze? || a.Kill? || a.SaveFrozen?
    ensures BindsThawed(s, Step(cfg, s, a).value, a.t)
  {}

  lemma StepBinds(cfg: Config, s: State, a: Action)
    requires MakingInv(s) && Step(cfg, s, a).Some? && !a.Restart?
    ensures BindsThawed(s, Step(cfg, s, a).value, a.t)
  {
    if a.EnterTable? {
      EnterBinds(cfg, s, a.t);
    } else if a.CreateOk? {
      CreateBinds(s, a.t, a.saved);
    } else if a.StartDispose? || a.StartFreeze? || a.LookupToDispose? || a.EngineDispose? || a.PopAndSave? {
      DisposeBinds(cfg, s, a);
    } else if a.LookupToFreeze? || a.GetLeaseToFreeze? || a.Kill? || a.SaveFrozen? {
      FreezeBinds(cfg, s, a);
    } else {
      ExecuteBinds(cfg, s, a);
    }
  }

  lemma QuietMove(s: State, s': State, t: Tid, l: nat)
    requires Quiet(s, l) && LeasesGrow(s, s') && BindsThawed(s, s', t)
    ensures Quiet(s', l)
  {}

  /** A frozen lease nobody is about to call stays that way, until a restart. */
  lemma QuietStays(cfg: Config, s: State, a: Action, l: nat)
    requires MakingInv(s) && Quiet(s, l) && Step(cfg, s, a).Some? && !a.Restart?
    ensures Quiet(Step(cfg, s, a).value, l)
  {
    StepGrows(cfg, s, a);
    StepBinds(cfg, s, a);
    QuietMove(s, Step(cfg, s, a).value, a.t, l);
  }

  predicate NoRestart(actions: seq<Action>) {
    forall a :: a in actions ==> !a.Restart?
  }

  predicate Calls(s: State, t: Tid, l: nat) {
    t in s.threads && s.threads[t].phase.Calling? && s.threads[t].lease == l
  }

  /** Some way to go on without a restart leads to a call on lease `l`. */
  ghost predicate CanBeCalled(cfg: Config, s: State, l: nat) {
    exists actions, t :: NoRestart(actions) && After(cfg, s, actions).Some? && Calls(After(cfg, s, actions).value, t, l)
  }

  lemma {:induction false} QuietAfter(cfg: Config, s: State, actions: seq<Action>, l: nat)
    requires Inv(cfg, s) && Quiet(s, l) && NoRestart(actions) && After(cfg, s, actions).Some?
    ensures Quiet(After(cfg, s, actions).value, l)
    decreases |actions|
  {
    if actions != [] {
      var a := actions[0];
      QuietStays(cfg, s, a, l);
      StepKeeps(cfg, s, a);
      QuietAfter(cfg, Step(cfg, s, a).value, actions[1..], l);
    }
  }

  lemma {:induction false} InvAfter(cfg: Config, s: State, actions: seq<Action>)
    requires Inv(cfg, s) && After(cfg, s, actions).Some?
    ensures Inv(cfg, After(cfg, s, actions).value)
    decreases |actions|
  {
    if actions != [] {
      StepKeeps(cfg, s, actions[0]);
      InvAfter(cfg, Step(cfg, s, actions[0]).value, actions[1..]);
    }
  }

  /** Without slots nobody calls. */
  lemma CallsNeedSlots(cfg: Config, s: State, t: Tid, l: nat)
    requires Inv(cfg, s) && Calls(s, t, l)
    ensures cfg.maxConcurrent > 0
  {
    CallsHaveSlots(cfg, s);
    assert t in Where(s.threads, IsCalling);
  }

  lemma BoundAdvances(cfg: Config, s: State, t: Tid)
    requires Runnable(s, t) && (s.threads[t].phase.ExecSlot? || s.threads[t].phase.ExecLease?)
    requires Step(cfg, s, Advance(s.threads[t].phase, t)).Some?
    ensures var s' := Step(cfg, s, Advance(s.threads[t].phase, t)).value;
      t in s'.threads && BoundForCall(s'.threads[t].phase) && s'.threads[t].lease == s.threads[t].lease
  {}

  /** Some thread can move, and the thread `t` that waits for its call either stays where it is or gets nearer. */
  lemma SomeoneAdvances(cfg: Config, s: State, t: Tid) returns (u: Tid)
    requires Inv(cfg, s) && cfg.maxConcurrent > 0 && t in s.threads
    requires s.threads[t].phase.ExecSlot? || s.threads[t].phase.ExecLease?
    ensures Runnable(s, u) && Step(cfg, s, Advance(s.threads[u].phase, u)).Some?
    ensures var s' := Step(cfg, s, Advance(s.threads[u].phase, u)).value;
      && TotalWeight(s'.threads) < TotalWeight(s.threads)
      && t in s'.threads && BoundForCall(s'.threads[t].phase) && s'.threads[t].lease == s.threads[t].lease
  {
    u := SomeoneRuns(cfg, s, t);
    AdvanceDescends(cfg, s, u);
    DescendsTotal(s, Step(cfg, s, Advance(s.threads[u].phase, u)).value, u);
    if u == t {
      BoundAdvances(cfg, s, t);
    }
  }

  lemma BoundStep(cfg: Config, s: State, t: Tid) returns (a: Action)
    requires Inv(cfg, s) && cfg.maxConcurrent > 0 && t in s.threads
    requires s.threads[t].phase.ExecSlot? || s.threads[t].phase.ExecLease?
    ensures Step(cfg, s, a).Some? && !a.Restart? && Inv(cfg, Step(cfg, s, a).value)
    ensures var s' := Step(cfg, s, a).value;
      && TotalWeight(s'.threads) < TotalWeight(s.threads)
      && t in s'.threads && BoundForCall(s'.threads[t].phase) && s'.threads[t].lease == s.threads[t].lease
  {
    var u := SomeoneAdvances(cfg, s, t);
    a := Advance(s.threads[u].phase, u);
    AdvanceSucceeds(s.threads[u].phase, u);
    StepKeeps(cfg, s, a);
  }

  /** A thread bound for a call on a lease can get there, whatever has happened to the lease. */
  lemma {:induction false} BoundGetsThere(cfg: Config, s: State, t: Tid) returns (actions: seq<Action>)
    requires Inv(cfg, s) && cfg.maxConcurrent > 0 && t in s.threads && BoundForCall(s.threads[t].phase)
    ensures NoRestart(actions) && After(cfg, s, actions).Some?
    ensures Calls(After(cfg, s, actions).value, t, s.threads[t].lease)
    decreases TotalWeight(s.threads)
  {
    if s.threads[t].phase.Calling? {
      return [];
    }
    var a := BoundStep(cfg, s, t);
    var rest := BoundGetsThere(cfg, Step(cfg, s, a).value, t);
    AfterFirst(cfg, s, a, rest);
    actions := [a] + rest;
  }

  /**
   The frozen check is made before the wait for a slot: a frozen lease can still be
   called exactly when some thread was already on its way to a call on it.
  */
  lemma FrozenCalls(cfg: Config, s: State, l: nat)
    requires Inv(cfg, s) && l in s.heap && s.heap[l].frozen
    ensures CanBeCalled(cfg, s, l) <==> cfg.maxConcurrent > 0 && !Quiet(s, l)
  {
    if CanBeCalled(cfg, s, l) {
      var actions, t :| NoRestart(actions) && After(cfg, s, actions).Some? && Calls(After(cfg, s, actions).value, t, l);
      InvAfter(cfg, s, actions);
      CallsNeedSlots(cfg, After(cfg, s, actions).value, t, l);
      if Quiet(s, l) {
        QuietAfter(cfg, s, actions, l);
      }
    }
    if cfg.maxConcurrent > 0 && !Quiet(s, l) {
      var t :| t in s.threads && BoundForCall(s.threads[t].phase) && s.threads[t].lease == l;
      var actions := BoundGetsThere(cfg, s, t);
    }
  }

  // ---------------------------------------------------------------- the lease file

  /** With no save lost and no freeze waiting to be saved, the lease file is exactly the lease table. */
  lemma StoredIsTable(cfg: Config, s: State)
    requires Inv(cfg, s) && !s.saveFailed && forall t :: t in s.threads ==> !s.threads[t].phase.FreezeSave?
    ensures s.stored == Snapshot(s.table, s.heap)
  {
    var snap := Snapshot(s.table, s.heap);
    forall task | task in s.table ensures s.stored[task] == snap[task] {
      assert RowFits(s.heap, s.stored[task]);
      assert !FreezePending(s, s.table[task]);
    }
    assert snap.Keys == s.stored.Keys;
  }

  /** The task has a lease whose container answers when a new process looks. */
  predicate Answers(s: State, inspectable: set<nat>, task: TaskId) {
    task in s.table && s.table[task] in inspectable * s.live
  }

  /** Its lease is not in the file. */
  predicate LostCreate(s: State, inspectable: set<nat>, task: TaskId) {
    Answers(s, inspectable, task) && !(task in s.stored && s.stored[task].container == s.table[task])
  }

  /** Its lease is frozen in memory and not in the file. */
  predicate Thawed(s: State, inspectable: set<nat>, task: TaskId) {
    && Answers(s, inspectable, task) && task in s.stored && s.stored[task].container == s.table[task]
    && s.table[task] in s.heap && s.heap[s.table[task]].frozen && !s.stored[task].frozen
  }

  /** The file has a lease, whose container answers, that memory has given up. */
  predicate Resurrected(s: State, inspectable: set<nat>, task: TaskId) {
    && task in s.stored && s.stored[task].container in inspectable * s.live
    && !(task in s.table && s.table[task] == s.stored[task].container)
  }

  /** After the restart the task has the lease it had, with the same digest and freeze bit, or none as before. */
  predicate ComesBack(s: State, s': State, inspectable: set<nat>, task: TaskId) {
    if Answers(s, inspectable, task) then
      && task in s'.table && s'.table[task] == s.table[task] && s'.table[task] in s'.heap && s'.table[task] in s.heap
      && s'.heap[s'.table[task]] == s.heap[s.table[task]].(holder := None)
    else task !in s'.table
  }

  /** Whatever saves have failed: what a restart makes of one task, exactly. */
  lemma RestartOfTask(cfg: Config, s: State, inspectable: set<nat>, task: TaskId)
    requires Inv(cfg, s)
    ensures ComesBack(s, Restored(cfg, s, inspectable), inspectable, task)
       <==> !LostCreate(s, inspectable, task) && !Thawed(s, inspectable, task) && !Resurrected(s, inspectable, task)
  {
    var s' := Restored(cfg, s, inspectable);
    if task in s.stored {
      assert RowFits(s.heap, s.stored[task]);
      if s.stored[task].container in inspectable * s.live {
        RestoredLease(cfg, s, inspectable, task);
      }
    }
  }

  /** A lease that was in the table before the restart and is there after it has its old freeze bit. */
  predicate SameBit(s: State, s': State, task: TaskId) {
    task in s.table && task in s'.table && s'.table[task] == s.table[task] && s.table[task] in s.heap
    && s.table[task] in s'.heap
    ==> s'.heap[s'.table[task]].frozen == s.heap[s.table[task]].frozen
  }

  lemma RestartBit(cfg: Config, s: State, inspectable: set<nat>, task: TaskId)
    requires Inv(cfg, s)
    ensures SameBit(s, Restored(cfg, s, inspectable), task) <==> !Thawed(s, inspectable, task)
  {
    if task in s.stored {
      assert RowFits(s.heap, s.stored[task]);
      if s.stored[task].container in inspectable * s.live {
        RestoredLease(cfg, s, inspectable, task);
      }
    }
  }

  /** The leases that come back have their old freeze bits exactly when each frozen one of them has a frozen row. */
  lemma RestartBits(cfg: Config, s: State, inspectable: set<nat>)
    requires Inv(cfg, s)
    ensures (forall task :: SameBit(s, Restored(cfg, s, inspectable), task)) <==>
      forall task :: !Thawed(s, inspectable, task)
  {
    var s' := Restored(cfg, s, inspectable);
    forall task ensures SameBit(s, s', task) <==> !Thawed(s, inspectable, task) {
      RestartBit(cfg, s, inspectable, task);
    }
  }

  /** Only a failed save loses or resurrects a lease; a thawed one needs a failed save or a freeze in progress. */
  lemma LostOnlyByFailedSave(cfg: Config, s: State, inspectable: set<nat>, task: TaskId)
    requires Inv(cfg, s)
    ensures LostCreate(s, inspectable, task) || Resurrected(s, inspectable, task) ==> s.saveFailed
    ensures Thawed(s, inspectable, task) ==> s.saveFailed || FreezePending(s, s.table[task])
  {}

  /** With no save lost and no freeze in progress a restart brings back exactly the leases whose container answers. */
  lemma RestartExact(cfg: Config, s: State, inspectable: set<nat>)
    requires Inv(cfg, s) && !s.saveFailed && forall t :: t in s.threads ==> !s.threads[t].phase.FreezeSave?
    ensures forall task :: ComesBack(s, Restored(cfg, s, inspectable), inspectable, task)
  {
    forall task ensures ComesBack(s, Restored(cfg, s, inspectable), inspectable, task) {
      LostOnlyByFailedSave(cfg, s, inspectable, task);
      RestartOfTask(cfg, s, inspectable, task);
    }
  }

  // ---------------------------------------------------------------- steps that leave the table alone

  predicate Removing(phase: Phase) {
    phase.DisposeEngine? || phase.DisposePop?
  }

  /** Thread `t` moves, the table stays, no container appears, and a dispose works on the lease it has looked up. */
  ghost predicate TableWalk(s: State, s': State, t: Tid) {
    && t in s'.threads && s'.threads == s.threads[t := s'.threads[t]]
    && s'.table == s.table && s'.live <= s.live && !ThreadOf(s, t).phase.ExecStart?
    && (s'.threads[t].phase.DisposeEngine? ==>
          s'.threads[t].task in s.table && s'.threads[t].lease == s.table[s'.threads[t].task])
    && (s'.threads[t].phase.DisposePop? ==>
          && ThreadOf(s, t).phase.DisposeEngine? && s'.threads[t].lease !in s'.live
          && s'.threads[t].task == ThreadOf(s, t).task && s'.threads[t].lease == ThreadOf(s, t).lease)
  }

  lemma EnterWalks(cfg: Config, s: State, a: Action)
    requires Step(cfg, s, a).Some?
    requires a.StartExecute? || a.EnterTable? || a.GetSlot? || a.SlotTimeout? || a.GetLease?
    ensures TableWalk(s, Step(cfg, s, a).value, a.t)
  {}

  lemma CallWalks(cfg: Config, s: State, a: Action)
    requires Step(cfg, s, a).Some?
    requires a.CallReturns? || a.CallRaises? || a.Unlock? || a.FreeSlot?
    ensures TableWalk(s, Step(cfg, s, a).value, a.t)
  {}

  lemma DisposeWalks(cfg: Config, s: State, a: Action)
    requires Step(cfg, s, a).Some?
    requires a.StartDispose? || a.LookupToDispose? || a.EngineDispose?
    ensures TableWalk(s, Step(cfg, s, a).value, a.t)
  {}

  lemma FreezeWalks(cfg: Config, s: State, a: Action)
    requires Step(cfg, s, a).Some?
    requires a.StartFreeze? || a.LookupToFreeze? || a.GetLeaseToFreeze? || a.Kill? || a.SaveFrozen?
    ensures TableWalk(s, Step(cfg, s, a).value, a.t)
  {}

  predicate ChangesTable(a: Action) {
    a.MakeContainer? || a.CreateOk? || a.CreateFails? || a.PopAndSave? || a.Restart?
  }

  lemma StepWalks(cfg: Config, s: State, a: Action)
    requires Step(cfg, s, a).Some? && !ChangesTable(a)
    ensures TableWalk(s, Step(cfg, s, a).value, a.t)
  {
    if a.StartDispose? || a.LookupToDispose? || a.EngineDispose? {
      DisposeWalks(cfg, s, a);
    } else if a.StartFreeze? || a.LookupToFreeze? || a.GetLeaseToFreeze? || a.Kill? || a.SaveFrozen? {
      FreezeWalks(cfg, s, a);
    } else if a.CallReturns? || a.CallRaises? || a.Unlock? || a.FreeSlot? {
      CallWalks(cfg, s, a);
    } else {
      EnterWalks(cfg, s, a);
    }
  }

  // ---------------------------------------------------------------- no container is forgotten

  ghost predicate HasLease(s: State, c: nat) {
    exists task :: task in s.table && s.table[task] == c
  }

  ghost predicate BeingMade(s: State, c: nat) {
    exists t :: t in s.threads && s.threads[t].phase.ExecStart? && s.threads[t].lease == c
  }

  /** Every container of the engine belongs to a lease in the table, or to the call that is making it. */
  ghost predicate Accounted(s: State) {
    forall c :: c in s.live ==> HasLease(s, c) || BeingMade(s, c)
  }

  /** The row of a container that answers. */
  ghost predicate HasRow(s: State, inspectable: set<nat>, c: nat) {
    c in inspectable && exists task :: task in s.stored && s.stored[task].container == c
  }

  /**
   The steps that make the manager forget a container: popping a task that by now
   has a live lease, a failed start whose clean-up fails, and a restart with a
   container that has no row or does not answer.
  */
  ghost predicate Forgets(s: State, a: Action) {
    match a
    case PopAndSave(t, _) => ThreadOf(s, t).task in s.table && s.table[ThreadOf(s, t).task] in s.live
    case CreateFails(t, removed) => ThreadOf(s, t).phase.ExecStart? && !removed && ThreadOf(s, t).lease in s.live
    case Restart(_, inspectable) => exists c :: c in s.live && !HasRow(s, inspectable, c)
    case _ => false
  }

  lemma MakingStays(s: State, s': State, t: Tid, c: nat)
    requires BeingMade(s, c) && !ThreadOf(s, t).phase.ExecStart?
    requires t in s'.threads && s'.threads == s.threads[t := s'.threads[t]]
    ensures BeingMade(s', c)
  {
    var u :| u in s.threads && s.threads[u].phase.ExecStart? && s.threads[u].lease == c;
    assert u in s'.threads && s'.threads[u].phase.ExecStart? && s'.threads[u].lease == c;
  }

  lemma PopLoses(s: State, t: Tid, saved: bool)
    requires HeapInv(s) && MakingInv(s) && PopStep(s, t, saved).Some? && Forgets(s, PopAndSave(t, saved))
    ensures !Accounted(PopStep(s, t, saved).value)
  {
    var s', c := PopStep(s, t, saved).value, s.table[ThreadOf(s, t).task];
    assert c in s'.live && !HasLease(s', c) && !BeingMade(s', c);
  }

  lemma PopAccounts(s: State, t: Tid, saved: bool)
    requires Accounted(s) && PopStep(s, t, saved).Some? && !Forgets(s, PopAndSave(t, saved))
    ensures Accounted(PopStep(s, t, saved).value)
  {
    var s' := PopStep(s, t, saved).value;
    forall c | c in s'.live ensures HasLease(s', c) || BeingMade(s', c) {
      if HasLease(s, c) {
        var k :| k in s.table && s.table[k] == c;
        assert k in s'.table && s'.table[k] == c;
      } else {
        MakingStays(s, s', t, c);
      }
    }
  }

  /** The one thread inside `_create` is the one that makes the container. */
  lemma OneMaker(s: State, t: Tid, c: nat)
    requires MutexInv(s) && t in s.threads && s.threads[t].phase.ExecStart? && BeingMade(s, c)
    ensures s.threads[t].lease == c
  {
    assert s.mutex == Some(t);
  }

  lemma CreateFailsForgets(cfg: Config, s: State, t: Tid, removed: bool)
    requires Inv(cfg, s) && Accounted(s) && CreateFailsStep(s, t, removed).Some?
    ensures Accounted(CreateFailsStep(s, t, removed).value) <==> !Forgets(s, CreateFails(t, removed))
  {
    var s' := CreateFailsStep(s, t, removed).value;
    var th := ThreadOf(s, t);
    assert s.mutex == Some(t);
    if Forgets(s, CreateFails(t, removed)) {
      assert !HasLease(s', th.lease) && !BeingMade(s', th.lease);
    } else {
      forall c | c in s'.live ensures HasLease(s', c) {
        if !HasLease(s, c) {
          assert BeingMade(s, c);
          if th.phase.ExecStart? {
            OneMaker(s, t, c);
          }
        }
      }
    }
  }

  lemma RestartForgets(cfg: Config, s: State, inspectable: set<nat>)
    requires Inv(cfg, s)
    ensures Accounted(Restored(cfg, s, inspectable)) <==> forall c :: c in s.live ==> HasRow(s, inspectable, c)
  {
    var s' := Restored(cfg, s, inspectable);
    forall c | c in s.live ensures HasLease(s', c) <==> HasRow(s, inspectable, c) {
      if HasRow(s, inspectable, c) {
        var task :| task in s.stored && s.stored[task].container == c;
        assert task in s'.table && s'.table[task] == c;
      }
    }
    assert forall c :: !BeingMade(s', c);
  }

  lemma MakeAccounts(s: State, t: Tid)
    requires Accounted(s) && MakeStep(s, t).Some?
    ensures Accounted(MakeStep(s, t).value)
  {
    var s' := MakeStep(s, t).value;
    forall c | c in s'.live ensures HasLease(s', c) || BeingMade(s', c) {
      if c == s.next {
        assert t in s'.threads && s'.threads[t].phase.ExecStart? && s'.threads[t].lease == c;
      } else if !HasLease(s, c) {
        MakingStays(s, s', t, c);
      }
    }
  }

  lemma CreateAccounts(s: State, t: Tid, saved: bool)
    requires Accounted(s) && MutexInv(s) && CreateStep(s, t, saved).Some? && ThreadOf(s, t).task !in s.table
    ensures Accounted(CreateStep(s, t, saved).value)
  {
    var th := ThreadOf(s, t);
    var s' := CreateStep(s, t, saved).value;
    forall c | c in s'.live ensures HasLease(s', c) {
      if HasLease(s, c) {
        var k :| k in s.table && s.table[k] == c;
        assert k in s'.table && s'.table[k] == c;
      } else {
        OneMaker(s, t, c);
        assert s'.table[th.task] == c;
      }
    }
  }

  lemma WalkAccounts(s: State, s': State, t: Tid)
    requires Accounted(s) && TableWalk(s, s', t)
    ensures Accounted(s')
  {
    forall c | c in s'.live ensures HasLease(s', c) || BeingMade(s', c) {
      if !HasLease(s, c) {
        MakingStays(s, s', t, c);
      }
    }
  }

  /** A container is forgotten exactly by the steps of `Forgets`. */
  lemma StepForgets(cfg: Config, s: State, a: Action)
    requires Inv(cfg, s) && Accounted(s) && Step(cfg, s, a).Some?
    ensures Accounted(Step(cfg, s, a).value) <==> !Forgets(s, a)
  {
    if a.PopAndSave? {
      if Forgets(s, a) {
        PopLoses(s, a.t, a.saved);
      } else {
        PopAccounts(s, a.t, a.saved);
      }
    } else if a.CreateFails? {
      CreateFailsForgets(cfg, s, a.t, a.removed);
    } else if a.Restart? {
      RestartForgets(cfg, s, a.inspectable);
    } else if a.MakeContainer? {
      MakeAccounts(s, a.t);
    } else if a.CreateOk? {
      CreateAccounts(s, a.t, a.saved);
    } else {
      StepWalks(cfg, s, a);
      WalkAccounts(s, Step(cfg, s, a).value, a.t);
    }
  }

  /** No two threads are disposing one task at the same time. */
  ghost predicate NoOverlap(s: State) {
    forall t, u :: (t in s.threads && u in s.threads && t != u
                    && Removing(s.threads[t].phase) && Removing(s.threads[u].phase))
      ==> s.threads[t].task != s.threads[u].task
  }

  /** A disposing thread works on the lease the table has, and pops it only when its container is gone. */
  ghost predicate DisposesItsOwn(s: State) {
    forall t :: t in s.threads && Removing(s.threads[t].phase) ==>
      && s.threads[t].task in s.table && s.table[s.threads[t].task] == s.threads[t].lease
      && (s.threads[t].phase.DisposePop? ==> s.threads[t].lease !in s.live)
  }

  lemma WalkOwns(s: State, s': State, t: Tid)
    requires DisposesItsOwn(s) && TableWalk(s, s', t)
    ensures DisposesItsOwn(s')
  {}

  lemma MakeOwns(s: State, t: Tid)
    requires DisposesItsOwn(s) && HeapInv(s) && ThreadInv(s) && MakeStep(s, t).Some?
    ensures DisposesItsOwn(MakeStep(s, t).value)
  {}

  lemma CreateOwns(s: State, t: Tid, saved: bool)
    requires DisposesItsOwn(s) && CreateStep(s, t, saved).Some? && ThreadOf(s, t).task !in s.table
    ensures DisposesItsOwn(CreateStep(s, t, saved).value)
  {}

  lemma CreateFailsOwns(s: State, t: Tid, removed: bool)
    requires DisposesItsOwn(s) && CreateFailsStep(s, t, removed).Some?
    ensures DisposesItsOwn(CreateFailsStep(s, t, removed).value)
  {}

  lemma PopOwns(s: State, t: Tid, saved: bool)
    requires DisposesItsOwn(s) && NoOverlap(s) && PopStep(s, t, saved).Some?
    ensures DisposesItsOwn(PopStep(s, t, saved).value)
  {}

  lemma StepOwns(cfg: Config, s: State, a: Action)
    requires Inv(cfg, s) && DisposesItsOwn(s) && NoOverlap(s) && Step(cfg, s, a).Some?
    ensures DisposesItsOwn(Step(cfg, s, a).value)
  {
    if a.PopAndSave? {
      PopOwns(s, a.t, a.saved);
    } else if a.MakeContainer? {
      MakeOwns(s, a.t);
    } else if a.CreateOk? {
      CreateOwns(s, a.t, a.saved);
    } else if a.CreateFails? {
      CreateFailsOwns(s, a.t, a.removed);
    } else if !a.Restart? {
      StepWalks(cfg, s, a);
      WalkOwns(s, Step(cfg, s, a).value, a.t);
    }
  }

  /** Without overlapping disposes a pop never forgets. */
  lemma OwnPop(s: State, t: Tid, saved: bool)
    requires DisposesItsOwn(s) && PopStep(s, t, saved).Some?
    ensures !Forgets(s, PopAndSave(t, saved))
  {
    assert t in s.threads;
  }

  ghost predicate ContainersInv(s: State) {
    Accounted(s) && DisposesItsOwn(s)
  }

  lemma StepAccounts(cfg: Config, s: State, a: Action, s': State)
    requires Inv(cfg, s) && ContainersInv(s) && NoOverlap(s) && Step(cfg, s, a) == Some(s')
    requires a.CreateFails? || a.Restart? ==> !Forgets(s, a)
    ensures ContainersInv(s')
  {
    if a.PopAndSave? {
      OwnPop(s, a.t, a.saved);
    }
    StepForgets(cfg, s, a);
    StepOwns(cfg, s, a);
  }

  lemma RunStep(cfg: Config, run: seq<State>, actions: seq<Action>, i: nat)
    requires ManagerRun(cfg, run, actions) && i < |actions|
    ensures Step(cfg, run[i], actions[i]) == Some(run[i + 1])
  {}

  /**
   As long as no two disposes of one task overlap, a run forgets no container but
   in a failed clean-up of a failed start, or in a restart that finds it without a
   row or without an answer.
  */
  lemma {:induction false} NoContainerForgotten(cfg: Config, run: seq<State>, actions: seq<Action>, i: nat)
    requires ManagerRun(cfg, run, actions) && i < |run| && Accounted(run[0])
    requires forall j :: 0 <= j < i ==> NoOverlap(run[j])
    requires forall j :: 0 <= j < i && (actions[j].CreateFails? || actions[j].Restart?) ==> !Forgets(run[j], actions[j])
    ensures ContainersInv(run[i])
  {
    if i > 0 {
      NoContainerForgotten(cfg, run, actions, i - 1);
      RunInvariant(cfg, run, actions, i - 1);
      RunStep(cfg, run, actions, i - 1);
      StepAccounts(cfg, run[i - 1], actions[i - 1], run[i]);
    }
  }

  // ---------------------------------------------------------------- whose lease a failed call disposes

  predicate PopsTask(s: State, a: Action, task: TaskId) {
    a.PopAndSave? && ThreadOf(s, a.t).task == task
  }

  lemma PopTakes(s: State, t: Tid, saved: bool, task: TaskId)
    requires task in s.table && PopStep(s, t, saved).Some?
    ensures var s' := PopStep(s, t, saved).value;
      (task in s'.table && s'.table[task] == s.table[task]) <==> ThreadOf(s, t).task != task
  {}

  /** A task keeps its lease through every step but a pop of that task and a restart. */
  lemma TaskKeepsLease(cfg: Config, s: State, a: Action, task: TaskId)
    requires CapacityInv(cfg, s) && task in s.table && Step(cfg, s, a).Some? && !a.Restart?
    ensures var s' := Step(cfg, s, a).value;
      (task in s'.table && s'.table[task] == s.table[task]) <==> !PopsTask(s, a, task)
  {
    if a.PopAndSave? {
      PopTakes(s, a.t, a.saved, task);
    } else if a.CreateOk? {
      assert ThreadOf(s, a.t).task != task;
      assert CreateStep(s, a.t, a.saved).value.table == s.table[ThreadOf(s, a.t).task := ThreadOf(s, a.t).lease];
    } else if a.MakeContainer? {
      assert MakeStep(s, a.t).value.table == s.table;
    } else if a.CreateFails? {
      assert CreateFailsStep(s, a.t, a.removed).value.table == s.table;
    } else {
      StepWalks(cfg, s, a);
    }
  }

  lemma RunKeepsLease(cfg: Config, run: seq<State>, actions: seq<Action>, i: nat, task: TaskId)
    requires ManagerRun(cfg, run, actions) && i < |actions| && task in run[i].table
    requires !PopsTask(run[i], actions[i], task) && !actions[i].Restart?
    ensures task in run[i + 1].table && run[i + 1].table[task] == run[i].table[task]
  {
    RunInvariant(cfg, run, actions, i);
    RunStep(cfg, run, actions, i);
    TaskKeepsLease(cfg, run[i], actions[i], task);
  }

  /** So along a run a task has one lease until it is popped or the manager restarts. */
  lemma {:induction false} TaskKeepsLeaseAfter(
      cfg: Config, run: seq<State>, actions: seq<Action>, i: nat, j: nat, task: TaskId)
    requires ManagerRun(cfg, run, actions) && i <= j < |run| && task in run[i].table
    requires forall k :: i <= k < j ==> !PopsTask(run[k], actions[k], task) && !actions[k].Restart?
    ensures task in run[j].table && run[j].table[task] == run[i].table[task]
    decreases j
  {
    if i < j {
      var last := j - 1;
      TaskKeepsLeaseAfter(cfg, run, actions, i, last, task);
      RunKeepsLease(cfg, run, actions, last, task);
    }
  }

  /** The lease a failed call is about to remove is the one it called and has locked. */
  predicate RemovesItsOwn(s: State, t: Tid) {
    t in s.threads && s.threads[t].phase.DisposeEngine? && s.threads[t].locked == Some(s.threads[t].lease)
  }

  /**
   A failed call disposes its task, not its lease: the lease it called exactly when
   the table still has that one under its task, and then nobody else is using it.
  */
  lemma FailedCallDisposes(cfg: Config, s: State, t: Tid)
    requires Inv(cfg, s) && t in s.threads && s.threads[t].slot && DisposeLookupStep(s, t).Some?
    ensures var s' := DisposeLookupStep(s, t).value;
      && s.threads[t].locked.Some?
      && (RemovesItsOwn(s', t) <==>
            s.threads[t].task in s.table && s.table[s.threads[t].task] == s.threads[t].locked.value)
      && (RemovesItsOwn(s', t) ==> forall u :: u in s.threads && u != t && UsesEngine(s.threads[u]) ==>
            s.threads[u].lease != s'.threads[t].lease)
  {
    assert Consistent(s.threads[t]);
    var l := s.threads[t].locked.value;
    forall u | u in s.threads && u != t && UsesEngine(s.threads[u]) ensures s.threads[u].lease != l {
      assert Consistent(s.threads[u]);
      assert s.heap[l].holder == Some(t);
    }
  }
}
