/**
 Which lease a failed call removes (services/sandbox-manager/app/task_containers.py,
 execute and dispose): execute disposes its task, and by then the task may have
 another lease than the one that was called.
*/
module TaskContainersFailures {
  import opened Common
  import opened TaskContainers
  import opened TaskContainersSafety
  import opened TaskContainersProperties
  import opened TaskContainersLeases

  /** In a call that has its lease: waiting for the slot or the lock, running, or about to dispose after a failure. */
  predicate InCall(s: State, t: Tid) {
    && t in s.threads
    && (s.threads[t].phase in {ExecSlot, ExecLease, Calling}
        || (s.threads[t].phase.DisposeLookup? && s.threads[t].slot))
  }

  predicate CallOn(s: State, t: Tid, task: TaskId, l: nat) {
    && InCall(s, t) && s.threads[t].task == task && s.threads[t].lease == l
    && (s.threads[t].phase.DisposeLookup? ==> s.threads[t].locked == Some(l))
  }

  /** The steps with which execute gets its lease. */
  predicate Admits(a: Action, t: Tid) {
    a == EnterTable(t) || (a.CreateOk? && a.t == t)
  }

  lemma EnterAdmits(cfg: Config, s: State, t: Tid)
    requires EnterStep(cfg, s, t).Some?
    ensures var s' := EnterStep(cfg, s, t).value;
      InCall(s', t) ==> var th := s'.threads[t]; CallOn(s', t, th.task, th.lease) && TableHas(s', th.task, th.lease)
  {}

  lemma CreateAdmits(s: State, t: Tid, saved: bool)
    requires CreateStep(s, t, saved).Some?
    ensures var s' := CreateStep(s, t, saved).value;
      InCall(s', t) ==> var th := s'.threads[t]; CallOn(s', t, th.task, th.lease) && TableHas(s', th.task, th.lease)
  {}

  lemma AdmittedOn(cfg: Config, s: State, a: Action, s': State, t: Tid)
    requires Admits(a, t) && Step(cfg, s, a) == Some(s') && InCall(s', t)
    ensures var th := s'.threads[t]; CallOn(s', t, th.task, th.lease) && TableHas(s', th.task, th.lease)
  {
    if a.EnterTable? {
      EnterAdmits(cfg, s, t);
    } else {
      CreateAdmits(s, t, a.saved);
    }
  }

  predicate CallStepOf(a: Action) {
    a.GetSlot? || a.SlotTimeout? || a.GetLease? || a.CallReturns? || a.CallRaises? || a.LookupToDispose?
  }

  /** A thread in a call takes only these steps of its own. */
  lemma CallTakes(cfg: Config, s: State, a: Action, t: Tid)
    requires InCall(s, t) && Step(cfg, s, a).Some? && !a.Restart? && a.t == t
    ensures CallStepOf(a)
  {}

  lemma OwnCallOn(cfg: Config, s: State, a: Action, s': State, t: Tid, task: TaskId, l: nat)
    requires CallStepOf(a) && a.t == t && Step(cfg, s, a) == Some(s') && InCall(s', t)
    requires CallOn(s, t, task, l) && Consistent(s.threads[t])
    ensures CallOn(s', t, task, l)
  {}

  lemma OthersStay(cfg: Config, s: State, a: Action, s': State, t: Tid)
    requires Step(cfg, s, a) == Some(s') && !a.Restart? && a.t != t
    ensures ThreadOf(s', t) == ThreadOf(s, t)
  {
    if !ChangesTable(a) {
      StepWalks(cfg, s, a);
    } else {
      OthersStayAtChange(cfg, s, a, s', t);
    }
  }

  lemma OthersStayAtChange(cfg: Config, s: State, a: Action, s': State, t: Tid)
    requires Step(cfg, s, a) == Some(s') && ChangesTable(a) && !a.Restart? && a.t != t
    ensures ThreadOf(s', t) == ThreadOf(s, t)
  {}

  /** During the call neither its task nor its lease changes, and its lock is that lease's. */
  lemma StepCallOn(cfg: Config, s: State, a: Action, s': State, t: Tid, task: TaskId, l: nat)
    requires ThreadInv(s) && CallOn(s, t, task, l) && Step(cfg, s, a) == Some(s') && InCall(s', t)
    ensures CallOn(s', t, task, l) && !a.Restart?
  {
    if a.Restart? {
      assert false;
    } else if a.t == t {
      CallTakes(cfg, s, a, t);
      OwnCallOn(cfg, s, a, s', t, task, l);
    } else {
      OthersStay(cfg, s, a, s', t);
    }
  }

  /** A lease that its task has lost. */
  predicate Lost(s: State, task: TaskId, l: nat) {
    l in s.heap && (task in s.table ==> s.table[task] != l)
  }

  /** A lost lease does not come back: later ones are new objects. */
  lemma StaysLost(cfg: Config, s: State, a: Action, s': State, task: TaskId, l: nat)
    requires MakingInv(s) && Lost(s, task, l) && Step(cfg, s, a) == Some(s') && !a.Restart?
    ensures Lost(s', task, l)
  {
    StepGrows(cfg, s, a);
    if !ChangesTable(a) {
      StepWalks(cfg, s, a);
    } else {
      ChangeStaysLost(cfg, s, a, s', task, l);
    }
  }

  lemma ChangeStaysLost(cfg: Config, s: State, a: Action, s': State, task: TaskId, l: nat)
    requires MakingInv(s) && Lost(s, task, l) && Step(cfg, s, a) == Some(s') && ChangesTable(a) && !a.Restart?
    ensures task in s'.table ==> s'.table[task] != l
  {}

  ghost predicate PoppedBetween(run: seq<State>, actions: seq<Action>, i: nat, j: nat, task: TaskId)
    requires j <= |actions| && |run| == |actions| + 1
  {
    exists k :: i <= k < j && PopsTask(run[k], actions[k], task)
  }

  /** A call under way that has got its lease: the table has the lease until somebody pops the task, and not after. */
  lemma {:induction false} CallSoFar(
      cfg: Config, run: seq<State>, actions: seq<Action>, i: nat, j: nat, t: Tid, task: TaskId, l: nat)
    requires ManagerRun(cfg, run, actions) && i <= j < |run|
    requires CallOn(run[i], t, task, l) && TableHas(run[i], task, l)
    requires forall k :: i <= k <= j ==> InCall(run[k], t)
    ensures CallOn(run[j], t, task, l)
    ensures if PoppedBetween(run, actions, i, j, task) then Lost(run[j], task, l)
            else TableHas(run[j], task, l)
    decreases j
  {
    if i < j {
      var last := j - 1;
      CallSoFar(cfg, run, actions, i, last, t, task, l);
      RunInvariant(cfg, run, actions, last);
      RunStep(cfg, run, actions, last);
      CallGoesOn(cfg, run[last], actions[last], run[j], t, task, l);
      PoppedNext(run, actions, i, last, task);
    }
  }

  lemma PoppedNext(run: seq<State>, actions: seq<Action>, i: nat, j: nat, task: TaskId)
    requires i <= j < |actions| && |run| == |actions| + 1
    ensures PoppedBetween(run, actions, i, j + 1, task)
       <==> PoppedBetween(run, actions, i, j, task) || PopsTask(run[j], actions[j], task)
  {}

  lemma CallGoesOn(cfg: Config, s: State, a: Action, s': State, t: Tid, task: TaskId, l: nat)
    requires Inv(cfg, s) && CallOn(s, t, task, l) && Step(cfg, s, a) == Some(s') && InCall(s', t)
    ensures CallOn(s', t, task, l)
    ensures Lost(s, task, l) ==> Lost(s', task, l)
    ensures TableHas(s, task, l) ==>
      if PopsTask(s, a, task) then Lost(s', task, l) else TableHas(s', task, l)
  {
    StepCallOn(cfg, s, a, s', t, task, l);
    if Lost(s, task, l) {
      StaysLost(cfg, s, a, s', task, l);
    } else if TableHas(s, task, l) {
      TableGoesOn(cfg, s, a, s', task, l);
    }
  }

  lemma TableGoesOn(cfg: Config, s: State, a: Action, s': State, task: TaskId, l: nat)
    requires MakingInv(s) && CapacityInv(cfg, s) && Step(cfg, s, a) == Some(s') && !a.Restart?
    requires TableHas(s, task, l) && l in s.heap
    ensures if PopsTask(s, a, task) then Lost(s', task, l) else TableHas(s', task, l)
  {
    if PopsTask(s, a, task) {
      StepGrows(cfg, s, a);
      PopLoses(s, a.t, a.saved, task);
    } else {
      TaskKeepsLease(cfg, s, a, task);
    }
  }

  lemma PopLoses(s: State, t: Tid, saved: bool, task: TaskId)
    requires PopStep(s, t, saved).Some? && ThreadOf(s, t).task == task
    ensures task !in PopStep(s, t, saved).value.table
  {}

  /**
   A call that got its lease at step `i` and, after a failure, looks up what to dispose
   at step `j`: it removes the lease it called exactly when nobody has popped its task
   since, and then nobody else is using that lease.
  */
  lemma FailedCallRemovesOwn(cfg: Config, run: seq<State>, actions: seq<Action>, i: nat, j: nat, t: Tid)
    requires ManagerRun(cfg, run, actions) && i < j < |actions|
    requires Admits(actions[i], t) && actions[j] == LookupToDispose(t)
    requires forall k :: i < k <= j ==> InCall(run[k], t)
    ensures var called := run[i + 1].threads[t];
      && (RemovesItsOwn(run[j + 1], t) <==> !PoppedBetween(run, actions, i + 1, j, called.task))
      && (RemovesItsOwn(run[j + 1], t) ==>
            && run[j + 1].threads[t].lease == called.lease
            && forall u :: u in run[j].threads && u != t && UsesEngine(run[j].threads[u]) ==>
                 run[j].threads[u].lease != called.lease)
  {
    RunStep(cfg, run, actions, i);
    AdmittedOn(cfg, run[i], actions[i], run[i + 1], t);
    var th := run[i + 1].threads[t];
    CallSoFar(cfg, run, actions, i + 1, j, t, th.task, th.lease);
    RunInvariant(cfg, run, actions, j);
    RunStep(cfg, run, actions, j);
    FailedCallDisposes(cfg, run[j], t);
  }
}
