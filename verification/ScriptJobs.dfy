/**
 One-shot script jobs (services/sandbox-manager/app/jobs.py): a bounded queue in
 front of a bounded number of slots, and clean-up that has to run on every path.
 Any number of threads run execute at once; a step is one visit to the counters,
 one operation on the slots, or one engine call.
*/
module ScriptJobs {
  import opened Common

  type Tid = nat

  datatype Phase =
    | Idle
    | Ready              // inputs checked, image ready
    | Waiting            // counted as pending, waiting for a slot
    | GotSlot            // has a slot, not counted as running yet
    | TimedOut           // gave up waiting, still counted as pending
    | Running            // engine calls
    | Cleaning           // the outer finally: container first
    | CleaningNetwork    // then the network
    | Finished           // cleaned up, still counted as running
    | Uncounted          // no longer counted, still has the slot

  /** A thread with the engine objects its `finally` blocks will remove. */
  datatype Thread = Thread(phase: Phase, container: Option<nat>, network: Option<nat>)

  const IDLE := Thread(Idle, None, None)

  datatype State = State(
    capacity: nat,
    free: int,              // permits of the bounded semaphore
    pending: int,
    running: int,
    maxPending: int,
    live: set<nat>,         // containers and networks the engine has
    lost: set<nat>,         // those whose removal raised
    next: nat,              // supply of engine identifiers
    threads: map<Tid, Thread>)

  datatype Action =
    | Start(t: Tid)
    | Enqueue(t: Tid)
    | Acquire(t: Tid)
    | Timeout(t: Tid)
    | Count(t: Tid)
    | MakeNetwork(t: Tid)
    | MakeContainer(t: Tid)
    | EndRun(t: Tid)                      // a result, or any exception
    | RemoveContainer(t: Tid, works: bool)
    | RemoveNetwork(t: Tid, works: bool)
    | Uncount(t: Tid)
    | Release(t: Tid)
    | SetMaxPending(t: Tid, value: int, saved: bool)

  function ThreadOf(s: State, t: Tid): Thread {
    if t in s.threads then s.threads[t] else IDLE
  }

  function Go(s: State, t: Tid, th: Thread): State {
    s.(threads := s.threads[t := th])
  }

  /** `if container_id is not None: remove`; a removal that raises leaves the object behind. */
  function Remove(s: State, id: Option<nat>, works: bool): State {
    match id
    case None => s
    case Some(x) => if works then s.(live := s.live - {x}) else s.(lost := s.lost + {x})
  }

  function Step(s: State, a: Action): Option<State> {
    var th := ThreadOf(s, a.t);
    match a
    case Start(t) =>
      if th.phase.Idle? then Some(Go(s, t, IDLE.(phase := Ready))) else None
    case Enqueue(t) =>
      if !th.phase.Ready? then None
      else if s.pending >= s.maxPending then Some(Go(s, t, IDLE))
      else Some(Go(s, t, th.(phase := Waiting)).(pending := s.pending + 1))
    case Acquire(t) =>
      if th.phase.Waiting? && s.free > 0 then Some(Go(s, t, th.(phase := GotSlot)).(free := s.free - 1)) else None
    case Timeout(t) =>
      if th.phase.Waiting? then Some(Go(s, t, th.(phase := TimedOut))) else None
    case Count(t) =>
      if th.phase.GotSlot?
        then Some(Go(s, t, th.(phase := Running)).(pending := s.pending - 1, running := s.running + 1))
      else if th.phase.TimedOut? then Some(Go(s, t, IDLE).(pending := s.pending - 1))
      else None
    case MakeNetwork(t) =>
      if th.phase.Running? && th.network.None?
      then Some(Go(s, t, th.(network := Some(s.next))).(live := s.live + {s.next}, next := s.next + 1))
      else None
    case MakeContainer(t) =>
      if th.phase.Running? && th.network.Some? && th.container.None?
      then Some(Go(s, t, th.(container := Some(s.next))).(live := s.live + {s.next}, next := s.next + 1))
      else None
    case EndRun(t) =>
      if th.phase.Running? then Some(Go(s, t, th.(phase := Cleaning))) else None
    case RemoveContainer(t, works) =>
      if th.phase.Cleaning?
        then Some(Go(Remove(s, th.container, works), t, th.(phase := CleaningNetwork, container := None))) else None
    case RemoveNetwork(t, works) =>
      if th.phase.CleaningNetwork?
        then Some(Go(Remove(s, th.network, works), t, th.(phase := Finished, network := None))) else None
    case Uncount(t) =>
      if th.phase.Finished? then Some(Go(s, t, th.(phase := Uncounted)).(running := s.running - 1)) else None
    case Release(t) =>
      if th.phase.Uncounted? then Some(Go(s, t, IDLE).(free := s.free + 1)) else None
    case SetMaxPending(_, value, saved) =>
      Some(if 0 <= value <= 100 && saved then s.(maxPending := value) else s)
  }

  function Init(capacity: nat, maxPending: int): State {
    State(capacity, capacity, 0, 0, maxPending, {}, {}, 0, map[])
  }

  ghost predicate JobsRun(capacity: nat, maxPending: int, run: seq<State>, actions: seq<Action>) {
    IsRun(Init(capacity, maxPending), (s: State, a: Action) => Step(s, a), run, actions)
  }

  // ---------------------------------------------------------------- the invariant

  function InQueue(th: Thread): bool {
    th.phase.Waiting? || th.phase.GotSlot? || th.phase.TimedOut?
  }

  function CountsRunning(th: Thread): bool {
    th.phase.Running? || th.phase.Cleaning? || th.phase.CleaningNetwork? || th.phase.Finished?
  }

  function HoldsSlot(th: Thread): bool {
    th.phase.GotSlot? || th.phase.Uncounted? || CountsRunning(th)
  }

  /** The three counters are exactly the numbers of threads at the places they count. */
  ghost predicate Counters(s: State) {
    && s.free >= 0
    && s.pending == |Where(s.threads, InQueue)|
    && s.running == |Where(s.threads, CountsRunning)|
    && s.free + |Where(s.threads, HoldsSlot)| == s.capacity
  }

  predicate Owns(th: Thread, x: nat) {
    th.container == Some(x) || th.network == Some(x)
  }

  /** Every engine object is some running thread's to remove, or its removal was tried and raised. */
  ghost predicate Resources(s: State) {
    && (forall x :: x in s.live ==> x < s.next && (x in s.lost || exists t :: t in s.threads && Owns(s.threads[t], x)))
    && (forall t :: t in s.threads && !CountsRunning(s.threads[t]) ==>
          s.threads[t].container.None? && s.threads[t].network.None?)
    && (forall t :: t in s.threads && (s.threads[t].phase.CleaningNetwork? || s.threads[t].phase.Finished?) ==>
          s.threads[t].container.None?)
    && (forall t :: t in s.threads && s.threads[t].phase.Finished? ==> s.threads[t].network.None?)
  }

  ghost predicate Inv(s: State) {
    Counters(s) && Resources(s)
  }

  lemma CountersMove(s: State, s': State, t: Tid, th: Thread)
    requires Counters(s) && s'.threads == s.threads[t := th] && s'.capacity == s.capacity
    requires s'.pending == s.pending - (if InQueue(ThreadOf(s, t)) then 1 else 0) + (if InQueue(th) then 1 else 0)
    requires s'.running == s.running
      - (if CountsRunning(ThreadOf(s, t)) then 1 else 0) + (if CountsRunning(th) then 1 else 0)
    requires s'.free >= 0
    requires s'.free == s.free + (if HoldsSlot(ThreadOf(s, t)) then 1 else 0) - (if HoldsSlot(th) then 1 else 0)
    ensures Counters(s')
  {
    CountUpdate(s.threads, InQueue, t, th);
    CountUpdate(s.threads, CountsRunning, t, th);
    CountUpdate(s.threads, HoldsSlot, t, th);
  }

  lemma QueueCounters(s: State, a: Action)
    requires Counters(s) && Step(s, a).Some?
    requires a.Start? || a.Enqueue? || a.Acquire? || a.Timeout? || a.Count?
    ensures Counters(Step(s, a).value)
  {
    var s' := Step(s, a).value;
    CountersMove(s, s', a.t, s'.threads[a.t]);
  }

  lemma StepCounters(s: State, a: Action)
    requires Counters(s) && Step(s, a).Some?
    ensures Counters(Step(s, a).value)
  {
    var s' := Step(s, a).value;
    if a.Start? || a.Enqueue? || a.Acquire? || a.Timeout? || a.Count? {
      QueueCounters(s, a);
    } else if !a.SetMaxPending? {
      CountersMove(s, s', a.t, s'.threads[a.t]);
    }
  }

  lemma ResourcesMove(s: State, s': State, t: Tid, th: Thread)
    requires Resources(s) && s'.threads == s.threads[t := th] && s.next <= s'.next
    requires forall x :: x in s'.live ==> x in s.live || (x < s'.next && Owns(th, x))
    requires s.lost <= s'.lost
    requires forall x :: Owns(ThreadOf(s, t), x) && x in s'.live ==> Owns(th, x) || x in s'.lost
    requires !CountsRunning(th) ==> th.container.None? && th.network.None?
    requires th.phase.CleaningNetwork? || th.phase.Finished? ==> th.container.None?
    requires th.phase.Finished? ==> th.network.None?
    ensures Resources(s')
  {
    forall x | x in s'.live
      ensures x < s'.next && (x in s'.lost || exists u :: u in s'.threads && Owns(s'.threads[u], x)) {
      if Owns(th, x) {
        assert t in s'.threads && Owns(s'.threads[t], x);
      } else if x !in s.lost {
        var u :| u in s.threads && Owns(s.threads[u], x);
        assert u != t ==> u in s'.threads && Owns(s'.threads[u], x);
      }
    }
  }

  lemma StepResources(s: State, a: Action)
    requires Resources(s) && Step(s, a).Some?
    ensures Resources(Step(s, a).value)
  {
    var s' := Step(s, a).value;
    if !a.SetMaxPending? {
      ResourcesMove(s, s', a.t, s'.threads[a.t]);
    }
  }

  lemma StepKeeps(s: State, a: Action)
    requires Inv(s) && Step(s, a).Some?
    ensures Inv(Step(s, a).value) && Step(s, a).value.capacity == s.capacity
  {
    StepCounters(s, a);
    StepResources(s, a);
    SameCapacity(s, a);
  }

  lemma SameCapacity(s: State, a: Action)
    requires Step(s, a).Some?
    ensures Step(s, a).value.capacity == s.capacity
  {}

  lemma InitInv(capacity: nat, maxPending: int)
    ensures Inv(Init(capacity, maxPending))
  {
    var s := Init(capacity, maxPending);
    assert Where(s.threads, InQueue) == {} && Where(s.threads, CountsRunning) == {}
       && Where(s.threads, HoldsSlot) == {};
  }

  // ---------------------------------------------------------------- what every run keeps

  lemma RunInvariant(capacity: nat, maxPending: int, run: seq<State>, actions: seq<Action>, i: nat)
    requires JobsRun(capacity, maxPending, run, actions) && i < |run|
    ensures Inv(run[i]) && run[i].capacity == capacity
  {
    var step := (s: State, a: Action) => Step(s, a);
    var inv := (s: State) => Inv(s) && s.capacity == capacity;
    InitInv(capacity, maxPending);
    forall s, a | inv(s) && step(s, a).Some? ensures inv(step(s, a).value) {
      StepKeeps(s, a);
    }
    RunInduction(Init(capacity, maxPending), step, inv, run, actions, i);
  }

  /** Free slots, running jobs and slots held but not counted add up to the capacity, in every state of every run. */
  lemma SlotConservation(capacity: nat, maxPending: int, run: seq<State>, actions: seq<Action>, i: nat)
    requires JobsRun(capacity, maxPending, run, actions) && i < |run|
    ensures run[i].free + run[i].running
            + |Where(run[i].threads, (th: Thread) => th.phase.GotSlot? || th.phase.Uncounted?)| == capacity
    ensures 0 <= run[i].running <= capacity && 0 <= run[i].free <= capacity && run[i].pending >= 0
  {
    RunInvariant(capacity, maxPending, run, actions, i);
    var s := run[i];
    var between := (th: Thread) => th.phase.GotSlot? || th.phase.Uncounted?;
    assert Where(s.threads, HoldsSlot) == Where(s.threads, CountsRunning) + Where(s.threads, between);
    assert Where(s.threads, CountsRunning) !! Where(s.threads, between);
  }

  /** The queue only grows while it is below the limit in force at that moment. */
  lemma QueueLimit(s: State, a: Action)
    requires Step(s, a).Some? && Step(s, a).value.pending > s.pending
    ensures a.Enqueue? && s.pending < s.maxPending && Step(s, a).value.pending == s.pending + 1
  {}

  /** However often the limit is changed, the queue stays within the largest limit anyone could have set. */
  lemma QueueBounded(capacity: nat, maxPending: int, run: seq<State>, actions: seq<Action>, i: nat)
    requires JobsRun(capacity, maxPending, run, actions) && i < |run|
    ensures run[i].pending <= (if maxPending > 100 then maxPending else 100)
  {
    var step := (s: State, a: Action) => Step(s, a);
    var bound := if maxPending > 100 then maxPending else 100;
    var inv := (s: State) => s.pending <= bound && s.maxPending <= bound;
    RunInduction(Init(capacity, maxPending), step, inv, run, actions, i);
  }

  /** When no call is active, all counters are back and only what the engine refused to remove is left. */
  lemma AllGivenBack(capacity: nat, maxPending: int, run: seq<State>, actions: seq<Action>, i: nat)
    requires JobsRun(capacity, maxPending, run, actions) && i < |run|
    requires forall t :: t in run[i].threads ==> run[i].threads[t].phase.Idle?
    ensures run[i].pending == 0 && run[i].running == 0 && run[i].free == capacity
    ensures run[i].live <= run[i].lost
  {
    RunInvariant(capacity, maxPending, run, actions, i);
    var s := run[i];
    assert Where(s.threads, InQueue) == {} && Where(s.threads, CountsRunning) == {}
       && Where(s.threads, HoldsSlot) == {};
  }

  /** Giving a slot back never exceeds the bound of the semaphore, so the release in the last `finally` cannot raise. */
  lemma ReleaseFits(s: State, t: Tid)
    requires Inv(s) && Step(s, Release(t)).Some?
    ensures s.free < s.capacity
  {
    assert t in Where(s.threads, HoldsSlot);
  }

  /**
   Between two moments with the same other threads, a call that has come and gone
   leaves the counters as they were.
  */
  lemma NothingLeftBehind(s: State, s': State, me: Tid)
    requires Inv(s) && Inv(s') && s.capacity == s'.capacity
    requires ThreadOf(s, me).phase.Idle? && ThreadOf(s', me).phase.Idle?
    requires s.threads - {me} == s'.threads - {me}
    ensures s.free == s'.free && s.pending == s'.pending && s.running == s'.running
  {
    OthersCount(s, s', me, InQueue);
    OthersCount(s, s', me, CountsRunning);
    OthersCount(s, s', me, HoldsSlot);
  }

  lemma OthersCount(s: State, s': State, me: Tid, p: Thread -> bool)
    requires s.threads - {me} == s'.threads - {me}
    requires me in s.threads ==> !p(s.threads[me])
    requires me in s'.threads ==> !p(s'.threads[me])
    ensures Where(s.threads, p) == Where(s'.threads, p)
  {
    forall t ensures t in Where(s.threads, p) <==> t in Where(s'.threads, p) {
      if t != me {
        assert t in s.threads <==> t in s.threads - {me};
        assert t in s'.threads <==> t in s'.threads - {me};
        if t in s.threads {
          assert (s.threads - {me})[t] == (s'.threads - {me})[t];
        }
      }
    }
  }

  // ---------------------------------------------------------------- reachable states

  ghost predicate ReachedBy(s: State, maxPending: int, run: seq<State>, actions: seq<Action>) {
    JobsRun(s.capacity, maxPending, run, actions) && s == run[|run| - 1]
  }

  /** Some run of the job manager ends in this state. */
  ghost predicate Reachable(s: State) {
    exists maxPending, run, actions :: ReachedBy(s, maxPending, run, actions)
  }

  lemma ReachableInv(s: State)
    requires Reachable(s)
    ensures Inv(s)
  {
    var maxPending, run, actions :| ReachedBy(s, maxPending, run, actions);
    RunInvariant(s.capacity, maxPending, run, actions, |run| - 1);
  }

  lemma ReachableInit(capacity: nat, maxPending: int)
    ensures Reachable(Init(capacity, maxPending))
  {
    var s := Init(capacity, maxPending);
    assert ReachedBy(s, maxPending, [s], []);
  }

  lemma ReachableStep(s: State, a: Action)
    requires Reachable(s) && Step(s, a).Some?
    ensures Reachable(Step(s, a).value)
  {
    var s' := Step(s, a).value;
    var maxPending, run, actions :| ReachedBy(s, maxPending, run, actions);
    RunExtend(Init(s.capacity, maxPending), (s: State, a: Action) => Step(s, a), run, actions, a, s');
    assert ReachedBy(s', maxPending, run + [s'], actions + [a]);
  }

  // ---------------------------------------------------------------- the methods

  datatype Failure =
    | InvalidJob | ImageUnavailable | QueueFull | QueueTimeout | EngineFailed | CleanupFailed | InvalidLimit
    | SaveFailed

  datatype Output = Output(exitCode: int, stdout: string, stderr: string)

  /** What the outside does during one call: which engine calls work, and what they return. */
  datatype Script = Script(
    inputs: bool, image: bool, slotInTime: bool,
    proxy: bool, network: bool, connected: bool, container: bool, started: bool,
    exitCode: Option<int>, logs: Option<(string, string)>,
    removed: bool, disconnected: bool, networkRemoved: bool)

  /** The engine part of a call returns a result. */
  predicate RunWorks(c: Script) {
    && c.proxy && c.network && c.connected && c.container && c.started && c.exitCode.Some? && c.logs.Some?
  }

  ghost predicate Quiet(others: nat -> seq<Action>) {
    forall k :: others(k) == []
  }

  /** Both clean-up removals that apply work. */
  predicate CleansUp(c: Script) {
    && (c.proxy && c.network && c.connected && c.container ==> c.removed)
    && (c.proxy && c.network ==> c.disconnected && c.networkRemoved)
  }

  /** How one call ends when no other thread moves. */
  function Verdict(c: Script, full: bool, slot: bool): Result<Output, Failure> {
    if !c.inputs then Err(InvalidJob)
    else if !c.image then Err(ImageUnavailable)
    else if full then Err(QueueFull)
    else if !(c.slotInTime && slot) then Err(QueueTimeout)
    else if !CleansUp(c) then Err(CleanupFailed)
    else if RunWorks(c) then Ok(Output(c.exitCode.value, c.logs.value.0, c.logs.value.1))
    else Err(EngineFailed)
  }

  /** The call gets as far as the engine. */
  predicate Admitted(c: Script, full: bool, slot: bool) {
    c.inputs && c.image && !full && c.slotInTime && slot
  }

  /** Something that was made could not be taken away again. */
  predicate LeavesSomething(c: Script) {
    && c.proxy && c.network
    && (!c.disconnected || !c.networkRemoved || (c.connected && c.container && !c.removed))
  }

  /** Every answer, with what it takes; the engine's failure is only reported when the clean-up worked. */
  lemma VerdictExactly(c: Script, full: bool, slot: bool)
    ensures var r := Verdict(c, full, slot);
      && (r == Err(InvalidJob) <==> !c.inputs)
      && (r == Err(ImageUnavailable) <==> c.inputs && !c.image)
      && (r == Err(QueueFull) <==> c.inputs && c.image && full)
      && (r == Err(QueueTimeout) <==> c.inputs && c.image && !full && !(c.slotInTime && slot))
      && (r == Err(CleanupFailed) <==> Admitted(c, full, slot) && LeavesSomething(c))
      && (r == Err(EngineFailed) <==>
            Admitted(c, full, slot) && !LeavesSomething(c)
            && !(c.proxy && c.network && c.connected && c.container && c.started && c.exitCode.Some? && c.logs.Some?))
      && (r.Ok? <==>
            Admitted(c, full, slot) && !LeavesSomething(c)
            && c.proxy && c.network && c.connected && c.container && c.started && c.exitCode.Some? && c.logs.Some?)
      && (r.Ok? ==> r.value == Output(c.exitCode.value, c.logs.value.0, c.logs.value.1))
  {}

  /** Between two states only the given thread has moved. */
  predicate OnlyMoved(s: State, s': State, me: Tid) {
    s.capacity == s'.capacity && s.threads - {me} == s'.threads - {me}
  }

  datatype Status = Status(running: int, pending: int, capacity: nat, maxPending: int)

  /** A step of another thread, if it is one and it is enabled. */
  function Interfere(s: State, me: Tid, a: Action): (r: State)
    requires Reachable(s)
    ensures Reachable(r) && r.capacity == s.capacity && ThreadOf(r, me) == ThreadOf(s, me)
  {
    if a.t != me && Step(s, a).Some? then ReachableStep(s, a); StepOther(s, me, a); Step(s, a).value else s
  }

  lemma StepOther(s: State, me: Tid, a: Action)
    requires a.t != me && Step(s, a).Some?
    ensures ThreadOf(Step(s, a).value, me) == ThreadOf(s, me) && Step(s, a).value.capacity == s.capacity
  {}

  class JobManager {
    const capacity: nat
    var free: int
    var pending: int
    var running: int
    var maxPending: int
    var live: set<nat>
    var lost: set<nat>
    var next: nat
    var threads: map<Tid, Thread>

    function View(): State
      reads this
    {
      State(capacity, free, pending, running, maxPending, live, lost, next, threads)
    }

    ghost predicate Valid()
      reads this
    {
      Reachable(View())
    }

    constructor (capacity: nat, maxPending: int)
      ensures View() == Init(capacity, maxPending) && Valid()
    {
      this.capacity, this.free, this.pending, this.running, this.maxPending := capacity, capacity, 0, 0, maxPending;
      this.live, this.lost, this.next, this.threads := {}, {}, 0, map[];
      new;
      ReachableInit(capacity, maxPending);
    }

    /** The limit changes exactly when the value is in range and was saved. */
    method SetMaxPending(value: int, saved: bool) returns (r: Result<Status, Failure>)
      modifies this`maxPending
      ensures View() == Step(old(View()), Action.SetMaxPending(0, value, saved)).value
      ensures r.Ok? <==> 0 <= value <= 100 && saved
      ensures r.Ok? ==> r.value == Status(running, pending, capacity, value)
    {
      if !(0 <= value <= 100) {
        return Err(InvalidLimit);
      }
      if !saved {
        return Err(SaveFailed);
      }
      maxPending := value;
      r := Ok(Status(running, pending, capacity, maxPending));
    }

    /** Everything the other threads manage to do while this one is between two of its own steps. */
    method Others(me: Tid, schedule: seq<Action>)
      requires Valid()
      modifies this
      ensures Valid() && ThreadOf(View(), me) == old(ThreadOf(View(), me))
      ensures schedule == [] ==> View() == old(View())
    {
      var s := View();
      for i := 0 to |schedule|
        invariant Reachable(s) && s.capacity == capacity && ThreadOf(s, me) == ThreadOf(View(), me)
        invariant i == 0 ==> s == View()
      {
        s := Interfere(s, me, schedule[i]);
      }
      free, pending, running, maxPending := s.free, s.pending, s.running, s.maxPending;
      live, lost, next, threads := s.live, s.lost, s.next, s.threads;
      assert View() == s;
    }

    /** Under the lock: refuse when the queue is at its limit, otherwise join it. */
    method EnterQueue(me: Tid) returns (entered: bool)
      requires Valid() && ThreadOf(View(), me) == IDLE.(phase := Ready)
      modifies this
      ensures Valid() && View() == Step(old(View()), Enqueue(me)).value
      ensures entered == (old(pending) < old(maxPending))
    {
      ReachableStep(View(), Enqueue(me));
      if pending >= maxPending {
        threads := threads[me := IDLE];
        return false;
      }
      pending := pending + 1;
      threads := threads[me := IDLE.(phase := Waiting)];
      return true;
    }

    /** `slots.acquire(timeout=20)`. */
    method AcquireSlot(me: Tid, inTime: bool) returns (acquired: bool)
      requires Valid() && ThreadOf(View(), me) == IDLE.(phase := Waiting)
      modifies this
      ensures Valid() && acquired == (inTime && old(free) > 0)
      ensures View() == Step(old(View()), if acquired then Acquire(me) else Timeout(me)).value
    {
      acquired := inTime && free > 0;
      ReachableStep(View(), if acquired then Acquire(me) else Timeout(me));
      if acquired {
        free := free - 1;
      }
      threads := threads[me := IDLE.(phase := if acquired then GotSlot else TimedOut)];
    }

    /** Under the lock: leave the queue, and count as running if a slot was acquired. */
    method LeaveQueue(me: Tid, acquired: bool)
      requires Valid() && ThreadOf(View(), me) == IDLE.(phase := if acquired then GotSlot else TimedOut)
      modifies this
      ensures Valid() && View() == Step(old(View()), Count(me)).value
    {
      ReachableStep(View(), Count(me));
      pending := pending - 1;
      if acquired {
        running := running + 1;
      }
      threads := threads[me := IDLE.(phase := if acquired then Running else Idle)];
    }

    method AddNetwork(me: Tid)
      requires Valid() && ThreadOf(View(), me) == IDLE.(phase := Running)
      modifies this
      ensures Valid() && View() == Step(old(View()), MakeNetwork(me)).value
      ensures ThreadOf(View(), me).phase.Running? && ThreadOf(View(), me).network.Some?
      ensures ThreadOf(View(), me).container.None?
    {
      ReachableStep(View(), MakeNetwork(me));
      threads := threads[me := threads[me].(network := Some(next))];
      live, next := live + {next}, next + 1;
    }

    method AddContainer(me: Tid)
      requires Valid() && ThreadOf(View(), me).phase.Running?
      requires ThreadOf(View(), me).network.Some? && ThreadOf(View(), me).container.None?
      modifies this
      ensures Valid() && View() == Step(old(View()), MakeContainer(me)).value
      ensures ThreadOf(View(), me).phase.Running?
      ensures ThreadOf(View(), me).network.Some? && ThreadOf(View(), me).container.Some?
    {
      ReachableStep(View(), MakeContainer(me));
      threads := threads[me := threads[me].(container := Some(next))];
      live, next := live + {next}, next + 1;
    }

    /** The `try` block: network, container, run, logs; stops at the first engine call that raises. */
    method RunContainer(me: Tid, c: Script, others: nat -> seq<Action>) returns (r: Result<Output, Failure>)
      requires Valid() && ThreadOf(View(), me) == IDLE.(phase := Running)
      modifies this
      ensures Valid() && ThreadOf(View(), me).phase.Running?
      ensures if RunWorks(c) then r == Ok(Output(c.exitCode.value, c.logs.value.0, c.logs.value.1))
        else r == Err(EngineFailed)
      ensures ThreadOf(View(), me).network.Some? <==> c.proxy && c.network
      ensures ThreadOf(View(), me).container.Some? <==> c.proxy && c.network && c.connected && c.container
      ensures Quiet(others) ==> OnlyMoved(old(View()), View(), me)
    {
      if !c.proxy || !c.network {
        return Err(EngineFailed);
      }
      AddNetwork(me);
      Others(me, others(4));
      if !c.connected || !c.container {
        return Err(EngineFailed);
      }
      AddContainer(me);
      Others(me, others(5));
      if !c.started || c.exitCode.None? || c.logs.None? {
        return Err(EngineFailed);
      }
      r := Ok(Output(c.exitCode.value, c.logs.value.0, c.logs.value.1));
    }

    method BeginCleanUp(me: Tid)
      requires Valid() && ThreadOf(View(), me).phase.Running?
      modifies this
      ensures Valid() && View() == Step(old(View()), EndRun(me)).value
      ensures ThreadOf(View(), me) == old(ThreadOf(View(), me)).(phase := Cleaning)
    {
      ReachableStep(View(), EndRun(me));
      threads := threads[me := threads[me].(phase := Cleaning)];
    }

    method DropContainer(me: Tid, works: bool)
      requires Valid() && ThreadOf(View(), me).phase.Cleaning?
      modifies this
      ensures Valid() && View() == Step(old(View()), RemoveContainer(me, works)).value
      ensures ThreadOf(View(), me) == Thread(CleaningNetwork, None, old(ThreadOf(View(), me)).network)
    {
      ReachableStep(View(), RemoveContainer(me, works));
      if threads[me].container.Some? {
        if works {
          live := live - {threads[me].container.value};
        } else {
          lost := lost + {threads[me].container.value};
        }
      }
      threads := threads[me := threads[me].(phase := CleaningNetwork, container := None)];
    }

    method DropNetwork(me: Tid, works: bool)
      requires Valid() && ThreadOf(View(), me).phase.CleaningNetwork? && ThreadOf(View(), me).container.None?
      modifies this
      ensures Valid() && View() == Step(old(View()), RemoveNetwork(me, works)).value
      ensures ThreadOf(View(), me) == IDLE.(phase := Finished)
    {
      ReachableStep(View(), RemoveNetwork(me, works));
      if threads[me].network.Some? {
        if works {
          live := live - {threads[me].network.value};
        } else {
          lost := lost + {threads[me].network.value};
        }
      }
      threads := threads[me := threads[me].(phase := Finished, network := None)];
    }

    method StopCounting(me: Tid)
      requires Valid() && ThreadOf(View(), me) == IDLE.(phase := Finished)
      modifies this
      ensures Valid() && View() == Step(old(View()), Uncount(me)).value
      ensures ThreadOf(View(), me) == IDLE.(phase := Uncounted)
    {
      ReachableStep(View(), Uncount(me));
      running := running - 1;
      threads := threads[me := IDLE.(phase := Uncounted)];
    }

    method ReleaseSlot(me: Tid)
      requires Valid() && ThreadOf(View(), me) == IDLE.(phase := Uncounted)
      modifies this
      ensures Valid() && View() == Step(old(View()), Release(me)).value && ThreadOf(View(), me) == IDLE
    {
      ReachableStep(View(), Release(me));
      free := free + 1;
      threads := threads[me := IDLE];
    }

    /** The nested `finally` blocks: container, network, count, slot, each reached whatever the one before raised. */
    method CleanUp(me: Tid, c: Script, others: nat -> seq<Action>) returns (ok: bool)
      requires Valid() && ThreadOf(View(), me).phase.Running?
      modifies this
      ensures Valid() && ThreadOf(View(), me) == IDLE
      ensures ok <==> ((old(ThreadOf(View(), me)).container.Some? ==> c.removed)
                       && (old(ThreadOf(View(), me)).network.Some? ==> c.disconnected && c.networkRemoved))
      ensures Quiet(others) ==> OnlyMoved(old(View()), View(), me)
    {
      var container, network := threads[me].container, threads[me].network;
      DropObjects(me, c, others);
      Others(me, others(8));
      StopCounting(me);
      Others(me, others(9));
      ReleaseSlot(me);
      ok := (container.None? || c.removed) && (network.None? || (c.disconnected && c.networkRemoved));
    }

    /** The two outer blocks: first the container, then the network. */
    method DropObjects(me: Tid, c: Script, others: nat -> seq<Action>)
      requires Valid() && ThreadOf(View(), me).phase.Running?
      modifies this
      ensures Valid() && ThreadOf(View(), me) == IDLE.(phase := Finished)
      ensures Quiet(others) ==> OnlyMoved(old(View()), View(), me)
    {
      BeginCleanUp(me);
      Others(me, others(6));
      DropBoth(me, c, others);
    }

    method DropBoth(me: Tid, c: Script, others: nat -> seq<Action>)
      requires Valid() && ThreadOf(View(), me).phase.Cleaning?
      modifies this
      ensures Valid() && ThreadOf(View(), me) == IDLE.(phase := Finished)
      ensures Quiet(others) ==> OnlyMoved(old(View()), View(), me)
    {
      DropContainer(me, c.removed);
      Others(me, others(7));
      DropNetwork(me, c.networkRemoved);
    }

    method BeginCall(me: Tid)
      requires Valid() && ThreadOf(View(), me) == IDLE
      modifies this
      ensures Valid() && View() == Step(old(View()), Start(me)).value && ThreadOf(View(), me) == IDLE.(phase := Ready)
    {
      ReachableStep(View(), Start(me));
      threads := threads[me := IDLE.(phase := Ready)];
    }

    /** From joining the queue to being counted as running; on both refusals the thread holds nothing. */
    method WaitForSlot(me: Tid, inTime: bool, others: nat -> seq<Action>) returns (r: Result<(), Failure>)
      requires Valid() && ThreadOf(View(), me) == IDLE.(phase := Ready)
      modifies this
      ensures Valid() && ThreadOf(View(), me) == (if r.Ok? then IDLE.(phase := Running) else IDLE)
      ensures r == Err(QueueFull) <==> old(pending >= maxPending)
      ensures r.Ok? ==> inTime
      ensures r.Err? ==> r == Err(QueueFull) || r == Err(QueueTimeout)
      ensures Quiet(others) ==>
        (r.Ok? <==> old(pending < maxPending) && inTime && old(free) > 0) && OnlyMoved(old(View()), View(), me)
    {
      var entered := EnterQueue(me);
      if !entered {
        return Err(QueueFull);
      }
      Others(me, others(1));
      var acquired := AcquireSlot(me, inTime);
      Others(me, others(2));
      LeaveQueue(me, acquired);
      return if acquired then Ok(()) else Err(QueueTimeout);
    }

    /**
     One call while any other threads do anything they can between its steps.
     On every path, refused, timed out, failed or failed to clean up, the thread
     ends where it started, so by the counting invariant it holds no place in the
     queue and no slot.
    */
    method Execute(me: Tid, c: Script, others: nat -> seq<Action>) returns (r: Result<Output, Failure>)
      requires Valid() && ThreadOf(View(), me) == IDLE
      modifies this
      ensures Valid() && ThreadOf(View(), me) == IDLE
      ensures r == Err(InvalidJob) <==> !c.inputs
      ensures r == Err(ImageUnavailable) <==> c.inputs && !c.image
      ensures r.Ok? ==>
        c.slotInTime && RunWorks(c) && r.value == Output(c.exitCode.value, c.logs.value.0, c.logs.value.1)
      ensures r.Ok? ==> c.removed && c.disconnected && c.networkRemoved
      ensures r == Err(EngineFailed) ==> !RunWorks(c)
      ensures r == Err(CleanupFailed) ==> !(c.removed && c.disconnected && c.networkRemoved)
      ensures Quiet(others) ==> r == Verdict(c, old(pending >= maxPending), old(free) > 0)
      ensures Quiet(others) ==> free == old(free) && pending == old(pending) && running == old(running)
    {
      ghost var before := View();
      if !c.inputs {
        return Err(InvalidJob);
      }
      if !c.image {
        return Err(ImageUnavailable);
      }
      r := ExecuteReady(me, c, others);
      ReachableInv(before);
      ReachableInv(View());
      if Quiet(others) {
        NothingLeftBehind(before, View(), me);
      }
    }

    /** The call once its inputs and its image are there. */
    method ExecuteReady(me: Tid, c: Script, others: nat -> seq<Action>) returns (r: Result<Output, Failure>)
      requires Valid() && ThreadOf(View(), me) == IDLE && c.inputs && c.image
      modifies this
      ensures Valid() && ThreadOf(View(), me) == IDLE
      ensures r.Ok? ==>
        c.slotInTime && RunWorks(c) && r.value == Output(c.exitCode.value, c.logs.value.0, c.logs.value.1)
      ensures r.Ok? ==> c.removed && c.disconnected && c.networkRemoved
      ensures r == Err(EngineFailed) ==> !RunWorks(c)
      ensures r == Err(CleanupFailed) ==> !(c.removed && c.disconnected && c.networkRemoved)
      ensures r != Err(InvalidJob) && r != Err(ImageUnavailable)
      ensures Quiet(others) ==>
        r == Verdict(c, old(pending >= maxPending), old(free) > 0) && OnlyMoved(old(View()), View(), me)
    {
      BeginCall(me);
      Others(me, others(0));
      var slot := WaitForSlot(me, c.slotInTime, others);
      if slot.Err? {
        return Err(slot.error);
      }
      Others(me, others(3));
      r := RunContainer(me, c, others);
      var ok := CleanUp(me, c, others);
      if !ok {
        r := Err(CleanupFailed);
      }
    }
  }
}
