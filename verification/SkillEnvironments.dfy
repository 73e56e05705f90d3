/**
 The table of dependency builds (services/sandbox-manager/app/skill_environments.py,
 start, status and ready_image): one future per image, one worker, and callers that
 look at the bundle and at the engine outside the lock and at the table inside it.
 ready_image names its image twice, once itself and once through start.
*/
module SkillEnvironments {
  import opened Common

  type Tid = nat
  type Digest = string
  type BaseId = nat
  type BuildId = nat

  /** The name of an image is a hash of the base image's id and the bundle's digest. */
  datatype Image = Image(base: BaseId, digest: Digest)

  datatype Status = Queued | Running | Succeeded | Failed

  datatype Build = Build(image: Image, status: Status)

  /** Which function names its image or asks the engine for it. */
  datatype Caller =
    | InStart(retry: bool)
    | InStatus
    | InResume                  // start, called by status
    | InReady
    | InEnsure(wanted: Image)   // start, called by ready_image once it has named its image

  datatype Outcome =
    | Ready | NotRequired | Preparing | FailedBuild                      // start, status
    | ImageReady(image: Image) | BaseImage | StillPreparing | PreparationFailed
    | NoFuture                                                           // ready_image; the last one is a KeyError
    | Rejected                                                           // a ValueError for the bundle or the base
    | EngineError

  datatype Thread =
    | Idle
    | Naming(digest: Digest, caller: Caller)   // before it looks at the bundle
    | Basing(digest: Digest, caller: Caller)   // the bundle has dependencies; before it asks for the base image
    | Asking(image: Image, caller: Caller)     // before it asks the engine for the image
    | Locking(image: Image, caller: Caller)    // in start, before the lock: the engine had no image
    | Reporting(image: Image, id: BuildId)     // has a future in hand, the lock is free again
    | Peeking(image: Image)                    // in status, before the lock
    | Fetching(image: Image)                   // in ready_image, before it reads the table
    | Holding(image: Image, id: BuildId)       // waits for the result of a future
    | Done(outcome: Outcome)

  datatype State = State(
    images: set<Image>,             // dependency images the engine has
    base: Option<BaseId>,           // the image that bears the name of the base image
    bundles: map<Digest, bool>,     // cached bundles with one root, and whether that has dependency files
    pending: map<Image, BuildId>,
    builds: map<BuildId, Build>,
    next: BuildId,
    threads: map<Tid, Thread>)

  datatype Action =
    | Call(t: Tid, digest: Digest, caller: Caller)
    | LookAtBundle(t: Tid)
    | AskBase(t: Tid)
    | CheckImage(t: Tid)
    | EngineRaises(t: Tid)
    | Submit(t: Tid)
    | Report(t: Tid)
    | Peek(t: Tid)
    | Fetch(t: Tid)
    | Await(t: Tid)
    | Leave(t: Tid)
    | RunBuild(id: BuildId)
    | EndBuild(id: BuildId, ok: bool, committed: bool)
    | Outside(image: Image, present: bool)
    | Retag(base: Option<BaseId>)
    | Repack(digest: Digest, needs: Option<bool>)

  function ThreadOf(s: State, t: Tid): Thread {
    if t in s.threads then s.threads[t] else Idle
  }

  function Go(s: State, t: Tid, th: Thread): Option<State> {
    Some(s.(threads := s.threads[t := th]))
  }

  predicate IsFinished(b: Build) {
    b.status == Succeeded || b.status == Failed
  }

  /** Whether the bundle has dependency files; None if it is missing, malformed or ambiguous. */
  function NeedsOf(s: State, digest: Digest): Option<bool> {
    if digest in s.bundles then Some(s.bundles[digest]) else None
  }

  /** Where a caller goes on without an image to prepare. */
  function WithoutImage(caller: Caller): Thread {
    match caller
    case InReady => Done(BaseImage)
    case InEnsure(wanted) => Fetching(wanted)
    case _ => Done(NotRequired)
  }

  /** Where a caller goes on when the engine has its image. */
  function WithImage(image: Image, caller: Caller): Thread {
    match caller
    case InReady => Done(ImageReady(image))
    case InEnsure(wanted) => Fetching(wanted)
    case _ => Done(Ready)
  }

  /** And when the engine has not. */
  function MissingImage(image: Image, caller: Caller): Thread {
    match caller
    case InReady => Naming(image.digest, InEnsure(image))
    case InStatus => Peeking(image)
    case _ => Locking(image, caller)
  }

  /** Under the lock of start: is a new build to be submitted? */
  predicate Submits(pending: map<Image, BuildId>, builds: map<BuildId, Build>, image: Image, caller: Caller) {
    || image !in pending
    || pending[image] !in builds
    || (IsFinished(builds[pending[image]]) && (builds[pending[image]].status == Succeeded || caller == InStart(true)))
  }

  /** Where start goes on once its caller has a future. */
  function AfterStart(image: Image, caller: Caller, id: BuildId): Thread {
    match caller
    case InEnsure(wanted) => Fetching(wanted)
    case _ => Reporting(image, id)
  }

  predicate IsEntry(caller: Caller) {
    caller.InStart? || caller.InStatus? || caller.InReady?
  }

  /** The steps up to the lock. */
  function StepNaming(s: State, a: Action, th: Thread): Option<State> {
    match a
    case Call(t, digest, caller) =>
      if th.Idle? && IsEntry(caller) then Go(s, t, Naming(digest, caller)) else None
    case LookAtBundle(t) =>
      if !th.Naming? then None
      else Go(s, t, match NeedsOf(s, th.digest)
                    case None => Done(Rejected)
                    case Some(needs) => if needs then Basing(th.digest, th.caller) else WithoutImage(th.caller))
    case AskBase(t) =>
      if !th.Basing? then None
      else Go(s, t, if s.base.None? then Done(Rejected) else Asking(Image(s.base.value, th.digest), th.caller))
    case CheckImage(t) =>
      if !th.Asking? then None
      else Go(s, t, if th.image in s.images then WithImage(th.image, th.caller) else MissingImage(th.image, th.caller))
    case EngineRaises(t) =>
      if th.Basing? || th.Asking? then Go(s, t, Done(EngineError)) else None
    case _ => None
  }

  function StepThread(s: State, a: Action, th: Thread): Option<State> {
    match a
    case Submit(t) =>
      if !th.Locking? then None
      else if Submits(s.pending, s.builds, th.image, th.caller)
      then Go(s.(pending := s.pending[th.image := s.next], builds := s.builds[s.next := Build(th.image, Queued)],
                 next := s.next + 1),
              t, AfterStart(th.image, th.caller, s.next))
      else Go(s, t, AfterStart(th.image, th.caller, s.pending[th.image]))
    case Report(t) =>
      if th.Reporting? && th.id in s.builds
      then Go(s, t, Done(if s.builds[th.id].status == Failed then FailedBuild else Preparing))
      else None
    case Peek(t) =>
      if !th.Peeking? then None
      else Go(s, t, if th.image in s.pending then Reporting(th.image, s.pending[th.image])
                    else Naming(th.image.digest, InResume))
    case Fetch(t) =>
      if !th.Fetching? then None
      else Go(s, t, if th.image in s.pending then Holding(th.image, s.pending[th.image]) else Done(NoFuture))
    case Await(t) =>
      if th.Holding? && th.id in s.builds
      then Go(s, t, Done(match s.builds[th.id].status
                         case Succeeded => ImageReady(th.image)
                         case Failed => PreparationFailed
                         case _ => StillPreparing))
      else None
    case Leave(t) => if th.Done? then Go(s, t, Idle) else None
    case _ => StepNaming(s, a, th)
  }

  predicate IsThreadStep(a: Action) {
    !IsWorkerStep(a) && !a.Outside? && !a.Retag? && !a.Repack?
  }

  predicate IsWorkerStep(a: Action) {
    a.RunBuild? || a.EndBuild?
  }

  function Step(s: State, a: Action): Option<State> {
    match a
    case RunBuild(id) =>
      if id in s.builds && s.builds[id].status == Queued
         && (forall b :: b in s.builds ==> s.builds[b].status != Running)
      then Some(s.(builds := s.builds[id := s.builds[id].(status := Running)]))
      else None
    case EndBuild(id, ok, committed) =>
      // A build that has committed its image can still fail in its clean-up.
      if id in s.builds && s.builds[id].status == Running && (ok ==> committed)
      then Some(s.(builds := s.builds[id := s.builds[id].(status := if ok then Succeeded else Failed)],
                   images := if committed then s.images + {s.builds[id].image} else s.images))
      else None
    case Outside(image, present) => Some(s.(images := if present then s.images + {image} else s.images - {image}))
    case Retag(base) => Some(s.(base := base))
    case Repack(digest, needs) =>
      Some(s.(bundles := if needs.Some? then s.bundles[digest := needs.value] else s.bundles - {digest}))
    case _ => StepThread(s, a, ThreadOf(s, a.t))
  }

  /** A manager that has just been started: no futures, whatever the engine and the cache have. */
  function Init(images: set<Image>, base: Option<BaseId>, bundles: map<Digest, bool>): State {
    State(images, base, bundles, map[], map[], 0, map[])
  }

  ghost predicate EnvironmentsRun(run: seq<State>, actions: seq<Action>) {
    && |run| > 0
    && run[0] == Init(run[0].images, run[0].base, run[0].bundles)
    && IsRun(run[0], (s: State, a: Action) => Step(s, a), run, actions)
  }

  // ---------------------------------------------------------------- the invariant

  /**
   Unfinished builds are exactly where the table says, so there is one per image at
   most; the worker runs one at a time.
  */
  predicate Futures(s: State) {
    && (forall image :: image in s.pending ==>
          s.pending[image] in s.builds && s.builds[s.pending[image]].image == image)
    && (forall id :: id in s.builds ==> id < s.next)
    && (forall id :: id in s.builds && !IsFinished(s.builds[id]) ==>
          s.builds[id].image in s.pending && s.pending[s.builds[id].image] == id)
    && (forall id :: id in s.builds ==> s.builds[id].image in s.pending)
    && (forall a, b :: a in s.builds && b in s.builds && s.builds[a].status == Running && s.builds[b].status == Running
          ==> a == b)
  }

  /** A future in hand exists and is one of the image. */
  predicate InHand(s: State, th: Thread) {
    (th.Reporting? || th.Holding?) ==> th.id in s.builds && s.builds[th.id].image == th.image
  }

  predicate Inv(s: State) {
    Futures(s) && forall t :: t in s.threads ==> InHand(s, s.threads[t])
  }

  /** What no step takes back. */
  predicate Grows(s: State, s': State) {
    && (forall image :: image in s.pending ==> image in s'.pending)
    && (forall id :: id in s.builds ==> id in s'.builds && s'.builds[id].image == s.builds[id].image)
  }

  lemma SubmitFutures(s: State, s': State, image: Image)
    requires Futures(s) && (image in s.pending ==> IsFinished(s.builds[s.pending[image]]))
    requires s'.pending == s.pending[image := s.next] && s'.builds == s.builds[s.next := Build(image, Queued)]
    requires s'.next == s.next + 1
    ensures Futures(s') && Grows(s, s')
  {}

  lemma StatusFutures(s: State, s': State, id: BuildId, status: Status)
    requires Futures(s) && id in s.builds && !IsFinished(s.builds[id])
    requires status == Running ==> forall b :: b in s.builds ==> s.builds[b].status != Running
    requires status != Queued
    requires s'.builds == s.builds[id := s.builds[id].(status := status)]
    requires s'.pending == s.pending && s'.next == s.next
    ensures Futures(s') && Grows(s, s')
  {}

  /** Only these steps touch the table or the builds. */
  lemma QuietStep(s: State, a: Action, s': State)
    requires Step(s, a) == Some(s') && !a.Submit? && !IsWorkerStep(a)
    ensures s'.pending == s.pending && s'.builds == s.builds && s'.next == s.next
  {}

  lemma SameTable(s: State, s': State)
    requires Futures(s) && s'.pending == s.pending && s'.builds == s.builds && s'.next == s.next
    ensures Futures(s') && Grows(s, s')
  {}

  lemma SubmitStep(s: State, t: Tid, s': State)
    requires Futures(s) && Step(s, Submit(t)) == Some(s')
    ensures Futures(s') && Grows(s, s')
  {
    if s'.next == s.next {
      SameTable(s, s');
    } else {
      SubmitFutures(s, s', ThreadOf(s, t).image);
    }
  }

  lemma WorkerStep(s: State, a: Action, s': State)
    requires Futures(s) && Step(s, a) == Some(s') && IsWorkerStep(a)
    ensures Futures(s') && Grows(s, s')
  {
    match a
    case RunBuild(id) => StatusFutures(s, s', id, Running);
    case EndBuild(id, ok, _) => StatusFutures(s, s', id, if ok then Succeeded else Failed);
  }

  lemma KeepsFutures(s: State, a: Action, s': State)
    requires Futures(s) && Step(s, a) == Some(s')
    ensures Futures(s') && Grows(s, s')
  {
    match a
    case RunBuild(_) => WorkerStep(s, a, s');
    case EndBuild(_, _, _) => WorkerStep(s, a, s');
    case Submit(t) => SubmitStep(s, t, s');
    case _ =>
      QuietStep(s, a, s');
      SameTable(s, s');
  }

  /** A thread moves itself only, and nobody else moves it. */
  lemma ThreadFrame(s: State, a: Action, s': State)
    requires Step(s, a) == Some(s')
    ensures if IsThreadStep(a)
            then a.t in s'.threads && s'.threads == s.threads[a.t := s'.threads[a.t]]
                 && s'.images == s.images && s'.base == s.base && s'.bundles == s.bundles
            else s'.threads == s.threads
  {}

  lemma StepInHand(s: State, a: Action, s': State)
    requires Inv(s) && Futures(s') && Step(s, a) == Some(s') && IsThreadStep(a)
    ensures a.t in s'.threads && InHand(s', s'.threads[a.t])
  {
    ThreadFrame(s, a, s');
    if a.Submit? {
      var image := ThreadOf(s, a.t).image;
      assert image in s'.pending && s'.pending[image] in s'.builds;
    } else {
      QuietStep(s, a, s');
    }
  }

  lemma HandsGrow(s: State, s': State, th: Thread)
    requires InHand(s, th) && Grows(s, s')
    ensures InHand(s', th)
  {}

  lemma StepKeeps(s: State, a: Action, s': State)
    requires Inv(s) && Step(s, a) == Some(s')
    ensures Inv(s') && Grows(s, s')
  {
    KeepsFutures(s, a, s');
    ThreadFrame(s, a, s');
    if IsThreadStep(a) {
      StepInHand(s, a, s');
    }
    forall t | t in s'.threads ensures InHand(s', s'.threads[t]) {
      if t in s.threads && s'.threads[t] == s.threads[t] {
        HandsGrow(s, s', s.threads[t]);
      }
    }
  }

  lemma RunInvariant(run: seq<State>, actions: seq<Action>, i: nat)
    requires EnvironmentsRun(run, actions) && i < |run|
    ensures Inv(run[i])
  {
    var step := (s: State, a: Action) => Step(s, a);
    var inv := (s: State) => Inv(s);
    forall s, a | inv(s) && step(s, a).Some? ensures inv(step(s, a).value) {
      StepKeeps(s, a, step(s, a).value);
    }
    RunInduction(run[0], step, inv, run, actions, i);
  }

  ghost predicate ReachedBy(s: State, run: seq<State>, actions: seq<Action>) {
    EnvironmentsRun(run, actions) && s == run[|run| - 1]
  }

  /** Some run of the manager ends in this state. */
  ghost predicate Reachable(s: State) {
    exists run, actions :: ReachedBy(s, run, actions)
  }

  lemma ReachableInv(s: State)
    requires Reachable(s)
    ensures Inv(s)
  {
    var run, actions :| ReachedBy(s, run, actions);
    RunInvariant(run, actions, |run| - 1);
  }

  lemma ReachableInit(images: set<Image>, base: Option<BaseId>, bundles: map<Digest, bool>)
    ensures Reachable(Init(images, base, bundles))
  {
    assert ReachedBy(Init(images, base, bundles), [Init(images, base, bundles)], []);
  }

  lemma ReachableStep(s: State, a: Action, s': State)
    requires Reachable(s) && Step(s, a) == Some(s')
    ensures Reachable(s')
  {
    var run, actions :| ReachedBy(s, run, actions);
    RunExtend(run[0], (s: State, a: Action) => Step(s, a), run, actions, a, s');
    assert ReachedBy(s', run + [s'], actions + [a]);
  }

  // ---------------------------------------------------------------- what every run keeps

  /**
   At any moment there is at most one unfinished build per image, it is the one in the
   table, and one build at most is running.
  */
  lemma OneUnfinishedBuild(s: State, a: BuildId, b: BuildId)
    requires Reachable(s) && a in s.builds && b in s.builds && !IsFinished(s.builds[a]) && !IsFinished(s.builds[b])
    ensures s.builds[a].image in s.pending && s.pending[s.builds[a].image] == a
    ensures s.builds[a].image == s.builds[b].image ==> a == b
    ensures s.builds[a].status == Running && s.builds[b].status == Running ==> a == b
  {
    ReachableInv(s);
  }

  /**
     A future is replaced only when its build is over, by a start that found no image
     before the lock; a failed one only by a start with retry_failed. No entry ever
     disappears.
  */
  lemma OnlyRetryReplacesFailure(s: State, a: Action, s': State, image: Image)
    requires Reachable(s) && Step(s, a) == Some(s') && image in s.pending
    ensures image in s'.pending && s.pending[image] in s.builds && s'.pending[image] in s'.builds
    ensures s'.pending[image] != s.pending[image] ==>
      && a.Submit? && ThreadOf(s, a.t).Locking? && ThreadOf(s, a.t).image == image
      && s.builds[s.pending[image]].status in {Succeeded, Failed}
      && (s.builds[s.pending[image]].status == Failed ==> ThreadOf(s, a.t).caller == InStart(true))
      && s'.pending[image] !in s.builds && s'.builds[s'.pending[image]] == Build(image, Queued)
  {
    ReachableInv(s);
  }

  /** A finished build keeps its outcome. */
  lemma OutcomeIsFinal(s: State, a: Action, s': State, id: BuildId)
    requires Reachable(s) && Step(s, a) == Some(s') && id in s.builds && IsFinished(s.builds[id])
    ensures id in s'.builds && s'.builds[id] == s.builds[id]
  {
    ReachableInv(s);
  }

  /**
   A caller that waits for a build while it runs is told how it ended: the image when it
   succeeded, and then the engine has it, and the failure otherwise; before the end it
   is told that the build goes on.
  */
  lemma BuildReachesCaller(s: State, t: Tid, ok: bool) returns (ended: State, told: State, early: State)
    requires Reachable(s) && ThreadOf(s, t).Holding?
    requires ThreadOf(s, t).id in s.builds && s.builds[ThreadOf(s, t).id].status == Running
    ensures var th := ThreadOf(s, t);
      && Step(s, EndBuild(th.id, ok, ok)) == Some(ended) && (ok ==> th.image in ended.images)
      && Step(ended, Await(t)) == Some(told)
      && ThreadOf(told, t) == Done(if ok then ImageReady(th.image) else PreparationFailed)
      && Step(s, Await(t)) == Some(early) && ThreadOf(early, t) == Done(StillPreparing)
  {
    ReachableInv(s);
    var th := ThreadOf(s, t);
    assert InHand(s, th);
    ended := Step(s, EndBuild(th.id, ok, ok)).value;
    ThreadFrame(s, EndBuild(th.id, ok, ok), ended);
    told := Step(ended, Await(t)).value;
    early := Step(s, Await(t)).value;
  }

  // ---------------------------------------------------------------- nobody waits

  /** An upper bound on the steps left in a call. */
  function StepsLeft(th: Thread): (n: nat)
    ensures n <= 10 && (n == 0 <==> th.Idle?)
  {
    match th
    case Idle => 0
    case Done(_) => 1
    case Holding(_, _) => 2
    case Reporting(_, _) => 2
    case Fetching(_) => 3
    case Locking(_, caller) => if caller.InEnsure? then 4 else 3
    case Peeking(_) => 7
    case Asking(_, caller) => StepsOfQuestion(caller)
    case Basing(_, caller) => StepsOfQuestion(caller) + 1
    case Naming(_, caller) => StepsOfQuestion(caller) + 2
  }

  /** The steps left once a caller has named its image. */
  function StepsOfQuestion(caller: Caller): nat {
    match caller
    case InReady => 8
    case InStatus => 8
    case InEnsure(_) => 5
    case _ => 4
  }

  predicate Own(a: Action, t: Tid) {
    IsThreadStep(a) && a.t == t
  }

  function OwnSteps(actions: seq<Action>, t: Tid): nat {
    |Filter((a: Action) => Own(a, t), actions)|
  }

  lemma OwnStepsSnoc(actions: seq<Action>, a: Action, t: Tid)
    ensures OwnSteps(actions + [a], t) == OwnSteps(actions, t) + (if Own(a, t) then 1 else 0)
  {
    FilterSnoc((b: Action) => Own(b, t), actions, a);
  }

  /** Inside a call there is always a next step of the caller's own. */
  lemma NextStep(s: State, t: Tid) returns (a: Action)
    requires Reachable(s) && !ThreadOf(s, t).Idle?
    ensures Own(a, t) && Step(s, a).Some?
  {
    ReachableInv(s);
    assert InHand(s, s.threads[t]);
    match s.threads[t]
    case Naming(_, _) => a := LookAtBundle(t);
    case Basing(_, _) => a := AskBase(t);
    case Asking(_, _) => a := CheckImage(t);
    case Locking(_, _) => a := Submit(t);
    case Reporting(_, _) => a := Report(t);
    case Peeking(_) => a := Peek(t);
    case Fetching(_) => a := Fetch(t);
    case Holding(_, _) => a := Await(t);
    case Done(_) => a := Leave(t);
  }

  lemma OwnShortens(s: State, a: Action, t: Tid, s': State)
    requires Step(s, a) == Some(s') && Own(a, t) && !ThreadOf(s, t).Idle?
    ensures StepsLeft(ThreadOf(s', t)) < StepsLeft(ThreadOf(s, t))
  {}

  lemma OthersStay(s: State, a: Action, s': State, t: Tid)
    requires Step(s, a) == Some(s') && !Own(a, t)
    ensures ThreadOf(s', t) == ThreadOf(s, t)
  {
    ThreadFrame(s, a, s');
  }

  /** A stretch of a run, from a reachable state, in which thread `t` stays inside one call. */
  ghost predicate InsideCall(run: seq<State>, actions: seq<Action>, t: Tid) {
    && |run| == |actions| + 1 && Reachable(run[0])
    && forall i :: 0 <= i < |actions| ==> !ThreadOf(run[i], t).Idle? && Step(run[i], actions[i]) == Some(run[i + 1])
  }

  lemma {:induction false} OwnStepsShorten(run: seq<State>, actions: seq<Action>, t: Tid)
    requires InsideCall(run, actions, t)
    ensures OwnSteps(actions, t) + StepsLeft(ThreadOf(run[|actions|], t)) <= StepsLeft(ThreadOf(run[0], t))
    ensures Reachable(run[|actions|])
    decreases |actions|
  {
    var n := |actions|;
    if n > 0 {
      var last := n - 1;
      OwnStepsShorten(run[..n], actions[..last], t);
      if Own(actions[last], t) {
        OwnShortens(run[last], actions[last], t, run[n]);
      } else {
        OthersStay(run[last], actions[last], run[n], t);
      }
      ReachableStep(run[last], actions[last], run[n]);
      OwnStepsSnoc(actions[..last], actions[last], t);
      assert actions[..last] + [actions[last]] == actions;
    }
  }

  /**
   Nobody waits for anybody but for the clock: whatever the others, the worker and the
   engine do in between, a call of start, status or ready_image takes at most ten more
   steps of its own, and until it is over it can always take the next one.
  */
  lemma WaitFree(run: seq<State>, actions: seq<Action>, t: Tid)
    requires InsideCall(run, actions, t)
    ensures OwnSteps(actions, t) <= 10
    ensures !ThreadOf(run[|actions|], t).Idle? ==> exists a :: Own(a, t) && Step(run[|actions|], a).Some?
  {
    OwnStepsShorten(run, actions, t);
    if !ThreadOf(run[|actions|], t).Idle? {
      var a := NextStep(run[|actions|], t);
    }
  }

  // ---------------------------------------------------------------- the worker

  predicate Unfinished(b: Build) {
    !IsFinished(b)
  }

  predicate Waiting(b: Build) {
    b.status == Queued
  }

  /** The worker steps it takes to finish the builds there are: one to end each, one to start those that wait. */
  function Work(builds: map<BuildId, Build>): nat {
    |Where(builds, Unfinished)| + |Where(builds, Waiting)|
  }

  lemma WorkUpdate(builds: map<BuildId, Build>, id: BuildId, b: Build)
    ensures Work(builds[id := b]) == Work(builds)
      - (if id in builds && Unfinished(builds[id]) then 1 else 0) + (if Unfinished(b) then 1 else 0)
      - (if id in builds && Waiting(builds[id]) then 1 else 0) + (if Waiting(b) then 1 else 0)
  {
    CountUpdate(builds, Unfinished, id, b);
    CountUpdate(builds, Waiting, id, b);
  }

  lemma AddWork(builds: map<BuildId, Build>, id: BuildId, image: Image)
    requires id !in builds
    ensures var more := builds[id := Build(image, Queued)];
      Work(more) == Work(builds) + 2 && |more| == |builds| + 1
  {
    WorkUpdate(builds, id, Build(image, Queued));
    assert builds[id := Build(image, Queued)].Keys == builds.Keys + {id};
  }

  lemma DoWork(builds: map<BuildId, Build>, id: BuildId, status: Status)
    requires id in builds
    requires if status == Running then builds[id].status == Queued else builds[id].status == Running && status != Queued
    ensures var done := builds[id := builds[id].(status := status)];
      Work(done) + 1 == Work(builds) && |done| == |builds|
  {
    WorkUpdate(builds, id, builds[id].(status := status));
    assert builds[id := builds[id].(status := status)].Keys == builds.Keys;
  }

  lemma SubmitWork(s: State, t: Tid, s': State)
    requires Futures(s) && Step(s, Submit(t)) == Some(s')
    ensures Work(s'.builds) == Work(s.builds) + 2 * (|s'.builds| - |s.builds|)
  {
    if s'.next != s.next {
      AddWork(s.builds, s.next, ThreadOf(s, t).image);
    }
  }

  lemma StepWork(s: State, a: Action, s': State)
    requires Futures(s) && Step(s, a) == Some(s')
    ensures Work(s'.builds) + (if IsWorkerStep(a) then 1 else 0) == Work(s.builds) + 2 * (|s'.builds| - |s.builds|)
  {
    match a
    case RunBuild(id) => DoWork(s.builds, id, Running);
    case EndBuild(id, ok, _) => DoWork(s.builds, id, if ok then Succeeded else Failed);
    case Submit(t) => SubmitWork(s, t, s');
    case _ => QuietStep(s, a, s');
  }

  lemma StepBalance(before: seq<Action>, s: State, a: Action, s': State)
    requires Inv(s) && Step(s, a) == Some(s') && WorkerSteps(before) + Work(s.builds) == 2 * |s.builds|
    ensures WorkerSteps(before + [a]) + Work(s'.builds) == 2 * |s'.builds|
  {
    StepWork(s, a, s');
    FilterSnoc(IsWorkerStep, before, a);
  }

  function WorkerSteps(actions: seq<Action>): nat {
    |Filter(IsWorkerStep, actions)|
  }

  lemma RunPrefix(run: seq<State>, actions: seq<Action>)
    requires EnvironmentsRun(run, actions) && |actions| > 0
    ensures var last := |actions| - 1;
      && EnvironmentsRun(run[..|actions|], actions[..last])
      && Inv(run[last]) && Step(run[last], actions[last]) == Some(run[|actions|])
  {
    RunInvariant(run, actions, |actions| - 1);
  }

  /** In every run the steps of the worker and the work left make two for each build that was ever submitted. */
  lemma {:induction false} WorkBalance(run: seq<State>, actions: seq<Action>)
    requires EnvironmentsRun(run, actions)
    ensures WorkerSteps(actions) + Work(run[|actions|].builds) == 2 * |run[|actions|].builds|
    decreases |actions|
  {
    var n := |actions|;
    if n > 0 {
      var last := n - 1;
      RunPrefix(run, actions);
      WorkBalance(run[..n], actions[..last]);
      assert actions[..last] + [actions[last]] == actions;
      StepBalance(actions[..last], run[last], actions[last], run[n]);
    }
  }

  /**
   Every submitted build costs the worker two steps, neither more nor less, in every run;
   while one is unfinished there is work left, and the worker can take its next step.
  */
  lemma EveryBuildEnds(run: seq<State>, actions: seq<Action>)
    requires EnvironmentsRun(run, actions)
    ensures var s := run[|actions|];
      && (WorkerSteps(actions) == 2 * |s.builds| <==> forall id :: id in s.builds ==> IsFinished(s.builds[id]))
      && (WorkerSteps(actions) < 2 * |s.builds| ==> exists a :: IsWorkerStep(a) && Step(s, a).Some?)
  {
    var s := run[|actions|];
    WorkBalance(run, actions);
    if id :| id in s.builds && !IsFinished(s.builds[id]) {
      assert id in Where(s.builds, Unfinished);
      var a := WorkerNext(s, id);
    } else {
      assert Where(s.builds, Unfinished) == {} && Where(s.builds, Waiting) == {};
    }
  }

  lemma WorkerNext(s: State, id: BuildId) returns (a: Action)
    requires id in s.builds && !IsFinished(s.builds[id])
    ensures IsWorkerStep(a) && Step(s, a).Some?
  {
    if b :| b in s.builds && s.builds[b].status == Running {
      a := EndBuild(b, false, false);
    } else {
      a := RunBuild(id);
    }
  }
}
