/**
 start, status and ready_image (services/sandbox-manager/app/skill_environments.py) as
 one thread runs them, with builds, other callers and the outside world going on in
 between.
*/
module SkillEnvironmentsManager {
  import opened Common
  import opened SkillEnvironments
  import opened SkillEnvironmentsFutures

  /** A step of anyone else, if it is one and it is enabled. */
  function Interfere(s: State, me: Tid, a: Action): (r: State)
    requires Reachable(s)
    ensures Reachable(r) && ThreadOf(r, me) == ThreadOf(s, me)
  {
    if !Own(a, me) && Step(s, a).Some? then
      var r := Step(s, a).value;
      ReachableStep(s, a, r);
      OthersStay(s, a, r, me);
      r
    else s
  }

  lemma TakeStep(s: State, a: Action) returns (r: State)
    requires Reachable(s) && Step(s, a).Some?
    ensures Step(s, a) == Some(r) && Reachable(r)
  {
    r := Step(s, a).value;
    ReachableStep(s, a, r);
  }

  /** Nobody re-tags the base image, replaces the bundle or brings in an image of it. */
  predicate Leaves(a: Action, digest: Digest) {
    && !a.Retag?
    && (a.Repack? ==> a.digest != digest)
    && (a.Outside? && a.image.digest == digest ==> !a.present)
  }

  ghost predicate AllLeave(schedule: seq<Action>, digest: Digest) {
    forall a :: a in schedule ==> Leaves(a, digest)
  }

  /** What a stretch keeps in which nothing disturbs a call for the bundle: its name, and the way to its future. */
  ghost predicate Unmoved(s: State, s': State, me: Tid, digest: Digest) {
    && s'.base == s.base && NeedsOf(s', digest) == NeedsOf(s, digest)
    && (forall image: Image :: image.digest == digest && WillFind(s, me, image) ==> WillFind(s', me, image))
  }

  lemma UnmovedTwice(s: State, s': State, s'': State, me: Tid, digest: Digest)
    requires Unmoved(s, s', me, digest) && Unmoved(s', s'', me, digest)
    ensures Unmoved(s, s'', me, digest)
  {}

  lemma KeepsWay(s: State, a: Action, s': State, me: Tid, image: Image)
    requires WillFind(s, me, image) && Step(s, a) == Some(s') && Leaves(a, image.digest)
    requires Own(a, me) ==> !ThreadOf(s, me).Idle?
    ensures WillFind(s', me, image)
  {
    if ThreadOf(s, me).Idle? {
      StepKeeps(s, a, s');
      OthersStay(s, a, s', me);
    } else {
      KeepsFinding(s, a, s', me, image);
    }
  }

  lemma StepUnmoved(s: State, a: Action, s': State, me: Tid, digest: Digest)
    requires Step(s, a) == Some(s') && Leaves(a, digest) && (Own(a, me) ==> !ThreadOf(s, me).Idle?)
    ensures Unmoved(s, s', me, digest)
  {
    if IsThreadStep(a) {
      ThreadFrame(s, a, s');
    }
    forall image: Image | image.digest == digest && WillFind(s, me, image) ensures WillFind(s', me, image) {
      KeepsWay(s, a, s', me, image);
    }
  }

  /** The state of the image's future, if the table has one. */
  function EntryOf(s: State, image: Image): Option<Status> {
    if image in s.pending && s.pending[image] in s.builds then Some(s.builds[s.pending[image]].status) else None
  }

  predicate IsReplaceable(entry: Option<Status>, retry: bool) {
    entry == None || entry == Some(Succeeded) || (entry == Some(Failed) && retry)
  }

  /** `future.result(timeout)`: an unfinished build times out. */
  function ResultOf(image: Image, status: Status): Outcome {
    match status
    case Succeeded => ImageReady(image)
    case Failed => PreparationFailed
    case _ => StillPreparing
  }

  /** The state of the future a caller gets from start: a new one if the old one may be replaced. */
  function AfterSubmit(entry: Option<Status>, retry: bool): Status {
    if IsReplaceable(entry, retry) || entry.None? then Queued else entry.value
  }

  /** What becomes of a name: an image to ask for, none needed, or an exception. */
  datatype Name = Named(image: Image) | NoneNeeded | Raised(outcome: Outcome)

  function NameOf(s: State, digest: Digest): Name {
    match NeedsOf(s, digest)
    case None => Raised(Rejected)
    case Some(needs) =>
      if !needs then NoneNeeded
      else if s.base.None? then Raised(Rejected)
      else Named(Image(s.base.value, digest))
  }

  /** The answer of start to a thread that nobody and nothing disturbs. */
  function StartAnswer(s: State, digest: Digest, retry: bool): Outcome {
    match NameOf(s, digest)
    case Raised(outcome) => outcome
    case NoneNeeded => NotRequired
    case Named(image) =>
      if image in s.images then Ready
      else if EntryOf(s, image) == Some(Failed) && !retry then FailedBuild
      else Preparing
  }

  /** And that of ready_image. */
  function ReadyAnswer(s: State, digest: Digest): Outcome {
    match NameOf(s, digest)
    case Raised(outcome) => outcome
    case NoneNeeded => BaseImage
    case Named(image) =>
      if image in s.images then ImageReady(image)
      else if EntryOf(s, image) == Some(Failed) then PreparationFailed
      else StillPreparing
  }

  predicate IsStart(caller: Caller) {
    caller.InStart? || caller.InResume? || caller.InEnsure?
  }

  /** Where a thread can be after start: it has an outcome, or it goes on with a future. */
  predicate StartedFrom(before: Thread, after: Thread)
    requires before.Naming?
  {
    match before.caller
    case InEnsure(wanted) => after == Fetching(wanted) || after == Done(Rejected) || after == Done(EngineError)
    case _ =>
      || (after.Reporting? && after.image.digest == before.digest)
      || (after.Done? && after.outcome in {Ready, NotRequired, Rejected, EngineError})
  }

  /** What start does for a thread that nobody and nothing disturbs. */
  predicate QuietStart(s: State, s': State, before: Thread, after: Thread)
    requires before.Naming?
  {
    match NameOf(s, before.digest)
    case Raised(outcome) => after == Done(outcome) && s' == s.(threads := s'.threads)
    case NoneNeeded => after == WithoutImage(before.caller) && s' == s.(threads := s'.threads)
    case Named(image) => QuietAsk(s, s', image, before.caller, after)
  }

  predicate QuietAsk(s: State, s': State, image: Image, caller: Caller, after: Thread) {
    if image in s.images then after == WithImage(image, caller) && s' == s.(threads := s'.threads)
    else
      && image in s'.pending && s'.pending[image] in s'.builds
      && after == AfterStart(image, caller, s'.pending[image])
      && s'.builds[s'.pending[image]].status == AfterSubmit(EntryOf(s, image), caller == InStart(true))
  }

  predicate OnlyThreads(s: State, s': State) {
    s' == s.(threads := s'.threads)
  }

  /** Answers do not depend on where the threads are. */
  lemma SameAnswers(s: State, s': State, digest: Digest, retry: bool)
    requires OnlyThreads(s, s')
    ensures StartAnswer(s', digest, retry) == StartAnswer(s, digest, retry)
    ensures ReadyAnswer(s', digest) == ReadyAnswer(s, digest)
  {}

  /** Where a thread is after the first half of status or ready_image. */
  predicate AskedFrom(before: Thread, after: Thread)
    requires before.Naming?
  {
    || (before.caller.InReady? && after.Naming? && after.digest == before.digest
        && after.caller.InEnsure? && after.caller.wanted.digest == before.digest)
    || (before.caller.InStatus? && after.Peeking? && after.image.digest == before.digest)
    || after == Done(Rejected) || after == Done(EngineError) || after == WithoutImage(before.caller)
    || (before.caller.InStatus? && after == Done(Ready))
    || (before.caller.InReady? && after.Done? && after.outcome.ImageReady?
        && after.outcome.image.digest == before.digest)
  }

  function AfterAsking(s: State, digest: Digest, caller: Caller): Thread {
    match NameOf(s, digest)
    case Raised(outcome) => Done(outcome)
    case NoneNeeded => WithoutImage(caller)
    case Named(image) => if image in s.images then WithImage(image, caller) else MissingImage(image, caller)
  }

  lemma StatusAfterAsking(s: State, digest: Digest)
    ensures var th := AfterAsking(s, digest, InStatus);
      && (th.Done? ==> th.outcome == StartAnswer(s, digest, false))
      && (!th.Done? ==> th.Peeking? && NameOf(s, digest) == Named(th.image) && th.image !in s.images
                        && th.image.digest == digest)
  {}

  lemma ReadyAfterAsking(s: State, digest: Digest)
    ensures var th := AfterAsking(s, digest, InReady);
      && (th.Done? ==> th.outcome == ReadyAnswer(s, digest))
      && (!th.Done? ==> th.Naming? && th.caller.InEnsure? && NameOf(s, digest) == Named(th.caller.wanted)
                        && th.caller.wanted !in s.images)
  {}

  /** The future that ready_image reads, when nobody comes in between, has the result of its answer. */
  lemma ReadyResult(s: State, s': State, image: Image)
    requires NameOf(s, image.digest) == Named(image) && image !in s.images
    requires image in s'.pending && s'.pending[image] in s'.builds
    requires s'.builds[s'.pending[image]].status == AfterSubmit(EntryOf(s, image), false)
    ensures EntryOf(s', image).Some? && ResultOf(image, EntryOf(s', image).value) == ReadyAnswer(s, image.digest)
  {}

  /** What the others do between the steps of a call, and which of its questions to the engine raise. */
  datatype Surroundings = Surroundings(others: nat -> seq<Action>, raises: nat -> bool)

  ghost predicate Quiet(around: Surroundings) {
    forall k :: around.others(k) == [] && !around.raises(k)
  }

  /** No disturbance of a call for the bundle, and otherwise anything. */
  ghost predicate Undisturbed(around: Surroundings, digest: Digest) {
    forall k :: AllLeave(around.others(k), digest)
  }

  class EnvironmentTable {
    var images: set<Image>
    var base: Option<BaseId>
    var bundles: map<Digest, bool>
    var pending: map<Image, BuildId>
    var builds: map<BuildId, Build>
    var next: BuildId
    var threads: map<Tid, Thread>

    function View(): State
      reads this
    {
      State(images, base, bundles, pending, builds, next, threads)
    }

    function Mine(me: Tid): Thread
      reads this
    {
      ThreadOf(View(), me)
    }

    ghost predicate Valid()
      reads this
    {
      Reachable(View())
    }

    constructor (images: set<Image>, base: Option<BaseId>, bundles: map<Digest, bool>)
      ensures View() == Init(images, base, bundles) && Valid()
    {
      this.images, this.base, this.bundles := images, base, bundles;
      this.pending, this.builds, this.next, this.threads := map[], map[], 0, map[];
      new;
      ReachableInit(images, base, bundles);
    }

    /** Everything the others manage to do while this thread is between two of its own steps. */
    method Others(me: Tid, schedule: seq<Action>, ghost digest: Digest)
      requires Valid()
      modifies this
      ensures Valid() && Mine(me) == old(Mine(me))
      ensures schedule == [] ==> View() == old(View())
      ensures AllLeave(schedule, digest) ==> Unmoved(old(View()), View(), me, digest)
    {
      ghost var first := View();
      var s := View();
      for i := 0 to |schedule|
        invariant Reachable(s) && ThreadOf(s, me) == ThreadOf(first, me)
        invariant i == 0 ==> s == first
        invariant AllLeave(schedule, digest) ==> Unmoved(first, s, me, digest)
      {
        ghost var before := s;
        s := Interfere(s, me, schedule[i]);
        if s != before && AllLeave(schedule, digest) {
          assert schedule[i] in schedule;
          StepUnmoved(before, schedule[i], s, me, digest);
        }
      }
      images, base, bundles := s.images, s.base, s.bundles;
      pending, builds, next, threads := s.pending, s.builds, s.next, s.threads;
      assert View() == s;
    }

    /** The step that only moves this thread on. */
    method MoveTo(me: Tid, to: Thread, ghost a: Action)
      requires Valid() && Step(View(), a) == Go(View(), me, to) && Own(a, me)
      modifies this`threads
      ensures Valid() && Mine(me) == to && threads == old(threads)[me := to]
      ensures forall digest :: !old(Mine(me)).Idle? ==> Unmoved(old(View()), View(), me, digest)
    {
      ghost var s := View();
      ghost var s' := TakeStep(s, a);
      threads := threads[me := to];
      assert View() == s';
      forall digest | !ThreadOf(s, me).Idle? ensures Unmoved(s, s', me, digest) {
        StepUnmoved(s, a, s', me, digest);
      }
    }

    /** The lock section of start: submit a build unless there is one to be waited for, or a failure to be respected. */
    method SubmitBuild(me: Tid) returns (id: BuildId)
      requires Valid() && Mine(me).Locking?
      modifies this`pending, this`builds, this`next, this`threads
      ensures Valid()
      ensures var th := old(Mine(me));
        && th.image in pending && pending[th.image] == id && id in builds && builds[id].image == th.image
        && Mine(me) == AfterStart(th.image, th.caller, id)
        && (id == old(next) ==> id !in old(builds) && builds == old(builds)[id := Build(th.image, Queued)])
        && (id != old(next) ==> pending == old(pending) && builds == old(builds))
        && (id == old(next) <==> IsReplaceable(EntryOf(old(View()), th.image), th.caller == InStart(true)))
        && builds[id].status == AfterSubmit(EntryOf(old(View()), th.image), th.caller == InStart(true))
      ensures forall digest :: Unmoved(old(View()), View(), me, digest)
    {
      ReachableInv(View());
      var th := threads[me];
      ghost var s := View();
      ghost var s' := TakeStep(s, Submit(me));
      if Submits(pending, builds, th.image, th.caller) {
        id := next;
        builds, pending, next := builds[next := Build(th.image, Queued)], pending[th.image := next], next + 1;
      } else {
        id := pending[th.image];
      }
      threads := threads[me := AfterStart(th.image, th.caller, id)];
      assert View() == s';
      forall digest ensures Unmoved(s, s', me, digest) {
        StepUnmoved(s, Submit(me), s', me, digest);
      }
    }

    /** _image_name: looks at the bundle, then asks for the base image, which may raise. */
    method ImageName(me: Tid, around: Surroundings, at: nat) returns (r: Name)
      requires Valid() && Mine(me).Naming?
      modifies this
      ensures Valid()
      ensures var th := old(Mine(me)); match r
        case Named(image) => Mine(me) == Asking(image, th.caller) && image.digest == th.digest
        case NoneNeeded => Mine(me) == WithoutImage(th.caller)
        case Raised(outcome) => Mine(me) == Done(outcome) && outcome in {Rejected, EngineError}
      ensures Quiet(around) ==>
        r == NameOf(old(View()), old(Mine(me)).digest) && View() == old(View()).(threads := threads)
      ensures Undisturbed(around, old(Mine(me)).digest) ==>
        && Unmoved(old(View()), View(), me, old(Mine(me)).digest)
        && (r == NameOf(old(View()), old(Mine(me)).digest) || r == Raised(EngineError))
    {
      var digest, caller := threads[me].digest, threads[me].caller;
      if digest !in bundles {
        MoveTo(me, Done(Rejected), LookAtBundle(me));
        return Raised(Rejected);
      }
      if !bundles[digest] {
        MoveTo(me, WithoutImage(caller), LookAtBundle(me));
        return NoneNeeded;
      }
      ghost var s := View();
      MoveTo(me, Basing(digest, caller), LookAtBundle(me));
      ghost var s1 := View();
      Others(me, around.others(at), digest);
      ghost var s2 := View();
      r := NameUnderBase(me, around.raises(at));
      if Undisturbed(around, digest) {
        UnmovedTwice(s, s1, s2, me, digest);
        UnmovedTwice(s, s2, View(), me, digest);
      }
    }

    /** The second half of _image_name: the name under the base image there is. */
    method NameUnderBase(me: Tid, raises: bool) returns (r: Name)
      requires Valid() && Mine(me).Basing?
      modifies this`threads
      ensures Valid() && View() == old(View()).(threads := threads)
      ensures r == if raises then Raised(EngineError) else if base.None? then Raised(Rejected)
                   else Named(Image(base.value, old(Mine(me)).digest))
      ensures Mine(me) == if r.Named? then Asking(r.image, old(Mine(me)).caller) else Done(r.outcome)
      ensures forall digest :: Unmoved(old(View()), View(), me, digest)
    {
      var digest, caller := threads[me].digest, threads[me].caller;
      if raises {
        MoveTo(me, Done(EngineError), EngineRaises(me));
        return Raised(EngineError);
      }
      if base.None? {
        MoveTo(me, Done(Rejected), AskBase(me));
        return Raised(Rejected);
      }
      r := Named(Image(base.value, digest));
      MoveTo(me, Asking(r.image, caller), AskBase(me));
    }

    /** image_id for the image a caller has named; None means that the engine raised. */
    method HasImage(me: Tid, around: Surroundings, at: nat) returns (r: Option<bool>)
      requires Valid() && Mine(me).Asking?
      modifies this`threads
      ensures Valid() && View() == old(View()).(threads := threads)
      ensures r == if around.raises(at) then None else Some(old(Mine(me)).image in images)
      ensures var th := old(Mine(me));
        Mine(me) == if r.None? then Done(EngineError)
                    else if r.value then WithImage(th.image, th.caller) else MissingImage(th.image, th.caller)
      ensures forall digest :: Unmoved(old(View()), View(), me, digest)
    {
      var image, caller := threads[me].image, threads[me].caller;
      if around.raises(at) {
        MoveTo(me, Done(EngineError), EngineRaises(me));
        return None;
      }
      if image in images {
        MoveTo(me, WithImage(image, caller), CheckImage(me));
      } else {
        MoveTo(me, MissingImage(image, caller), CheckImage(me));
      }
      r := Some(image in images);
    }

    /** start up to its return value, which ready_image ignores. */
    method EnsureStarted(me: Tid, around: Surroundings)
      requires Valid() && Mine(me).Naming? && IsStart(Mine(me).caller)
      modifies this
      ensures Valid()
      ensures StartedFrom(old(Mine(me)), Mine(me))
      ensures Quiet(around) ==> QuietStart(old(View()), View(), old(Mine(me)), Mine(me))
      ensures Undisturbed(around, old(Mine(me)).digest) ==> Unmoved(old(View()), View(), me, old(Mine(me)).digest)
    {
      ghost var digest := Mine(me).digest;
      ghost var s := View();
      var name := ImageName(me, around, 0);
      if !name.Named? {
        return;
      }
      ghost var s1 := View();
      Others(me, around.others(1), digest);
      ghost var s2 := View();
      AskAndSubmit(me, around);
      if Undisturbed(around, digest) {
        UnmovedTwice(s, s1, s2, me, digest);
        UnmovedTwice(s, s2, View(), me, digest);
      }
    }

    /** start once it has a name: the question to the engine, and the section under the lock. */
    method AskAndSubmit(me: Tid, around: Surroundings)
      requires Valid() && Mine(me).Asking? && IsStart(Mine(me).caller)
      modifies this
      ensures Valid()
      ensures var th := old(Mine(me)); StartedFrom(Naming(th.image.digest, th.caller), Mine(me))
      ensures var th := old(Mine(me)); Quiet(around) ==> QuietAsk(old(View()), View(), th.image, th.caller, Mine(me))
      ensures var digest := old(Mine(me)).image.digest;
        Undisturbed(around, digest) ==> Unmoved(old(View()), View(), me, digest)
    {
      ghost var digest := Mine(me).image.digest;
      ghost var s := View();
      var present := HasImage(me, around, 1);
      if present != Some(false) {
        return;
      }
      ghost var s1 := View();
      Others(me, around.others(2), digest);
      ghost var s2 := View();
      var _ := SubmitBuild(me);
      if Undisturbed(around, digest) {
        UnmovedTwice(s, s1, s2, me, digest);
        UnmovedTwice(s, s2, View(), me, digest);
      }
    }

    /** What a future in hand is reported as. */
    method ReportBuild(me: Tid) returns (r: Outcome)
      requires Valid() && Mine(me).Reporting?
      modifies this`threads
      ensures Valid() && Mine(me) == Done(r) && (r == FailedBuild || r == Preparing)
      ensures View() == old(View()).(threads := threads)
      ensures old(Mine(me)).id in builds && (r == FailedBuild <==> builds[old(Mine(me)).id].status == Failed)
    {
      ReachableInv(View());
      assert InHand(View(), threads[me]);
      r := if builds[threads[me].id].status == Failed then FailedBuild else Preparing;
      MoveTo(me, Done(r), Report(me));
    }

    method FinishCall(me: Tid)
      requires Valid() && Mine(me).Done?
      modifies this`threads
      ensures Valid() && Mine(me) == Idle
    {
      MoveTo(me, Idle, Leave(me));
    }

    /** A call, and what the others do before its first step. */
    method Begin(me: Tid, digest: Digest, caller: Caller, around: Surroundings)
      requires Valid() && Mine(me) == Idle && IsEntry(caller)
      modifies this
      ensures Valid() && Mine(me) == Naming(digest, caller)
      ensures Quiet(around) ==> OnlyThreads(old(View()), View())
    {
      MoveTo(me, Naming(digest, caller), Call(me, digest, caller));
      Others(me, around.others(3), digest);
    }

    /** The first half of status and ready_image: the name, and the question to the engine. */
    method NameAndAsk(me: Tid, around: Surroundings)
      requires Valid() && Mine(me).Naming? && (Mine(me).caller.InStatus? || Mine(me).caller.InReady?)
      modifies this
      ensures Valid()
      ensures AskedFrom(old(Mine(me)), Mine(me))
      ensures var th := old(Mine(me)); Quiet(around) ==>
        OnlyThreads(old(View()), View()) && Mine(me) == AfterAsking(old(View()), th.digest, th.caller)
      ensures Undisturbed(around, old(Mine(me)).digest) && Mine(me).Naming? ==>
        WillFind(View(), me, Mine(me).caller.wanted)
    {
      ghost var digest := Mine(me).digest;
      var name := ImageName(me, around, 4);
      if !name.Named? {
        return;
      }
      Others(me, around.others(5), digest);
      var present := HasImage(me, around, 6);
      ReachableInv(View());
    }

    method Start(me: Tid, digest: Digest, retry: bool, around: Surroundings) returns (r: Outcome)
      requires Valid() && Mine(me) == Idle
      modifies this
      ensures Valid() && Mine(me) == Idle
      ensures r in {Ready, NotRequired, Preparing, FailedBuild, Rejected, EngineError}
      ensures Quiet(around) ==> r == StartAnswer(old(View()), digest, retry)
    {
      Begin(me, digest, InStart(retry), around);
      r := FinishStart(me, around);
      FinishCall(me);
    }

    /** start with its return value, called on its own or by status. */
    method FinishStart(me: Tid, around: Surroundings) returns (r: Outcome)
      requires Valid() && Mine(me).Naming? && (Mine(me).caller.InStart? || Mine(me).caller.InResume?)
      modifies this
      ensures Valid() && Mine(me) == Done(r)
      ensures r in {Ready, NotRequired, Preparing, FailedBuild, Rejected, EngineError}
      ensures var th := old(Mine(me));
        Quiet(around) ==> r == StartAnswer(old(View()), th.digest, th.caller == InStart(true))
    {
      ghost var digest := Mine(me).digest;
      EnsureStarted(me, around);
      if threads[me].Done? {
        return threads[me].outcome;
      }
      Others(me, around.others(8), digest);
      r := ReportBuild(me);
    }

    /** status: asks the engine, then the table, and starts a build where the table has none. */
    method CheckStatus(me: Tid, digest: Digest, around: Surroundings) returns (r: Outcome)
      requires Valid() && Mine(me) == Idle
      modifies this
      ensures Valid() && Mine(me) == Idle
      ensures r in {Ready, NotRequired, Preparing, FailedBuild, Rejected, EngineError}
      ensures Quiet(around) ==> r == StartAnswer(old(View()), digest, false)
    {
      ghost var s := View();
      Begin(me, digest, InStatus, around);
      ghost var s1 := View();
      NameAndAsk(me, around);
      if Quiet(around) {
        SameAnswers(s, s1, digest, false);
        SameAnswers(s1, View(), digest, false);
        StatusAfterAsking(s1, digest);
      }
      r := FinishStatus(me, around);
      FinishCall(me);
    }

    method FinishStatus(me: Tid, around: Surroundings) returns (r: Outcome)
      requires Valid() && (Mine(me).Peeking? || Mine(me).Done?)
      modifies this
      ensures Valid() && Mine(me) == Done(r)
      ensures if old(Mine(me)).Done? then r == old(Mine(me)).outcome
              else r in {Ready, NotRequired, Preparing, FailedBuild, Rejected, EngineError}
      ensures var th := old(Mine(me));
        (Quiet(around) && th.Peeking? && NameOf(old(View()), th.image.digest) == Named(th.image)
         && th.image !in old(images)) ==> r == StartAnswer(old(View()), th.image.digest, false)
    {
      if threads[me].Done? {
        return threads[me].outcome;
      }
      Others(me, around.others(6), threads[me].image.digest);
      LookAtTable(me, around);
      r := threads[me].outcome;
    }

    /** status once the engine had no image. */
    method LookAtTable(me: Tid, around: Surroundings)
      requires Valid() && Mine(me).Peeking?
      modifies this
      ensures Valid() && Mine(me).Done?
      ensures Mine(me).outcome in {Ready, NotRequired, Preparing, FailedBuild, Rejected, EngineError}
      ensures var image := old(Mine(me)).image;
        Quiet(around) && NameOf(old(View()), image.digest) == Named(image) && image !in old(images) ==>
          Mine(me) == Done(StartAnswer(old(View()), image.digest, false))
    {
      var image := threads[me].image;
      if image in pending {
        ReportPending(me, around);
      } else {
        Resume(me, around);
      }
    }

    /** The table has a future: it is reported. */
    method ReportPending(me: Tid, around: Surroundings)
      requires Valid() && Mine(me).Peeking? && Mine(me).image in pending
      modifies this
      ensures Valid() && (Mine(me) == Done(Preparing) || Mine(me) == Done(FailedBuild))
      ensures Quiet(around) ==>
        (Mine(me) == Done(FailedBuild) <==> EntryOf(old(View()), old(Mine(me)).image) == Some(Failed))
    {
      var image := threads[me].image;
      ReachableInv(View());
      MoveTo(me, Reporting(image, pending[image]), Peek(me));
      Others(me, around.others(7), image.digest);
      var _ := ReportBuild(me);
    }

    /** The table has none: status starts a build. */
    method Resume(me: Tid, around: Surroundings)
      requires Valid() && Mine(me).Peeking? && Mine(me).image !in pending
      modifies this
      ensures Valid() && Mine(me).Done?
      ensures Mine(me).outcome in {Ready, NotRequired, Preparing, FailedBuild, Rejected, EngineError}
      ensures var digest := old(Mine(me)).image.digest;
        Quiet(around) ==> Mine(me) == Done(StartAnswer(old(View()), digest, false))
    {
      var digest := threads[me].image.digest;
      MoveTo(me, Naming(digest, InResume), Peek(me));
      Others(me, around.others(7), digest);
      ghost var s := View();
      var _ := FinishStart(me, around);
      if Quiet(around) {
        SameAnswers(old(View()), s, digest, false);
      }
    }

    /** The end of ready_image: the future from the table, and its result or a timeout. */
    method AwaitBuild(me: Tid, around: Surroundings) returns (r: Outcome)
      requires Valid() && Mine(me).Fetching?
      modifies this
      ensures Valid() && Mine(me) == Done(r)
      ensures r == NoFuture <==> old(Mine(me).image !in pending)
      ensures Quiet(around) && old(EntryOf(View(), Mine(me).image)).Some? ==>
        r == ResultOf(old(Mine(me)).image, old(EntryOf(View(), Mine(me).image)).value)
      ensures r in {NoFuture, StillPreparing, PreparationFailed, ImageReady(old(Mine(me)).image)}
    {
      ReachableInv(View());
      var image := threads[me].image;
      if image !in pending {
        MoveTo(me, Done(NoFuture), Fetch(me));
        return NoFuture;
      }
      MoveTo(me, Holding(image, pending[image]), Fetch(me));
      Others(me, around.others(10), image.digest);
      r := TakeResult(me);
    }

    method TakeResult(me: Tid) returns (r: Outcome)
      requires Valid() && Mine(me).Holding?
      modifies this`threads
      ensures Valid() && Mine(me) == Done(r)
      ensures old(Mine(me)).id in builds
      ensures r == ResultOf(old(Mine(me)).image, builds[old(Mine(me)).id].status)
    {
      ReachableInv(View());
      assert InHand(View(), threads[me]);
      var th := threads[me];
      r := ResultOf(th.image, builds[th.id].status);
      MoveTo(me, Done(r), Await(me));
    }

    /** ready_image once it has asked the engine for its image in vain. */
    method StartAndAwait(me: Tid, around: Surroundings, image: Image) returns (r: Outcome)
      requires Valid() && Mine(me) == Naming(image.digest, InEnsure(image))
      modifies this
      ensures Valid() && Mine(me) == Done(r)
      ensures r in {NoFuture, StillPreparing, PreparationFailed, ImageReady(image), Rejected, EngineError}
      ensures Quiet(around) && NameOf(old(View()), image.digest) == Named(image) && image !in old(images) ==>
        r == ReadyAnswer(old(View()), image.digest)
      ensures Undisturbed(around, image.digest) && WillFind(old(View()), me, image) ==> r != NoFuture
    {
      ghost var s := View();
      EnsureReadyStarted(me, around, image);
      if Quiet(around) && NameOf(s, image.digest) == Named(image) && image !in s.images {
        ReadyResult(s, View(), image);
      }
      r := FinishReady(me, around, image);
    }

    /** The call of start in ready_image. */
    method EnsureReadyStarted(me: Tid, around: Surroundings, image: Image)
      requires Valid() && Mine(me) == Naming(image.digest, InEnsure(image))
      modifies this
      ensures Valid() && Mine(me) in {Fetching(image), Done(Rejected), Done(EngineError)}
      ensures Quiet(around) ==> QuietStart(old(View()), View(), old(Mine(me)), Mine(me))
      ensures Undisturbed(around, image.digest) ==> Unmoved(old(View()), View(), me, image.digest)
    {
      ghost var s := View();
      Others(me, around.others(6), image.digest);
      ghost var s1 := View();
      EnsureStarted(me, around);
      if Undisturbed(around, image.digest) {
        UnmovedTwice(s, s1, View(), me, image.digest);
      }
    }

    /** ready_image after its call of start. */
    method FinishReady(me: Tid, around: Surroundings, image: Image) returns (r: Outcome)
      requires Valid() && Mine(me) in {Fetching(image), Done(Rejected), Done(EngineError)}
      modifies this
      ensures Valid() && Mine(me) == Done(r)
      ensures r in {NoFuture, StillPreparing, PreparationFailed, ImageReady(image), Rejected, EngineError}
      ensures old(Mine(me)).Done? ==> r == old(Mine(me)).outcome
      ensures Quiet(around) && old(Mine(me)).Fetching? && old(EntryOf(View(), image)).Some? ==>
        r == ResultOf(image, old(EntryOf(View(), image)).value)
      ensures Undisturbed(around, image.digest) && WillFind(old(View()), me, image) ==> r != NoFuture
    {
      if threads[me].Done? {
        return threads[me].outcome;
      }
      Others(me, around.others(9), image.digest);
      r := AwaitBuild(me, around);
    }

    /**
     ready_image. Where nobody re-tags the base image, replaces the bundle or brings in
     an image of it, the future is never missing.
    */
    method ReadyImage(me: Tid, digest: Digest, around: Surroundings) returns (r: Outcome)
      requires Valid() && Mine(me) == Idle
      modifies this
      ensures Valid() && Mine(me) == Idle
      ensures r in {NoFuture, StillPreparing, PreparationFailed, BaseImage, Rejected, EngineError}
           || (r.ImageReady? && r.image.digest == digest)
      ensures Quiet(around) ==> r == ReadyAnswer(old(View()), digest)
      ensures Undisturbed(around, digest) ==> r != NoFuture
    {
      ghost var s := View();
      Begin(me, digest, InReady, around);
      ghost var s1 := View();
      NameAndAsk(me, around);
      if Quiet(around) {
        SameAnswers(s, s1, digest, false);
        SameAnswers(s1, View(), digest, false);
        ReadyAfterAsking(s1, digest);
      }
      r := AnswerReady(me, around, digest);
      FinishCall(me);
    }

    /** ready_image once it has asked the engine: an outcome already, or a build to start and to wait for. */
    method AnswerReady(me: Tid, around: Surroundings, digest: Digest) returns (r: Outcome)
      requires Valid() && (Mine(me).Done? || (Mine(me).Naming? && Mine(me).caller.InEnsure?
                                             && Mine(me) == Naming(digest, InEnsure(Mine(me).caller.wanted))
                                             && Mine(me).caller.wanted.digest == digest))
      modifies this
      ensures Valid() && Mine(me) == Done(r)
      ensures if old(Mine(me)).Done? then r == old(Mine(me)).outcome
              else r in {NoFuture, StillPreparing, PreparationFailed, Rejected, EngineError}
                   || (r.ImageReady? && r.image.digest == digest)
      ensures var th := old(Mine(me));
        (Quiet(around) && th.Naming? && NameOf(old(View()), digest) == Named(th.caller.wanted)
         && th.caller.wanted !in old(images)) ==> r == ReadyAnswer(old(View()), digest)
      ensures var th := old(Mine(me));
        (Undisturbed(around, digest) && th.Naming? && WillFind(old(View()), me, th.caller.wanted)) ==> r != NoFuture
    {
      if threads[me].Done? {
        return threads[me].outcome;
      }
      r := StartAndAwait(me, around, threads[me].caller.wanted);
    }
  }
}
