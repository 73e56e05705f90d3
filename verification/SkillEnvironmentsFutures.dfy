/**
 ready_image reads the table of futures under the name it has worked out itself, after
 start has worked out the name once more: when that can end in a KeyError
 (services/sandbox-manager/app/skill_environments.py:78-86).
*/
module SkillEnvironmentsFutures {
  import opened Common
  import opened SkillEnvironments

  /** What can happen outside that parts the second name of an image from the first, or its build from the call. */
  datatype Kind = Appears | Renames | Unneeded

  predicate Disturbs(a: Action, image: Image, kind: Kind) {
    match kind
    case Appears => a == Outside(image, true)
    case Renames => a.Retag? && a.base.Some? && a.base.value != image.base
    case Unneeded => a == Repack(image.digest, Some(false))
  }

  /** Nothing happens outside that would disturb a call for the image, except in these ways. */
  ghost predicate Permitted(a: Action, image: Image, kinds: set<Kind>) {
    forall kind :: Disturbs(a, image, kind) ==> kind in kinds
  }

  ghost function Except(image: Image, kinds: set<Kind>): Action -> bool {
    (a: Action) => Permitted(a, image, kinds)
  }

  /** Naming the image again would now give another name or none. */
  predicate NameMoved(s: State, image: Image) {
    || (s.base.Some? && s.base.value != image.base)
    || NeedsOf(s, image.digest) == Some(false)
  }

  ghost predicate Misses(s: State, t: Tid, permitted: Action -> bool, run: seq<State>, actions: seq<Action>) {
    && InsideCall(run, actions, t) && run[0] == s
    && (forall i :: 0 <= i < |actions| ==> permitted(actions[i]))
    && ThreadOf(run[|actions|], t) == Done(NoFuture)
  }

  /** With permitted steps of all the others thread `t` may come to miss its future within the call it is in. */
  ghost predicate CanMiss(s: State, t: Tid, permitted: Action -> bool) {
    exists run, actions :: Misses(s, t, permitted, run, actions)
  }

  lemma MissNow(s: State, t: Tid, permitted: Action -> bool)
    requires Reachable(s) && ThreadOf(s, t) == Done(NoFuture)
    ensures CanMiss(s, t, permitted)
  {
    assert Misses(s, t, permitted, [s], []);
  }

  lemma MissAfter(s: State, a: Action, s': State, t: Tid, permitted: Action -> bool)
    requires Reachable(s) && Step(s, a) == Some(s') && !ThreadOf(s, t).Idle? && permitted(a)
    requires CanMiss(s', t, permitted)
    ensures CanMiss(s, t, permitted)
  {
    var run, actions :| Misses(s', t, permitted, run, actions);
    var longer, before := [s] + run, [a] + actions;
    forall i | 0 <= i < |before|
      ensures !ThreadOf(longer[i], t).Idle? && Step(longer[i], before[i]) == Some(longer[i + 1]) && permitted(before[i])
    {
      if i > 0 {
        assert longer[i] == run[i - 1] && before[i] == actions[i - 1];
      }
    }
    assert longer[|before|] == run[|actions|];
    assert Misses(s, t, permitted, longer, before);
  }

  /** What permitted steps keep while the call lasts, and what excludes the missing future. */
  lemma {:induction false} NeverMisses(s: State, t: Tid, permitted: Action -> bool, inv: State -> bool)
    requires inv(s)
    requires forall s, a :: inv(s) && !ThreadOf(s, t).Idle? && permitted(a) && Step(s, a).Some?
               ==> inv(Step(s, a).value)
    requires forall s :: inv(s) ==> ThreadOf(s, t) != Done(NoFuture)
    ensures !CanMiss(s, t, permitted)
  {
    if CanMiss(s, t, permitted) {
      var run, actions :| Misses(s, t, permitted, run, actions);
      var i := 0;
      while i < |actions|
        invariant 0 <= i <= |actions| && inv(run[i])
      {
        assert Step(run[i], actions[i]) == Some(run[i + 1]) && permitted(actions[i]);
        assert inv(Step(run[i], actions[i]).value);
        i := i + 1;
      }
      assert false;
    }
  }

  // -- how it happens

  /** The last step: the table has no future for the image. */
  lemma MissAtTable(s: State, t: Tid, image: Image, permitted: Action -> bool)
    requires Reachable(s) && ThreadOf(s, t) == Fetching(image) && image !in s.pending && permitted(Fetch(t))
    ensures CanMiss(s, t, permitted)
  {
    var s' := Step(s, Fetch(t)).value;
    ReachableStep(s, Fetch(t), s');
    MissNow(s', t, permitted);
    MissAfter(s, Fetch(t), s', t, permitted);
  }

  ghost predicate PermitsOwn(t: Tid, permitted: Action -> bool) {
    forall a :: Own(a, t) ==> permitted(a)
  }

  /** start finds that the bundle needs no image. */
  lemma MissUnneeded(s: State, t: Tid, image: Image, permitted: Action -> bool)
    requires Reachable(s) && ThreadOf(s, t) == Naming(image.digest, InEnsure(image)) && image !in s.pending
    requires NeedsOf(s, image.digest) == Some(false) && PermitsOwn(t, permitted)
    ensures CanMiss(s, t, permitted)
  {
    var a := LookAtBundle(t);
    assert Own(a, t) && Own(Fetch(t), t);
    var s' := Step(s, a).value;
    ReachableStep(s, a, s');
    MissAtTable(s', t, image, permitted);
    MissAfter(s, a, s', t, permitted);
  }

  /** A name worked out and the engine asked for it, with nobody in between. */
  lemma MissAfterNaming(s: State, t: Tid, image: Image, caller: Caller, permitted: Action -> bool) returns (s': State)
    requires Reachable(s) && ThreadOf(s, t) == Naming(image.digest, caller)
    requires NeedsOf(s, image.digest) == Some(true) && s.base == Some(image.base) && PermitsOwn(t, permitted)
    ensures Reachable(s') && (CanMiss(s', t, permitted) ==> CanMiss(s, t, permitted))
    ensures s' == s.(threads := s.threads[t :=
              if image in s.images then WithImage(image, caller) else MissingImage(image, caller)])
  {
    var a, b, c := LookAtBundle(t), AskBase(t), CheckImage(t);
    assert Own(a, t) && Own(b, t) && Own(c, t);
    var s1 := s.(threads := s.threads[t := Basing(image.digest, caller)]);
    var s2 := s.(threads := s.threads[t := Asking(image, caller)]);
    s' := Step(s2, c).value;
    assert s1.threads[t := Asking(image, caller)] == s2.threads;
    assert s2.threads[t := ThreadOf(s', t)] == s.threads[t := ThreadOf(s', t)];
    ReachableStep(s, a, s1);
    ReachableStep(s1, b, s2);
    ReachableStep(s2, c, s');
    if CanMiss(s', t, permitted) {
      MissAfter(s2, c, s', t, permitted);
      MissAfter(s1, b, s2, t, permitted);
      MissAfter(s, a, s1, t, permitted);
    }
  }

  /** start finds that the engine has an image of the name it works out. */
  lemma MissBySecondName(s: State, t: Tid, image: Image, permitted: Action -> bool)
    requires Reachable(s) && ThreadOf(s, t) == Naming(image.digest, InEnsure(image)) && image !in s.pending
    requires NeedsOf(s, image.digest) == Some(true) && s.base.Some? && Image(s.base.value, image.digest) in s.images
    requires PermitsOwn(t, permitted)
    ensures CanMiss(s, t, permitted)
  {
    var s' := MissAfterNaming(s, t, Image(s.base.value, image.digest), InEnsure(image), permitted);
    assert Own(Fetch(t), t);
    MissAtTable(s', t, image, permitted);
  }

  /** An outside step before a continuation that misses. */
  lemma MissAfterOutside(s: State, a: Action, t: Tid, permitted: Action -> bool) returns (s': State)
    requires Reachable(s) && !ThreadOf(s, t).Idle? && permitted(a) && (a.Outside? || a.Retag? || a.Repack?)
    ensures Step(s, a) == Some(s') && Reachable(s') && s'.threads == s.threads && s'.pending == s.pending
    ensures CanMiss(s', t, permitted) ==> CanMiss(s, t, permitted)
  {
    s' := Step(s, a).value;
    ReachableStep(s, a, s');
    if CanMiss(s', t, permitted) {
      MissAfter(s, a, s', t, permitted);
    }
  }

  /** With the base image there is: the bundle is there, the image of that name appears, and start is content. */
  lemma MissUnderBase(s: State, t: Tid, image: Image, permitted: Action -> bool)
    requires Reachable(s) && ThreadOf(s, t) == Naming(image.digest, InEnsure(image)) && image !in s.pending
    requires s.base.Some? && PermitsOwn(t, permitted)
    requires permitted(Repack(image.digest, Some(true))) && permitted(Outside(Image(s.base.value, image.digest), true))
    ensures CanMiss(s, t, permitted)
  {
    var s' := MissAfterOutside(s, Repack(image.digest, Some(true)), t, permitted);
    var s'' := MissAfterOutside(s', Outside(Image(s.base.value, image.digest), true), t, permitted);
    MissBySecondName(s'', t, image, permitted);
  }

  lemma MissUnderNewBase(s: State, t: Tid, image: Image, base: BaseId, permitted: Action -> bool)
    requires Reachable(s) && ThreadOf(s, t) == Naming(image.digest, InEnsure(image)) && image !in s.pending
    requires PermitsOwn(t, permitted) && permitted(Retag(Some(base)))
    requires permitted(Repack(image.digest, Some(true))) && permitted(Outside(Image(base, image.digest), true))
    ensures CanMiss(s, t, permitted)
  {
    var s' := MissAfterOutside(s, Retag(Some(base)), t, permitted);
    MissUnderBase(s', t, image, permitted);
  }

  lemma OwnPermitted(t: Tid, image: Image, kinds: set<Kind>)
    ensures PermitsOwn(t, Except(image, kinds))
  {}

  /** Each of the three kinds of disturbance is enough, and so is a name that has moved already. */
  lemma MissHappens(s: State, t: Tid, image: Image, kinds: set<Kind>)
    requires Reachable(s) && ThreadOf(s, t) == Naming(image.digest, InEnsure(image)) && image !in s.pending
    requires kinds != {} || NameMoved(s, image)
    ensures CanMiss(s, t, Except(image, kinds))
  {
    var permitted := Except(image, kinds);
    OwnPermitted(t, image, kinds);
    if NeedsOf(s, image.digest) == Some(false) {
      MissUnneeded(s, t, image, permitted);
    } else if s.base.Some? && s.base.value != image.base {
      MissUnderBase(s, t, image, permitted);
    } else if Appears in kinds {
      MissUnderNewBase(s, t, image, image.base, permitted);
    } else if Renames in kinds {
      MissUnderNewBase(s, t, image, image.base + 1, permitted);
    } else {
      var kind :| kind in kinds;
      assert kind == Unneeded;
      var s' := MissAfterOutside(s, Repack(image.digest, Some(false)), t, permitted);
      MissUnneeded(s', t, image, permitted);
    }
  }

  // -- and how it cannot

  predicate IsOver(th: Thread) {
    th.Idle? || (th.Done? && th.outcome != NoFuture)
  }

  /** ready_image has asked the engine for the image in vain, and has not missed its future. */
  predicate WantsFuture(th: Thread, image: Image) {
    match th
    case Naming(_, caller) => caller == InEnsure(image)
    case Basing(_, caller) => caller == InEnsure(image)
    case Asking(_, caller) => caller == InEnsure(image)
    case Locking(_, caller) => caller == InEnsure(image)
    case Fetching(wanted) => wanted == image
    case Holding(_, _) => true
    case _ => IsOver(th)
  }

  /** The second name is, or will be, the first one. */
  predicate OnCourse(s: State, th: Thread, image: Image) {
    match th
    case Naming(digest, caller) => digest == image.digest && caller == InEnsure(image) && !NameMoved(s, image)
    case Basing(digest, caller) =>
      digest == image.digest && caller == InEnsure(image) && (s.base.None? || s.base.value == image.base)
    case Asking(named, caller) => named == image && caller == InEnsure(image)
    case Locking(named, caller) => named == image && caller == InEnsure(image)
    case _ => false
  }

  predicate FutureAssured(s: State, th: Thread, image: Image) {
    image in s.pending && WantsFuture(th, image)
  }

  predicate NothingAppeared(s: State, th: Thread, image: Image) {
    image !in s.images && OnCourse(s, th, image)
  }

  predicate WillFind(s: State, t: Tid, image: Image) {
    && Inv(s)
    && (IsOver(ThreadOf(s, t)) || FutureAssured(s, ThreadOf(s, t), image) || NothingAppeared(s, ThreadOf(s, t), image))
  }

  lemma PendingGrows(s: State, a: Action, s': State, image: Image)
    requires Step(s, a) == Some(s') && image in s.pending
    ensures image in s'.pending
  {}

  /** An image that does not come from outside comes from a build, which is in the table. */
  lemma ImageHasSource(s: State, a: Action, s': State, image: Image)
    requires Futures(s) && Step(s, a) == Some(s') && a != Outside(image, true)
    ensures image in s'.images ==> image in s.images || image in s.pending
  {
    if IsThreadStep(a) {
      ThreadFrame(s, a, s');
    }
  }

  lemma OwnStaysAssured(s: State, a: Action, s': State, t: Tid, image: Image)
    requires Step(s, a) == Some(s') && Own(a, t) && !ThreadOf(s, t).Idle? && image in s.pending
    requires WantsFuture(ThreadOf(s, t), image)
    ensures WantsFuture(ThreadOf(s', t), image)
  {}

  /** An entry in the table is enough, whatever happens. */
  lemma StaysAssured(s: State, a: Action, s': State, t: Tid, image: Image)
    requires Step(s, a) == Some(s') && !ThreadOf(s, t).Idle? && FutureAssured(s, ThreadOf(s, t), image)
    ensures FutureAssured(s', ThreadOf(s', t), image)
  {
    PendingGrows(s, a, s', image);
    if Own(a, t) {
      OwnStaysAssured(s, a, s', t, image);
    } else {
      OthersStay(s, a, s', t);
    }
  }

  lemma StaysOver(s: State, a: Action, s': State, t: Tid)
    requires Step(s, a) == Some(s') && !ThreadOf(s, t).Idle? && IsOver(ThreadOf(s, t))
    ensures IsOver(ThreadOf(s', t))
  {
    ThreadFrame(s, a, s');
  }

  lemma OthersKeepCourse(s: State, a: Action, s': State, t: Tid, image: Image)
    requires Futures(s) && Step(s, a) == Some(s') && !Own(a, t) && Permitted(a, image, {})
    requires NothingAppeared(s, ThreadOf(s, t), image)
    ensures FutureAssured(s', ThreadOf(s', t), image) || NothingAppeared(s', ThreadOf(s', t), image)
  {
    OthersStay(s, a, s', t);
    assert !Disturbs(a, image, Appears) && !Disturbs(a, image, Renames) && !Disturbs(a, image, Unneeded);
    ImageHasSource(s, a, s', image);
    if image in s.pending {
      PendingGrows(s, a, s', image);
    } else {
      KeepsName(s, a, s', image);
    }
  }

  lemma KeepsName(s: State, a: Action, s': State, image: Image)
    requires Step(s, a) == Some(s') && !Disturbs(a, image, Renames) && !Disturbs(a, image, Unneeded)
    ensures s.base.None? || s.base.value == image.base ==> s'.base.None? || s'.base.value == image.base
    ensures !NameMoved(s, image) ==> !NameMoved(s', image)
  {
    if IsThreadStep(a) {
      ThreadFrame(s, a, s');
    }
  }

  lemma OwnKeepsCourse(s: State, a: Action, s': State, t: Tid, image: Image)
    requires Step(s, a) == Some(s') && Own(a, t) && NothingAppeared(s, ThreadOf(s, t), image)
    ensures IsOver(ThreadOf(s', t)) || FutureAssured(s', ThreadOf(s', t), image)
         || NothingAppeared(s', ThreadOf(s', t), image)
  {
    ThreadFrame(s, a, s');
    match a
    case LookAtBundle(_) =>
    case AskBase(_) =>
    case CheckImage(_) =>
    case Submit(_) =>
    case _ =>
  }

  lemma KeepsFinding(s: State, a: Action, s': State, t: Tid, image: Image)
    requires WillFind(s, t, image) && Step(s, a) == Some(s') && !ThreadOf(s, t).Idle? && Permitted(a, image, {})
    ensures WillFind(s', t, image)
  {
    StepKeeps(s, a, s');
    if IsOver(ThreadOf(s, t)) {
      StaysOver(s, a, s', t);
    } else if FutureAssured(s, ThreadOf(s, t), image) {
      StaysAssured(s, a, s', t, image);
    } else if Own(a, t) {
      OwnKeepsCourse(s, a, s', t, image);
    } else {
      OthersKeepCourse(s, a, s', t, image);
    }
  }

  /** A call that is over, or whose image has an entry, ends otherwise whatever happens outside. */
  lemma AssuredNeverMisses(s: State, t: Tid, image: Image, permitted: Action -> bool)
    requires Inv(s) && (IsOver(ThreadOf(s, t)) || FutureAssured(s, ThreadOf(s, t), image))
    ensures !CanMiss(s, t, permitted)
  {
    var inv := (s: State) => Inv(s) && (IsOver(ThreadOf(s, t)) || FutureAssured(s, ThreadOf(s, t), image));
    forall s, a | inv(s) && !ThreadOf(s, t).Idle? && permitted(a) && Step(s, a).Some? ensures inv(Step(s, a).value) {
      var s' := Step(s, a).value;
      StepKeeps(s, a, s');
      if IsOver(ThreadOf(s, t)) {
        StaysOver(s, a, s', t);
      } else {
        StaysAssured(s, a, s', t, image);
      }
    }
    NeverMisses(s, t, permitted, inv);
  }

  lemma UndisturbedNeverMisses(s: State, t: Tid, image: Image)
    requires WillFind(s, t, image)
    ensures !CanMiss(s, t, Except(image, {}))
  {
    var permitted := Except(image, {});
    var inv := (s: State) => WillFind(s, t, image);
    forall s, a | inv(s) && !ThreadOf(s, t).Idle? && permitted(a) && Step(s, a).Some? ensures inv(Step(s, a).value) {
      KeepsFinding(s, a, Step(s, a).value, t, image);
    }
    NeverMisses(s, t, permitted, inv);
  }

  /**
   When ready_image, which has named `image`, asks the engine for it, and disturbances of
   these kinds may happen until the call is over: it can come to raise a KeyError exactly
   when the engine has no such image, the table has no entry for it, and some kind of
   disturbance is allowed or the name has moved already.
  */
  lemma MissingFuture(s: State, t: Tid, image: Image, kinds: set<Kind>)
    requires Reachable(s) && ThreadOf(s, t) == Asking(image, InReady)
    ensures Step(s, CheckImage(t)).Some?
    ensures CanMiss(Step(s, CheckImage(t)).value, t, Except(image, kinds))
       <==> image !in s.images && image !in s.pending && (kinds != {} || NameMoved(s, image))
  {
    var s' := Step(s, CheckImage(t)).value;
    ReachableStep(s, CheckImage(t), s');
    ReachableInv(s');
    if image in s.images || image in s.pending {
      AssuredNeverMisses(s', t, image, Except(image, kinds));
    } else if kinds != {} || NameMoved(s, image) {
      MissHappens(s', t, image, kinds);
    } else {
      UndisturbedNeverMisses(s', t, image);
    }
  }

  // -- what can be said before the call

  /** Nobody re-tags the base image, touches the bundle or takes an image of it away. */
  predicate Steady(a: Action, digest: Digest) {
    && !a.Retag?
    && (a.Repack? ==> a.digest != digest)
    && (a.Outside? && a.image.digest == digest ==> a.present)
  }

  ghost function Steadily(digest: Digest): Action -> bool {
    (a: Action) => Steady(a, digest)
  }

  /** The image a call would name now, if it would name one. */
  function ImageOf(s: State, digest: Digest): Option<Image> {
    if NeedsOf(s, digest) == Some(true) && s.base.Some? then Some(Image(s.base.value, digest)) else None
  }

  predicate Known(s: State, image: Image) {
    image in s.images || image in s.pending
  }

  /** Where a call of ready_image can be while the name stays and the image is known, or there is none. */
  predicate WillBeKnown(s: State, th: Thread, digest: Digest) {
    match th
    case Naming(d, caller) =>
      d == digest && caller.InReady? && (ImageOf(s, digest).Some? ==> Known(s, ImageOf(s, digest).value))
    case Basing(d, caller) => d == digest && caller.InReady? && (s.base.Some? ==> Known(s, Image(s.base.value, digest)))
    case Asking(image, caller) => image.digest == digest && caller.InReady? && Known(s, image)
    case _ => false
  }

  lemma KnownStays(s: State, a: Action, s': State, image: Image)
    requires Step(s, a) == Some(s') && Steady(a, image.digest) && Known(s, image)
    ensures Known(s', image)
  {
    if IsThreadStep(a) {
      ThreadFrame(s, a, s');
    }
    if image in s.pending {
      PendingGrows(s, a, s', image);
    }
  }

  lemma SteadyName(s: State, a: Action, s': State, digest: Digest)
    requires Step(s, a) == Some(s') && Steady(a, digest)
    ensures s'.base == s.base && NeedsOf(s', digest) == NeedsOf(s, digest)
  {
    if IsThreadStep(a) {
      ThreadFrame(s, a, s');
    }
  }

  lemma OthersKeepKnown(s: State, a: Action, s': State, t: Tid, digest: Digest)
    requires Step(s, a) == Some(s') && !Own(a, t) && Steady(a, digest) && WillBeKnown(s, ThreadOf(s, t), digest)
    ensures WillBeKnown(s', ThreadOf(s', t), digest)
  {
    OthersStay(s, a, s', t);
    SteadyName(s, a, s', digest);
    match ThreadOf(s, t)
    case Naming(_, _) => if ImageOf(s, digest).Some? { KnownStays(s, a, s', ImageOf(s, digest).value); }
    case Basing(_, _) => if s.base.Some? { KnownStays(s, a, s', Image(s.base.value, digest)); }
    case Asking(image, _) => KnownStays(s, a, s', image);
    case _ =>
  }

  predicate AssuredOrOver(s: State, th: Thread) {
    IsOver(th) || exists image :: image in s.pending && FutureAssured(s, th, image)
  }

  lemma OwnKeepsKnown(s: State, a: Action, s': State, t: Tid, digest: Digest)
    requires Step(s, a) == Some(s') && Own(a, t) && WillBeKnown(s, ThreadOf(s, t), digest)
    ensures WillBeKnown(s', ThreadOf(s', t), digest) || AssuredOrOver(s', ThreadOf(s', t))
  {
    ThreadFrame(s, a, s');
    match a
    case LookAtBundle(_) =>
    case AskBase(_) =>
    case CheckImage(_) =>
      var image := ThreadOf(s, t).image;
      if image !in s.images {
        assert FutureAssured(s', ThreadOf(s', t), image);
      }
    case _ =>
  }

  predicate KnownOrAssured(s: State, t: Tid, digest: Digest) {
    WillBeKnown(s, ThreadOf(s, t), digest) || AssuredOrOver(s, ThreadOf(s, t))
  }

  lemma KeepsKnown(s: State, a: Action, s': State, t: Tid, digest: Digest)
    requires Step(s, a) == Some(s') && !ThreadOf(s, t).Idle? && Steady(a, digest) && KnownOrAssured(s, t, digest)
    ensures KnownOrAssured(s', t, digest)
  {
    if IsOver(ThreadOf(s, t)) {
      StaysOver(s, a, s', t);
    } else if AssuredOrOver(s, ThreadOf(s, t)) {
      var image :| image in s.pending && FutureAssured(s, ThreadOf(s, t), image);
      StaysAssured(s, a, s', t, image);
    } else if Own(a, t) {
      OwnKeepsKnown(s, a, s', t, digest);
    } else {
      OthersKeepKnown(s, a, s', t, digest);
    }
  }

  lemma SteadyNeverMisses(s: State, t: Tid, digest: Digest)
    requires KnownOrAssured(s, t, digest)
    ensures !CanMiss(s, t, Steadily(digest))
  {
    var permitted := Steadily(digest);
    var inv := (s: State) => KnownOrAssured(s, t, digest);
    forall s, a | inv(s) && !ThreadOf(s, t).Idle? && permitted(a) && Step(s, a).Some? ensures inv(Step(s, a).value) {
      KeepsKnown(s, a, Step(s, a).value, t, digest);
    }
    NeverMisses(s, t, permitted, inv);
  }

  /** The first name, a question in vain, and then the image appears. */
  lemma MissFromTheCall(s: State, t: Tid, digest: Digest, permitted: Action -> bool)
    requires Reachable(s) && ThreadOf(s, t) == Naming(digest, InReady) && ImageOf(s, digest).Some?
    requires !Known(s, ImageOf(s, digest).value)
    requires PermitsOwn(t, permitted) && permitted(Outside(ImageOf(s, digest).value, true))
    ensures CanMiss(s, t, permitted)
  {
    var image := ImageOf(s, digest).value;
    var s' := MissAfterNaming(s, t, image, InReady, permitted);
    var s'' := MissAfterOutside(s', Outside(image, true), t, permitted);
    MissBySecondName(s'', t, image, permitted);
  }

  /**
   At the start of a call of ready_image for a bundle whose base image, files and images
   stay: it can come to raise a KeyError exactly when the bundle needs an image that the
   engine does not have and the table has no entry for.
  */
  lemma MissingFutureAtCall(s: State, t: Tid, digest: Digest)
    requires Reachable(s) && ThreadOf(s, t) == Naming(digest, InReady)
    ensures CanMiss(s, t, Steadily(digest)) <==> ImageOf(s, digest).Some? && !Known(s, ImageOf(s, digest).value)
  {
    if ImageOf(s, digest).Some? && !Known(s, ImageOf(s, digest).value) {
      assert PermitsOwn(t, Steadily(digest));
      MissFromTheCall(s, t, digest, Steadily(digest));
    } else {
      SteadyNeverMisses(s, t, digest);
    }
  }

  /** A base image no entry of the table was named after. */
  lemma {:induction false} FreshBase(images: set<Image>) returns (base: BaseId)
    ensures forall image :: image in images ==> image.base < base
  {
    if images == {} {
      base := 0;
    } else {
      var image :| image in images;
      var rest := FreshBase(images - {image});
      base := if rest > image.base then rest else image.base + 1;
    }
  }

  function Anything(): Action -> bool {
    (a: Action) => true
  }

  /** Where the base image may be re-tagged and the bundle replaced, nothing before the call excludes it. */
  lemma NothingExcludesIt(s: State, t: Tid, digest: Digest)
    requires Reachable(s) && ThreadOf(s, t) == Naming(digest, InReady)
    ensures CanMiss(s, t, Anything())
  {
    var base := FreshBase(s.pending.Keys);
    var image := Image(base, digest);
    assert image !in s.pending;
    var s1 := MissAfterOutside(s, Retag(Some(base)), t, Anything());
    var s2 := MissAfterOutside(s1, Repack(digest, Some(true)), t, Anything());
    var s3 := MissAfterOutside(s2, Outside(image, false), t, Anything());
    MissFromTheCall(s3, t, digest, Anything());
  }

  /** It does happen to the first call after a start, for every bundle with dependencies. */
  lemma NoFutureHappens(base: BaseId, digest: Digest) returns (run: seq<State>, actions: seq<Action>)
    ensures EnvironmentsRun(run, actions) && run[0] == Init({}, Some(base), map[digest := true])
    ensures |actions| > 0 && actions[0] == Call(0, digest, InReady)
    ensures forall i :: 0 <= i < |actions| ==> Steady(actions[i], digest)
    ensures ThreadOf(run[|actions|], 0) == Done(NoFuture)
  {
    var s := Init({}, Some(base), map[digest := true]);
    var a := Call(0, digest, InReady);
    var s' := Step(s, a).value;
    ReachableInit({}, Some(base), map[digest := true]);
    ReachableStep(s, a, s');
    MissingFutureAtCall(s', 0, digest);
    var later, steps :| Misses(s', 0, Steadily(digest), later, steps);
    run, actions := [s] + later, [a] + steps;
    forall i | 0 <= i < |actions| ensures Step(run[i], actions[i]) == Some(run[i + 1]) && Steady(actions[i], digest) {
      if i > 0 {
        assert run[i] == later[i - 1] && actions[i] == steps[i - 1] && Steadily(digest)(steps[i - 1]);
      }
    }
    assert run[|actions|] == later[|steps|];
  }
}
