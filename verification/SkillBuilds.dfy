/**
 One dependency build (services/sandbox-manager/app/skill_environments.py, _build):
 sources are tried in turn, each in its own container, on a network of its own, with
 every outcome written to the build's record. Any engine call and any write may raise.
*/
module SkillBuilds {
  import opened Common
  import opened SkillBuildRecords

  /**
   What the engine, the clock and the record do while one source is tried: `recorded`
   and `recordedLate` are the two places where the attempt can be written, `noted`
   the write of the success.
  */
  datatype Trial = Trial(
    inTime: bool, created: bool, started: bool, exit: Option<int>, retryable: bool,
    recorded: bool, committed: bool, noted: bool, recordedLate: bool, removed: bool, output: string)

  /**
   What they do around the trials: the record is begun before and, after a failure,
   closed; `described` tells whether the root of the bundle, the container's
   description and the list of sources could be worked out.
  */
  datatype Setting = Setting(
    begun: bool, offline: bool, proxy: bool, network: bool, connected: bool, described: bool, closed: bool,
    disconnected: bool, networkRemoved: bool)

  datatype Failure =
    | SetupFailed | TimeLimit | EngineFailed | RecordFailed | InstallFailed | AllSourcesFailed | RemoveFailed
    | NetworkLeft

  /** The trial makes a container that has to be recorded and removed. */
  predicate Ran(t: Trial) {
    t.inTime && t.created
  }

  /** The exit code was seen and written. */
  predicate Captured(t: Trial) {
    Ran(t) && t.started && t.exit.Some? && t.recorded
  }

  /** The attempt is in the record, if need be from the clean-up. */
  predicate Attempted(t: Trial) {
    Captured(t) || (Ran(t) && t.recordedLate)
  }

  /** The container stays: its removal raised, or was never reached because the clean-up could not write the attempt. */
  predicate Stays(t: Trial) {
    Ran(t) && !(Attempted(t) && t.removed)
  }

  predicate SaysReady(t: Trial) {
    Captured(t) && t.exit == Some(0) && t.committed && t.noted
  }

  /** The trial prepares the image, and its container goes. */
  predicate Succeeds(t: Trial) {
    SaysReady(t) && t.removed
  }

  /** The trial fails in a way that allows the next source. */
  predicate Retries(t: Trial) {
    Captured(t) && t.exit != Some(0) && t.retryable && t.removed
  }

  /** The exit code that is recorded; -1 when none was written in time. */
  function Recorded(t: Trial): int {
    if Captured(t) then t.exit.value else -1
  }

  function AttemptsMade(sources: seq<string>, trials: seq<Trial>, n: nat): seq<Attempt>
    requires n <= |sources| == |trials|
  {
    if n == 0 then []
    else
      AttemptsMade(sources, trials, n - 1)
      + (if Attempted(trials[n - 1]) then [Attempt(sources[n - 1], Recorded(trials[n - 1]))] else [])
  }

  /** Containers that stay, numbered as they were created from `first`. */
  function LeftBehind(trials: seq<Trial>, n: nat, first: nat): (r: set<nat>)
    requires n <= |trials|
    ensures forall x :: x in r ==> first <= x < NextAfter(trials, n, first)
  {
    if n == 0 then {}
    else
      LeftBehind(trials, n - 1, first)
      + (if Stays(trials[n - 1]) then {NextAfter(trials, n - 1, first)} else {})
  }

  function NextAfter(trials: seq<Trial>, n: nat, first: nat): (r: nat)
    requires n <= |trials|
    ensures r >= first
  {
    if n == 0 then first else NextAfter(trials, n - 1, first) + (if Ran(trials[n - 1]) then 1 else 0)
  }

  /** No container is left exactly when each was recorded, in time or late, and its removal worked. */
  lemma {:induction false} NothingLeft(trials: seq<Trial>, n: nat, first: nat)
    requires n <= |trials|
    ensures LeftBehind(trials, n, first) == {} <==> forall i :: 0 <= i < n && Ran(trials[i]) ==>
      Attempted(trials[i]) && trials[i].removed
  {
    if n > 0 {
      NothingLeft(trials, n - 1, first);
    }
  }

  /** One attempt is recorded for each container exactly when one of the two writes worked for each. */
  lemma {:induction false} OneAttemptEach(sources: seq<string>, trials: seq<Trial>, n: nat, first: nat)
    requires n <= |sources| == |trials|
    ensures |AttemptsMade(sources, trials, n)| <= NextAfter(trials, n, first) - first
    ensures |AttemptsMade(sources, trials, n)| == NextAfter(trials, n, first) - first
       <==> forall i :: 0 <= i < n && Ran(trials[i]) ==> Attempted(trials[i])
  {
    if n > 0 {
      OneAttemptEach(sources, trials, n - 1, first);
    }
  }

  /** And a container without an attempt is always left behind. */
  lemma {:induction false} UnrecordedStay(sources: seq<string>, trials: seq<Trial>, n: nat, first: nat)
    requires n <= |sources| == |trials|
    ensures NextAfter(trials, n, first) - first - |AttemptsMade(sources, trials, n)| <= |LeftBehind(trials, n, first)|
  {
    if n > 0 {
      UnrecordedStay(sources, trials, n - 1, first);
      assert NextAfter(trials, n - 1, first) !in LeftBehind(trials, n - 1, first);
    }
  }

  /** The container was seen to end with this exit code. */
  predicate Exited(t: Trial, code: int) {
    t.inTime && t.created && t.started && t.exit == Some(code)
  }

  /** What an attempt says of its trial: the exit code if that was seen and written in time, and -1 otherwise. */
  predicate Describes(a: Attempt, source: string, t: Trial) {
    && a.source == source && t.inTime && t.created
    && if t.started && t.exit.Some? && t.recorded then a.exitCode == t.exit.value
       else a.exitCode == -1 && t.recordedLate
  }

  /** Every attempt describes a trial; so a source is recorded with 0 only if its container ended with 0. */
  lemma {:induction false} RecordedCodes(sources: seq<string>, trials: seq<Trial>, n: nat, a: Attempt)
    requires n <= |sources| == |trials| && a in AttemptsMade(sources, trials, n)
    ensures exists i :: 0 <= i < n && Describes(a, sources[i], trials[i])
    ensures a.exitCode == 0 ==> exists i :: 0 <= i < n && a.source == sources[i] && Exited(trials[i], 0)
  {
    if a in AttemptsMade(sources, trials, n - 1) {
      RecordedCodes(sources, trials, n - 1, a);
    } else {
      assert Describes(a, sources[n - 1], trials[n - 1]);
      assert a.exitCode == 0 ==> Exited(trials[n - 1], 0);
    }
  }

  /** The image is prepared by a container that ended with 0, was committed, noted and removed. */
  predicate Works(t: Trial) {
    Exited(t, 0) && t.recorded && t.committed && t.noted && t.removed
  }

  /** The next source may be tried: the container failed for a passing reason, which is on record, and is gone. */
  predicate FailsForNow(t: Trial) {
    t.inTime && t.created && t.started && t.exit.Some? && !Exited(t, 0) && t.recorded && t.retryable && t.removed
  }

  /** How many sources were tried, and what the last trial had to be like. */
  lemma TriedInTurn(trials: seq<Trial>, tried: nat)
    requires StopsAt(trials, tried)
    ensures forall i :: 0 <= i < tried - 1 ==> FailsForNow(trials[i]) && !Works(trials[i])
    ensures tried < |trials| ==> !FailsForNow(trials[tried - 1])
    ensures Succeeds(trials[tried - 1]) <==> Works(trials[tried - 1])
  {}

  lemma AttemptsNext(before: seq<Attempt>, sources: seq<string>, trials: seq<Trial>, n: nat)
    requires n < |sources| == |trials|
    ensures before + AttemptsMade(sources, trials, n)
          + (if Attempted(trials[n]) then [Attempt(sources[n], Recorded(trials[n]))] else [])
         == before + AttemptsMade(sources, trials, n + 1)
  {}

  /** The network, the proxy on it, and the description of the container are there for the first source. */
  predicate SetUp(g: Setting) {
    (g.offline || g.proxy) && g.network && (g.offline || g.connected) && g.described
  }

  predicate NetworkMade(g: Setting) {
    (g.offline || g.proxy) && g.network
  }

  /** The clean-up at the very end: the network is only removed once the proxy has been disconnected. */
  predicate NetworkGone(g: Setting) {
    (g.offline || g.disconnected) && g.networkRemoved
  }

  datatype TrialResult = NextSource | Prepared | Raised(why: Failure)

  const READY_OP := Finish("ready", "Image prepared")
  const FAILED_OP := Finish("failed", "Preparation failed; see sandbox manager logs for infrastructure errors")

  /** What one trial writes into the record. */
  function OpsOf(source: string, t: Trial): seq<Op> {
    (if Attempted(t) then [AppendAttempt(source, Recorded(t), t.output)] else [])
    + (if SaysReady(t) then [READY_OP] else [])
  }

  lemma OpsAttempts(ops: seq<Op>, source: string, t: Trial)
    ensures AttemptsOf(ops + OpsOf(source, t))
         == AttemptsOf(ops) + (if Attempted(t) then [Attempt(source, Recorded(t))] else [])
  {
    var more := ops + (if Attempted(t) then [AppendAttempt(source, Recorded(t), t.output)] else []);
    if Attempted(t) {
      AttemptsSnoc(ops, AppendAttempt(source, Recorded(t), t.output));
    } else {
      assert more == ops;
    }
    if SaysReady(t) {
      AttemptsSnoc(more, READY_OP);
      assert ops + OpsOf(source, t) == more + [READY_OP];
    } else {
      assert ops + OpsOf(source, t) == more;
    }
  }

  lemma AttemptsSnoc(ops: seq<Op>, op: Op)
    ensures AttemptsOf(ops + [op])
         == AttemptsOf(ops) + (if op.AppendAttempt? then [Attempt(op.source, op.exitCode)] else [])
  {
    FlatMapSnoc((o: Op) => if o.AppendAttempt? then [Attempt(o.source, o.exitCode)] else [], ops, op);
  }

  lemma StatusSnoc(ops: seq<Op>, op: Op)
    ensures StatusOf(ops + [op]) == if op.Finish? then (op.status, true) else StatusOf(ops)
  {}

  lemma OpsStatus(ops: seq<Op>, source: string, t: Trial)
    ensures StatusOf(ops + OpsOf(source, t)) == if SaysReady(t) then ("ready", true) else StatusOf(ops)
  {
    var more := ops + (if Attempted(t) then [AppendAttempt(source, Recorded(t), t.output)] else []);
    assert ops + OpsOf(source, t) == if SaysReady(t) then more + [READY_OP] else more;
    if Attempted(t) {
      StatusSnoc(ops, AppendAttempt(source, Recorded(t), t.output));
    } else {
      assert more == ops;
    }
    StatusSnoc(more, READY_OP);
  }

  /** The first `tried` sources were tried, all but the last failing in a way that allows the next. */
  ghost predicate StopsAt(trials: seq<Trial>, tried: nat) {
    && 0 < tried <= |trials|
    && (forall i :: 0 <= i < tried - 1 ==> Retries(trials[i]))
    && (tried < |trials| ==> !Retries(trials[tried - 1]))
  }

  /** The loop is where `r` says, after `tried` sources. */
  ghost predicate Stopped(trials: seq<Trial>, tried: nat, r: TrialResult) {
    && 0 < tried <= |trials|
    && (forall i :: 0 <= i < tried - 1 ==> Retries(trials[i]))
    && (r == NextSource <==> Retries(trials[tried - 1]) && tried < |trials|)
    && (r == Prepared <==> Succeeds(trials[tried - 1]))
  }

  /** What the record says in the end. */
  function FinalStatus(g: Setting, trials: seq<Trial>, tried: nat): (string, bool)
    requires tried <= |trials|
  {
    if tried > 0 && Succeeds(trials[tried - 1]) then ("ready", true)
    else if g.begun && g.closed then ("failed", true)
    else if tried > 0 && SaysReady(trials[tried - 1]) then ("ready", true)
    else ("preparing", false)
  }

  class SkillBuild {
    var live: set<nat>       // containers and networks the engine has
    var next: nat            // supply of engine identifiers
    var ops: seq<Op>         // the calls on the build's record

    predicate Valid()
      reads this
    {
      forall x :: x in live ==> x < next
    }

    constructor (live: set<nat>, next: nat)
      requires forall x :: x in live ==> x < next
      ensures Valid() && this.live == live && this.next == next && ops == []
    {
      this.live, this.next, this.ops := live, next, [];
    }

    /** One source: the `try` with its `finally`, which records what has not been recorded and removes the container. */
    method TrySource(source: string, t: Trial, last: bool) returns (r: TrialResult)
      requires Valid()
      modifies this
      ensures Valid()
      ensures r == NextSource <==> Retries(t) && !last
      ensures r == Prepared <==> Succeeds(t)
      ensures r == NextSource <==> FailsForNow(t) && !last
      ensures r == Prepared <==> Works(t)
      ensures r != Raised(AllSourcesFailed)
      ensures ops == old(ops) + OpsOf(source, t)
      ensures next == old(next) + (if Ran(t) then 1 else 0)
      ensures live == old(live) + (if Stays(t) then {old(next)} else {})
    {
      if !t.inTime {
        return Raised(TimeLimit);
      }
      if !t.created {
        return Raised(EngineFailed);
      }
      var container := next;
      live, next := live + {container}, next + 1;
      var captured := false;
      r := Raised(EngineFailed);
      if t.started && t.exit.Some? {
        if t.recorded {
          ops, captured := ops + [AppendAttempt(source, t.exit.value, t.output)], true;
          r := JudgeExit(t, last);
        } else {
          r := Raised(RecordFailed);
        }
      }
      if !captured {
        if !t.recordedLate {
          // The write in the clean-up raises, so the removal is never reached.
          return Raised(RecordFailed);
        }
        ops := ops + [AppendAttempt(source, -1, t.output)];
      }
      if t.removed {
        live := live - {container};
      } else {
        r := Raised(RemoveFailed);
      }
    }

    /** What follows from an exit code that has been recorded. */
    method JudgeExit(t: Trial, last: bool) returns (r: TrialResult)
      requires t.exit.Some?
      modifies this`ops
      ensures ops == old(ops) + (if t.exit.value == 0 && t.committed && t.noted then [READY_OP] else [])
      ensures r == Prepared <==> t.exit.value == 0 && t.committed && t.noted
      ensures r == NextSource <==> t.exit.value != 0 && !last && t.retryable
      ensures r != Raised(AllSourcesFailed)
    {
      if t.exit.value == 0 {
        if !t.committed {
          return Raised(EngineFailed);
        }
        if !t.noted {
          return Raised(RecordFailed);
        }
        ops := ops + [READY_OP];
        return Prepared;
      }
      return if !last && t.retryable then NextSource else Raised(InstallFailed);
    }

    /** The source at place `i`, and what the record says afterwards. */
    method TryAt(sources: seq<string>, trials: seq<Trial>, i: nat) returns (r: TrialResult)
      requires Valid() && i < |sources| == |trials|
      modifies this
      ensures Valid() && r != Raised(AllSourcesFailed)
      ensures r == NextSource <==> Retries(trials[i]) && i + 1 < |trials|
      ensures r == Prepared <==> Succeeds(trials[i])
      ensures AttemptsOf(ops)
           == AttemptsOf(old(ops)) + (if Attempted(trials[i]) then [Attempt(sources[i], Recorded(trials[i]))] else [])
      ensures StatusOf(ops) == if SaysReady(trials[i]) then ("ready", true) else StatusOf(old(ops))
      ensures next == old(next) + (if Ran(trials[i]) then 1 else 0)
      ensures live == old(live) + (if Stays(trials[i]) then {old(next)} else {})
    {
      OpsAttempts(ops, sources[i], trials[i]);
      OpsStatus(ops, sources[i], trials[i]);
      r := TrySource(sources[i], trials[i], i == |sources| - 1);
    }

    /** The loop over the sources, until one prepares the image or fails for good. */
    method TrySources(sources: seq<string>, trials: seq<Trial>) returns (r: TrialResult, tried: nat)
      requires Valid() && |sources| == |trials| > 0
      modifies this
      ensures Valid() && Stopped(trials, tried, r)
      ensures 0 < tried <= |trials| && r != NextSource && r != Raised(AllSourcesFailed)
      ensures AttemptsOf(ops) == AttemptsOf(old(ops)) + AttemptsMade(sources, trials, tried)
      ensures StatusOf(ops) == if SaysReady(trials[tried - 1]) then ("ready", true) else StatusOf(old(ops))
      ensures live == old(live) + LeftBehind(trials, tried, old(next))
    {
      tried := 0;
      r := NextSource;
      ghost var attempts, status := AttemptsOf(ops), StatusOf(ops);
      assert AttemptsMade(sources, trials, 0) == [];
      while tried < |sources| && r == NextSource
        invariant Valid() && tried <= |trials| && r != Raised(AllSourcesFailed)
        invariant tried > 0 || r == NextSource
        invariant tried > 0 ==> Stopped(trials, tried, r)
        invariant AttemptsOf(ops) == attempts + AttemptsMade(sources, trials, tried)
        invariant StatusOf(ops) == if tried > 0 && SaysReady(trials[tried - 1]) then ("ready", true) else status
        invariant next == NextAfter(trials, tried, old(next))
        invariant live == old(live) + LeftBehind(trials, tried, old(next))
        decreases |sources| - tried
      {
        AttemptsNext(attempts, sources, trials, tried);
        r := TryAt(sources, trials, tried);
        tried := tried + 1;
      }
      if r == NextSource {
        r := Raised(AllSourcesFailed);
      }
    }

    /** The body of the outer `try`: the network, then the sources. */
    method Prepare(g: Setting, sources: seq<string>, trials: seq<Trial>) returns (r: Result<(), Failure>, tried: nat)
      requires Valid() && |sources| == |trials| > 0 && ops == []
      modifies this
      ensures Valid() && (SetUp(g) <==> tried > 0) && tried <= |trials|
      ensures tried > 0 ==> StopsAt(trials, tried)
      ensures r.Ok? <==> tried > 0 && Succeeds(trials[tried - 1])
      ensures r != Err(AllSourcesFailed)
      ensures AttemptsOf(ops) == AttemptsMade(sources, trials, tried)
      ensures StatusOf(ops) == if tried > 0 && SaysReady(trials[tried - 1]) then ("ready", true)
        else ("preparing", false)
      ensures live == old(live)
        + (if NetworkMade(g) then {old(next)} else {}) + LeftBehind(trials, tried, old(next) + 1)
    {
      tried := 0;
      assert AttemptsOf(ops) == [] == AttemptsMade(sources, trials, 0);
      if !NetworkMade(g) {
        return Err(SetupFailed), 0;
      }
      live, next := live + {next}, next + 1;
      if !g.offline && !g.connected {
        return Err(SetupFailed), 0;
      }
      if !g.described {
        return Err(SetupFailed), 0;
      }
      var outcome: TrialResult;
      outcome, tried := TrySources(sources, trials);
      assert [] + AttemptsMade(sources, trials, tried) == AttemptsMade(sources, trials, tried);
      r := if outcome.Raised? then Err(outcome.why) else Ok(());
    }

    /** The outer `except`: the failure is written, unless that raises too. */
    method Close(g: Setting)
      modifies this`ops
      ensures AttemptsOf(ops) == AttemptsOf(old(ops))
      ensures StatusOf(ops) == if g.closed then ("failed", true) else StatusOf(old(ops))
    {
      if g.closed {
        AttemptsSnoc(ops, FAILED_OP);
        StatusSnoc(ops, FAILED_OP);
        ops := ops + [FAILED_OP];
      }
    }

    /**
     A whole build. A container goes unless its removal raised or its attempt could
     not be written; a later source is tried only after a failure that allows it; the
     image is returned exactly when a source succeeded and the network could be
     cleaned up. The record ends ready when a source succeeded; otherwise failed, or,
     when not even that could be written, as it was. The raise after the loop is
     never reached.
    */
    method Build(g: Setting, sources: seq<string>, trials: seq<Trial>) returns (r: Result<(), Failure>, tried: nat)
      requires Valid() && |sources| == |trials| > 0 && ops == []
      modifies this
      ensures (g.begun && SetUp(g) <==> tried > 0) && tried <= |trials|
      ensures tried > 0 ==> StopsAt(trials, tried)
      ensures AttemptsOf(ops) == AttemptsMade(sources, trials, tried)
      ensures StatusOf(ops) == FinalStatus(g, trials, tried)
      ensures r.Ok? <==> tried > 0 && Succeeds(trials[tried - 1]) && NetworkGone(g)
      ensures r != Err(AllSourcesFailed)
      ensures live == old(live)
        + (if g.begun && NetworkMade(g) && !NetworkGone(g) then {old(next)} else {})
        + LeftBehind(trials, tried, old(next) + 1)
    {
      assert AttemptsOf(ops) == [] == AttemptsMade(sources, trials, 0);
      if !g.begun {
        return Err(RecordFailed), 0;
      }
      var network := next;
      r, tried := Prepare(g, sources, trials);
      if r.Err? {
        Close(g);
      }
      if NetworkMade(g) {
        if !g.offline && !g.disconnected {
          r := Err(NetworkLeft);
        } else if !g.networkRemoved {
          r := Err(NetworkLeft);
        } else {
          live := live - {network};
        }
      }
    }
  }

  /**
   The record can say ready although the caller gets an exception: the network clean-up
   of a successful build raises.
  */
  method RaisesThoughReady() returns (r: Result<(), Failure>, status: (string, bool))
    ensures r.Err? && status == ("ready", true)
  {
    var build := new SkillBuild({}, 0);
    var g := Setting(true, true, true, true, true, true, true, true, false);
    var tried: nat;
    r, tried := build.Build(g, ["source"], [Trial(true, true, true, Some(0), false, true, true, true, true, true, "")]);
    status := StatusOf(build.ops);
  }

  /** A container can stay although its removal would have worked: neither write of its attempt works. */
  method LeavesUnrecorded() returns (attempts: seq<Attempt>, live: set<nat>)
    ensures attempts == [] && live == {1}
  {
    var build := new SkillBuild({}, 0);
    var g := Setting(true, true, true, true, true, true, true, true, true);
    var trials := [Trial(true, true, true, Some(0), false, false, true, true, false, true, "")];
    var r, tried := build.Build(g, ["source"], trials);
    assert LeftBehind(trials, 1, 1) == LeftBehind(trials, 0, 1) + {NextAfter(trials, 0, 1)};
    attempts, live := AttemptsOf(build.ops), build.live;
  }
}
