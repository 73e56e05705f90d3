/**
 Bounded records of dependency builds (services/sandbox-manager/app/skill_build_records.py):
 the stored log is a window on everything that was ever logged. Redaction is a
 function `safe` applied to each piece of text before it is stored.
*/
module SkillBuildRecords {
  import opened Common
  import opened Text

  const MAX_LOG_CHARS := 262144
  const MAX_RECORDS := 20

  datatype Attempt = Attempt(source: string, exitCode: int)

  datatype Record = Record(status: string, finished: bool, attempts: seq<Attempt>, log: string, truncated: bool)

  const NEW := Record("preparing", false, [], "", false)

  /** One call that changes a record. */
  datatype Op =
    | AppendAttempt(source: string, exitCode: int, output: string)
    | Finish(status: string, note: string)

  /** `text[-n:]`. */
  function LastChars(s: string, n: nat): (r: string)
    ensures |r| <= n && |r| <= |s|
  {
    if |s| <= n then s else s[|s| - n..]
  }

  function Heading(number: nat, source: string, exitCode: int): string {
    "\n=== Attempt " + NatText(number) + ": " + source + " (exit " + IntText(exitCode) + ") ===\n"
  }

  function AttemptChunk(number: nat, source: string, exitCode: int, output: string, safe: string -> string): string {
    safe(Heading(number, source, exitCode) + output)
  }

  function NoteChunk(note: string, safe: string -> string): string {
    safe("\n=== " + note + " ===\n")
  }

  function AddToLog(r: Record, chunk: string): Record {
    r.(truncated := r.truncated || |r.log + chunk| > MAX_LOG_CHARS, log := LastChars(r.log + chunk, MAX_LOG_CHARS))
  }

  /** The record after one call. */
  function Applied(r: Record, op: Op, safe: string -> string): Record {
    match op
    case AppendAttempt(source, exitCode, output) =>
      AddToLog(r, AttemptChunk(|r.attempts| + 1, source, exitCode, output, safe))
      .(attempts := r.attempts + [Attempt(source, exitCode)])
    case Finish(status, note) =>
      var done := r.(status := status, finished := true);
      if note == "" then done else AddToLog(done, NoteChunk(note, safe))
  }

  // ---------------------------------------------------------------- the log nobody stores

  /** All attempts, in the order they were appended. */
  function AttemptsOf(ops: seq<Op>): seq<Attempt> {
    FlatMap((op: Op) => if op.AppendAttempt? then [Attempt(op.source, op.exitCode)] else [], ops)
  }

  /** What one call logs; attempts are numbered from 1. */
  function Chunk(before: seq<Op>, op: Op, safe: string -> string): string {
    match op
    case AppendAttempt(source, exitCode, output) => AttemptChunk(|AttemptsOf(before)| + 1, source, exitCode, output,
                                                                 safe)
    case Finish(_, note) => if note == "" then "" else NoteChunk(note, safe)
  }

  /** Everything logged by a sequence of calls, without any limit. */
  function FullLog(ops: seq<Op>, safe: string -> string): string {
    if ops == [] then ""
    else FullLog(ops[..|ops| - 1], safe) + Chunk(ops[..|ops| - 1], ops[|ops| - 1], safe)
  }

  /** The status the last finish gave. */
  function StatusOf(ops: seq<Op>): (string, bool) {
    if ops == [] then (NEW.status, false)
    else if ops[|ops| - 1].Finish? then (ops[|ops| - 1].status, true)
    else StatusOf(ops[..|ops| - 1])
  }

  /** A new record after a sequence of calls. */
  function Replay(ops: seq<Op>, safe: string -> string): Record {
    if ops == [] then NEW else Applied(Replay(ops[..|ops| - 1], safe), ops[|ops| - 1], safe)
  }

  /** Cutting a cut text again is cutting the whole text. */
  lemma WindowSlides(full: string, chunk: string, n: nat)
    ensures LastChars(LastChars(full, n) + chunk, n) == LastChars(full + chunk, n)
  {
    if |full| > n {
      var cut := full[|full| - n..];
      assert (full + chunk)[|full| - n..] == cut + chunk;
    }
  }

  lemma LogAfter(r: Record, full: string, chunk: string)
    requires r.log == LastChars(full, MAX_LOG_CHARS) && (r.truncated <==> |full| > MAX_LOG_CHARS)
    ensures AddToLog(r, chunk).log == LastChars(full + chunk, MAX_LOG_CHARS)
    ensures AddToLog(r, chunk).truncated <==> |full + chunk| > MAX_LOG_CHARS
  {
    WindowSlides(full, chunk, MAX_LOG_CHARS);
  }

  /** `r` is the window on the full log of the calls, with their attempts and status. */
  predicate IsWindow(r: Record, ops: seq<Op>, safe: string -> string) {
    && r.log == LastChars(FullLog(ops, safe), MAX_LOG_CHARS)
    && (r.truncated <==> |FullLog(ops, safe)| > MAX_LOG_CHARS)
    && r.attempts == AttemptsOf(ops)
    && (r.status, r.finished) == StatusOf(ops)
  }

  lemma WindowStep(r: Record, ops: seq<Op>, op: Op, safe: string -> string)
    requires IsWindow(r, ops, safe)
    ensures IsWindow(Applied(r, op, safe), ops + [op], safe)
  {
    FlatMapSnoc((op: Op) => if op.AppendAttempt? then [Attempt(op.source, op.exitCode)] else [], ops, op);
    var chunk := Chunk(ops, op, safe);
    FullLogSnoc(ops, op, safe);
    assert (ops + [op])[..|ops + [op]| - 1] == ops;
    if op.AppendAttempt? {
      LogAfter(r, FullLog(ops, safe), chunk);
    } else if op.note != "" {
      LogAfter(r.(status := op.status, finished := true), FullLog(ops, safe), chunk);
    }
  }

  /**
     Over any sequence of calls the stored log is the end of the full log, the flag
     says exactly whether something was cut off, and the attempts and the status are
     those of the calls.
  */
  lemma {:induction false} RecordIsWindow(ops: seq<Op>, safe: string -> string)
    ensures IsWindow(Replay(ops, safe), ops, safe)
    decreases |ops|
  {
    if ops != [] {
      var rest, op := ops[..|ops| - 1], ops[|ops| - 1];
      RecordIsWindow(rest, safe);
      WindowStep(Replay(rest, safe), rest, op, safe);
      assert rest + [op] == ops;
    }
  }

  /** The cut takes the end of the text, and as much of it as the limit allows. */
  lemma LastCharsAre(s: string, n: nat)
    ensures LastChars(s, n) == if |s| <= n then s else s[|s| - n..]
    ensures |LastChars(s, n)| == Fewer(|s|, n) && s[|s| - |LastChars(s, n)|..] == LastChars(s, n)
  {}

  predicate EndsIn(whole: string, tail: string) {
    |tail| <= |whole| && whole[|whole| - |tail|..] == tail
  }

  lemma EndsInLast(a: string, b: string, c: string)
    ensures EndsIn(a + (b + c), c)
  {
    assert a + (b + c) == (a + b) + c;
  }

  lemma FullLogSnoc(ops: seq<Op>, op: Op, safe: string -> string)
    ensures FullLog(ops + [op], safe) == FullLog(ops, safe) + Chunk(ops, op, safe)
  {
    var more := ops + [op];
    assert more[..|more| - 1] == ops && more[|more| - 1] == op;
  }

  /** The text above the output of an attempt. */
  lemma HeadingText(number: nat, source: string, exitCode: int)
    ensures Heading(number, source, exitCode)
         == "\n=== Attempt " + NatText(number) + ": " + source + " (exit " + IntText(exitCode) + ") ===\n"
  {}

  /** What is logged last: the output of an attempt ends the log, below its number, its source and its exit code. */
  lemma OutputLogged(ops: seq<Op>, op: Op, heading: string, safe: string -> string)
    requires op.AppendAttempt? && heading == Heading(|AttemptsOf(ops)| + 1, op.source, op.exitCode)
    requires safe(heading + op.output) == heading + op.output
    ensures FullLog(ops + [op], safe) == FullLog(ops, safe) + (heading + op.output)
    ensures EndsIn(FullLog(ops + [op], safe), op.output)
  {
    FullLogSnoc(ops, op, safe);
    EndsInLast(FullLog(ops, safe), heading, op.output);
  }

  // ---------------------------------------------------------------- the store

  datatype Key = Key(digest: string, id: string)

  datatype Refusal = InvalidDigest | InvalidId

  predicate IsHex(s: string, n: nat) {
    |s| == n && forall i :: 0 <= i < n ==> '0' <= s[i] <= '9' || 'a' <= s[i] <= 'f'
  }

  predicate IsKey(k: Key) {
    IsHex(k.digest, 64) && IsHex(k.id, 32)
  }

  /** Files from the newest to the oldest, as sorting the directory by modification time gives them. */
  ghost predicate IsNewestFirst(keys: set<Key>, written: map<Key, nat>, paths: seq<Key>) {
    && (forall k :: k in paths <==> k in keys)
    && (forall i, j :: 0 <= i < j < |paths| ==> paths[i] != paths[j])
    && (forall i, j :: 0 <= i < j < |paths| && paths[i] in written && paths[j] in written ==>
          written[paths[i]] >= written[paths[j]])
  }

  predicate IsPart<V(==)>(part: map<Key, V>, whole: map<Key, V>) {
    forall k :: k in part ==> k in whole && part[k] == whole[k]
  }

  function Fewer(a: nat, b: nat): nat {
    if a < b then a else b
  }

  function Kept(paths: seq<Key>): nat {
    if |paths| < MAX_RECORDS then |paths| else MAX_RECORDS
  }

  class RecordStore {
    const safe: string -> string
    var records: map<Key, Record>
    var written: map<Key, nat>                 // modification times
    ghost var history: map<Key, seq<Op>>       // the calls on each record since it was created

    /** Every stored record is the replay of the calls made on it, and on it alone. */
    ghost predicate Valid()
      reads this
    {
      && records.Keys == written.Keys == history.Keys
      && (forall k :: k in records ==> IsKey(k) && records[k] == Replay(history[k], safe))
    }

    constructor (safe: string -> string)
      ensures Valid() && records == map[] && this.safe == safe
    {
      this.safe := safe;
      this.records, this.written, this.history := map[], map[], map[];
    }

    method Write(k: Key, r: Record, now: nat)
      modifies this`records, this`written
      ensures records == old(records)[k := r] && written == old(written)[k := now]
    {
      records, written := records[k := r], written[k := now];
    }

    /** The record, if its key is well-formed and it is there. */
    method Get(k: Key) returns (r: Result<Option<Record>, Refusal>)
      requires Valid()
      ensures r.Ok? <==> IsKey(k)
      ensures r.Ok? ==> (r.value.Some? <==> k in records)
      ensures r.Ok? && r.value.Some? ==>
        && r.value.value.log == LastChars(FullLog(history[k], safe), MAX_LOG_CHARS)
        && (r.value.value.truncated <==> |FullLog(history[k], safe)| > MAX_LOG_CHARS)
        && r.value.value.attempts == AttemptsOf(history[k])
        && (r.value.value.status, r.value.value.finished) == StatusOf(history[k])
    {
      if !IsHex(k.id, 32) {
        return Err(InvalidId);
      }
      if !IsHex(k.digest, 64) {
        return Err(InvalidDigest);
      }
      if k !in records {
        return Ok(None);
      }
      RecordIsWindow(history[k], safe);
      return Ok(Some(records[k]));
    }

    /** A call on a record that exists changes that record alone; on any other it changes nothing. */
    method Update(k: Key, op: Op, now: nat) returns (r: Result<(), Refusal>)
      requires Valid()
      modifies this
      ensures Valid() && (r.Ok? <==> IsKey(k))
      ensures k !in old(records) ==> records == old(records) && history == old(history)
      ensures k in old(records) ==>
        && records == old(records)[k := Applied(old(records)[k], op, safe)]
        && history == old(history)[k := old(history)[k] + [op]]
    {
      var found := Get(k);
      if found.Err? {
        return Err(found.error);
      }
      if found.value.None? {
        return Ok(());
      }
      var record := if op.AppendAttempt? then Attempted(records[k], op.source, op.exitCode, op.output)
                    else Finished(records[k], op.status, op.note);
      Write(k, record, now);
      ghost var ops := history[k] + [op];
      assert ops[..|ops| - 1] == history[k];
      history := history[k := ops];
      return Ok(());
    }

    function Attempted(r: Record, source: string, exitCode: int, output: string): (after: Record)
      ensures after == Applied(r, AppendAttempt(source, exitCode, output), safe)
    {
      var chunk := AttemptChunk(|r.attempts| + 1, source, exitCode, output, safe);
      var combined := r.log + chunk;
      Record(r.status, r.finished, r.attempts + [Attempt(source, exitCode)],
             LastChars(combined, MAX_LOG_CHARS), r.truncated || |combined| > MAX_LOG_CHARS)
    }

    function Finished(r: Record, status: string, note: string): (after: Record)
      ensures after == Applied(r, Finish(status, note), safe)
    {
      if note == "" then Record(status, true, r.attempts, r.log, r.truncated)
      else
        var combined := r.log + NoteChunk(note, safe);
        Record(status, true, r.attempts, LastChars(combined, MAX_LOG_CHARS), r.truncated || |combined| > MAX_LOG_CHARS)
    }

    /** The records of one bundle. */
    ghost function Of(digest: string): set<Key>
      reads this`records
    {
      set k | k in records && k.digest == digest
    }

    /** Keeps the newest records of the bundle, up to the limit, and all records of other bundles. */
    method Prune(digest: string, paths: seq<Key>)
      requires Valid() && IsNewestFirst(Of(digest), written, paths)
      modifies this
      ensures Valid()
      ensures forall k :: k in records <==> k in old(records) && k !in paths[Kept(paths)..]
      ensures IsPart(records, old(records)) && IsPart(history, old(history))
      ensures |Of(digest)| == Fewer(|old(Of(digest))|, 20)
      ensures forall k, j :: k in old(Of(digest)) && k !in records && j in Of(digest) ==>
        old(written)[k] <= old(written)[j]
    {
      var drop := paths[Kept(paths)..];
      for i := 0 to |drop|
        invariant Valid()
        invariant forall k :: k in records <==> k in old(records) && k !in drop[..i]
        invariant IsPart(records, old(records)) && IsPart(history, old(history))
      {
        assert drop[..i + 1] == drop[..i] + [drop[i]];
        records, written, history := records - {drop[i]}, written - {drop[i]}, history - {drop[i]};
      }
      assert drop[..|drop|] == drop;
      KeptAreFirst(old(Of(digest)), paths, Kept(paths), Of(digest));
    }

    static lemma KeptAreFirst(before: set<Key>, paths: seq<Key>, kept: nat, after: set<Key>)
      requires kept <= |paths| && (forall k :: k in paths <==> k in before)
      requires forall i, j :: 0 <= i < j < |paths| ==> paths[i] != paths[j]
      requires forall k :: k in after <==> k in before && k !in paths[kept..]
      ensures |after| == kept && |before| == |paths|
      ensures forall k :: k in after ==> k in paths[..kept]
      ensures forall k :: k in before && k !in after ==> k in paths[kept..]
    {
      assert paths == paths[..kept] + paths[kept..];
      assert after == set k | k in paths[..kept];
      assert before == set k | k in paths;
      SetOfSeq(paths[..kept]);
      SetOfSeq(paths);
    }

    static lemma SetOfSeq(s: seq<Key>)
      requires forall i, j :: 0 <= i < j < |s| ==> s[i] != s[j]
      ensures |set k | k in s| == |s|
    {
      if s != [] {
        SetOfSeq(s[1..]);
        assert (set k | k in s) == {s[0]} + set k | k in s[1..];
      }
    }

    method Insert(k: Key, now: nat)
      requires Valid() && IsKey(k)
      modifies this
      ensures Valid()
      ensures records == old(records)[k := NEW] && history == old(history)[k := []] && written == old(written)[k := now]
    {
      Write(k, NEW, now);
      history := history[k := []];
    }

    method InsertAndPrune(k: Key, now: nat, paths: seq<Key>)
      requires Valid() && k !in records && IsKey(k)
      requires IsNewestFirst(Of(k.digest) + {k}, written[k := now], paths)
      modifies this
      ensures Valid()
      ensures IsPart(records, old(records)[k := NEW]) && IsPart(history, old(history)[k := []])
      ensures forall j :: j in records <==> (j in old(records) || j == k) && j !in paths[Kept(paths)..]
      ensures |Of(k.digest)| == Fewer(|old(Of(k.digest))| + 1, 20)
    {
      Insert(k, now);
      OneMore(old(records), k, k.digest, NEW);
      Prune(k.digest, paths);
    }

    /** A new record under a fresh identifier; then the oldest records of the bundle beyond the limit go. */
    method Create(k: Key, now: nat, paths: seq<Key>) returns (r: Result<(), Refusal>)
      requires Valid() && k !in records && IsHex(k.id, 32)
      requires IsNewestFirst(Of(k.digest) + {k}, written[k := now], paths)
      modifies this
      ensures Valid() && (r.Ok? <==> IsHex(k.digest, 64))
      ensures r.Err? ==> records == old(records) && history == old(history)
      ensures r.Ok? ==> IsPart(records, old(records)[k := NEW]) && IsPart(history, old(history)[k := []])
      ensures r.Ok? ==> forall j :: j in records <==> (j in old(records) || j == k) && j !in paths[Kept(paths)..]
      ensures forall j :: j in old(records) && j !in old(Of(k.digest)) ==> j in records
      ensures r.Ok? ==> |Of(k.digest)| == Fewer(|old(Of(k.digest))| + 1, 20)
      ensures r.Ok? && (forall j :: j in old(Of(k.digest)) ==> old(written)[j] < now) ==> k in records
    {
      if !IsHex(k.digest, 64) {
        return Err(InvalidDigest);
      }
      NewestIsFirst(Of(k.digest), k, written[k := now], paths);
      InsertAndPrune(k, now, paths);
      return Ok(());
    }
  }

  lemma OneMore(records: map<Key, Record>, k: Key, digest: string, r: Record)
    requires k.digest == digest
    ensures (set j | j in records[k := r] && j.digest == digest) == (set j | j in records && j.digest == digest) + {k}
  {}

  /** A file newer than all others of its bundle is not among those to be dropped. */
  lemma NewestIsFirst(older: set<Key>, k: Key, written: map<Key, nat>, paths: seq<Key>)
    requires k !in older && older + {k} <= written.Keys && IsNewestFirst(older + {k}, written, paths)
    ensures (forall j :: j in older ==> written[j] < written[k]) ==> k !in paths[Kept(paths)..]
  {
    if forall j :: j in older ==> written[j] < written[k] {
      assert k in paths;
      forall i | 0 < i < |paths| ensures paths[i] != k {
        assert paths[0] in paths && paths[i] in paths;
      }
    }
  }
}
