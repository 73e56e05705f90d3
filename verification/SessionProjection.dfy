/**
 Reconciling server snapshots with live chat rows
 (apps/user-web/src/composables/sessionLiveProjection.ts).

 A chat row is a JavaScript object, that is, a map from property names to
 values; a missing property reads as `Undefined`. Objects, functions and
 non-integral numbers are opaque values compared by identity.
*/
module SessionProjection {
  import opened Common

  datatype Value = Undefined | Null | Str(text: string) | Int(n: int) | Opaque(id: int)

  type Row = map<string, Value>

  function Prop(row: Row, name: string): Value {
    if name in row then row[name] else Undefined
  }

  predicate NonEmpty(v: Value) {
    v.Str? && v.text != ""
  }

  /** `messageMergeKey`: a message id first, then the server's own key, never a synthesized one. */
  function MergeKey(row: Row): Option<string> {
    if NonEmpty(Prop(row, "message_id")) then Some("message:" + Prop(row, "message_id").text)
    else if NonEmpty(Prop(row, "legacy_key")) then Some(Prop(row, "legacy_key").text)
    else None
  }

  // ---------------------------------------------------------------- ordering

  predicate Allocated(v: Value) {
    v.Int? && v.n >= 1
  }

  function Seq(row: Row): int {
    var v := Prop(row, "seq");
    if v.Int? then v.n else 0
  }

  /** Every row carries a distinct sequence number of at least 1. */
  predicate FullyAllocated(rows: seq<Row>) {
    && (forall i :: 0 <= i < |rows| ==> Allocated(Prop(rows[i], "seq")))
    && (forall i, j :: 0 <= i < j < |rows| ==> Seq(rows[i]) != Seq(rows[j]))
  }

  method HasFullyAllocatedSeq(rows: seq<Row>) returns (full: bool)
    ensures full <==> FullyAllocated(rows)
  {
    var seen: set<int> := {};
    for k := 0 to |rows|
      invariant forall i :: 0 <= i < k ==> Allocated(Prop(rows[i], "seq"))
      invariant seen == set i | 0 <= i < k :: Seq(rows[i])
      invariant forall i, j :: 0 <= i < j < k ==> Seq(rows[i]) != Seq(rows[j])
    {
      var v := Prop(rows[k], "seq");
      if !v.Int? || v.n < 1 {
        assert !Allocated(Prop(rows[k], "seq"));
        return false;
      }
      if v.n in seen {
        var i :| 0 <= i < k && Seq(rows[i]) == v.n;
        assert Seq(rows[i]) == Seq(rows[k]);
        return false;
      }
      seen := seen + {v.n};
    }
    return true;
  }

  function Insert(row: Row, rows: seq<Row>): seq<Row> {
    if rows == [] || Seq(row) <= Seq(rows[0]) then [row] + rows
    else [rows[0]] + Insert(row, rows[1..])
  }

  /** The comparator sort by `seq`; ties keep their order. */
  function SortBySeq(rows: seq<Row>): seq<Row> {
    if rows == [] then [] else Insert(rows[0], SortBySeq(rows[1..]))
  }

  /** `orderAuthoritativeMessages`: a degraded response keeps the server's order. */
  function Order(rows: seq<Row>): seq<Row> {
    if FullyAllocated(rows) then SortBySeq(rows) else rows
  }

  // ---------------------------------------------------------------- merging

  function ContentOf(row: Row): string {
    var v := Prop(row, "content");
    if v.Str? then v.text else ""
  }

  /** `mergeRuntimeRow`: the snapshot's properties win, except the row identity, the execution store and a lost body. */
  function MergeRow(existing: Row, incoming: Row): Row {
    var a := existing + incoming;
    var b := if Prop(existing, "_id") != Undefined then a["_id" := existing["_id"]] else a;
    var c := if Prop(existing, "_execV3") != Undefined then b["_execV3" := existing["_execV3"]] else b;
    if ContentOf(incoming) == "" && ContentOf(existing) != "" then c["content" := existing["content"]] else c
  }

  predicate KeyIn(key: string, rows: seq<Row>) {
    exists i :: 0 <= i < |rows| && MergeKey(rows[i]) == Some(key)
  }

  /** A row the base has no slot for: it has no key, or nobody carries its key. */
  predicate Unmatched(base: seq<Row>, row: Row) {
    MergeKey(row).None? || !KeyIn(MergeKey(row).value, base)
  }

  /** The first row of every key, and every keyless row, in their old order. */
  function FirstPerKey(rows: seq<Row>): (base: seq<Row>) {
    if rows == [] then []
    else
      var n := |rows| - 1;
      var base := FirstPerKey(rows[..n]);
      if Unmatched(base, rows[n]) then base + [rows[n]] else base
  }

  /** The last snapshot row with the given key. */
  function LastWithKey(rows: seq<Row>, key: string): Option<Row> {
    if rows == [] then None
    else if MergeKey(rows[|rows| - 1]) == Some(key) then Some(rows[|rows| - 1])
    else LastWithKey(rows[..|rows| - 1], key)
  }

  function Reconciled(row: Row, ordered: seq<Row>): Row {
    match MergeKey(row)
    case None => row
    case Some(key) =>
      match LastWithKey(ordered, key)
      case None => row
      case Some(incoming) => MergeRow(row, incoming)
  }

  function ReconcileAll(base: seq<Row>, ordered: seq<Row>): (r: seq<Row>)
    ensures |r| == |base|
  {
    seq(|base|, i requires 0 <= i < |base| => Reconciled(base[i], ordered))
  }

  function UnmatchedRows(base: seq<Row>, ordered: seq<Row>): seq<Row> {
    Filter(row => Unmatched(base, row), ordered)
  }

  /** The reconciled chat: base rows in place, then the snapshot rows without a slot. */
  function Merged(existing: seq<Row>, incoming: seq<Row>): seq<Row> {
    var base := FirstPerKey(existing);
    var ordered := Order(incoming);
    ReconcileAll(base, ordered) + UnmatchedRows(base, ordered)
  }

  predicate Mentioned(row: Row, ordered: seq<Row>) {
    MergeKey(row).Some? && LastWithKey(ordered, MergeKey(row).value).Some?
  }

  function KeyText(row: Row): string {
    match MergeKey(row) case None => "" case Some(k) => k
  }

  function KeyTexts(rows: seq<Row>): (r: seq<string>)
    ensures |r| == |rows|
  {
    seq(|rows|, i requires 0 <= i < |rows| => KeyText(rows[i]))
  }

  function MatchedRows(base: seq<Row>, ordered: seq<Row>): seq<Row> {
    Filter(row => !Unmatched(base, row), ordered)
  }

  datatype MergeResult = MergeResult(
    messages: seq<Row>, matchedKeys: seq<string>, appendedKeys: seq<string>, preservedCount: nat)

  function PreservedRows(base: seq<Row>, ordered: seq<Row>): seq<Row> {
    Filter(row => !Mentioned(row, ordered), base)
  }

  // ---------------------------------------------------------------- the sort

  predicate Ascending(rows: seq<Row>) {
    forall i, j :: 0 <= i < j < |rows| ==> Seq(rows[i]) <= Seq(rows[j])
  }

  predicate DistinctSeq(rows: seq<Row>) {
    forall i, j :: 0 <= i < j < |rows| ==> Seq(rows[i]) != Seq(rows[j])
  }

  lemma {:induction false} InsertPermutes(row: Row, rows: seq<Row>)
    ensures multiset(Insert(row, rows)) == multiset(rows) + multiset{row}
  {
    if rows != [] && Seq(row) > Seq(rows[0]) {
      assert rows == [rows[0]] + rows[1..];
      InsertPermutes(row, rows[1..]);
    }
  }

  predicate AtLeast(n: int, rows: seq<Row>) {
    forall i :: 0 <= i < |rows| ==> n <= Seq(rows[i])
  }

  lemma AscendingCons(row: Row, rows: seq<Row>)
    ensures Ascending([row] + rows) <==> Ascending(rows) && AtLeast(Seq(row), rows)
  {
    var s := [row] + rows;
    assert s[0] == row && forall i :: 0 < i < |s| ==> s[i] == rows[i - 1];
    if Ascending(s) {
      assert forall i :: 0 <= i < |rows| ==> rows[i] == s[i + 1];
    }
  }

  lemma {:induction false} InsertAscending(row: Row, rows: seq<Row>, n: int)
    requires Ascending(rows) && AtLeast(n, rows) && n <= Seq(row)
    ensures Ascending(Insert(row, rows)) && AtLeast(n, Insert(row, rows))
  {
    if rows == [] || Seq(row) <= Seq(rows[0]) {
      AscendingCons(row, rows);
    } else {
      assert rows == [rows[0]] + rows[1..];
      AscendingCons(rows[0], rows[1..]);
      InsertAscending(row, rows[1..], Seq(rows[0]));
      AscendingCons(rows[0], Insert(row, rows[1..]));
    }
  }

  function LeastSeq(rows: seq<Row>, n: int): (m: int)
    ensures m <= n && AtLeast(m, rows)
  {
    if rows == [] then n
    else
      var m := LeastSeq(rows[1..], n);
      assert forall i :: 0 < i < |rows| ==> rows[i] == rows[1..][i - 1];
      if Seq(rows[0]) < m then Seq(rows[0]) else m
  }

  lemma {:induction false} SortSorts(rows: seq<Row>)
    ensures Ascending(SortBySeq(rows)) && multiset(SortBySeq(rows)) == multiset(rows)
  {
    if rows != [] {
      assert rows == [rows[0]] + rows[1..];
      var tail := SortBySeq(rows[1..]);
      SortSorts(rows[1..]);
      InsertPermutes(rows[0], tail);
      InsertAscending(rows[0], tail, LeastSeq(tail, Seq(rows[0])));
    }
  }

  lemma {:induction false} TwoOccurrences(rows: seq<Row>, x: Row)
    requires multiset(rows)[x] >= 2
    ensures exists i, j :: 0 <= i < j < |rows| && rows[i] == x && rows[j] == x
  {
    assert rows == [rows[0]] + rows[1..];
    if rows[0] == x {
      assert x in multiset(rows[1..]);
      var k :| 0 <= k < |rows[1..]| && rows[1..][k] == x;
      assert rows[0] == x && rows[k + 1] == x;
    } else {
      TwoOccurrences(rows[1..], x);
      var i, j :| 0 <= i < j < |rows[1..]| && rows[1..][i] == x && rows[1..][j] == x;
      assert rows[i + 1] == x && rows[j + 1] == x;
    }
  }

  lemma DistinctSeqPermutes(p: seq<Row>, q: seq<Row>)
    requires multiset(p) == multiset(q) && DistinctSeq(p)
    ensures DistinctSeq(q)
  {
    forall i, j | 0 <= i < j < |q| ensures Seq(q[i]) != Seq(q[j]) {
      assert q[i] in multiset(q) && q[j] in multiset(q);
      var a :| 0 <= a < |p| && p[a] == q[i];
      var b :| 0 <= b < |p| && p[b] == q[j];
      if a == b {
        var x := q[i];
        assert q == q[..i] + [q[i]] + q[i + 1..j] + [q[j]] + q[j + 1..];
        assert multiset(q)[x] >= 2;
        TwoOccurrences(p, x);
      }
    }
  }

  lemma FullyAllocatedPermutes(p: seq<Row>, q: seq<Row>)
    requires multiset(p) == multiset(q) && FullyAllocated(p)
    ensures FullyAllocated(q)
  {
    forall i | 0 <= i < |q| ensures Allocated(Prop(q[i], "seq")) {
      assert q[i] in multiset(q);
      var a :| 0 <= a < |p| && p[a] == q[i];
    }
    DistinctSeqPermutes(p, q);
  }

  /** An ascending arrangement of rows with distinct numbers is unique. */
  lemma {:induction false} AscendingUnique(p: seq<Row>, q: seq<Row>)
    requires Ascending(p) && Ascending(q) && DistinctSeq(p) && multiset(p) == multiset(q)
    ensures p == q
    decreases |p|
  {
    assert |multiset(p)| == |p| && |multiset(q)| == |q|;
    if p != [] {
      SameFirst(p, q);
      SameTail(p, q);
      AscendingUnique(p[1..], q[1..]);
    }
  }

  lemma SameFirst(p: seq<Row>, q: seq<Row>)
    requires p != [] && q != [] && multiset(p) == multiset(q)
    requires Ascending(p) && Ascending(q) && DistinctSeq(p)
    ensures p[0] == q[0]
  {
    assert p[0] in multiset(q) && q[0] in multiset(p);
    var a :| 0 <= a < |p| && p[a] == q[0];
    var b :| 0 <= b < |q| && q[b] == p[0];
    assert Seq(q[0]) <= Seq(p[0]);
    assert Seq(p[0]) == Seq(p[a]);
  }

  lemma SameTail(p: seq<Row>, q: seq<Row>)
    requires p != [] && q != [] && multiset(p) == multiset(q) && p[0] == q[0]
    ensures multiset(p[1..]) == multiset(q[1..])
  {
    assert p == [p[0]] + p[1..] && q == [q[0]] + q[1..];
    assert multiset(p[1..]) == multiset(p) - multiset{p[0]};
    assert multiset(q[1..]) == multiset(q) - multiset{q[0]};
  }

  /** The ordering is a rearrangement, ascending when every row is allocated, the server's own order otherwise. */
  lemma OrderSpec(rows: seq<Row>)
    ensures multiset(Order(rows)) == multiset(rows)
    ensures FullyAllocated(rows) ==> Ascending(Order(rows))
    ensures FullyAllocated(rows) ==>
              forall p :: Ascending(p) && multiset(p) == multiset(rows) ==> p == Order(rows)
    ensures !FullyAllocated(rows) ==> Order(rows) == rows
  {
    SortSorts(rows);
    if FullyAllocated(rows) {
      forall p | Ascending(p) && multiset(p) == multiset(rows) ensures p == Order(rows) {
        DistinctSeqPermutes(rows, SortBySeq(rows));
        AscendingUnique(SortBySeq(rows), p);
      }
    }
  }

  /** The merged chat does not depend on the order in which a fully allocated snapshot arrives. */
  lemma MergePermutationInvariant(existing: seq<Row>, p: seq<Row>, q: seq<Row>)
    requires multiset(p) == multiset(q) && FullyAllocated(p)
    ensures Merged(existing, p) == Merged(existing, q)
  {
    FullyAllocatedPermutes(p, q);
    OrderSpec(p);
    OrderSpec(q);
    assert multiset(Order(q)) == multiset(p);
  }

  // ---------------------------------------------------------------- keys

  predicate NoRepeatedKey(rows: seq<Row>) {
    forall i, j :: 0 <= i < j < |rows| && MergeKey(rows[i]).Some? ==> MergeKey(rows[i]) != MergeKey(rows[j])
  }

  function Keyless(rows: seq<Row>): seq<Row> {
    Filter(row => MergeKey(row).None?, rows)
  }

  lemma KeyInConcat(key: string, a: seq<Row>, b: seq<Row>)
    ensures KeyIn(key, a + b) <==> KeyIn(key, a) || KeyIn(key, b)
  {
    if KeyIn(key, a) {
      var i :| 0 <= i < |a| && MergeKey(a[i]) == Some(key);
      assert (a + b)[i] == a[i];
    }
    if KeyIn(key, b) {
      var i :| 0 <= i < |b| && MergeKey(b[i]) == Some(key);
      assert (a + b)[|a| + i] == b[i];
    }
  }

  lemma NoRepeatedConcat(a: seq<Row>, b: seq<Row>)
    ensures NoRepeatedKey(a + b) <==>
            NoRepeatedKey(a) && NoRepeatedKey(b)
            && forall j :: 0 <= j < |b| ==> MergeKey(b[j]).None? || !KeyIn(MergeKey(b[j]).value, a)
  {
    var s := a + b;
    if NoRepeatedKey(s) {
      assert forall i :: 0 <= i < |a| ==> a[i] == s[i];
      assert forall j :: 0 <= j < |b| ==> b[j] == s[|a| + j];
      forall j | 0 <= j < |b| ensures MergeKey(b[j]).None? || !KeyIn(MergeKey(b[j]).value, a) {
        assert s[|a| + j] == b[j];
      }
    }
  }

  /** The base keeps one row per key, the first one, and every keyless row in order. */
  lemma {:induction false} FirstPerKeySpec(rows: seq<Row>)
    ensures NoRepeatedKey(FirstPerKey(rows))
    ensures forall key :: KeyIn(key, FirstPerKey(rows)) <==> KeyIn(key, rows)
    ensures Keyless(FirstPerKey(rows)) == Keyless(rows)
    ensures forall row :: row in FirstPerKey(rows) ==> row in rows
  {
    if rows != [] {
      var n := |rows| - 1;
      var base := FirstPerKey(rows[..n]);
      FirstPerKeySpec(rows[..n]);
      assert rows == rows[..n] + [rows[n]];
      NoRepeatedConcat(base, [rows[n]]);
      FilterSnoc(row => MergeKey(row).None?, rows[..n], rows[n]);
      FilterSnoc(row => MergeKey(row).None?, base, rows[n]);
      forall key ensures KeyIn(key, FirstPerKey(rows)) <==> KeyIn(key, rows) {
        KeyInConcat(key, rows[..n], [rows[n]]);
        KeyInConcat(key, base, [rows[n]]);
        assert KeyIn(key, [rows[n]]) <==> MergeKey([rows[n]][0]) == Some(key);
      }
    }
  }

  /** The row at `i` has no key, or is the first one with its key. */
  predicate IsFirst(rows: seq<Row>, i: nat)
    requires i < |rows|
  {
    MergeKey(rows[i]).None? || forall j :: 0 <= j < i ==> MergeKey(rows[j]) != MergeKey(rows[i])
  }

  /** Where the keyless rows and the first rows of their keys are, in order. */
  function Places(rows: seq<Row>): seq<nat> {
    if rows == [] then []
    else
      var n := |rows| - 1;
      if IsFirst(rows, n) then Places(rows[..n]) + [n] else Places(rows[..n])
  }

  lemma {:induction false} PlacesSpec(rows: seq<Row>)
    ensures forall i :: i in Places(rows) <==> 0 <= i < |rows| && IsFirst(rows, i)
    ensures forall j, k :: 0 <= j < k < |Places(rows)| ==> Places(rows)[j] < Places(rows)[k]
    ensures forall k :: 0 <= k < |Places(rows)| ==> Places(rows)[k] < |rows|
  {
    if rows != [] {
      var n := |rows| - 1;
      PlacesSpec(rows[..n]);
      forall i: nat | i < n ensures IsFirst(rows, i) <==> IsFirst(rows[..n], i) {}
    }
  }

  function Pick(rows: seq<Row>, places: seq<nat>): (r: seq<Row>)
    requires forall k :: 0 <= k < |places| ==> places[k] < |rows|
    ensures |r| == |places|
  {
    seq(|places|, k requires 0 <= k < |places| => rows[places[k]])
  }

  lemma LastIsFirst(rows: seq<Row>)
    requires rows != []
    ensures var n := |rows| - 1; Unmatched(FirstPerKey(rows[..n]), rows[n]) <==> IsFirst(rows, n)
  {
    var n := |rows| - 1;
    FirstPerKeySpec(rows[..n]);
    if MergeKey(rows[n]).Some? {
      assert KeyIn(MergeKey(rows[n]).value, rows[..n]) <==>
        exists j :: 0 <= j < n && MergeKey(rows[j]) == MergeKey(rows[n]);
    }
  }

  lemma PickMore(rows: seq<Row>, places: seq<nat>)
    requires rows != [] && forall k :: 0 <= k < |places| ==> places[k] < |rows| - 1
    ensures var n := |rows| - 1;
      Pick(rows, places) == Pick(rows[..n], places) && Pick(rows, places + [n]) == Pick(rows[..n], places) + [rows[n]]
  {
    var n := |rows| - 1;
    assert Pick(rows, places) == Pick(rows[..n], places);
    assert Pick(rows, places + [n]) == Pick(rows, places) + [rows[n]];
  }

  /** The base is made of exactly the keyless rows and the first rows of their keys, each once and in the old order. */
  lemma {:induction false} FirstPerKeyPlaces(rows: seq<Row>)
    ensures forall i :: i in Places(rows) <==> 0 <= i < |rows| && IsFirst(rows, i)
    ensures forall j, k :: 0 <= j < k < |Places(rows)| ==> Places(rows)[j] < Places(rows)[k]
    ensures forall k :: 0 <= k < |Places(rows)| ==> Places(rows)[k] < |rows|
    ensures FirstPerKey(rows) == Pick(rows, Places(rows))
  {
    PlacesSpec(rows);
    if rows != [] {
      var n := |rows| - 1;
      PlacesSpec(rows[..n]);
      FirstPerKeyPlaces(rows[..n]);
      LastIsFirst(rows);
      PickMore(rows, Places(rows[..n]));
    }
  }

  lemma {:induction false} FirstPerKeyFixed(rows: seq<Row>)
    requires NoRepeatedKey(rows)
    ensures FirstPerKey(rows) == rows
  {
    if rows != [] {
      var n := |rows| - 1;
      assert rows == rows[..n] + [rows[n]];
      NoRepeatedConcat(rows[..n], [rows[n]]);
      FirstPerKeyFixed(rows[..n]);
      assert [rows[n]][0] == rows[n];
    }
  }

  lemma {:induction false} LastWithKeySpec(rows: seq<Row>, key: string)
    ensures LastWithKey(rows, key).Some? <==> KeyIn(key, rows)
    ensures LastWithKey(rows, key).Some? ==>
              LastWithKey(rows, key).value in rows && MergeKey(LastWithKey(rows, key).value) == Some(key)
  {
    if rows != [] {
      var n := |rows| - 1;
      LastWithKeySpec(rows[..n], key);
      assert rows == rows[..n] + [rows[n]];
      KeyInConcat(key, rows[..n], [rows[n]]);
      assert KeyIn(key, [rows[n]]) <==> MergeKey([rows[n]][0]) == Some(key);
    }
  }

  // ---------------------------------------------------------------- one merged row

  /** A merged row keeps the common key. */
  lemma MergeRowKey(existing: Row, incoming: Row)
    requires MergeKey(existing) == MergeKey(incoming) && MergeKey(existing).Some?
    ensures MergeKey(MergeRow(existing, incoming)) == MergeKey(existing)
  {
    var r := MergeRow(existing, incoming);
    assert Prop(r, "message_id") == if "message_id" in incoming then incoming["message_id"]
      else Prop(existing, "message_id");
    assert Prop(r, "legacy_key") == if "legacy_key" in incoming then incoming["legacy_key"]
      else Prop(existing, "legacy_key");
  }

  /** What a merged row retains of the runtime row, and what it takes from the snapshot. */
  lemma MergeRowRetains(existing: Row, incoming: Row)
    ensures var r := MergeRow(existing, incoming);
            && (Prop(existing, "_id") != Undefined ==> Prop(r, "_id") == Prop(existing, "_id"))
            && (Prop(existing, "_execV3") != Undefined ==> Prop(r, "_execV3") == Prop(existing, "_execV3"))
            && ContentOf(r) == (if ContentOf(incoming) != "" then ContentOf(incoming)
                                else if ContentOf(existing) != "" then ContentOf(existing)
                                else "")
            && (forall name :: name in incoming && name !in {"_id", "_execV3", "content"} ==>
                  Prop(r, name) == incoming[name])
            && (forall name :: name in existing && name !in incoming ==> Prop(r, name) == existing[name])
  {}

  /** Merging the same snapshot row twice is merging it once. */
  lemma MergeRowTwice(existing: Row, incoming: Row)
    ensures MergeRow(MergeRow(existing, incoming), incoming) == MergeRow(existing, incoming)
  {
    var r := MergeRow(existing, incoming);
    MergeRowRetains(existing, incoming);
    assert incoming.Keys <= r.Keys;
  }

  lemma MergeRowSelf(row: Row)
    ensures MergeRow(row, row) == row
  {
    assert row + row == row;
  }

  // ---------------------------------------------------------------- merging again

  lemma ReconciledKey(row: Row, ordered: seq<Row>)
    ensures MergeKey(Reconciled(row, ordered)) == MergeKey(row)
  {
    if MergeKey(row).Some? {
      var key := MergeKey(row).value;
      LastWithKeySpec(ordered, key);
      var last := LastWithKey(ordered, key);
      if last.Some? {
        MergeRowKey(row, last.value);
      }
    }
  }

  lemma ReconcileKeys(base: seq<Row>, ordered: seq<Row>)
    ensures forall i :: 0 <= i < |base| ==> MergeKey(ReconcileAll(base, ordered)[i]) == MergeKey(base[i])
    ensures NoRepeatedKey(base) ==> NoRepeatedKey(ReconcileAll(base, ordered))
    ensures forall key :: KeyIn(key, ReconcileAll(base, ordered)) <==> KeyIn(key, base)
  {
    var r := ReconcileAll(base, ordered);
    forall i | 0 <= i < |base| ensures MergeKey(r[i]) == MergeKey(base[i]) {
      ReconciledKey(base[i], ordered);
    }
    forall key ensures KeyIn(key, r) <==> KeyIn(key, base) {
      if KeyIn(key, r) {
        var i :| 0 <= i < |r| && MergeKey(r[i]) == Some(key);
        assert MergeKey(base[i]) == Some(key);
      }
      if KeyIn(key, base) {
        var i :| 0 <= i < |base| && MergeKey(base[i]) == Some(key);
        assert MergeKey(r[i]) == Some(key);
      }
    }
  }

  /** Every row has a key and no two rows share one. */
  predicate DistinctKeyed(rows: seq<Row>) {
    NoRepeatedKey(rows) && forall row :: row in rows ==> MergeKey(row).Some?
  }

  /** The snapshot rows a merge appends. */
  function Appended(existing: seq<Row>, incoming: seq<Row>): seq<Row> {
    UnmatchedRows(FirstPerKey(existing), Order(incoming))
  }

  /** Every key of the snapshot is in the merged chat. */
  lemma MergedHasKeys(existing: seq<Row>, incoming: seq<Row>)
    ensures forall row :: row in Order(incoming) && MergeKey(row).Some? ==>
      KeyIn(MergeKey(row).value, Merged(existing, incoming))
    ensures forall key :: KeyIn(key, existing) ==> KeyIn(key, Merged(existing, incoming))
  {
    var base, ordered := FirstPerKey(existing), Order(incoming);
    FirstPerKeySpec(existing);
    ReconcileKeys(base, ordered);
    var r, u := ReconcileAll(base, ordered), UnmatchedRows(base, ordered);
    forall row | row in ordered && MergeKey(row).Some? ensures KeyIn(MergeKey(row).value, r + u) {
      var key := MergeKey(row).value;
      KeyInConcat(key, r, u);
      if Unmatched(base, row) {
        assert row in u;
        var i :| 0 <= i < |u| && u[i] == row;
        assert KeyIn(key, u);
      }
    }
    forall key | KeyIn(key, existing) ensures KeyIn(key, r + u) {
      KeyInConcat(key, r, u);
    }
  }

  lemma {:induction false} FilterNone(rows: seq<Row>, p: Row -> bool)
    requires forall row :: row in rows ==> !p(row)
    ensures Filter(p, rows) == []
  {
    if rows != [] {
      assert rows[0] in rows;
      FilterNone(rows[1..], p);
    }
  }

  /** The appended rows bring no key the base has. */
  lemma MergedNoRepeat(existing: seq<Row>, incoming: seq<Row>)
    ensures NoRepeatedKey(Merged(existing, incoming)) <==> NoRepeatedKey(Appended(existing, incoming))
  {
    var base, ordered := FirstPerKey(existing), Order(incoming);
    FirstPerKeySpec(existing);
    var r, u := ReconcileAll(base, ordered), UnmatchedRows(base, ordered);
    ReconcileKeys(base, ordered);
    NoRepeatedConcat(r, u);
    forall j | 0 <= j < |u| ensures MergeKey(u[j]).None? || !KeyIn(MergeKey(u[j]).value, r) {
      assert u[j] in u;
      assert Unmatched(base, u[j]);
    }
  }

  lemma StableRow(base: seq<Row>, ordered: seq<Row>, u: Row)
    requires u in UnmatchedRows(base, ordered) && DistinctKeyed(UnmatchedRows(base, ordered))
    ensures Reconciled(u, ordered) == u
  {
    var rows := UnmatchedRows(base, ordered);
    var key := MergeKey(u).value;
    LastWithKeySpec(ordered, key);
    var last := LastWithKey(ordered, key);
    if last.Some? {
      assert last.value in rows;
      var i :| 0 <= i < |rows| && rows[i] == u;
      var j :| 0 <= j < |rows| && rows[j] == last.value;
      assert i == j;
      MergeRowSelf(u);
    }
  }

  lemma ReconciledTwice(row: Row, ordered: seq<Row>)
    ensures Reconciled(Reconciled(row, ordered), ordered) == Reconciled(row, ordered)
  {
    ReconciledKey(row, ordered);
    if MergeKey(row).Some? && LastWithKey(ordered, MergeKey(row).value).Some? {
      MergeRowTwice(row, LastWithKey(ordered, MergeKey(row).value).value);
    }
  }

  lemma MergeAgainStable(existing: seq<Row>, incoming: seq<Row>)
    requires DistinctKeyed(Appended(existing, incoming))
    ensures Merged(Merged(existing, incoming), incoming) == Merged(existing, incoming)
    ensures Appended(Merged(existing, incoming), incoming) == []
  {
    var base, ordered := FirstPerKey(existing), Order(incoming);
    var r, u := ReconcileAll(base, ordered), UnmatchedRows(base, ordered);
    var m := Merged(existing, incoming);
    MergedNoRepeat(existing, incoming);
    FirstPerKeyFixed(m);
    MergedHasKeys(existing, incoming);
    forall row | row in ordered ensures !Unmatched(m, row) {
      assert Unmatched(base, row) ==> row in u;
    }
    FilterNone(ordered, row => Unmatched(m, row));
    assert UnmatchedRows(m, ordered) == [];
    forall i | 0 <= i < |m| ensures Reconciled(m[i], ordered) == m[i] {
      if i < |r| {
        ReconciledTwice(base[i], ordered);
      } else {
        assert m[i] in u;
        StableRow(base, ordered, m[i]);
      }
    }
    assert ReconcileAll(m, ordered) == m;
  }

  lemma MergeAgainNeeds(existing: seq<Row>, incoming: seq<Row>)
    requires Merged(Merged(existing, incoming), incoming) == Merged(existing, incoming)
    ensures DistinctKeyed(Appended(existing, incoming))
  {
    var ordered := Order(incoming);
    var m := Merged(existing, incoming);
    var base2 := FirstPerKey(m);
    var u2 := UnmatchedRows(base2, ordered);
    FirstPerKeySpec(m);
    ReconcileKeys(base2, ordered);
    MergedHasKeys(existing, incoming);
    forall row | row in u2 ensures MergeKey(row).None? {
      assert row in ordered && Unmatched(base2, row);
    }
    NoRepeatedConcat(ReconcileAll(base2, ordered), u2);
    assert NoRepeatedKey(m);
    FirstPerKeyFixed(m);
    assert |u2| == 0;
    MergedNoRepeat(existing, incoming);
    forall row | row in Appended(existing, incoming) ensures MergeKey(row).Some? {
      assert Unmatched(base2, row) ==> row in u2;
    }
  }

  /**
   Delivering the same snapshot again changes nothing exactly when every row
   the first delivery appended has a key and no two of them share it.
  */
  lemma MergeAgain(existing: seq<Row>, incoming: seq<Row>)
    ensures Merged(Merged(existing, incoming), incoming) == Merged(existing, incoming)
       <==> DistinctKeyed(Appended(existing, incoming))
  {
    if DistinctKeyed(Appended(existing, incoming)) {
      MergeAgainStable(existing, incoming);
    }
    if Merged(Merged(existing, incoming), incoming) == Merged(existing, incoming) {
      MergeAgainNeeds(existing, incoming);
    }
  }

  lemma OrderOne(row: Row)
    ensures Order([row]) == [row]
  {
    var rows := [row];
    assert rows[1..] == [];
    assert SortBySeq(rows[1..]) == [];
    assert SortBySeq(rows) == Insert(row, []) == [row];
  }

  lemma UnmatchedOne(base: seq<Row>, row: Row)
    requires MergeKey(row).None?
    ensures UnmatchedRows(base, [row]) == [row]
  {
    FilterSnoc(r => Unmatched(base, r), [], row);
    assert [] + [row] == [row];
  }

  /** A snapshot row without a key is appended every time it arrives. */
  lemma KeylessRowTwice(row: Row)
    requires MergeKey(row).None?
    ensures Merged([], [row]) == [row] && Merged([row], [row]) == [row] + [row]
  {
    OrderOne(row);
    UnmatchedOne([], row);
    UnmatchedOne([row], row);
    FirstPerKeyFixed([row]);
    assert FirstPerKey([]) == [] && ReconcileAll([], [row]) == [];
    assert Merged([], [row]) == [] + [row];
    assert Reconciled(row, [row]) == row;
    assert ReconcileAll([row], [row]) == [row];
  }

  // ---------------------------------------------------------------- the running code

  method OrderAuthoritativeMessages(rows: seq<Row>) returns (ordered: seq<Row>)
    ensures ordered == Order(rows)
  {
    var full := HasFullyAllocatedSeq(rows);
    if !full {
      return rows;
    }
    return SortBySeq(rows);
  }

  /** The index built over the base: exactly its keys, each at its row. */
  ghost predicate IndexesBase(index: map<string, nat>, base: seq<Row>) {
    && (forall k :: k in index ==> index[k] < |base| && MergeKey(base[index[k]]) == Some(k))
    && (forall i :: 0 <= i < |base| && MergeKey(base[i]).Some? ==>
          MergeKey(base[i]).value in index && index[MergeKey(base[i]).value] == i)
  }

  lemma IndexDecides(index: map<string, nat>, base: seq<Row>, key: string)
    requires IndexesBase(index, base)
    ensures key in index <==> KeyIn(key, base)
  {
    if KeyIn(key, base) {
      var i :| 0 <= i < |base| && MergeKey(base[i]) == Some(key);
    }
  }

  method BuildBase(existing: seq<Row>) returns (base: seq<Row>, baseIndexByKey: map<string, nat>)
    ensures base == FirstPerKey(existing) && IndexesBase(baseIndexByKey, base)
  {
    base, baseIndexByKey := [], map[];
    for i := 0 to |existing|
      invariant base == FirstPerKey(existing[..i]) && IndexesBase(baseIndexByKey, base)
    {
      assert existing[..i + 1][..i] == existing[..i];
      var row := existing[i];
      var key := MergeKey(row);
      if key.Some? {
        IndexDecides(baseIndexByKey, base, key.value);
        if key.value in baseIndexByKey {
          continue;
        }
        baseIndexByKey := baseIndexByKey[key.value := |base|];
      }
      base := base + [row];
    }
    assert existing[..|existing|] == existing;
  }

  /** The rows collected for the base slots: those the snapshot mentions, reconciled with its last mention. */
  ghost predicate Collected(byIndex: map<nat, Row>, base: seq<Row>, ordered: seq<Row>) {
    && (forall i: nat :: i in byIndex <==> i < |base| && Mentioned(base[i], ordered))
    && (forall i: nat :: i in byIndex ==> byIndex[i] == Reconciled(base[i], ordered))
  }

  lemma CollectedNext(byIndex: map<nat, Row>, index: map<string, nat>, base: seq<Row>, done: seq<Row>, row: Row)
    requires Collected(byIndex, base, done) && IndexesBase(index, base)
    ensures var key := MergeKey(row);
            Collected(if key.Some? && key.value in index
                      then byIndex[index[key.value] := MergeRow(base[index[key.value]], row)]
                      else byIndex, base, done + [row])
  {
    var all := done + [row];
    assert all[..|all| - 1] == done;
    var key := MergeKey(row);
    forall i | 0 <= i < |base|
      ensures MergeKey(base[i]).Some? && MergeKey(base[i]) == key ==>
                Mentioned(base[i], all) && Reconciled(base[i], all) == MergeRow(base[i], row)
      ensures MergeKey(base[i]).None? || MergeKey(base[i]) != key ==>
                && (Mentioned(base[i], all) <==> Mentioned(base[i], done))
                && Reconciled(base[i], all) == Reconciled(base[i], done)
    {}
    if key.Some? {
      IndexDecides(index, base, key.value);
    }
  }

  lemma KeyTextsSnoc(rows: seq<Row>, row: Row)
    ensures KeyTexts(rows + [row]) == KeyTexts(rows) + [KeyText(row)]
  {}

  /** The rows done so far are sorted into matched and appended ones. */
  ghost predicate Sorted(matchedKeys: seq<string>, appended: seq<Row>, appendedKeys: seq<string>, base: seq<Row>,
      done: seq<Row>) {
    && matchedKeys == KeyTexts(MatchedRows(base, done))
    && appended == UnmatchedRows(base, done) && appendedKeys == KeyTexts(appended)
  }

  lemma SortedNext(matchedKeys: seq<string>, appended: seq<Row>, appendedKeys: seq<string>, index: map<string, nat>,
                   base: seq<Row>, done: seq<Row>, row: Row)
    requires Sorted(matchedKeys, appended, appendedKeys, base, done) && IndexesBase(index, base)
    ensures var key := MergeKey(row);
      if key.Some? && key.value in index
      then Sorted(matchedKeys + [key.value], appended, appendedKeys, base, done + [row])
      else Sorted(matchedKeys, appended + [row], appendedKeys + [if key.Some? then key.value else ""], base,
                  done + [row])
  {
    var key := MergeKey(row);
    if key.Some? {
      IndexDecides(index, base, key.value);
    }
    FilterSnoc(r => Unmatched(base, r), done, row);
    FilterSnoc(r => !Unmatched(base, r), done, row);
    KeyTextsSnoc(MatchedRows(base, done), row);
    KeyTextsSnoc(appended, row);
  }

  /** The reconciliation loop: snapshot rows go to their slots or to the appended list. */
  method MatchSnapshot(base: seq<Row>, baseIndexByKey: map<string, nat>, ordered: seq<Row>)
    returns (mergedByIndex: map<nat, Row>, matchedKeys: seq<string>, appended: seq<Row>, appendedKeys: seq<string>)
    requires IndexesBase(baseIndexByKey, base)
    ensures Collected(mergedByIndex, base, ordered)
    ensures matchedKeys == KeyTexts(MatchedRows(base, ordered))
    ensures appended == UnmatchedRows(base, ordered) && appendedKeys == KeyTexts(appended)
  {
    mergedByIndex, matchedKeys, appended, appendedKeys := map[], [], [], [];
    for i := 0 to |ordered|
      invariant Collected(mergedByIndex, base, ordered[..i])
      invariant Sorted(matchedKeys, appended, appendedKeys, base, ordered[..i])
    {
      var row := ordered[i];
      assert ordered[..i + 1] == ordered[..i] + [row];
      CollectedNext(mergedByIndex, baseIndexByKey, base, ordered[..i], row);
      SortedNext(matchedKeys, appended, appendedKeys, baseIndexByKey, base, ordered[..i], row);
      var key := MergeKey(row);
      if key.Some? && key.value in baseIndexByKey {
        var index := baseIndexByKey[key.value];
        mergedByIndex := mergedByIndex[index := MergeRow(base[index], row)];
        matchedKeys := matchedKeys + [key.value];
      } else {
        appended := appended + [row];
        appendedKeys := appendedKeys + [if key.Some? then key.value else ""];
      }
    }
    assert ordered[..|ordered|] == ordered;
  }

  lemma PreservedNext(base: seq<Row>, i: nat, ordered: seq<Row>)
    requires i < |base|
    ensures |PreservedRows(base[..i + 1], ordered)|
         == |PreservedRows(base[..i], ordered)| + (if Mentioned(base[i], ordered) then 0 else 1)
    ensures !Mentioned(base[i], ordered) ==> Reconciled(base[i], ordered) == base[i]
  {
    assert base[..i + 1] == base[..i] + [base[i]];
    FilterSnoc(row => !Mentioned(row, ordered), base[..i], base[i]);
  }

  function SlotRow(byIndex: map<nat, Row>, base: seq<Row>, i: nat): Row
    requires i < |base|
  {
    if i in byIndex then byIndex[i] else base[i]
  }

  /** The first `i` slots are filled, and as many rows counted as were left alone. */
  ghost predicate Filled(messages: seq<Row>, preserved: nat, base: seq<Row>, i: nat, ordered: seq<Row>)
    requires i <= |base|
  {
    messages == ReconcileAll(base[..i], ordered) && preserved == |PreservedRows(base[..i], ordered)|
  }

  lemma FillNext(messages: seq<Row>, preserved: nat, byIndex: map<nat, Row>, base: seq<Row>, i: nat, ordered: seq<Row>)
    requires Collected(byIndex, base, ordered) && i < |base| && Filled(messages, preserved, base, i, ordered)
    ensures Filled(messages + [SlotRow(byIndex, base, i)], if i in byIndex then preserved else preserved + 1, base,
                   i + 1, ordered)
  {
    PreservedNext(base, i, ordered);
    assert SlotRow(byIndex, base, i) == Reconciled(base[i], ordered);
    assert ReconcileAll(base[..i + 1], ordered) == ReconcileAll(base[..i], ordered) + [Reconciled(base[i], ordered)];
  }

  /** The base slots in order, each with its collected row if there is one. */
  method FillSlots(base: seq<Row>, mergedByIndex: map<nat, Row>, ghost ordered: seq<Row>)
    returns (messages: seq<Row>, preservedCount: nat)
    requires Collected(mergedByIndex, base, ordered)
    ensures messages == ReconcileAll(base, ordered)
    ensures preservedCount == |PreservedRows(base, ordered)|
  {
    messages, preservedCount := [], 0;
    for i := 0 to |base|
      invariant Filled(messages, preservedCount, base, i, ordered)
    {
      FillNext(messages, preservedCount, mergedByIndex, base, i, ordered);
      if i in mergedByIndex {
        messages := messages + [mergedByIndex[i]];
      } else {
        messages := messages + [base[i]];
        preservedCount := preservedCount + 1;
      }
    }
    assert base[..|base|] == base;
  }

  /** Reconciles one authoritative snapshot into the runtime rows. */
  method MergeAuthoritativeMessages(existing: seq<Row>, incoming: seq<Row>) returns (result: MergeResult)
    ensures result.messages == Merged(existing, incoming)
    ensures var base, ordered := FirstPerKey(existing), Order(incoming);
            && result.matchedKeys == KeyTexts(MatchedRows(base, ordered))
            && result.appendedKeys == KeyTexts(Appended(existing, incoming))
            && result.preservedCount == |PreservedRows(base, ordered)|
  {
    var ordered := OrderAuthoritativeMessages(incoming);
    var base, baseIndexByKey := BuildBase(existing);
    var mergedByIndex, matchedKeys, appended, appendedKeys := MatchSnapshot(base, baseIndexByKey, ordered);
    var messages, preservedCount := FillSlots(base, mergedByIndex, ordered);
    return MergeResult(messages + appended, matchedKeys, appendedKeys, preservedCount);
  }

  // ---------------------------------------------------------------- consequences for the reader

  /** A snapshot whose rows all carry different keys. */
  lemma {:induction false} FilterDistinct(rows: seq<Row>, p: Row -> bool)
    requires DistinctKeyed(rows)
    ensures DistinctKeyed(Filter(p, rows))
  {
    if rows != [] {
      var rest := rows[1..];
      FilterDistinct(rest, p);
      assert rows == [rows[0]] + rest;
      NoRepeatedConcat([rows[0]], Filter(p, rest));
      forall j | 0 <= j < |Filter(p, rest)| ensures MergeKey(Filter(p, rest)[j]) != MergeKey(rows[0]) {
        assert Filter(p, rest)[j] in rest;
        var k :| 0 <= k < |rest| && rest[k] == Filter(p, rest)[j];
        assert rows[k + 1] == rest[k];
      }
      assert forall key :: KeyIn(key, [rows[0]]) ==> MergeKey(rows[0]) == Some(key);
    }
  }

  lemma DistinctKeyedPermutes(p: seq<Row>, q: seq<Row>)
    requires multiset(p) == multiset(q) && DistinctKeyed(p)
    ensures DistinctKeyed(q)
  {
    forall i, j | 0 <= i < j < |q| ensures MergeKey(q[i]) != MergeKey(q[j]) {
      assert q[i] in multiset(q) && q[j] in multiset(q);
      var a :| 0 <= a < |p| && p[a] == q[i];
      var b :| 0 <= b < |p| && p[b] == q[j];
      if a == b {
        var x := q[i];
        assert q == q[..i] + [q[i]] + q[i + 1..j] + [q[j]] + q[j + 1..];
        assert multiset(q)[x] >= 2;
        TwoOccurrences(p, x);
      }
    }
    forall row | row in q ensures MergeKey(row).Some? {
      assert row in multiset(q);
      assert row in p;
    }
  }

  /**
   For a snapshot of distinctly keyed rows: no key is repeated, every runtime
   key, keyless row and snapshot key is still there, the runtime rows keep
   their places, and delivering the snapshot again changes nothing.
  */
  lemma MergeTheorem(existing: seq<Row>, incoming: seq<Row>)
    requires DistinctKeyed(incoming)
    ensures var m := Merged(existing, incoming);
            && NoRepeatedKey(m)
            && Keyless(m) == Keyless(existing)
            && (forall key :: KeyIn(key, m) <==> KeyIn(key, existing) || KeyIn(key, incoming))
            && (forall i :: 0 <= i < |FirstPerKey(existing)| ==> MergeKey(m[i]) == MergeKey(FirstPerKey(existing)[i]))
            && Merged(m, incoming) == m && Appended(m, incoming) == []
  {
    var base, ordered := FirstPerKey(existing), Order(incoming);
    var r, u := ReconcileAll(base, ordered), UnmatchedRows(base, ordered);
    OrderSpec(incoming);
    DistinctKeyedPermutes(incoming, ordered);
    FilterDistinct(ordered, row => Unmatched(base, row));
    MergedNoRepeat(existing, incoming);
    MergeAgainStable(existing, incoming);
    FirstPerKeySpec(existing);
    ReconcileKeys(base, ordered);
    KeylessReconciled(base, ordered);
    FilterConcat(row => MergeKey(row).None?, r, u);
    FilterNone(u, row => MergeKey(row).None?);
    SnapshotKeys(existing, incoming);
  }

  lemma {:induction false} KeylessReconciled(base: seq<Row>, ordered: seq<Row>)
    ensures Keyless(ReconcileAll(base, ordered)) == Keyless(base)
  {
    if base != [] {
      KeylessReconciled(base[1..], ordered);
      assert ReconcileAll(base, ordered)[1..] == ReconcileAll(base[1..], ordered);
      ReconciledKey(base[0], ordered);
    }
  }

  lemma SnapshotKeys(existing: seq<Row>, incoming: seq<Row>)
    ensures forall key :: KeyIn(key, Merged(existing, incoming)) <==> KeyIn(key, existing) || KeyIn(key, incoming)
  {
    var base, ordered := FirstPerKey(existing), Order(incoming);
    var r, u := ReconcileAll(base, ordered), UnmatchedRows(base, ordered);
    OrderSpec(incoming);
    FirstPerKeySpec(existing);
    ReconcileKeys(base, ordered);
    MergedHasKeys(existing, incoming);
    forall key ensures KeyIn(key, r + u) <==> KeyIn(key, existing) || KeyIn(key, incoming) {
      KeyInConcat(key, r, u);
      if KeyIn(key, u) {
        var i :| 0 <= i < |u| && MergeKey(u[i]) == Some(key);
        assert u[i] in ordered && u[i] in multiset(ordered);
        var j :| 0 <= j < |incoming| && incoming[j] == u[i];
      }
      if KeyIn(key, incoming) {
        var i :| 0 <= i < |incoming| && MergeKey(incoming[i]) == Some(key);
        assert incoming[i] in multiset(incoming);
        assert incoming[i] in ordered;
      }
    }
  }

  /** No body, row identity or execution store of a runtime row is lost to a snapshot. */
  lemma MergeRetains(existing: seq<Row>, incoming: seq<Row>, i: nat)
    requires i < |FirstPerKey(existing)|
    ensures var before, after := FirstPerKey(existing)[i], Merged(existing, incoming)[i];
            && (Prop(before, "_id") != Undefined ==> Prop(after, "_id") == Prop(before, "_id"))
            && (Prop(before, "_execV3") != Undefined ==> Prop(after, "_execV3") == Prop(before, "_execV3"))
            && (ContentOf(before) != "" ==> ContentOf(after) != "")
            && (!Mentioned(before, Order(incoming)) ==> after == before)
  {
    var before, ordered := FirstPerKey(existing)[i], Order(incoming);
    if Mentioned(before, ordered) {
      MergeRowRetains(before, LastWithKey(ordered, MergeKey(before).value).value);
    }
  }

  // ---------------------------------------------------------------- re-keying the optimistic row

  class RuntimeRow {
    var fields: Row

    constructor (fields: Row)
      ensures this.fields == fields
    {
      this.fields := fields;
    }

    /** `applyEffectiveUserMessageId`: true exactly when the row was re-keyed. */
    method ApplyEffectiveUserMessageId(effectiveId: Option<string>) returns (rekeyed: bool)
      modifies this
      ensures rekeyed <==>
        effectiveId.Some? && effectiveId.value != "" && Prop(old(fields), "message_id") != Str(effectiveId.value)
      ensures rekeyed ==> fields == old(fields)["message_id" := Str(effectiveId.value)]
      ensures !rekeyed ==> fields == old(fields)
    {
      if effectiveId.None? || effectiveId.value == "" || Prop(fields, "message_id") == Str(effectiveId.value) {
        return false;
      }
      fields := fields["message_id" := Str(effectiveId.value)];
      return true;
    }
  }

  /** The rows after the row at `i` has been given the message id. */
  function Rekeyed(existing: seq<Row>, i: nat, id: string): seq<Row>
    requires i < |existing|
  {
    existing[i := existing[i]["message_id" := Str(id)]]
  }

  /**
   After re-keying, a snapshot row with the effective id is not appended: the slot `k`
   of that id takes the snapshot's row. It is the slot of the re-keyed row exactly
   when no earlier row has that id already.
  */
  lemma RekeyedRowMatches(existing: seq<Row>, i: nat, id: string, incoming: seq<Row>, row: Row) returns (k: nat)
    requires i < |existing| && id != ""
    requires row in incoming && Prop(row, "message_id") == Str(id)
    ensures var rekeyed := Rekeyed(existing, i, id); var base, places := FirstPerKey(rekeyed), Places(rekeyed);
      && row !in Appended(rekeyed, incoming)
      && k < |base| == |places| && places[k] < |rekeyed| && base[k] == rekeyed[places[k]]
      && MergeKey(base[k]) == Some("message:" + id)
      && k < |Merged(rekeyed, incoming)| && Merged(rekeyed, incoming)[k] == Reconciled(base[k], Order(incoming))
      && (places[k] == i <==> forall j :: 0 <= j < i ==> MergeKey(existing[j]) != Some("message:" + id))
  {
    var rekeyed, key := Rekeyed(existing, i, id), "message:" + id;
    FirstPerKeySpec(rekeyed);
    assert MergeKey(rekeyed[i]) == Some(key);
    assert KeyIn(key, rekeyed);
    k := SlotOf(rekeyed, i, key);
    assert forall j :: 0 <= j < i ==> rekeyed[j] == existing[j];
  }

  /** The slot of a key, and when it is that of the row at `i`. */
  lemma SlotOf(rows: seq<Row>, i: nat, key: string) returns (k: nat)
    requires i < |rows| && MergeKey(rows[i]) == Some(key)
    ensures k < |Places(rows)| == |FirstPerKey(rows)| && Places(rows)[k] < |rows|
    ensures FirstPerKey(rows)[k] == rows[Places(rows)[k]] && MergeKey(FirstPerKey(rows)[k]) == Some(key)
    ensures Places(rows)[k] == i <==> IsFirst(rows, i)
  {
    FirstPerKeyPlaces(rows);
    var first: nat := FirstOf(rows, i, key);
    assert first in Places(rows);
    k :| 0 <= k < |Places(rows)| && Places(rows)[k] == first;
  }

  lemma {:induction false} FirstOf(rows: seq<Row>, i: nat, key: string) returns (first: nat)
    requires i < |rows| && MergeKey(rows[i]) == Some(key)
    ensures first <= i && MergeKey(rows[first]) == Some(key) && IsFirst(rows, first)
    ensures first == i <==> IsFirst(rows, i)
    decreases i
  {
    if IsFirst(rows, i) {
      return i;
    }
    var j :| 0 <= j < i && MergeKey(rows[j]) == MergeKey(rows[i]);
    first := FirstOf(rows, j, key);
  }

  // ---------------------------------------------------------------- the pre-header buffer

  const PRE_HEADER_BUFFER_MAX_ROWS := 200
  const PRE_HEADER_BUFFER_MAX_BYTES := 262144

  datatype Frame = Frame(row: Row, bytes: nat)

  function TotalBytes(frames: seq<Frame>): nat {
    if frames == [] then 0 else TotalBytes(frames[..|frames| - 1]) + frames[|frames| - 1].bytes
  }

  function FrameRows(frames: seq<Frame>): (r: seq<Row>)
    ensures |r| == |frames|
  {
    seq(|frames|, i requires 0 <= i < |frames| => frames[i].row)
  }

  predicate FitsBuffer(frames: seq<Frame>) {
    |frames| <= PRE_HEADER_BUFFER_MAX_ROWS && TotalBytes(frames) <= PRE_HEADER_BUFFER_MAX_BYTES
  }

  /** Frames held back while a local request waits for its header. */
  class PreHeaderBuffer {
    var rows: seq<Row>
    var bytes: nat
    var overflowed: bool
    /** Every frame offered since the buffer was created or last drained. */
    ghost var offered: seq<Frame>

    /** All frames in order with their exact size while they fit, nothing at all from the first one that does not. */
    ghost predicate Valid()
      reads this
    {
      && (overflowed <==> !FitsBuffer(offered))
      && rows == (if overflowed then [] else FrameRows(offered))
      && bytes == (if overflowed then 0 else TotalBytes(offered))
    }

    constructor ()
      ensures Valid() && offered == []
    {
      rows, bytes, overflowed, offered := [], 0, false, [];
    }

    method BufferPreHeaderEvent(event: Row, byteLength: nat)
      requires Valid()
      modifies this
      ensures Valid() && offered == old(offered) + [Frame(event, byteLength)]
    {
      offered := offered + [Frame(event, byteLength)];
      assert offered[..|offered| - 1] == old(offered);
      if overflowed {
        return;
      }
      if |rows| + 1 > PRE_HEADER_BUFFER_MAX_ROWS || bytes + byteLength > PRE_HEADER_BUFFER_MAX_BYTES {
        rows, bytes, overflowed := [], 0, true;
        return;
      }
      rows := rows + [event];
      bytes := bytes + byteLength;
    }

    /** Returns the foreign frames in order, or nothing after an overflow, and starts over. */
    method DrainPreHeaderEvents(localAssistantMessageId: Option<string>) returns (foreign: seq<Row>)
      requires Valid()
      modifies this
      ensures Valid() && offered == []
      ensures foreign == if !FitsBuffer(old(offered)) then []
                         else if localAssistantMessageId.None? || localAssistantMessageId.value == ""
                         then FrameRows(old(offered))
                         else Filter(row => Prop(row, "message_id") != Str(localAssistantMessageId.value),
                                     FrameRows(old(offered)))
    {
      var held := if overflowed then [] else rows;
      rows, bytes, overflowed, offered := [], 0, false, [];
      if localAssistantMessageId.None? || localAssistantMessageId.value == "" {
        return held;
      }
      return Filter(row => Prop(row, "message_id") != Str(localAssistantMessageId.value), held);
    }
  }

  /** A buffer that has overflowed cannot fit again, whatever follows. */
  lemma {:induction false} OverflowIsFinal(frames: seq<Frame>, more: seq<Frame>)
    requires !FitsBuffer(frames)
    ensures !FitsBuffer(frames + more)
  {
    if more == [] {
      assert frames + more == frames;
    } else {
      var init := more[..|more| - 1];
      assert (frames + more)[..|frames + more| - 1] == frames + init;
      OverflowIsFinal(frames, init);
    }
  }
}
