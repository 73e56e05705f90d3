/**
 Which rows are one row (apps/user-web/src/composables/sessionLiveProjection.ts): the
 merge with its index of keys is a merge by comparing rows in pairs, and what is
 compared are the message ids and the server's own keys.
*/
module SessionProjectionIdentity {
  import opened Common
  import opened SessionProjection

  /** A text property, or nothing. */
  function TextOf(row: Row, name: string): string {
    match Prop(row, name)
    case Str(text) => text
    case _ => ""
  }

  /** The row has no message id, and its server key is the key of that message. */
  predicate NamesMessage(row: Row, id: string) {
    TextOf(row, "message_id") == "" && TextOf(row, "legacy_key") == "message:" + id
  }

  /**
   Two rows stand for one: the same message id; or, without message ids, the same server
   key; or the server key of the one names the message of the other.
  */
  predicate SameRow(a: Row, b: Row) {
    var m, n := TextOf(a, "message_id"), TextOf(b, "message_id");
    if m != "" && n != "" then m == n
    else if m != "" then NamesMessage(b, m)
    else if n != "" then NamesMessage(a, n)
    else TextOf(a, "legacy_key") != "" && TextOf(a, "legacy_key") == TextOf(b, "legacy_key")
  }

  predicate HasIdentity(row: Row) {
    TextOf(row, "message_id") != "" || TextOf(row, "legacy_key") != ""
  }

  lemma SamePrefix(a: string, b: string)
    ensures "message:" + a == "message:" + b <==> a == b
  {
    assert ("message:" + a)[8..] == a && ("message:" + b)[8..] == b;
  }

  /** The key of a row, spelled out. */
  lemma KeyOf(row: Row)
    ensures MergeKey(row) == if TextOf(row, "message_id") != "" then Some("message:" + TextOf(row, "message_id"))
                             else if TextOf(row, "legacy_key") != "" then Some(TextOf(row, "legacy_key"))
                             else None
  {}

  /** Keys are equal exactly for rows that stand for one. */
  lemma SameKeys(a: Row, b: Row)
    ensures SameRow(a, b) <==> MergeKey(a).Some? && MergeKey(a) == MergeKey(b)
    ensures HasIdentity(a) <==> MergeKey(a).Some?
  {
    KeyOf(a);
    KeyOf(b);
    SamePrefix(TextOf(a, "message_id"), TextOf(b, "message_id"));
  }

  // ---------------------------------------------------------------- the merge by pairs

  predicate Among(row: Row, rows: seq<Row>) {
    exists other :: other in rows && SameRow(other, row)
  }

  /** The rows that no earlier row stands for. */
  function FirstOnes(rows: seq<Row>): seq<Row> {
    if rows == [] then []
    else
      var n := |rows| - 1;
      FirstOnes(rows[..n]) + (if Among(rows[n], rows[..n]) then [] else [rows[n]])
  }

  /** A row merged with the last snapshot row that stands for it. */
  function Updated(row: Row, snapshot: seq<Row>): Row {
    if snapshot == [] then row
    else
      var n := |snapshot| - 1;
      if SameRow(row, snapshot[n]) then MergeRow(row, snapshot[n]) else Updated(row, snapshot[..n])
  }

  function UpdateAll(rows: seq<Row>, snapshot: seq<Row>): (r: seq<Row>)
    ensures |r| == |rows|
  {
    seq(|rows|, i requires 0 <= i < |rows| => Updated(rows[i], snapshot))
  }

  /** What the caller is told about a row. */
  function Label(row: Row): string {
    if TextOf(row, "message_id") != "" then "message:" + TextOf(row, "message_id") else TextOf(row, "legacy_key")
  }

  function Labels(rows: seq<Row>): (r: seq<string>)
    ensures |r| == |rows|
  {
    seq(|rows|, i requires 0 <= i < |rows| => Label(rows[i]))
  }

  function Known(existing: seq<Row>, snapshot: seq<Row>): seq<Row> {
    Filter(row => Among(row, existing), snapshot)
  }

  function New(existing: seq<Row>, snapshot: seq<Row>): seq<Row> {
    Filter(row => !Among(row, existing), snapshot)
  }

  /** The merge of a snapshot in its authoritative order. */
  function Pairwise(existing: seq<Row>, snapshot: seq<Row>): MergeResult {
    var base := FirstOnes(existing);
    MergeResult(UpdateAll(base, snapshot) + New(existing, snapshot), Labels(Known(existing, snapshot)),
                Labels(New(existing, snapshot)), |Filter(row => !Among(row, snapshot), base)|)
  }

  // ---------------------------------------------------------------- the two are one

  lemma AmongKeys(row: Row, rows: seq<Row>)
    ensures Among(row, rows) <==> MergeKey(row).Some? && KeyIn(MergeKey(row).value, rows)
  {
    forall other ensures SameRow(other, row) <==> MergeKey(other).Some? && MergeKey(other) == MergeKey(row) {
      SameKeys(other, row);
    }
    if Among(row, rows) {
      var other :| other in rows && SameRow(other, row);
      var i :| 0 <= i < |rows| && rows[i] == other;
      assert MergeKey(rows[i]) == Some(MergeKey(row).value);
    }
  }

  lemma {:induction false} FirstOnesAre(rows: seq<Row>)
    ensures FirstOnes(rows) == FirstPerKey(rows)
  {
    if rows != [] {
      var n := |rows| - 1;
      FirstOnesAre(rows[..n]);
      FirstPerKeySpec(rows[..n]);
      AmongKeys(rows[n], rows[..n]);
    }
  }

  lemma {:induction false} UpdatedIs(row: Row, snapshot: seq<Row>)
    ensures Updated(row, snapshot) == Reconciled(row, snapshot)
    ensures Among(row, snapshot) <==> Mentioned(row, snapshot)
  {
    AmongKeys(row, snapshot);
    if MergeKey(row).Some? {
      LastWithKeySpec(snapshot, MergeKey(row).value);
    }
    if snapshot != [] {
      var n := |snapshot| - 1;
      UpdatedIs(row, snapshot[..n]);
      SameKeys(row, snapshot[n]);
    }
  }

  lemma {:induction false} FilterSame(p: Row -> bool, q: Row -> bool, rows: seq<Row>)
    requires forall row :: p(row) == q(row)
    ensures Filter(p, rows) == Filter(q, rows)
  {
    if rows != [] {
      FilterSame(p, q, rows[1..]);
    }
  }

  lemma KnownAndNew(existing: seq<Row>, snapshot: seq<Row>)
    ensures Known(existing, snapshot) == MatchedRows(FirstPerKey(existing), snapshot)
    ensures New(existing, snapshot) == UnmatchedRows(FirstPerKey(existing), snapshot)
  {
    var base := FirstPerKey(existing);
    FirstPerKeySpec(existing);
    forall row ensures Among(row, existing) <==> !Unmatched(base, row) {
      AmongKeys(row, existing);
    }
    FilterSame(row => Among(row, existing), row => !Unmatched(base, row), snapshot);
    FilterSame(row => !Among(row, existing), row => Unmatched(base, row), snapshot);
  }

  lemma LabelsAre(rows: seq<Row>)
    ensures Labels(rows) == KeyTexts(rows)
  {
    forall i | 0 <= i < |rows| ensures Label(rows[i]) == KeyText(rows[i]) {
      KeyOf(rows[i]);
    }
  }

  lemma UpdateAllIs(base: seq<Row>, snapshot: seq<Row>)
    ensures UpdateAll(base, snapshot) == ReconcileAll(base, snapshot)
    ensures Filter(row => !Among(row, snapshot), base) == PreservedRows(base, snapshot)
  {
    forall row ensures Updated(row, snapshot) == Reconciled(row, snapshot)
                    && (Among(row, snapshot) <==> Mentioned(row, snapshot))
    {
      UpdatedIs(row, snapshot);
    }
    FilterSame(row => !Among(row, snapshot), row => !Mentioned(row, snapshot), base);
  }

  /** The result of merging a snapshot is that of comparing its rows with the others one by one. */
  lemma MergePairwise(existing: seq<Row>, incoming: seq<Row>)
    ensures var base, ordered := FirstPerKey(existing), Order(incoming);
      MergeResult(Merged(existing, incoming), KeyTexts(MatchedRows(base, ordered)),
                  KeyTexts(Appended(existing, incoming)), |PreservedRows(base, ordered)|)
      == Pairwise(existing, ordered)
  {
    var base, ordered := FirstPerKey(existing), Order(incoming);
    FirstOnesAre(existing);
    KnownAndNew(existing, ordered);
    UpdateAllIs(base, ordered);
    LabelsAre(Known(existing, ordered));
    LabelsAre(New(existing, ordered));
  }

  lemma {:induction false} FilterBoth(p: Row -> bool, q: Row -> bool, rows: seq<Row>)
    requires forall row :: q(row) == !p(row)
    ensures |Filter(p, rows)| + |Filter(q, rows)| == |rows|
  {
    if rows != [] {
      FilterBoth(p, q, rows[1..]);
    }
  }

  lemma OrderLength(rows: seq<Row>)
    ensures |Order(rows)| == |rows|
  {
    OrderSpec(rows);
    assert |multiset(Order(rows))| == |Order(rows)| && |multiset(rows)| == |rows|;
  }

  /** Every kept row is either preserved or mentioned by the snapshot, and every snapshot row is matched or appended. */
  lemma MergeCounts(existing: seq<Row>, incoming: seq<Row>)
    ensures var base, ordered := FirstOnes(existing), Order(incoming);
      && |PreservedRows(FirstPerKey(existing), ordered)| + |Filter(row => Among(row, ordered), base)| == |base|
      && |MatchedRows(FirstPerKey(existing), ordered)| + |Appended(existing, incoming)| == |incoming|
  {
    var base, ordered := FirstOnes(existing), Order(incoming);
    FirstOnesAre(existing);
    UpdateAllIs(base, ordered);
    KnownAndNew(existing, ordered);
    FilterBoth(row => Among(row, ordered), row => !Among(row, ordered), base);
    FilterBoth(row => Among(row, existing), row => !Among(row, existing), ordered);
    OrderLength(incoming);
  }

  lemma OnePair(a: Row, b: Row)
    ensures Among(b, [a]) <==> SameRow(a, b)
    ensures Among(a, [b]) <==> SameRow(a, b)
    ensures Updated(a, [b]) == if SameRow(a, b) then MergeRow(a, b) else a
    ensures FirstOnes([a]) == [a]
  {
    assert [a][..0] == [] && [b][..0] == [] && a in [a] && b in [b];
    SameKeys(a, b);
    SameKeys(b, a);
    assert FirstOnes([a]) == FirstOnes([]) + [a];
  }

  /** One row and one snapshot row: they become one row exactly when they stand for one, and stay two otherwise. */
  lemma OneOrTwo(a: Row, b: Row)
    ensures Pairwise([a], Order([b]))
         == if SameRow(a, b) then MergeResult([MergeRow(a, b)], [Label(a)], [], 0)
            else MergeResult([a, b], [], [Label(b)], 1)
  {
    OrderOne(b);
    OnePair(a, b);
    var result := Pairwise([a], [b]);
    assert [b][1..] == [] && [a][1..] == [];
    assert UpdateAll([a], [b]) == [Updated(a, [b])];
    if SameRow(a, b) {
      KeyOf(a);
      KeyOf(b);
      SameKeys(a, b);
      assert Labels([b]) == [Label(b)] && Label(a) == Label(b);
    } else {
      assert Labels([b]) == [Label(b)];
      assert [a] + [b] == [a, b];
    }
  }

  /** Rows without message ids and with the server's own key in common are one row; without either they stay apart. */
  lemma ServerKeyDecides(a: Row, b: Row)
    requires TextOf(a, "message_id") == "" && TextOf(b, "message_id") == ""
    ensures var key := TextOf(a, "legacy_key");
      if key != "" && key == TextOf(b, "legacy_key")
      then Pairwise([a], Order([b])) == MergeResult([MergeRow(a, b)], [key], [], 0)
      else Pairwise([a], Order([b])) == MergeResult([a, b], [], [TextOf(b, "legacy_key")], 1)
  {
    OneOrTwo(a, b);
  }
}
