/** What merging promises: the override law, one line per key, the other lines kept, and idempotence. */
module EnvFileProperties {
  import opened Common
  import opened Text
  import opened EnvFile

  // ---------------------------------------------------------------- assignments

  lemma {:induction false} KeyRunOf(key: string, rest: string)
    requires forall c :: c in key ==> IsKeyChar(c)
    ensures KeyRun(key + "=" + rest) == |key|
  {
    var s := key + "=" + rest;
    if key == "" {
      assert s[0] == '=';
    } else {
      assert s[0] == key[0] && key[0] in key;
      assert s[1..] == key[1..] + "=" + rest;
      KeyRunOf(key[1..], rest);
    }
  }

  /** A printed assignment of a well-formed key is read back as that key and that value. */
  lemma FieldOfAssignment(key: string, value: string)
    requires IsKey(key)
    ensures Field(Assignment(key, value)) == Some((key, value))
  {
    var line := Assignment(key, value);
    KeyRunOf(key, value);
    assert line[0] == key[0] && !IsSpace(line[0]);
    assert line[..|key|] == key && line[|key| + 1..] == value;
  }

  lemma KeySingleLine(key: string)
    requires IsKey(key)
    ensures SingleLine(key)
  {}

  lemma AssignmentSingleLine(key: string, value: string)
    requires SingleLine(key) && SingleLine(value)
    ensures SingleLine(Assignment(key, value))
  {}

  // ---------------------------------------------------------------- lines of a joined text

  /** Lines have no breaks in them. */
  lemma {:induction false} LinesSingle(s: string)
    ensures forall l :: l in Lines(s) ==> SingleLine(l)
    decreases |s|
  {
    if s != "" {
      if IsBreak(s[0]) && s[0] == '\r' && |s| > 1 && s[1] == '\n' {
        LinesSingle(s[2..]);
      } else {
        LinesSingle(s[1..]);
        var rest := Lines(s[1..]);
        if rest != [] {
          assert rest[0] in rest;
        }
      }
    }
  }

  lemma {:induction false} LinesAtBreak(a: string, b: string)
    requires SingleLine(a)
    ensures Lines(a + "\n" + b) == [a] + Lines(b)
    decreases |a|
  {
    var s := a + "\n" + b;
    if a == "" {
      assert s[0] == '\n' && s[1..] == b;
    } else {
      assert s[0] == a[0] && a[0] in a;
      assert s[1..] == a[1..] + "\n" + b;
      LinesAtBreak(a[1..], b);
      assert [s[0]] + a[1..] == a;
    }
  }

  /** A text written line by line has those lines; writing no line at all leaves one empty line. */
  lemma {:induction false} LinesOfJoin(lines: seq<string>)
    requires forall l :: l in lines ==> SingleLine(l)
    ensures Lines(Join(lines, '\n') + "\n") == if lines == [] then [""] else lines
  {
    if |lines| <= 1 {
      var only := if lines == [] then "" else lines[0];
      assert lines != [] ==> lines[0] in lines;
      LinesAtBreak(only, "");
      assert only + "\n" + "" == Join(lines, '\n') + "\n";
    } else {
      LinesOfJoin(lines[1..]);
      var tail := Join(lines[1..], '\n') + "\n";
      assert lines[0] in lines;
      LinesAtBreak(lines[0], tail);
      assert Join(lines, '\n') + "\n" == lines[0] + "\n" + tail;
    }
  }

  lemma {:induction false} MergedSingle(lines: seq<string>, u: Dict)
    requires IsDict(u) && OneLineEach(u) && forall l :: l in lines ==> SingleLine(l)
    ensures forall l :: l in MergedLines(lines, u) ==> SingleLine(l)
  {
    KeptSingle(lines, u.values);
    AddedSingle(u.keys, u.values, Seen(lines, u.values));
  }

  lemma {:induction false} KeptSingle(lines: seq<string>, values: map<string, string>)
    requires forall key :: key in values ==> SingleLine(key) && SingleLine(values[key])
    requires forall l :: l in lines ==> SingleLine(l)
    ensures forall l :: l in Kept(lines, values) ==> SingleLine(l)
    decreases |lines|
  {
    if lines != [] {
      KeptSingle(lines[..|lines| - 1], values);
      var last := lines[|lines| - 1];
      assert last in lines;
      if IsUpdated(last, values) {
        AssignmentSingleLine(Field(last).value.0, values[Field(last).value.0]);
      }
    }
  }

  lemma {:induction false} AddedSingle(keys: seq<string>, values: map<string, string>, seen: set<string>)
    requires forall key :: key in keys ==> key in values && SingleLine(key) && SingleLine(values[key])
    ensures forall l :: l in Added(keys, values, seen) ==> SingleLine(l)
    decreases |keys|
  {
    if keys != [] {
      AddedSingle(keys[..|keys| - 1], values, seen);
      var last := keys[|keys| - 1];
      assert last in keys;
      AssignmentSingleLine(last, values[last]);
    }
  }

  // ---------------------------------------------------------------- reading a text piece by piece

  /** The variables one piece of text defines. */
  function ReadText(text: string): map<string, string> {
    ReadLines(Lines(text))
  }

  /** The variables of pieces that follow each other; later ones win. */
  function ReadPieces(pieces: seq<string>): map<string, string> {
    if pieces == [] then map[] else ReadText(pieces[0]) + ReadPieces(pieces[1..])
  }

  lemma {:induction false} ReadKeysOk(lines: seq<string>)
    ensures forall key :: key in ReadLines(lines) ==> IsKey(key)
    decreases |lines|
  {
    if lines != [] {
      ReadKeysOk(lines[..|lines| - 1]);
    }
  }

  lemma ReadSnoc(lines: seq<string>, line: string)
    ensures ReadLines(lines + [line]) == ReadLines(lines) + ReadLines([line])
  {
    assert (lines + [line])[..|lines|] == lines && [line][..0] == [];
    assert ReadLines([]) == map[];
  }

  lemma {:induction false} ReadConcat(a: seq<string>, b: seq<string>)
    ensures ReadLines(a + b) == ReadLines(a) + ReadLines(b)
    decreases |b|
  {
    if b == [] {
      assert a + b == a;
    } else {
      var init, last := b[..|b| - 1], b[|b| - 1];
      assert b == init + [last] && a + b == (a + init) + [last];
      ReadConcat(a, init);
      ReadSnoc(init, last);
      ReadSnoc(a + init, last);
    }
  }

  /** A line feed at the end of a text adds at most an empty line. */
  lemma {:induction false} LinesEnd(a: string)
    ensures Lines(a + "\n") == Lines(a) || Lines(a + "\n") == Lines(a) + [""]
    ensures Lines(a + "\n") != []
    decreases |a|
  {
    var t := a + "\n";
    if a == "" {
      assert t[1..] == "";
    } else {
      assert t[0] == a[0] && t[1..] == a[1..] + "\n";
      if a[0] == '\r' && |a| > 1 && a[1] == '\n' {
        assert t[2..] == a[2..] + "\n";
        LinesEnd(a[2..]);
      } else if a == "\r" {
        assert t[2..] == "";
      } else {
        LinesEnd(a[1..]);
        LinesStep(a);
        LinesStep(t);
        var rest := Lines(a[1..]);
        if rest == [] {
          assert a[1..] == "";
          assert [a[0]] + "" == [a[0]];
        } else {
          ExtendConcat(a[0], rest, [""]);
        }
      }
    }
  }

  /** A line feed is always a cut, whatever stands before it. */
  lemma {:induction false} LinesCut(a: string, b: string)
    ensures Lines(a + "\n" + b) == Lines(a + "\n") + Lines(b)
    decreases |a|
  {
    var s, t := a + "\n" + b, a + "\n";
    if a == "" {
      assert s[1..] == b && t[1..] == "";
    } else {
      assert s[0] == t[0] == a[0];
      assert s[1..] == a[1..] + "\n" + b && t[1..] == a[1..] + "\n";
      if a[0] == '\r' && |a| > 1 && a[1] == '\n' {
        assert s[2..] == a[2..] + "\n" + b && t[2..] == a[2..] + "\n";
        LinesCut(a[2..], b);
        assert [""] + (Lines(t[2..]) + Lines(b)) == ([""] + Lines(t[2..])) + Lines(b);
      } else if a == "\r" {
        assert s[2..] == b && t[2..] == "";
      } else {
        LinesCut(a[1..], b);
        LinesEnd(a[1..]);
        LinesStep(s);
        LinesStep(t);
        ExtendConcat(a[0], Lines(t[1..]), Lines(b));
      }
    }
  }

  /** The lines of a text from those of its rest, where the first character does not belong to a two-character break. */
  function Extend(c: char, rest: seq<string>): seq<string> {
    if IsBreak(c) then [""] + rest else if rest == [] then [[c]] else [[c] + rest[0]] + rest[1..]
  }

  lemma LinesStep(s: string)
    requires s != "" && !(s[0] == '\r' && |s| > 1 && s[1] == '\n')
    ensures Lines(s) == Extend(s[0], Lines(s[1..]))
  {}

  lemma ExtendConcat(c: char, rest: seq<string>, more: seq<string>)
    requires rest != []
    ensures Extend(c, rest + more) == Extend(c, rest) + more
  {
    if IsBreak(c) {
      assert [""] + (rest + more) == ([""] + rest) + more;
    } else {
      assert (rest + more)[1..] == rest[1..] + more;
      assert [[c] + rest[0]] + (rest[1..] + more) == ([[c] + rest[0]] + rest[1..]) + more;
    }
  }

  lemma ReadEnd(a: string)
    ensures ReadText(a + "\n") == ReadText(a)
  {
    LinesEnd(a);
    ReadSnoc(Lines(a), "");
    assert [""][..0] == [] && Field("").None?;
    assert ReadLines([""]) == map[];
  }

  /** Reading a joined text is reading its pieces, with whatever line breaks they have inside. */
  lemma {:induction false} ReadOfJoin(pieces: seq<string>)
    ensures ReadText(Join(pieces, '\n') + "\n") == ReadPieces(pieces)
    decreases |pieces|
  {
    if |pieces| <= 1 {
      var only := if pieces == [] then "" else pieces[0];
      ReadEnd(only);
      assert ReadPieces(pieces) == ReadText(only);
    } else {
      var tail := Join(pieces[1..], '\n') + "\n";
      assert Join(pieces, '\n') + "\n" == pieces[0] + "\n" + tail;
      LinesCut(pieces[0], tail);
      ReadConcat(Lines(pieces[0] + "\n"), Lines(tail));
      ReadEnd(pieces[0]);
      ReadOfJoin(pieces[1..]);
    }
  }

  lemma {:induction false} ReadPiecesSnoc(pieces: seq<string>, piece: string)
    ensures ReadPieces(pieces + [piece]) == ReadPieces(pieces) + ReadText(piece)
    decreases |pieces|
  {
    if pieces == [] {
      assert (pieces + [piece])[1..] == [];
    } else {
      assert (pieces + [piece])[1..] == pieces[1..] + [piece];
      ReadPiecesSnoc(pieces[1..], piece);
    }
  }

  lemma ReadLine(line: string)
    requires SingleLine(line)
    ensures ReadText(line) == ReadLines([line])
  {
    LinesAtBreak(line, "");
    assert line + "\n" + "" == line + "\n";
    ReadEnd(line);
  }

  // ---------------------------------------------------------------- the override law

  /** The block of one update defines updated variables only, each with its new value. */
  ghost predicate BlockOk(values: map<string, string>, key: string)
    requires key in values
  {
    forall j :: j in ReadText(Assignment(key, values[key])) ==>
      j in values && ReadText(Assignment(key, values[key]))[j] == Norm(values[j])
  }

  ghost predicate BlocksOk(values: map<string, string>) {
    forall key :: key in values ==> BlockOk(values, key)
  }

  /** The first line of a block assigns its key. */
  lemma {:induction false} FirstLineOf(a: string, v: string)
    requires SingleLine(a) && a != ""
    ensures Lines(a + v) != [] && a <= Lines(a + v)[0]
    decreases |a|
  {
    var s := a + v;
    assert s[0] == a[0] && a[0] in a && s[1..] == a[1..] + v;
    if |a| > 1 {
      FirstLineOf(a[1..], v);
      assert Lines(s)[0] == [a[0]] + Lines(s[1..])[0];
    }
  }

  lemma BlockHasKey(key: string, value: string)
    requires IsKey(key)
    ensures key in ReadText(Assignment(key, value))
  {
    var head := key + "=";
    FirstLineOf(head, value);
    assert Assignment(key, value) == head + value;
    var lines := Lines(head + value);
    var rest := lines[0][|head|..];
    assert lines[0] == Assignment(key, rest);
    FieldOfAssignment(key, rest);
    assert lines == [lines[0]] + lines[1..];
    ReadConcat([lines[0]], lines[1..]);
    assert [lines[0]][..0] == [];
  }

  /** What pieces say once other lines are kept and some updates written: other keys as before, updated ones new. */
  ghost predicate Says(before: map<string, string>, after: map<string, string>, values: map<string, string>, seen: bool,
      k: string) {
    if k in values then
      (seen ==> k in after) && (k in after ==> after[k] == Norm(values[k]))
    else
      (k in after <==> k in before) && (k in after ==> after[k] == before[k])
  }

  lemma SaysBlock(
      before: map<string, string>, after: map<string, string>, values: map<string, string>,
      seen: bool, k: string, key: string)
    requires Says(before, after, values, seen, k) && key in values && IsKey(key) && BlockOk(values, key)
    ensures Says(before, after + ReadText(Assignment(key, values[key])), values, seen || k == key, k)
  {
    BlockHasKey(key, values[key]);
  }

  lemma {:induction false} KeptReads(lines: seq<string>, values: map<string, string>, k: string)
    requires BlocksOk(values) && forall l :: l in lines ==> SingleLine(l)
    ensures Says(ReadLines(lines), ReadPieces(Kept(lines, values)), values, k in Seen(lines, values), k)
    decreases |lines|
  {
    if lines != [] {
      var init, last := lines[..|lines| - 1], lines[|lines| - 1];
      assert lines == init + [last] && last in lines;
      KeptReads(init, values, k);
      ReadSnoc(init, last);
      assert [last][..0] == [];
      if IsUpdated(last, values) {
        KeptBlock(init, last, values, k);
      } else {
        ReadLine(last);
        ReadPiecesSnoc(Kept(init, values), last);
      }
    }
  }

  lemma KeptBlock(init: seq<string>, last: string, values: map<string, string>, k: string)
    requires BlocksOk(values) && IsUpdated(last, values)
    requires Says(ReadLines(init), ReadPieces(Kept(init, values)), values, k in Seen(init, values), k)
    ensures var lines := init + [last];
      Says(ReadLines(lines), ReadPieces(Kept(lines, values)), values, k in Seen(lines, values), k)
  {
    var lines, key := init + [last], Field(last).value.0;
    assert lines[..|lines| - 1] == init;
    if key in Seen(init, values) {
      assert Kept(lines, values) == Kept(init, values) + [] == Kept(init, values);
    } else {
      ReadPiecesSnoc(Kept(init, values), Assignment(key, values[key]));
      SaysBlock(ReadLines(init), ReadPieces(Kept(init, values)), values, k in Seen(init, values), k, key);
    }
  }

  lemma {:induction false} AddedReads(
      before: map<string, string>, base: seq<string>, keys: seq<string>, values: map<string, string>,
      seen: set<string>, k: string)
    requires BlocksOk(values) && forall key :: key in keys ==> key in values && IsKey(key)
    requires Says(before, ReadPieces(base), values, k in seen, k)
    ensures Says(before, ReadPieces(base + Added(keys, values, seen)), values, k in seen || k in keys, k)
    decreases |keys|
  {
    if keys == [] {
      assert base + [] == base;
    } else {
      var init, last := keys[..|keys| - 1], keys[|keys| - 1];
      assert keys == init + [last];
      AddedReads(before, base, init, values, seen, k);
      var done := base + Added(init, values, seen);
      if last in seen {
        assert base + Added(keys, values, seen) == done;
      } else {
        assert base + Added(keys, values, seen) == done + [Assignment(last, values[last])];
        BlockReads(before, done, values, k in seen || k in init, k, last);
      }
    }
  }

  lemma BlockReads(
      before: map<string, string>, done: seq<string>, values: map<string, string>, said: bool, k: string, key: string)
    requires BlocksOk(values) && key in values && IsKey(key) && Says(before, ReadPieces(done), values, said, k)
    ensures Says(before, ReadPieces(done + [Assignment(key, values[key])]), values, said || k == key, k)
  {
    ReadPiecesSnoc(done, Assignment(key, values[key]));
    SaysBlock(before, ReadPieces(done), values, said, k, key);
  }

  lemma OverrideHolds(text: string, u: Dict)
    requires IsDict(u) && KeysOk(u) && BlocksOk(u.values)
    ensures Read(Some(Merged(text, u))) == Read(Some(text)) + Normed(u.values)
  {
    var lines := Lines(text);
    var seen := Seen(lines, u.values);
    LinesSingle(text);
    ReadOfJoin(MergedLines(lines, u));
    var after, want := ReadPieces(MergedLines(lines, u)), ReadLines(lines) + Normed(u.values);
    forall k ensures (k in after <==> k in want) && (k in after ==> after[k] == want[k]) {
      KeptReads(lines, u.values, k);
      AddedReads(ReadLines(lines), Kept(lines, u.values), u.keys, u.values, seen, k);
    }
  }

  /** An updated key that is not well-formed is never read back. */
  lemma OverrideNeedsKeys(text: string, u: Dict)
    requires IsDict(u) && !KeysOk(u)
    ensures Read(Some(Merged(text, u))) != Read(Some(text)) + Normed(u.values)
  {
    var key :| key in u.keys && !IsKey(key);
    ReadKeysOk(Lines(Merged(text, u)));
    assert key in Normed(u.values);
  }

  /**
     For every text and every dictionary of single-line entries, reading the merged
     text gives the old variables overridden by the normalised updates exactly when
     all the updated keys are well-formed.
  */
  lemma Override(text: string, u: Dict)
    requires IsDict(u) && OneLineEach(u)
    ensures Read(Some(Merged(text, u))) == Read(Some(text)) + Normed(u.values) <==> KeysOk(u)
  {
    if KeysOk(u) {
      forall key | key in u.values ensures BlockOk(u.values, key) {
        SingleBlockOk(u.values, key);
      }
      OverrideHolds(text, u);
    } else {
      OverrideNeedsKeys(text, u);
    }
  }

  lemma SingleBlockOk(values: map<string, string>, key: string)
    requires key in values && IsKey(key) && SingleLine(key) && SingleLine(values[key])
    ensures BlockOk(values, key)
  {
    var line := Assignment(key, values[key]);
    AssignmentSingleLine(key, values[key]);
    ReadLine(line);
    FieldOfAssignment(key, values[key]);
    assert [line][..0] == [];
  }

  // ---------------------------------------------------------------- exactly when it holds for all texts

  /** A text that gives every key of the list an empty value. */
  function Blanks(keys: seq<string>): seq<string> {
    if keys == [] then [] else Blanks(keys[..|keys| - 1]) + [Assignment(keys[|keys| - 1], "")]
  }

  lemma {:induction false} BlanksShape(keys: seq<string>, values: map<string, string>)
    requires forall key :: key in keys ==> IsKey(key) && key in values
    ensures forall l :: l in Blanks(keys) ==> SingleLine(l)
    ensures forall key :: key in Seen(Blanks(keys), values) <==> key in keys
    ensures forall key :: key in ReadLines(Blanks(keys)) ==> key in keys
    decreases |keys|
  {
    if keys != [] {
      var init, last := keys[..|keys| - 1], keys[|keys| - 1];
      assert keys == init + [last];
      BlanksShape(init, values);
      KeySingleLine(last);
      AssignmentSingleLine(last, "");
      FieldOfAssignment(last, "");
      assert Blanks(keys)[..|Blanks(keys)| - 1] == Blanks(init);
    }
  }

  /** All keys but one, in the order of the dictionary. */
  function Without(keys: seq<string>, key: string): (r: seq<string>)
    ensures forall k :: k in r <==> k in keys && k != key
  {
    Filter((k: string) => k != key, keys)
  }

  /** With every other key seen, the block of this one is all that is added. */
  lemma {:induction false} OnlyAdded(keys: seq<string>, values: map<string, string>, seen: set<string>, key: string)
    requires forall k :: k in keys ==> k in values && (k in seen <==> k != key)
    requires forall i, j :: 0 <= i < j < |keys| ==> keys[i] != keys[j]
    ensures Added(keys, values, seen) == if key in keys then [Assignment(key, values[key])] else []
    decreases |keys|
  {
    if keys != [] {
      var init, last := keys[..|keys| - 1], keys[|keys| - 1];
      assert keys == init + [last] && last in keys;
      OnlyAdded(init, values, seen, key);
    }
  }

  /** The text after which the block of `key` comes last, so that nothing can hide what it defines. */
  lemma BlockLast(u: Dict, key: string) returns (text: string)
    requires IsDict(u) && KeysOk(u) && key in u.values
    ensures forall j :: j in Read(Some(text)) ==> j in u.values
    ensures exists kept: map<string, string> ::
      Read(Some(Merged(text, u))) == kept + ReadText(Assignment(key, u.values[key]))
  {
    var others := Without(u.keys, key);
    var lines := Blanks(others);
    BlanksShape(others, u.values);
    text := if lines == [] then "" else Join(lines, '\n') + "\n";
    LinesOfJoin(lines);
    assert Lines(text) == lines;
    OnlyAdded(u.keys, u.values, Seen(lines, u.values), key);
    var kept := Kept(lines, u.values);
    ReadOfJoin(MergedLines(lines, u));
    ReadPiecesSnoc(kept, Assignment(key, u.values[key]));
    assert Read(Some(Merged(text, u))) == ReadPieces(kept) + ReadText(Assignment(key, u.values[key]));
  }

  lemma OverrideNeedsBlocks(u: Dict, key: string)
    requires IsDict(u) && KeysOk(u) && key in u.values
    requires forall text :: Read(Some(Merged(text, u))) == Read(Some(text)) + Normed(u.values)
    ensures BlockOk(u.values, key)
  {
    var text := BlockLast(u, key);
    var merged, block := Read(Some(Merged(text, u))), ReadText(Assignment(key, u.values[key]));
    assert merged == Read(Some(text)) + Normed(u.values);
    forall j | j in block ensures j in u.values && block[j] == Norm(u.values[j]) {
      assert j in merged && merged[j] == block[j];
      assert Normed(u.values)[j] == Norm(u.values[j]);
    }
  }

  /**
     With any values at all, line breaks included: the override law holds for all texts
     exactly when every key is well-formed and no update defines a variable that is not
     updated, or gives an updated one another value than its own update does.
  */
  lemma OverrideExactly(u: Dict)
    requires IsDict(u)
    ensures (forall text :: Read(Some(Merged(text, u))) == Read(Some(text)) + Normed(u.values))
       <==> KeysOk(u) && BlocksOk(u.values)
  {
    if KeysOk(u) && BlocksOk(u.values) {
      forall text ensures Read(Some(Merged(text, u))) == Read(Some(text)) + Normed(u.values) {
        OverrideHolds(text, u);
      }
    }
    if forall text :: Read(Some(Merged(text, u))) == Read(Some(text)) + Normed(u.values) {
      if !KeysOk(u) {
        OverrideNeedsKeys("", u);
      } else {
        forall key | key in u.values ensures BlockOk(u.values, key) {
          OverrideNeedsBlocks(u, key);
        }
      }
    }
  }

  // ---------------------------------------------------------------- one line per key, the others as they were

  function LinesOf(lines: seq<string>, key: string): seq<string> {
    Filter((l: string) => HasKey(l, key), lines)
  }

  function OtherLines(lines: seq<string>, values: map<string, string>): seq<string> {
    Filter((l: string) => !IsUpdated(l, values), lines)
  }

  lemma LinesOfSnoc(lines: seq<string>, line: string, key: string)
    ensures LinesOf(lines + [line], key) == LinesOf(lines, key) + (if HasKey(line, key) then [line] else [])
  {
    FilterSnoc((l: string) => HasKey(l, key), lines, line);
  }

  lemma OtherLinesSnoc(lines: seq<string>, line: string, values: map<string, string>)
    ensures OtherLines(lines + [line], values)
         == OtherLines(lines, values) + (if IsUpdated(line, values) then [] else [line])
  {
    FilterSnoc((l: string) => !IsUpdated(l, values), lines, line);
  }

  lemma {:induction false} KeptLinesOf(lines: seq<string>, values: map<string, string>, key: string)
    requires key in values
    ensures LinesOf(Kept(lines, values), key) == if key in Seen(lines, values) then [Assignment(key, values[key])]
      else []
    decreases |lines|
  {
    if lines != [] {
      var init, last := lines[..|lines| - 1], lines[|lines| - 1];
      KeptLinesOf(init, values, key);
      var seen := Seen(init, values);
      if !IsUpdated(last, values) {
        LinesOfSnoc(Kept(init, values), last, key);
      } else {
        var k := Field(last).value.0;
        if k in seen {
          assert Kept(lines, values) == Kept(init, values) + [] == Kept(init, values);
        } else {
          FieldOfAssignment(k, values[k]);
          LinesOfSnoc(Kept(init, values), Assignment(k, values[k]), key);
        }
      }
    }
  }

  lemma {:induction false} KeptOthers(lines: seq<string>, values: map<string, string>)
    ensures OtherLines(Kept(lines, values), values) == OtherLines(lines, values)
    decreases |lines|
  {
    if lines != [] {
      var init, last := lines[..|lines| - 1], lines[|lines| - 1];
      assert lines == init + [last];
      KeptOthers(init, values);
      OtherLinesSnoc(init, last, values);
      var seen := Seen(init, values);
      if !IsUpdated(last, values) {
        OtherLinesSnoc(Kept(init, values), last, values);
      } else {
        var k := Field(last).value.0;
        if k in seen {
          assert Kept(lines, values) == Kept(init, values) + [] == Kept(init, values);
        } else {
          FieldOfAssignment(k, values[k]);
          OtherLinesSnoc(Kept(init, values), Assignment(k, values[k]), values);
        }
      }
    }
  }

  /** The added lines on top of others: each missing key once, and no other line. */
  lemma {:induction false} AddedLinesOf(base: seq<string>, keys: seq<string>, values: map<string, string>,
      seen: set<string>, key: string)
    requires forall k :: k in keys ==> k in values && (k in seen || IsKey(k))
    requires forall i, j :: 0 <= i < j < |keys| ==> keys[i] != keys[j]
    ensures LinesOf(base + Added(keys, values, seen), key)
         == LinesOf(base, key) + (if key in keys && key !in seen then [Assignment(key, values[key])] else [])
    ensures OtherLines(base + Added(keys, values, seen), values) == OtherLines(base, values)
    decreases |keys|
  {
    if keys == [] {
      assert base + [] == base;
    } else {
      var init, last := keys[..|keys| - 1], keys[|keys| - 1];
      assert keys == init + [last];
      AddedLinesOf(base, init, values, seen, key);
      if last in seen {
        assert Added(keys, values, seen) == Added(init, values, seen);
      } else {
        var line := Assignment(last, values[last]);
        assert base + Added(keys, values, seen) == (base + Added(init, values, seen)) + [line];
        FieldOfAssignment(last, values[last]);
        LinesOfSnoc(base + Added(init, values, seen), line, key);
        OtherLinesSnoc(base + Added(init, values, seen), line, values);
        assert last !in init;
      }
    }
  }

  lemma MergedShape(lines: seq<string>, u: Dict, key: string)
    requires IsDict(u) && KeysOk(u)
    ensures key in u.keys ==> LinesOf(MergedLines(lines, u), key) == [Assignment(key, u.values[key])]
    ensures OtherLines(MergedLines(lines, u), u.values) == OtherLines(lines, u.values)
  {
    AddedLinesOf(Kept(lines, u.values), u.keys, u.values, Seen(lines, u.values), key);
    KeptOthers(lines, u.values);
    if key in u.keys {
      KeptLinesOf(lines, u.values, key);
    }
  }

  /** The lines of the merged text are the merged lines, but for the line an empty merge leaves. */
  lemma LinesOfMerged(text: string, u: Dict)
    requires IsDict(u) && OneLineEach(u)
    ensures var lines := MergedLines(Lines(text), u);
      Lines(Merged(text, u)) == if lines == [] then [""] else lines
  {
    LinesSingle(text);
    MergedSingle(Lines(text), u);
    LinesOfJoin(MergedLines(Lines(text), u));
  }

  /** Each updated key is on exactly one line, with its new value. */
  lemma OneLinePerKey(text: string, u: Dict, key: string)
    requires IsDict(u) && OneLineEach(u) && KeysOk(u) && key in u.keys
    ensures LinesOf(Lines(Merged(text, u)), key) == [Assignment(key, u.values[key])]
  {
    LinesOfMerged(text, u);
    MergedShape(Lines(text), u, key);
  }

  /** All lines of other keys, comments and blank lines stay, verbatim and in order. */
  lemma OtherLinesKept(text: string, u: Dict)
    requires IsDict(u) && OneLineEach(u) && KeysOk(u)
    ensures OtherLines(Lines(Merged(text, u)), u.values)
         == if Lines(text) == [] && u.keys == [] then [""] else OtherLines(Lines(text), u.values)
  {
    LinesOfMerged(text, u);
    var lines := Lines(text);
    MergedShape(lines, u, "");
    if MergedLines(lines, u) == [] {
      NothingMerged(lines, u);
    }
  }

  /** A merge has no lines only if there is nothing to merge. */
  lemma NothingMerged(lines: seq<string>, u: Dict)
    requires IsDict(u) && MergedLines(lines, u) == []
    ensures lines == [] && u.keys == []
  {
    KeptSome(lines, u.values);
    AddedSome(u.keys, u.values);
  }

  lemma AddedSome(keys: seq<string>, values: map<string, string>)
    requires forall key :: key in keys ==> key in values
    ensures Added(keys, values, {}) == [] ==> keys == []
  {
    if keys != [] {
      assert keys[|keys| - 1] in keys;
    }
  }

  lemma {:induction false} KeptSome(lines: seq<string>, values: map<string, string>)
    ensures Kept(lines, values) == [] ==> lines == [] && Seen(lines, values) == {}
    decreases |lines|
  {
    if lines != [] {
      KeptSome(lines[..|lines| - 1], values);
    }
  }

  // ---------------------------------------------------------------- merging again

  lemma {:induction false} SeenIff(lines: seq<string>, values: map<string, string>, key: string)
    requires key in values
    ensures key in Seen(lines, values) <==> LinesOf(lines, key) != []
    decreases |lines|
  {
    if lines != [] {
      var init, last := lines[..|lines| - 1], lines[|lines| - 1];
      assert lines == init + [last];
      SeenIff(init, values, key);
      LinesOfSnoc(init, last, key);
    }
  }

  /** Every updated key is on at most one line, and that line already has the new value. */
  ghost predicate UpToDate(lines: seq<string>, values: map<string, string>) {
    forall key :: key in values ==> LinesOf(lines, key) == [] || LinesOf(lines, key) == [Assignment(key, values[key])]
  }

  lemma UpToDateInit(lines: seq<string>, values: map<string, string>)
    requires lines != [] && UpToDate(lines, values)
    ensures UpToDate(lines[..|lines| - 1], values)
    ensures var last := lines[|lines| - 1];
      IsUpdated(last, values) ==>
        last == Assignment(Field(last).value.0, values[Field(last).value.0])
        && LinesOf(lines[..|lines| - 1], Field(last).value.0) == []
  {
    var init, last := lines[..|lines| - 1], lines[|lines| - 1];
    assert lines == init + [last];
    forall key | key in values
      ensures LinesOf(init, key) == [] || LinesOf(init, key) == [Assignment(key, values[key])]
      ensures HasKey(last, key) ==> LinesOf(init, key) == [] && last == Assignment(key, values[key])
    {
      LinesOfSnoc(init, last, key);
      if HasKey(last, key) {
        assert LinesOf(lines, key)[|LinesOf(lines, key)| - 1] == last;
      }
    }
    assert IsUpdated(last, values) ==> HasKey(last, Field(last).value.0);
  }

  lemma {:induction false} KeptUpToDate(lines: seq<string>, values: map<string, string>)
    requires UpToDate(lines, values)
    ensures Kept(lines, values) == lines
    decreases |lines|
  {
    if lines != [] {
      var init, last := lines[..|lines| - 1], lines[|lines| - 1];
      UpToDateInit(lines, values);
      KeptUpToDate(init, values);
      LastUpToDate(init, last, values);
      assert Kept(lines, values) == init + [last] == lines;
    }
  }

  lemma LastUpToDate(init: seq<string>, last: string, values: map<string, string>)
    requires IsUpdated(last, values) ==>
      last == Assignment(Field(last).value.0, values[Field(last).value.0]) && LinesOf(init, Field(last).value.0) == []
    ensures Replaced(last, Seen(init, values), values) == [last]
  {
    if IsUpdated(last, values) {
      SeenIff(init, values, Field(last).value.0);
    }
  }

  lemma {:induction false} NothingAdded(keys: seq<string>, values: map<string, string>, seen: set<string>)
    requires forall key :: key in keys ==> key in values && key in seen
    ensures Added(keys, values, seen) == []
    decreases |keys|
  {
    if keys != [] {
      assert keys[|keys| - 1] in keys;
      NothingAdded(keys[..|keys| - 1], values, seen);
    }
  }

  lemma MergedLinesAgain(lines: seq<string>, u: Dict)
    requires IsDict(u) && KeysOk(u)
    ensures MergedLines(MergedLines(lines, u), u) == MergedLines(lines, u)
  {
    var merged := MergedLines(lines, u);
    forall key | key in u.values
      ensures LinesOf(merged, key) == [Assignment(key, u.values[key])] && key in Seen(merged, u.values)
    {
      MergedShape(lines, u, key);
      SeenIff(merged, u.values, key);
    }
    KeptUpToDate(merged, u.values);
    NothingAdded(u.keys, u.values, Seen(merged, u.values));
  }

  /** Merging the same updates a second time changes nothing. */
  lemma MergeIdempotent(text: string, u: Dict)
    requires IsDict(u) && OneLineEach(u) && KeysOk(u)
    ensures Merged(Merged(text, u), u) == Merged(text, u)
  {
    LinesOfMerged(text, u);
    var lines := MergedLines(Lines(text), u);
    if lines == [] {
      NothingMerged(Lines(text), u);
      assert Field("").None? && [""][..0] == [];
      assert Kept([""], u.values) == [""];
    } else {
      MergedLinesAgain(Lines(text), u);
    }
  }

  // -- where a second merge changes something

  predicate EndsWith(lines: seq<string>, tail: seq<string>) {
    |tail| <= |lines| && lines[|lines| - |tail|..] == tail
  }

  function WellFormed(values: map<string, string>): set<string> {
    set key | key in values && IsKey(key)
  }

  function Malformed(values: map<string, string>): set<string> {
    set key | key in values && !IsKey(key)
  }

  /** The lines printed for malformed keys: no line is ever read as one of them, so every merge adds them. */
  function MalformedLines(u: Dict): seq<string>
    requires forall key :: key in u.keys ==> key in u.values
  {
    Added(u.keys, u.values, WellFormed(u.values))
  }

  lemma {:induction false} SeenWellFormed(lines: seq<string>, values: map<string, string>)
    ensures Seen(lines, values) <= WellFormed(values)
    decreases |lines|
  {
    if lines != [] {
      SeenWellFormed(lines[..|lines| - 1], values);
    }
  }

  lemma {:induction false} FilterCount(p: string -> bool, xs: seq<string>, x: string)
    ensures multiset(Filter(p, xs))[x] == if p(x) then multiset(xs)[x] else 0
  {
    if xs != [] {
      FilterCount(p, xs[1..], x);
      assert xs == [xs[0]] + xs[1..];
      if p(xs[0]) {
        assert multiset(Filter(p, xs)) == multiset{xs[0]} + multiset(Filter(p, xs[1..]));
      }
    }
  }

  /** Added lines are those of the well-formed keys and those of the malformed ones, in some order. */
  lemma {:induction false} AddedSplit(keys: seq<string>, values: map<string, string>, seen: set<string>)
    requires forall key :: key in keys ==> key in values
    requires seen <= WellFormed(values)
    ensures multiset(Added(keys, values, seen))
         == multiset(Added(keys, values, seen + Malformed(values))) + multiset(Added(keys, values, WellFormed(values)))
    decreases |keys|
  {
    if keys != [] {
      var last := keys[|keys| - 1];
      assert last in keys;
      AddedSplit(keys[..|keys| - 1], values, seen);
    }
  }

  /** Two arrangements of the same lines have the same line of a key that is on at most one of them. */
  lemma SameLineOf(a: seq<string>, b: seq<string>, key: string)
    requires multiset(a) == multiset(b) && |LinesOf(b, key)| <= 1
    ensures LinesOf(a, key) == LinesOf(b, key)
  {
    forall x ensures multiset(LinesOf(a, key))[x] == multiset(LinesOf(b, key))[x] {
      FilterCount((l: string) => HasKey(l, key), a, x);
      FilterCount((l: string) => HasKey(l, key), b, x);
    }
    assert multiset(LinesOf(a, key)) == multiset(LinesOf(b, key));
    assert |LinesOf(a, key)| == |multiset(LinesOf(a, key))| == |LinesOf(b, key)|;
    if |LinesOf(b, key)| == 1 {
      assert LinesOf(a, key)[0] in multiset(LinesOf(b, key));
    }
  }

  /** A key's lines among the added ones, once the malformed lines are taken off the end. */
  lemma GoodLines(u: Dict, seen: set<string>, good: seq<string>, key: string)
    requires IsDict(u) && seen <= WellFormed(u.values) && key in WellFormed(u.values)
    requires Added(u.keys, u.values, seen) == good + MalformedLines(u)
    ensures LinesOf(good, key) == if key in seen then [] else [Assignment(key, u.values[key])]
  {
    var tail := Added(u.keys, u.values, seen + Malformed(u.values));
    AddedSplit(u.keys, u.values, seen);
    forall x ensures multiset(good)[x] == multiset(tail)[x] {
      assert multiset(good + MalformedLines(u))[x] == multiset(good)[x] + multiset(MalformedLines(u))[x];
    }
    assert multiset(good) == multiset(tail);
    AddedLinesOf([], u.keys, u.values, seen + Malformed(u.values), key);
    assert [] + tail == tail && LinesOf([], key) == [];
    SameLineOf(good, tail, key);
  }

  lemma {:induction false} NoLineOf(lines: seq<string>, key: string)
    requires !IsKey(key)
    ensures LinesOf(lines, key) == []
  {
    if lines != [] {
      NoLineOf(lines[1..], key);
    }
  }

  /** What comes before the malformed lines, if these come last, is up to date and has all well-formed keys. */
  lemma UpToDateBefore(lines: seq<string>, u: Dict, good: seq<string>)
    requires IsDict(u) && Added(u.keys, u.values, Seen(lines, u.values)) == good + MalformedLines(u)
    ensures var before := Kept(lines, u.values) + good;
      UpToDate(before, u.values) && Seen(before, u.values) == WellFormed(u.values)
  {
    var before := Kept(lines, u.values) + good;
    SeenWellFormed(lines, u.values);
    forall key | key in WellFormed(u.values)
      ensures LinesOf(before, key) == [Assignment(key, u.values[key])] && key in Seen(before, u.values)
    {
      GoodLines(u, Seen(lines, u.values), good, key);
      FilterConcat((l: string) => HasKey(l, key), Kept(lines, u.values), good);
      KeptLinesOf(lines, u.values, key);
      SeenIff(before, u.values, key);
    }
    forall key | key in u.values && key !in WellFormed(u.values) ensures LinesOf(before, key) == [] {
      NoLineOf(before, key);
    }
    SeenWellFormed(before, u.values);
  }

  /** Lines of keys that have come up already go. */
  lemma {:induction false} KeptDrops(before: seq<string>, tail: seq<string>, values: map<string, string>)
    requires forall l :: l in tail ==> IsUpdated(l, values) && Field(l).value.0 in Seen(before, values)
    ensures Kept(before + tail, values) == Kept(before, values) && Seen(before + tail, values) == Seen(before, values)
    decreases |tail|
  {
    if tail == [] {
      assert before + tail == before;
    } else {
      var init, last := tail[..|tail| - 1], tail[|tail| - 1];
      assert last in tail && (before + tail)[..|before + tail| - 1] == before + init;
      KeptDrops(before, init, values);
    }
  }

  /** Every well-formed key comes up in a merged text. */
  lemma MergedSeen(lines: seq<string>, u: Dict)
    requires IsDict(u)
    ensures Seen(MergedLines(lines, u), u.values) == WellFormed(u.values)
  {
    var merged := MergedLines(lines, u);
    forall key | key in WellFormed(u.values) ensures key in Seen(merged, u.values) {
      FilterConcat((l: string) => HasKey(l, key), Kept(lines, u.values),
                   Added(u.keys, u.values, Seen(lines, u.values)));
      KeptLinesOf(lines, u.values, key);
      if key !in Seen(lines, u.values) {
        AddedHas(u.keys, u.values, Seen(lines, u.values), key);
        FieldOfAssignment(key, u.values[key]);
        assert Assignment(key, u.values[key]) in LinesOf(Added(u.keys, u.values, Seen(lines, u.values)), key);
      }
      SeenIff(merged, u.values, key);
    }
    SeenWellFormed(merged, u.values);
  }

  lemma {:induction false} AddedHas(keys: seq<string>, values: map<string, string>, seen: set<string>, key: string)
    requires (forall k :: k in keys ==> k in values) && key in keys && key !in seen
    ensures Assignment(key, values[key]) in Added(keys, values, seen)
    decreases |keys|
  {
    if keys[|keys| - 1] != key {
      AddedHas(keys[..|keys| - 1], values, seen, key);
    }
  }

  /** The malformed keys whose printed line is read as no updated key are none. */
  ghost predicate MalformedAreRead(u: Dict)
    requires forall key :: key in u.keys ==> key in u.values
  {
    forall line :: line in MalformedLines(u) ==> IsUpdated(line, u.values)
  }

  lemma SecondMerge(lines: seq<string>, u: Dict)
    requires IsDict(u)
    ensures var merged := MergedLines(lines, u);
      MergedLines(merged, u) == merged
      <==> MalformedAreRead(u) && EndsWith(Added(u.keys, u.values, Seen(lines, u.values)), MalformedLines(u))
  {
    var merged, tail := MergedLines(lines, u), MalformedLines(u);
    var added := Added(u.keys, u.values, Seen(lines, u.values));
    MergedSeen(lines, u);
    assert MergedLines(merged, u) == Kept(merged, u.values) + tail;
    if MalformedAreRead(u) && EndsWith(added, tail) {
      KeptAgain(lines, u, added[..|added| - |tail|]);
    }
    if Kept(merged, u.values) + tail == merged {
      NothingElseAdded(merged, u);
      AddedLast(lines, u);
    }
  }

  lemma KeptAgain(lines: seq<string>, u: Dict, good: seq<string>)
    requires IsDict(u) && Added(u.keys, u.values, Seen(lines, u.values)) == good + MalformedLines(u)
    requires MalformedAreRead(u)
    ensures var merged := MergedLines(lines, u); Kept(merged, u.values) + MalformedLines(u) == merged
  {
    var before := Kept(lines, u.values) + good;
    assert MergedLines(lines, u) == before + MalformedLines(u);
    UpToDateBefore(lines, u, good);
    KeptDrops(before, MalformedLines(u), u.values);
    KeptUpToDate(before, u.values);
  }

  lemma AddedLast(lines: seq<string>, u: Dict)
    requires IsDict(u)
    requires var merged := MergedLines(lines, u); Kept(merged, u.values) + MalformedLines(u) == merged
    ensures EndsWith(Added(u.keys, u.values, Seen(lines, u.values)), MalformedLines(u))
  {
    var kept, added, tail := Kept(lines, u.values), Added(u.keys, u.values, Seen(lines, u.values)), MalformedLines(u);
    var merged := kept + added;
    SeenWellFormed(lines, u.values);
    AddedShrinks(u.keys, u.values, Seen(lines, u.values), WellFormed(u.values));
    SuffixOfConcat(kept, added, Kept(merged, u.values), tail);
  }

  lemma {:induction false} AddedShrinks(
      keys: seq<string>, values: map<string, string>, seen: set<string>, more: set<string>)
    requires (forall k :: k in keys ==> k in values) && seen <= more
    ensures |Added(keys, values, more)| <= |Added(keys, values, seen)|
    decreases |keys|
  {
    if keys != [] {
      AddedShrinks(keys[..|keys| - 1], values, seen, more);
    }
  }

  lemma SuffixOfConcat(a: seq<string>, b: seq<string>, c: seq<string>, d: seq<string>)
    requires a + b == c + d && |d| <= |b|
    ensures EndsWith(b, d)
  {
    assert d == (c + d)[|c|..] == (a + b)[|c|..] == b[|b| - |d|..];
  }

  lemma NothingElseAdded(merged: seq<string>, u: Dict)
    requires IsDict(u) && Kept(merged, u.values) + MalformedLines(u) == merged
    ensures MalformedAreRead(u)
  {
    var tail := MalformedLines(u);
    KeptOthers(merged, u.values);
    FilterConcat((l: string) => !IsUpdated(l, u.values), Kept(merged, u.values), tail);
    assert OtherLines(merged, u.values) == OtherLines(merged, u.values) + OtherLines(tail, u.values);
    assert OtherLines(tail, u.values) == [];
    forall line | line in tail ensures IsUpdated(line, u.values) {
      assert line !in OtherLines(tail, u.values);
    }
  }

  /**
   A second merge of the same single-line updates changes nothing exactly when every
   line that is printed for a malformed key is read as an updated key, and the lines
   the first merge adds end with those lines.
  */
  lemma MergeAgainExactly(text: string, u: Dict)
    requires IsDict(u) && OneLineEach(u)
    ensures Merged(Merged(text, u), u) == Merged(text, u)
       <==> MalformedAreRead(u) && EndsWith(Added(u.keys, u.values, Seen(Lines(text), u.values)), MalformedLines(u))
  {
    var lines := MergedLines(Lines(text), u);
    LinesOfMerged(text, u);
    if lines == [] {
      NothingMerged(Lines(text), u);
      assert Field("").None? && [""][..0] == [];
      assert Kept([""], u.values) == [""];
    } else {
      SecondMerge(Lines(text), u);
      LinesOfMerged(Merged(text, u), u);
      if Merged(Merged(text, u), u) == Merged(text, u) && MergedLines(lines, u) == [] {
        NothingMerged(lines, u);
      }
    }
  }

  /** Where no line printed for a malformed key is read as an updated key, all keys must be well-formed. */
  lemma MergeAgainNeedsKeys(text: string, u: Dict)
    requires IsDict(u) && OneLineEach(u)
    requires forall key :: key in u.keys && !IsKey(key) ==> !IsUpdated(Assignment(key, u.values[key]), u.values)
    ensures Merged(Merged(text, u), u) == Merged(text, u) <==> KeysOk(u)
  {
    MergeAgainExactly(text, u);
    if KeysOk(u) {
      MergeIdempotent(text, u);
    } else {
      var key :| key in u.keys && !IsKey(key);
      AddedHas(u.keys, u.values, WellFormed(u.values), key);
    }
  }

  lemma AddedTwo(u: Dict, first: string, second: string, seen: set<string>)
    requires u.keys == [first, second] && first in u.values && second in u.values
    ensures Added(u.keys, u.values, seen)
         == (if first in seen then [] else [Assignment(first, u.values[first])])
            + (if second in seen then [] else [Assignment(second, u.values[second])])
  {
    assert u.keys[..1] == [first] && [first][..0] == [];
    assert Added([], u.values, seen) == [] && Added([first], u.values, seen)
        == [] + (if first in seen then [] else [Assignment(first, u.values[first])]);
  }

  /** " A=1" is read as the key A. */
  lemma TwoKeys(u: Dict)
    requires u.values == map["A" := "2", " A" := "1"]
    ensures OneLineEach(u) && WellFormed(u.values) == {"A"} && !IsKey(" A")
    ensures Field(Assignment(" A", "1")) == Some(("A", "1"))
  {
    var line := Assignment(" A", "1");
    assert line == " A=1" && line[1..] == Assignment("A", "1");
    FieldOfAssignment("A", "1");
    assert SkipSpaces(line) == SkipSpaces(line[1..]) == line[1..];
  }

  /** Two keys, one of them malformed, in this order: a merge into an empty file is not repeatable. */
  lemma SecondMergeAdds(u: Dict)
    requires u == Dict([" A", "A"], map["A" := "2", " A" := "1"])
    ensures IsDict(u) && OneLineEach(u) && MalformedAreRead(u)
    ensures Merged(Merged("", u), u) != Merged("", u)
  {
    TwoKeys(u);
    AddedTwo(u, " A", "A", {});
    AddedTwo(u, " A", "A", {"A"});
    MergeAgainExactly("", u);
  }

  /** In the other order a merge is repeatable on every text. */
  lemma SecondMergeKeeps(text: string, u: Dict)
    requires u == Dict(["A", " A"], map["A" := "2", " A" := "1"])
    ensures IsDict(u) && OneLineEach(u) && !KeysOk(u) && Merged(Merged(text, u), u) == Merged(text, u)
  {
    TwoKeys(u);
    var seen := Seen(Lines(text), u.values);
    SeenWellFormed(Lines(text), u.values);
    AddedTwo(u, "A", " A", seen);
    AddedTwo(u, "A", " A", {"A"});
    MergeAgainExactly(text, u);
  }

  // ---------------------------------------------------------------- where the promises end

  lemma AssignmentCut(key: string, x: string, rest: string)
    ensures Assignment(key, x + "\n" + rest) == Assignment(key, x) + "\n" + rest
  {}

  /** A value with a line break defines a variable of its own, for every choice of the names and values. */
  lemma BreakInjects(u: Dict, key: string, j: string, x: string, y: string)
    requires IsKey(key) && IsKey(j) && key != j && SingleLine(x) && SingleLine(y)
    requires u == Dict([key], map[key := x + "\n" + Assignment(j, y)])
    ensures IsDict(u) && KeysOk(u) && !BlockOk(u.values, key)
    ensures Read(Some(Merged("", u))) == ReadText(Assignment(key, u.values[key])) && j in Read(Some(Merged("", u)))
  {
    assert u.keys[0] == key && u.keys[..0] == [];
    var block, first, second := Assignment(key, u.values[key]), Assignment(key, x), Assignment(j, y);
    assert Kept([], u.values) == [] && Seen([], u.values) == {} && Added([], u.values, {}) == [];
    assert Added(u.keys, u.values, {}) == Added(u.keys[..0], u.values, {}) + [block];
    assert MergedLines([], u) == [block];
    ReadOfJoin([block]);
    assert [block][1..] == [];
    assert ReadText(block) + map[] == ReadText(block);
    AssignmentCut(key, x, second);
    LinesCut(first, second);
    ReadConcat(Lines(first + "\n"), Lines(second));
    BlockHasKey(j, y);
  }

  /** One such value: the single-line condition is needed. */
  lemma BreakInjectsVariable(u: Dict)
    requires u == Dict(["A"], map["A" := "x\nB=y"])
    ensures IsDict(u) && KeysOk(u)
    ensures "B" in Read(Some(Merged("", u))) && "B" !in Read(Some("")) + Normed(u.values)
  {
    assert "x\nB=y" == "x" + "\n" + Assignment("B", "y");
    BreakInjects(u, "A", "B", "x", "y");
  }

  /** The values of a file have no line breaks. */
  lemma {:induction false} ReadValuesSingle(lines: seq<string>)
    requires forall l :: l in lines ==> SingleLine(l)
    ensures forall key :: key in ReadLines(lines) ==> SingleLine(ReadLines(lines)[key])
    decreases |lines|
  {
    if lines != [] {
      ReadValuesSingle(lines[..|lines| - 1]);
      assert lines[|lines| - 1] in lines;
      if Field(lines[|lines| - 1]).Some? {
        NormPart(Field(lines[|lines| - 1]).value.1);
      }
    }
  }

  lemma {:induction false} CutLeft(s: string)
    ensures forall c :: c in SkipQuotes(s) ==> c in s
  {
    if s != "" && IsQuote(s[0]) {
      CutLeft(s[1..]);
    }
  }

  lemma {:induction false} CutRight(s: string)
    ensures forall c :: c in SkipQuotesRight(s) ==> c in s
    ensures forall c :: c in SkipSpacesRight(s) ==> c in s
    decreases |s|
  {
    if s != "" {
      CutRight(s[..|s| - 1]);
    }
  }

  lemma NormPart(v: string)
    ensures forall c :: c in Norm(v) ==> c in v
  {
    var a := SkipSpacesRight(SkipSpaces(v));
    CutRight(SkipSpaces(v));
    CutLeft(a);
    CutRight(SkipQuotes(a));
  }

  /**
     Writing back what was read leaves all variables as they are exactly when every
     value that was read is its own normal form; a quoted space, say, is not.
  */
  lemma WriteBack(text: string, u: Dict)
    requires IsDict(u) && u.values == Read(Some(text))
    ensures Read(Some(Merged(text, u))) == Read(Some(text)) <==> forall key :: key in u.values ==>
      Norm(u.values[key]) == u.values[key]
  {
    LinesSingle(text);
    ReadKeysOk(Lines(text));
    ReadValuesSingle(Lines(text));
    forall key | key in u.values ensures SingleLine(key) {
      KeySingleLine(key);
    }
    Override(text, u);
    assert Read(Some(text)) + Normed(u.values) == Normed(u.values);
    if forall key :: key in u.values ==> Norm(u.values[key]) == u.values[key] {
      assert Normed(u.values) == u.values;
    }
    if Normed(u.values) == u.values {
      forall key | key in u.values ensures Norm(u.values[key]) == u.values[key] {
        assert Normed(u.values)[key] == u.values[key];
      }
    }
  }
}
