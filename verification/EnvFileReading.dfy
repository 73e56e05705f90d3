/**
 What reading an environment file gives (deploy/offline/common.py, read_env), said of
 the text: which lines define a variable, which of them counts, and what is stripped
 from its value.
*/
module EnvFileReading {
  import opened Common
  import opened Text
  import opened EnvFile
  import opened EnvFileProperties

  // ---------------------------------------------------------------- stripping

  predicate Blank(s: string) {
    forall c :: c in s ==> IsSpace(c)
  }

  predicate Quotes(s: string) {
    forall c :: c in s ==> c == '"' || c == '\''
  }

  /** Neither end of the text is white space. */
  predicate NoSpaceAtEnds(s: string) {
    s != "" ==> !IsSpace(s[0]) && !IsSpace(s[|s| - 1])
  }

  /** Neither end of the text is a quotation mark, single or double. */
  predicate NoQuoteAtEnds(s: string) {
    s != "" ==> s[0] != '"' && s[0] != '\'' && s[|s| - 1] != '"' && s[|s| - 1] != '\''
  }

  /** Around `m` there is white space only, and none at its own ends. */
  ghost predicate Bared(v: string, m: string) {
    NoSpaceAtEnds(m) && exists a, b :: Blank(a) && Blank(b) && v == a + m + b
  }

  /** Around `w` there are quotes only, of any kind and number, and none at its own ends. */
  ghost predicate Unquoted(m: string, w: string) {
    NoQuoteAtEnds(w) && exists q, p :: Quotes(q) && Quotes(p) && m == q + w + p
  }

  lemma {:induction false} SkipSpacesOver(a: string, m: string)
    requires Blank(a) && (m != "" ==> !IsSpace(m[0]))
    ensures SkipSpaces(a + m) == m
  {
    if a == "" {
      assert a + m == m;
    } else {
      assert a[0] in a && (a + m)[1..] == a[1..] + m;
      SkipSpacesOver(a[1..], m);
    }
  }

  lemma {:induction false} SkipRightOver(m: string, b: string)
    requires Blank(b) && (m != "" ==> !IsSpace(m[|m| - 1]))
    ensures SkipSpacesRight(m + b) == m
    decreases |b|
  {
    if b == "" {
      assert m + b == m;
    } else {
      assert b[|b| - 1] in b && (m + b)[..|m + b| - 1] == m + b[..|b| - 1];
      SkipRightOver(m, b[..|b| - 1]);
    }
  }

  lemma {:induction false} SkipQuotesOver(q: string, w: string)
    requires Quotes(q) && (w != "" ==> !IsQuote(w[0]))
    ensures SkipQuotes(q + w) == w
  {
    if q == "" {
      assert q + w == w;
    } else {
      var rest := q[1..];
      assert q[0] in q && (q + w)[1..] == rest + w;
      assert forall c :: c in rest ==> c in q;
      SkipQuotesOver(rest, w);
    }
  }

  lemma {:induction false} SkipQuotesRightOver(w: string, p: string)
    requires Quotes(p) && (w != "" ==> !IsQuote(w[|w| - 1]))
    ensures SkipQuotesRight(w + p) == w
    decreases |p|
  {
    if p == "" {
      assert w + p == w;
    } else {
      var init := p[..|p| - 1];
      assert p[|p| - 1] in p && (w + p)[..|w + p| - 1] == w + init;
      assert forall c :: c in init ==> c in p;
      SkipQuotesRightOver(w, init);
    }
  }

  /** White space at both ends goes; what is left, if anything, has none there. */
  lemma StripSpaces(a: string, m: string, b: string)
    requires Blank(a) && Blank(b) && NoSpaceAtEnds(m)
    ensures SkipSpacesRight(SkipSpaces(a + m + b)) == m
  {
    if m == "" {
      assert a + m + b == (a + b) + "";
      SkipSpacesOver(a + b, "");
    } else {
      assert a + m + b == a + (m + b);
      SkipSpacesOver(a, m + b);
      SkipRightOver(m, b);
    }
  }

  lemma StripQuotes(q: string, w: string, p: string)
    requires Quotes(q) && Quotes(p) && NoQuoteAtEnds(w)
    ensures SkipQuotesRight(SkipQuotes(q + w + p)) == w
  {
    if w == "" {
      assert q + w + p == (q + p) + "";
      SkipQuotesOver(q + p, "");
    } else {
      assert q + w + p == q + (w + p);
      SkipQuotesOver(q, w + p);
      SkipQuotesRightOver(w, p);
    }
  }

  lemma {:induction false} LeftSpaces(s: string) returns (a: string)
    ensures Blank(a) && s == a + SkipSpaces(s) && (SkipSpaces(s) != "" ==> !IsSpace(SkipSpaces(s)[0]))
  {
    if s != "" && IsSpace(s[0]) {
      var rest := LeftSpaces(s[1..]);
      a := [s[0]] + rest;
    } else {
      a := "";
    }
  }

  lemma {:induction false} RightSpaces(s: string) returns (b: string)
    ensures Blank(b) && s == SkipSpacesRight(s) + b
    ensures var m := SkipSpacesRight(s); m != "" ==> m[0] == s[0] && !IsSpace(m[|m| - 1])
    decreases |s|
  {
    if s != "" && IsSpace(s[|s| - 1]) {
      var rest := RightSpaces(s[..|s| - 1]);
      b := rest + [s[|s| - 1]];
      assert s == s[..|s| - 1] + [s[|s| - 1]];
    } else {
      b := "";
    }
  }

  lemma {:induction false} LeftQuotes(s: string) returns (q: string)
    ensures Quotes(q) && s == q + SkipQuotes(s) && (SkipQuotes(s) != "" ==> !IsQuote(SkipQuotes(s)[0]))
  {
    if s != "" && IsQuote(s[0]) {
      var rest := LeftQuotes(s[1..]);
      q := [s[0]] + rest;
    } else {
      q := "";
    }
  }

  lemma {:induction false} RightQuotes(s: string) returns (p: string)
    ensures Quotes(p) && s == SkipQuotesRight(s) + p
    ensures var w := SkipQuotesRight(s); w != "" ==> w[0] == s[0] && !IsQuote(w[|w| - 1])
    decreases |s|
  {
    if s != "" && IsQuote(s[|s| - 1]) {
      var rest := RightQuotes(s[..|s| - 1]);
      p := rest + [s[|s| - 1]];
      assert s == s[..|s| - 1] + [s[|s| - 1]];
    } else {
      p := "";
    }
  }

  /** The raw text of a value is white space, quotes, the value, quotes, white space. */
  ghost predicate Dressed(v: string, w: string) {
    exists m :: Bared(v, m) && Unquoted(m, w)
  }

  /** Taking these off is what reading does to a value, and nothing else. */
  lemma NormExactly(v: string, w: string)
    ensures Norm(v) == w <==> Dressed(v, w)
  {
    NormIsDressed(v);
    if Dressed(v, w) {
      var m :| Bared(v, m) && Unquoted(m, w);
      var a, b :| Blank(a) && Blank(b) && v == a + m + b;
      var q, p :| Quotes(q) && Quotes(p) && m == q + w + p;
      StripSpaces(a, m, b);
      StripQuotes(q, w, p);
    }
  }

  lemma NormIsDressed(v: string)
    ensures Dressed(v, Norm(v))
  {
    var m := SkipSpacesRight(SkipSpaces(v));
    SpacesAround(v);
    QuotesAround(m);
  }

  lemma SpacesAround(v: string)
    ensures Bared(v, SkipSpacesRight(SkipSpaces(v)))
  {
    var left := SkipSpaces(v);
    var m := SkipSpacesRight(left);
    var a := LeftSpaces(v);
    var b := RightSpaces(left);
    assert v == a + m + b;
  }

  lemma QuotesAround(m: string)
    ensures Unquoted(m, SkipQuotesRight(SkipQuotes(m)))
  {
    var inner := SkipQuotes(m);
    var w := SkipQuotesRight(inner);
    var q := LeftQuotes(m);
    var p := RightQuotes(inner);
    assert m == q + w + p;
  }

  // ---------------------------------------------------------------- lines

  /** A line that defines a variable: white space, a key, an equals sign, and the raw value. */
  ghost predicate Defines(line: string, key: string, raw: string) {
    IsKey(key) && exists a :: Blank(a) && line == a + key + "=" + raw
  }

  lemma {:induction false} KeyRunWhole(s: string)
    ensures KeyRun(s) < |s| && s[KeyRun(s)] == '=' ==> s == s[..KeyRun(s)] + "=" + s[KeyRun(s) + 1..]
  {}

  lemma FieldExactly(line: string, key: string, raw: string)
    ensures Field(line) == Some((key, raw)) <==> Defines(line, key, raw)
  {
    if Defines(line, key, raw) {
      var a :| Blank(a) && line == a + key + "=" + raw;
      FieldOfDefinition(a, key, raw);
    }
    if Field(line) == Some((key, raw)) {
      DefinitionOfField(line);
    }
  }

  lemma FieldOfDefinition(a: string, key: string, raw: string)
    requires IsKey(key) && Blank(a)
    ensures Field(a + key + "=" + raw) == Some((key, raw))
  {
    var rest := key + "=" + raw;
    assert rest[0] == key[0] && !IsSpace(key[0]);
    assert a + key + "=" + raw == a + rest;
    SkipSpacesOver(a, rest);
    SkipSpacesOver("", rest);
    assert "" + rest == rest;
    FieldOfAssignment(key, raw);
  }

  lemma DefinitionOfField(line: string)
    requires Field(line).Some?
    ensures Defines(line, Field(line).value.0, Field(line).value.1)
  {
    var (key, raw) := Field(line).value;
    var a := LeftSpaces(line);
    KeyRunWhole(SkipSpaces(line));
    assert line == a + key + "=" + raw;
  }

  /** The line at `i` is the last one that defines the key. */
  ghost predicate IsLastFor(lines: seq<string>, key: string, i: nat, raw: string) {
    && i < |lines| && Defines(lines[i], key, raw)
    && forall j, other :: i < j < |lines| ==> !Defines(lines[j], key, other)
  }

  lemma {:induction false} LastLineWins(lines: seq<string>, key: string, value: string)
    ensures key in ReadLines(lines) && ReadLines(lines)[key] == value
       <==> exists i, raw :: IsLastFor(lines, key, i, raw) && Dressed(raw, value)
    decreases |lines|
  {
    if lines != [] {
      var init, last := lines[..|lines| - 1], lines[|lines| - 1];
      LastLineWins(init, key, value);
      LastOrBefore(lines, key, value);
      if Field(last).Some? {
        NormExactly(Field(last).value.1, value);
      }
    }
  }

  lemma LastOrBefore(lines: seq<string>, key: string, value: string)
    requires lines != []
    ensures var init, last := lines[..|lines| - 1], lines[|lines| - 1];
      (exists i, raw :: IsLastFor(lines, key, i, raw) && Dressed(raw, value))
      <==> if HasKey(last, key) then Dressed(Field(last).value.1, value)
           else exists i, raw :: IsLastFor(init, key, i, raw) && Dressed(raw, value)
  {
    var n := |lines| - 1;
    var init, last := lines[..n], lines[n];
    forall raw ensures Defines(last, key, raw) <==> Field(last) == Some((key, raw)) {
      FieldExactly(last, key, raw);
    }
    if HasKey(last, key) {
      if Dressed(Field(last).value.1, value) {
        assert IsLastFor(lines, key, n, Field(last).value.1);
      }
      assert Defines(lines[n], key, Field(last).value.1);
      assert forall i: nat, raw :: IsLastFor(lines, key, i, raw) ==> i == n;
    } else {
      forall i: nat, raw ensures IsLastFor(lines, key, i, raw) <==> IsLastFor(init, key, i, raw) {
        LastInPrefix(lines, key, i, raw);
      }
    }
  }

  lemma LastInPrefix(lines: seq<string>, key: string, i: nat, raw: string)
    requires lines != [] && !HasKey(lines[|lines| - 1], key)
    ensures IsLastFor(lines, key, i, raw) <==> IsLastFor(lines[..|lines| - 1], key, i, raw)
  {
    var n := |lines| - 1;
    var init, last := lines[..n], lines[n];
    forall other ensures !Defines(last, key, other) {
      FieldExactly(last, key, other);
    }
    if IsLastFor(lines, key, i, raw) {
      assert i != n;
      forall j, other | i < j < |init| ensures !Defines(init[j], key, other) {
        assert init[j] == lines[j];
      }
    }
    if IsLastFor(init, key, i, raw) {
      forall j, other | i < j < |lines| ensures !Defines(lines[j], key, other) {
        if j < n {
          assert lines[j] == init[j];
        }
      }
    }
  }

  const ENDS: set<char> :=
    {'\n', '\r', '\U{0B}', '\U{0C}', '\U{1C}', '\U{1D}', '\U{1E}', '\U{85}', '\U{2028}', '\U{2029}'}

  /** What ends a line: a carriage return with a line feed, or one of these characters alone. */
  predicate EndsLine(br: string, rest: string) {
    || br == "\r\n"
    || (|br| == 1 && br[0] in ENDS && !(br == "\r" && rest != "" && rest[0] == '\n'))
  }

  lemma BreaksAreEnds(c: char)
    ensures IsBreak(c) <==> c in ENDS
  {}

  lemma {:induction false} LineEnds(line: string, br: string, rest: string)
    requires (forall c :: c in line ==> c !in ENDS) && EndsLine(br, rest)
    ensures Lines(line + br + rest) == [line] + Lines(rest)
    decreases |line|
  {
    var s := line + br + rest;
    if line == "" {
      assert s == br + rest;
      BreaksAreEnds(br[0]);
      if br == "\r\n" {
        assert s[2..] == rest;
      } else {
        assert s[1..] == rest;
      }
    } else {
      assert s[0] == line[0] && line[0] in line;
      BreaksAreEnds(line[0]);
      assert s[1..] == line[1..] + br + rest;
      LineEnds(line[1..], br, rest);
      assert [line[0]] + line[1..] == line;
    }
  }

  // ---------------------------------------------------------------- a file

  /** What the file says of a key: the last line that defines it, with its value stripped. */
  ghost predicate Says(text: Option<string>, key: string, value: string) {
    text.Some? && exists i, raw :: IsLastFor(Lines(text.value), key, i, raw) && Dressed(raw, value)
  }

  lemma ReadSays(text: Option<string>)
    ensures forall key, value :: key in Read(text) && Read(text)[key] == value <==> Says(text, key, value)
  {
    forall key, value ensures key in Read(text) && Read(text)[key] == value <==> Says(text, key, value) {
      if text.Some? {
        LastLineWins(Lines(text.value), key, value);
      }
    }
  }

  /** A value in quotes and spaces, whatever their number, is read bare. */
  lemma ReadsBare(key: string, a: string, q: string, w: string, p: string, b: string)
    requires IsKey(key) && Blank(a) && Blank(b) && Quotes(q) && Quotes(p)
    requires SingleLine(a + q + w + p + b) && NoSpaceAtEnds(q + w + p) && NoQuoteAtEnds(w)
    ensures Read(Some(key + "=" + (a + q + w + p + b))) == map[key := w]
  {
    var raw := a + q + w + p + b;
    StripDressed(a, q, w, p, b);
    ReadsOne(key, raw);
  }

  lemma StripDressed(a: string, q: string, w: string, p: string, b: string)
    requires Blank(a) && Blank(b) && Quotes(q) && Quotes(p) && NoSpaceAtEnds(q + w + p) && NoQuoteAtEnds(w)
    ensures Norm(a + q + w + p + b) == w
  {
    assert a + q + w + p + b == a + (q + w + p) + b;
    StripSpaces(a, q + w + p, b);
    StripQuotes(q, w, p);
  }

  lemma ReadsOne(key: string, raw: string)
    requires IsKey(key) && SingleLine(raw)
    ensures Read(Some(key + "=" + raw)) == map[key := Norm(raw)]
  {
    var line := Assignment(key, raw);
    KeySingleLine(key);
    AssignmentSingleLine(key, raw);
    OneLine(line);
    FieldOfAssignment(key, raw);
    assert [line][..0] == [];
    assert ReadLines([line]) == ReadLines([])[key := Norm(raw)];
  }

  lemma {:induction false} OneLine(s: string)
    requires SingleLine(s) && s != ""
    ensures Lines(s) == [s]
  {
    assert s[0] in s;
    if |s| == 1 {
      assert Lines(s[1..]) == [];
      assert [s[0]] == s;
    } else {
      OneLine(s[1..]);
      assert [s[0]] + s[1..] == s;
    }
  }
}
