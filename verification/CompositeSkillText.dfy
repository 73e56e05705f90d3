/** Facts about the text layer of the composite-skill codec: trimming, quoting, decimals, line splitting, fences. */
module CompositeSkillText {
  import opened Common
  import opened Text
  import opened CompositeSkill

  predicate Printable(s: string) {
    forall c :: c in s ==> IsPrintable(c)
  }

  /** A string whose two ends, if it has any, are not white space. */
  predicate Trimmed(s: string) {
    s != "" ==> !IsSpace(s[0]) && !IsSpace(s[|s| - 1])
  }

  // ---------------------------------------------------------------- trimming and quoting

  lemma TrimTrimmed(s: string)
    requires Trimmed(s)
    ensures SkipSpaces(s) == s && TrimRight(s) == s && Trim(s) == s
  {}

  lemma SkipSpacesTrimmed(s: string)
    ensures SkipSpaces(s) == "" || !IsSpace(SkipSpaces(s)[0])
    ensures |SkipSpaces(s)| <= |s|
    ensures forall c :: c in SkipSpaces(s) ==> c in s
  {}

  lemma {:induction false} TrimRightShape(s: string)
    ensures TrimRight(s) <= s
    ensures TrimRight(s) == "" || !IsSpace(TrimRight(s)[|TrimRight(s)| - 1])
  {
    if s != "" && IsSpace(s[|s| - 1]) {
      TrimRightShape(s[..|s| - 1]);
    }
  }

  lemma TrimShape(s: string)
    ensures Trim(s) == s ==> Trimmed(s)
  {
    SkipSpacesTrimmed(s);
    TrimRightShape(SkipSpaces(s));
    if Trim(s) == s {
      assert |SkipSpaces(s)| <= |s| && TrimRight(SkipSpaces(s)) <= SkipSpaces(s);
      assert SkipSpaces(s) == s;
    }
  }

  lemma SkipOne(s: string)
    requires Trimmed(s)
    ensures SkipSpaces(" " + s) == s
  {
    assert (" " + s)[0] == ' ' && (" " + s)[1..] == s;
    TrimTrimmed(s);
  }

  lemma PrintableFacts(s: string)
    requires Printable(s)
    ensures NoTerminator(s) && OneLine(s)
    ensures forall c :: c in s ==> (IsSpace(c) <==> c == ' ')
  {}

  /** Trimming a text the trimmer leaves something of is never confused with a blank. */
  lemma {:induction false} BlankTrim(s: string)
    ensures Trim(s) == "" <==> AllSpaces(s)
  {
    if s == "" {
    } else if IsSpace(s[0]) {
      BlankTrim(s[1..]);
      assert s == [s[0]] + s[1..];
    } else {
      TrimRightKeeps(s);
      assert s[0] in s;
    }
  }

  lemma {:induction false} TrimRightKeeps(s: string)
    requires s != "" && !IsSpace(s[0])
    ensures TrimRight(s) != ""
  {
    if IsSpace(s[|s| - 1]) {
      TrimRightKeeps(s[..|s| - 1]);
    }
  }

  lemma {:induction false} EscapeGrows(s: string)
    ensures |Escape(s)| >= |s|
    ensures Escape(s) == s <==> '"' !in s && '\\' !in s
    ensures '"' in s || '\\' in s ==> |Escape(s)| > |s|
    ensures Printable(s) ==> Printable(Escape(s))
  {
    if s != "" {
      EscapeGrows(s[1..]);
      assert s == [s[0]] + s[1..];
      if s[0] != '\\' && s[0] != '"' {
        assert Escape(s) == [s[0]] + Escape(s[1..]);
      }
    }
  }

  lemma UnquoteQuoted(s: string)
    ensures Unquote("\"" + s + "\"") == s
  {
    assert ("\"" + s + "\"")[1..] == s + "\"";
    assert (s + "\"")[..|s|] == s;
  }

  lemma UnquotePlain(s: string)
    requires '"' !in s
    ensures Unquote(s) == s
  {}

  /** The printed scalar reads back as itself, unquoted: what `\s*(.*)$`, trimming and unquoting do to it. */
  lemma DumpShape(value: string)
    requires Printable(value)
    ensures DumpScalar(value) != "" && Trimmed(DumpScalar(value)) && Printable(DumpScalar(value))
    ensures Trim(DumpScalar(value)) == DumpScalar(value)
    ensures ScalarReload(value) == if IsSafeInline(value) then value else Escape(value)
  {
    EscapeGrows(value);
    if value == "" {
      TrimTrimmed("\"\"");
      UnquoteQuoted("");
      assert "\"" + "" + "\"" == "\"\"";
    } else if IsSafeInline(value) {
      TrimShape(value);
      UnquotePlain(value);
    } else {
      TrimTrimmed("\"" + Escape(value) + "\"");
      UnquoteQuoted(Escape(value));
    }
  }

  /** Exactly which printable scalars survive printing and reading. */
  lemma ScalarRoundTrip(value: string)
    requires Printable(value)
    ensures ScalarReload(value) == value <==> ScalarOk(value)
  {
    DumpShape(value);
    EscapeGrows(value);
  }

  lemma ScalarReloadEmpty(value: string)
    requires Printable(value)
    ensures ScalarReload(value) == "" <==> value == ""
  {
    DumpShape(value);
    EscapeGrows(value);
  }

  // ---------------------------------------------------------------- decimals

  lemma {:induction false} NatTextParses(n: nat)
    ensures ParseNat(NatText(n)) == Some(n)
    ensures forall c :: c in NatText(n) ==> IsDigit(c)
  {
    if n < 10 {
      assert DigitValue(DigitChar(n)) == n;
    } else {
      NatTextParses(n / 10);
      var s := NatText(n / 10);
      assert NatText(n) == s + [DigitChar(n % 10)];
      assert (s + [DigitChar(n % 10)])[..|s|] == s;
      assert DigitValue(DigitChar(n % 10)) == n % 10;
    }
  }

  lemma IntTextParses(n: int)
    ensures ParseInt(IntText(n)) == Some(n)
    ensures IntText(n) != "" && Trimmed(IntText(n)) && Printable(IntText(n)) && '"' !in IntText(n)
  {
    var s := IntText(n);
    var digits := NatText(if n < 0 then -n else n);
    NatTextParses(if n < 0 then -n else n);
    assert forall c :: c in digits ==> IsDigit(c) && IsPrintable(c) && !IsSpace(c) && c != '"';
    assert s == if n < 0 then "-" + digits else digits;
    assert s[0] in s && s[|s| - 1] in s;
    if n < 0 {
      assert s[0] == '-' && s[1..] == digits;
    } else {
      assert digits[0] in digits;
    }
    assert forall c :: c in s ==> IsPrintable(c) && !IsSpace(c) && c != '"';
  }

  // ---------------------------------------------------------------- lines

  lemma LineParts(s: string)
    ensures forall l :: l in SplitLines(s) ==> OneLine(l)
    ensures Printable2(s) ==> forall l :: l in SplitLines(s) ==> Printable(l)
    ensures |SplitLines(s)| >= 2 <==> '\n' in s
  {
    Text.SplitParts(s, '\n');
  }

  /** Printable characters and line feeds. */
  predicate Printable2(s: string) {
    forall c :: c in s ==> IsPrintable(c) || c == '\n'
  }

  lemma BodyLinesJoin(lines: seq<string>)
    requires lines != []
    requires forall l :: l in lines ==> OneLine(l) && '\r' !in l
    ensures BodyLines(JoinLines(lines)) == lines
  {
    SplitJoin(lines, '\n');
    forall i | 0 <= i < |lines| ensures DropCarriageReturn(lines[i]) == lines[i] {
      assert lines[i] in lines;
    }
  }

  /** The lines with a carriage return before each line feed. */
  function JoinCrLf(lines: seq<string>): string {
    if lines == [] then ""
    else if |lines| == 1 then lines[0]
    else lines[0] + "\r" + ['\n'] + JoinCrLf(lines[1..])
  }

  lemma {:induction false} SplitCrLf(lines: seq<string>)
    requires lines != [] && forall l :: l in lines ==> OneLine(l) && '\r' !in l
    ensures var pieces := SplitLines(JoinCrLf(lines));
      && |pieces| == |lines| && pieces[|pieces| - 1] == lines[|lines| - 1]
      && forall i :: 0 <= i < |lines| - 1 ==> pieces[i] == lines[i] + "\r"
  {
    if |lines| == 1 {
      SplitWhole(lines[0], '\n');
    } else {
      SplitCrLf(lines[1..]);
      assert lines[0] in lines;
      SplitAtSeparator(JoinCrLf(lines), lines[0] + "\r", JoinCrLf(lines[1..]), '\n');
    }
  }

  /** Carriage returns at the ends of lines make no difference to what the lines of a document are. */
  lemma LineEndings(lines: seq<string>)
    requires lines != [] && forall l :: l in lines ==> OneLine(l) && '\r' !in l
    ensures BodyLines(JoinCrLf(lines)) == BodyLines(JoinLines(lines)) == lines
  {
    SplitCrLf(lines);
    BodyLinesJoin(lines);
    forall i | 0 <= i < |lines| - 1 ensures DropCarriageReturn(lines[i] + "\r") == lines[i] {}
  }

  // ---------------------------------------------------------------- fences

  lemma {:induction false} BeforeFenceSkips(a: string, rest: string)
    requires OneLine(a) && BeforeFence(rest).Some?
    ensures BeforeFence(a + rest) == Some(a + BeforeFence(rest).value)
  {
    if a == "" {
      assert a + rest == rest;
      assert a + BeforeFence(rest).value == BeforeFence(rest).value;
    } else {
      assert (a + rest)[1..] == a[1..] + rest;
      BeforeFenceSkips(a[1..], rest);
      assert (a + rest)[0] == a[0] && a[0] in a && "\n---"[0] == '\n';
      assert BeforeFence(a + rest) == Some([a[0]] + (a[1..] + BeforeFence(rest).value));
      assert [a[0]] + (a[1..] + BeforeFence(rest).value) == a + BeforeFence(rest).value;
    }
  }

  lemma PrefixTail(c: char, s: string, p: string)
    ensures StartsWith([c] + s, [c] + p) <==> StartsWith(s, p)
  {
    if StartsWith([c] + s, [c] + p) {
      assert s[..|p|] == ([c] + s)[1..1 + |p|] == p;
    }
  }

  /** The closing fence is found at the end when no line but the first starts with `---`. */
  lemma {:induction false} BeforeFenceFinds(text: string, lines: seq<string>)
    requires lines != [] && text == JoinLines(lines) + "\n---\n"
    requires forall l :: l in lines ==> OneLine(l)
    requires forall i :: 1 <= i < |lines| ==> !StartsWith(lines[i], "---")
    ensures BeforeFence(text) == Some(JoinLines(lines))
    decreases |lines|
  {
    var close := "\n---\n";
    if |lines| == 1 {
      LastLine(lines[0]);
    } else {
      var tail := lines[1..];
      var j := JoinLines(tail);
      BeforeFenceFinds(j + close, tail);
      LineHead(tail);
      var rest := ['\n'] + (j + close);
      LineFeedThen(j + close);
      BeforeFenceSkips(lines[0], rest);
      Regroup(lines[0], j, close);
    }
  }

  lemma Regroup(a: string, b: string, c: string)
    ensures a + "\n" + b + c == a + (['\n'] + (b + c))
    ensures a + "\n" + b == a + (['\n'] + b)
  {}

  lemma LastLine(line: string)
    requires OneLine(line)
    ensures BeforeFence(line + "\n---\n") == Some(line)
  {
    var close := "\n---\n";
    assert close[..4] == "\n---";
    BeforeFenceSkips(line, close);
    assert line + "" == line;
  }

  lemma LineFeedThen(s: string)
    requires !StartsWith(s, "---") && BeforeFence(s).Some?
    ensures BeforeFence(['\n'] + s) == Some(['\n'] + BeforeFence(s).value)
  {
    PrefixTail('\n', s, "---");
    assert ['\n'] + "---" == "\n---";
    assert (['\n'] + s)[1..] == s;
  }

  lemma LineHead(lines: seq<string>)
    requires lines != [] && OneLine(lines[0]) && !StartsWith(lines[0], "---")
    ensures !StartsWith(JoinLines(lines) + "\n---\n", "---")
  {
    var text := JoinLines(lines) + "\n---\n";
    var a := lines[0];
    assert |a| < |text| && text[|a|] == '\n';
    if |a| >= 3 {
      assert text[..3] == a[..3];
    }
  }

  /** Lines between two fences are recovered, given that none of them opens a fence and the first is not blank. */
  lemma FrontMatterOf(lines: seq<string>)
    requires lines != [] && lines[0] != "" && !IsSpace(lines[0][0])
    requires forall l :: l in lines ==> OneLine(l) && !StartsWith(l, "---")
    ensures FrontMatter(JoinLines(["---"] + lines + ["---"]) + "\n", 0) == Some(JoinLines(lines))
  {
    var j := JoinLines(lines);
    var text := "---\n" + (j + "\n---\n");
    assert JoinLines(["---"] + lines + ["---"]) + "\n" == text by {
      assert ["---"] + lines + ["---"] == ["---"] + (lines + ["---"]);
      JoinCons("---", lines + ["---"], '\n');
      JoinSnoc(lines, "---", '\n');
      assert "---" + "\n" + (j + "\n" + "---") + "\n" == text;
    }
    BeforeFenceFinds(j + "\n---\n", lines);
    assert text[4..] == j + "\n---\n";
    assert lines[0] <= j + "\n---\n";
    assert text[3] == '\n' && text[4] == lines[0][0];
    assert SpaceRun(text[3..]) == 1 by {
      assert text[3..][1..] == text[4..];
    }
    assert text[..3] == "---";
    assert FencedFrom(text, 4) == Some(j);
    assert Fenced(text) == Some(j);
    assert text[0..] == text;
  }

  // ---------------------------------------------------------------- one-line patterns

  lemma {:induction false} LetterRunOf(word: string, rest: string)
    requires forall c :: c in word ==> IsLetter(c)
    requires rest == "" || !IsLetter(rest[0])
    ensures LetterRun(word + rest) == |word|
  {
    if word == "" {
      assert word + rest == rest;
    } else {
      assert (word + rest)[0] == word[0] && word[0] in word;
      assert (word + rest)[1..] == word[1..] + rest;
      LetterRunOf(word[1..], rest);
    }
  }

  lemma FieldMatches(indent: nat, key: string, rest: string)
    requires IsWord(key)
    ensures Field(Indent(indent) + key + ":" + rest, indent) == Some((key, rest))
  {
    var line := Indent(indent) + key + ":" + rest;
    assert line[..indent] == Indent(indent);
    assert line[indent..] == key + (":" + rest);
    LetterRunOf(key, ":" + rest);
    assert line[indent..indent + |key|] == key;
    assert line[indent + |key| + 1..] == rest;
  }

  lemma FieldMisses(indent: nat, x: string, m: nat)
    requires m < indent
    ensures Field(Indent(indent) + x, m) == None && FieldValueOf(Indent(indent) + x, m) == None
  {
    assert (Indent(indent) + x)[m..][0] == ' ';
  }

  /** A field line gives back its key and the unquoted value. */
  lemma FieldValueMatches(indent: nat, key: string, dumped: string)
    requires IsWord(key) && Trimmed(dumped) && Printable(dumped)
    ensures FieldValueOf(FieldLine(indent, key, dumped), indent) == Some((key, Unquote(Trim(dumped))))
  {
    assert FieldLine(indent, key, dumped) == Indent(indent) + key + ":" + (" " + dumped);
    FieldMatches(indent, key, " " + dumped);
    SkipOne(dumped);
    PrintableFacts(dumped);
  }

  lemma NewItemMisses(indent: nat, x: string)
    requires indent >= 3
    ensures NewItem(Indent(indent) + x) == None
  {
    assert (Indent(indent) + x)[2] == ' ';
  }

  lemma NewItemLine(s: string)
    ensures var line := Indent(2) + ("- " + s); line[..2] == Indent(2) && line[2] == '-' && line[3..] == " " + s
  {}

  /** The text after the dash of a step's first line. */
  lemma InstructionPart(dumped: string)
    ensures var s := "instruction:" + (" " + dumped);
      SkipSpaces(" " + s) == s && StartsWith(s, "instruction:") && s[12..] == " " + dumped
  {
    var s := "instruction:" + (" " + dumped);
    assert s[0] == 'i' && s[..12] == "instruction:";
    assert (" " + s)[1..] == s;
  }

  lemma NewItemMatches(dumped: string)
    requires Trimmed(dumped) && Printable(dumped)
    ensures NewItem(Indent(2) + "- instruction: " + dumped) == Some(Unquote(Trim(dumped)))
  {
    var s := "instruction:" + (" " + dumped);
    assert Indent(2) + "- instruction: " + dumped == Indent(2) + ("- " + s);
    NewItemLine(s);
    InstructionPart(dumped);
    SkipOne(dumped);
    PrintableFacts(dumped);
  }

  lemma TriggerItemMatches(dumped: string)
    requires Trimmed(dumped) && Printable(dumped)
    ensures TriggerItem(Indent(2) + "- " + dumped) == Some(Unquote(Trim(dumped)))
  {
    var line := Indent(2) + "- " + dumped;
    var s := "- " + dumped;
    assert line[0] == ' ' && line[1] == ' ' && line[1..][1..] == s;
    assert s[0] == '-';
    assert SkipSpaces(s) == s;
    assert SkipSpaces(line[1..]) == s;
    assert s[1..] == " " + dumped;
    SkipOne(dumped);
    PrintableFacts(dumped);
  }
}
