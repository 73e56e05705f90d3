/**
 The header of a printed skill (apps/user-web/src/api/compositeSkill.ts, lines 64-73).
 The decoder for editing skips it, so it has a reader of its own here: the keys at the
 margin of the document, the values on their lines, and blocks of indented lines.
*/
module CompositeSkillHeader {
  import opened Common
  import opened Text
  import opened CompositeSkill
  import opened CompositeSkillText
  import opened CompositeSkillRoundTrip

  // ---------------------------------------------------------------- a reader of headers

  /** The lines indented by two that come first, without the two spaces. */
  function Block(lines: seq<string>): seq<string> {
    if lines != [] && StartsWith(lines[0], "  ") then [lines[0][2..]] + Block(lines[1..]) else []
  }

  /** The value of the first line at the margin with this key; `|` stands for the block of lines below. */
  function ValueOf(lines: seq<string>, key: string): string {
    if lines == [] then ""
    else match Field(lines[0], 0)
      case Some((k, rest)) =>
        if k != key then ValueOf(lines[1..], key)
        else if Trim(rest) == "|" then JoinLines(Block(lines[1..]))
        else Unquote(Trim(rest))
      case None => ValueOf(lines[1..], key)
  }

  function MarginKey(line: string): seq<string> {
    match Field(line, 0)
    case Some((k, _)) => [k]
    case None => []
  }

  /** The keys at the margin, in order. */
  function MarginKeys(lines: seq<string>): seq<string> {
    FlatMap(MarginKey, lines)
  }

  /** The key, where its part of the document is to be there. */
  function KeyIf(there: bool, key: string): seq<string> {
    if there then [key] else []
  }

  /** What a text says of name, description, triggers and steps. */
  predicate HeaderReads(text: string, d: Draft, m: Meta) {
    var lines := SplitLines(text);
    && lines[0] == "---" && (m.name != "" ==> |lines| > 1 && MarginKey(lines[1]) == ["name"])
    && (ValueOf(lines, "name") == m.name <==> ScalarOk(m.name))
    && (ValueOf(lines, "description") == m.description <==> '\n' in m.description || ScalarOk(m.description))
    && MarginKeys(lines)
       == KeyIf(m.name != "", "name") + KeyIf(m.description != "", "description")
          + KeyIf(d.triggers != [], "triggers") + ["steps"]
  }

  // ---------------------------------------------------------------- lines that are not at the margin

  /** A line of its own that is indented, or a fence. */
  predicate Inner(l: string) {
    OneLine(l) && (l == "" || l[0] == ' ' || l[0] == '-')
  }

  lemma InnerHasNoKey(l: string)
    requires Inner(l)
    ensures Field(l, 0) == None
  {
    if l != "" {
      assert l[0..] == l && LetterRun(l) == 0;
    }
  }

  predicate AllInner(lines: seq<string>) {
    forall l :: l in lines ==> Inner(l)
  }

  lemma IndentedInner(n: nat, x: string)
    requires n > 0 && OneLine(x)
    ensures Inner(Indent(n) + x)
  {}

  lemma DumpOneLine(value: string)
    requires Printable(value)
    ensures OneLine(DumpScalar(value))
  {
    DumpShape(value);
    PrintableFacts(DumpScalar(value));
  }

  lemma FieldLineInner(n: nat, key: string, value: string)
    requires n > 0 && Printable(key) && OneLine(value)
    ensures Inner(FieldLine(n, key, value))
  {
    PrintableFacts(key);
    FieldLineShape(n, key, value);
    IndentedInner(n, key + ": " + value);
  }

  lemma IndentAllInner(n: nat, text: string)
    requires n > 0
    ensures AllInner(IndentAll(n, SplitLines(text)))
  {
    LineParts(text);
    forall l | l in SplitLines(text) ensures Inner(Indent(n) + l) {
      IndentedInner(n, l);
    }
  }

  lemma InstructionInner(i: string)
    requires Printable2(i)
    ensures AllInner(InstructionLines(i))
  {
    if '\n' in i {
      IndentAllInner(6, i);
      IndentedInner(2, "- instruction: " + "|");
      assert Indent(2) + "- instruction: " + "|" == Indent(2) + ("- instruction: " + "|");
    } else {
      assert Printable(i);
      DumpOneLine(i);
      IndentedInner(2, "- instruction: " + DumpScalar(i));
      assert Indent(2) + "- instruction: " + DumpScalar(i) == Indent(2) + ("- instruction: " + DumpScalar(i));
    }
  }

  lemma OptionalInner(key: string, value: Option<string>)
    requires Printable(key) && OptionalInDomain(value)
    ensures AllInner(OptionalLine(key, value))
  {
    if value.Some? {
      DumpOneLine(value.value);
      FieldLineInner(4, key, DumpScalar(value.value));
    }
  }

  lemma OpInner(e: (string, Locator))
    requires OpInDomain(e)
    ensures AllInner(OpLines(e))
  {
    forall f, l | f in e.1 && l in LocatorFieldLines(f) ensures Inner(l) {
      LocatorKeyIsWord(f.0);
      WordIsPrintable(f.0);
      if f.1.Number? {
        IntTextParses(f.1.value);
        PrintableFacts(IntText(f.1.value));
        FieldLineInner(8, f.0, IntText(f.1.value));
      } else {
        DumpOneLine(f.1.text);
        FieldLineInner(8, f.0, DumpScalar(f.1.text));
      }
    }
    FlatMapAll(LocatorFieldLines, e.1, Inner);
    PrintableFacts(e.0);
    assert OpLine(e.0) == Indent(6) + (e.0 + ":");
    IndentedInner(6, e.0 + ":");
  }

  lemma LocatorsInner(o: Option<LocatorBag>)
    requires o.Some? ==> forall e :: e in o.value ==> OpInDomain(e)
    ensures AllInner(LocatorLines(o))
  {
    if o.Some? {
      forall e, l | e in o.value && l in OpLines(e) ensures Inner(l) { OpInner(e); }
      FlatMapAll(OpLines, o.value, Inner);
      IndentedInner(4, "locators:");
    }
  }

  lemma VarsInner(o: Option<LocatorVars>)
    requires o.Some? ==> forall e :: e in o.value ==> VarInDomain(e)
    ensures AllInner(VarLines(o))
  {
    if o.Some? {
      forall e, l | e in o.value && l in VarLine(e) ensures Inner(l) {
        DumpOneLine(e.1);
        FieldLineInner(6, e.0, DumpScalar(e.1));
      }
      FlatMapAll(VarLine, o.value, Inner);
      IndentedInner(4, "locator_vars:");
    }
  }

  lemma StepInner(s: Step)
    requires StepInDomain(s)
    ensures AllInner(StepLines(s))
  {
    InstructionInner(s.instruction);
    OptionalInner("site_profile_id", s.siteProfileId);
    OptionalInner("kind", s.kind);
    OptionalInner("title", s.title);
    LocatorsInner(s.locators);
    VarsInner(s.locatorVars);
  }

  lemma StepsInner(steps: seq<Step>)
    requires forall s :: s in steps ==> StepInDomain(s)
    ensures AllInner(FlatMap(StepLines, steps))
  {
    forall s, l | s in steps && l in StepLines(s) ensures Inner(l) { StepInner(s); }
    FlatMapAll(StepLines, steps, Inner);
  }

  lemma TriggersInner(triggers: seq<string>)
    requires forall t :: t in triggers ==> Printable(t)
    ensures AllInner(FlatMap(TriggerLine, triggers))
  {
    forall t, l | t in triggers && l in TriggerLine(t) ensures Inner(l) {
      DumpOneLine(t);
      IndentedInner(2, "- " + DumpScalar(t));
      assert Indent(2) + "- " + DumpScalar(t) == Indent(2) + ("- " + DumpScalar(t));
    }
    FlatMapAll(TriggerLine, triggers, Inner);
  }

  // ---------------------------------------------------------------- reading a document in parts

  lemma {:induction false} MarginKeysConcat(a: seq<string>, b: seq<string>)
    ensures MarginKeys(a + b) == MarginKeys(a) + MarginKeys(b)
  {
    if a == [] {
      assert a + b == b;
    } else {
      assert (a + b)[1..] == a[1..] + b;
      MarginKeysConcat(a[1..], b);
    }
  }

  lemma {:induction false} InnerKeys(lines: seq<string>)
    requires AllInner(lines)
    ensures MarginKeys(lines) == []
  {
    if lines != [] {
      assert lines[0] in lines;
      InnerHasNoKey(lines[0]);
      InnerKeys(lines[1..]);
    }
  }

  /** Lines without the key make no difference to its value. */
  lemma {:induction false} ValueSkips(a: seq<string>, b: seq<string>, key: string)
    requires key !in MarginKeys(a)
    ensures ValueOf(a + b, key) == ValueOf(b, key)
  {
    if a == [] {
      assert a + b == b;
    } else {
      assert (a + b)[1..] == a[1..] + b;
      ValueSkips(a[1..], b, key);
    }
  }

  lemma NoValue(lines: seq<string>, key: string)
    requires key !in MarginKeys(lines)
    ensures ValueOf(lines, key) == ""
  {
    ValueSkips(lines, [], key);
    assert lines + [] == lines;
  }

  /** A line at the margin, its key, and its value. */
  lemma MarginLine(key: string, rest: string)
    requires IsWord(key)
    ensures Field(key + ":" + rest, 0) == Some((key, rest)) && MarginKeys([key + ":" + rest]) == [key]
  {
    FieldMatches(0, key, rest);
    assert Indent(0) + key + ":" + rest == key + ":" + rest;
    var line := key + ":" + rest;
    assert [line][1..] == [] && FlatMap(MarginKey, []) == [];
    assert MarginKeys([line]) == MarginKey(line) + [];
  }
  // ---------------------------------------------------------------- the printed header

  lemma NeverBar(value: string)
    ensures DumpScalar(value) != "|"
  {
    if DumpScalar(value) == "|" {
      assert value == "|";
      assert '|' in value && NeedsQuotes('|');
      assert false;
    }
  }

  /** A scalar on the line of its key. */
  lemma ScalarLine(key: string, value: string, rest: seq<string>)
    requires IsWord(key) && Printable(value)
    ensures var line := key + ":" + (" " + DumpScalar(value));
      && OneLine(line) && MarginKeys([line]) == [key]
      && ValueOf([line] + rest, key) == ScalarReload(value)
      && (ValueOf([line] + rest, key) == value <==> ScalarOk(value))
  {
    var line := key + ":" + (" " + DumpScalar(value));
    MarginLine(key, " " + DumpScalar(value));
    DumpShape(value);
    DumpOneLine(value);
    WordIsPrintable(key);
    PrintableFacts(key);
    SkipOne(DumpScalar(value));
    NeverBar(value);
    ScalarRoundTrip(value);
    assert ([line] + rest)[0] == line;
  }

  lemma {:induction false} BlockOf(parts: seq<string>, rest: seq<string>)
    requires rest == [] || !StartsWith(rest[0], "  ")
    ensures Block(IndentAll(2, parts) + rest) == parts
    decreases |parts|
  {
    if parts == [] {
      assert IndentAll(2, parts) + rest == rest;
    } else {
      var lines := IndentAll(2, parts) + rest;
      assert lines[0] == Indent(2) + parts[0] && Indent(2) == "  " && lines[0][2..] == parts[0];
      assert lines[1..] == IndentAll(2, parts[1..]) + rest;
      BlockOf(parts[1..], rest);
    }
  }

  /** Lines, and the keys at their margin. */
  predicate Part(lines: seq<string>, keys: seq<string>) {
    (forall l :: l in lines ==> OneLine(l)) && MarginKeys(lines) == keys
  }

  lemma PartConcat(a: seq<string>, ka: seq<string>, b: seq<string>, kb: seq<string>)
    requires Part(a, ka) && Part(b, kb)
    ensures Part(a + b, ka + kb)
  {
    MarginKeysConcat(a, b);
  }

  lemma InnerPart(lines: seq<string>)
    requires AllInner(lines)
    ensures Part(lines, [])
  {
    InnerKeys(lines);
  }

  /** A line that has only its key. */
  lemma HeadingPart(key: string)
    requires IsWord(key)
    ensures Part([key + ":"], [key])
  {
    assert key + ":" == key + ":" + "";
    MarginLine(key, "");
    WordIsPrintable(key);
    PrintableFacts(key);
  }

  lemma KeyLine(key: string, head: string, dumped: string)
    requires head == key + ":" + " "
    ensures head + dumped == key + ":" + (" " + dumped)
  {}

  lemma NameLine(m: Meta)
    requires m.name != ""
    ensures NameLines(m) == ["name" + ":" + (" " + DumpScalar(m.name))]
  {
    KeyLine("name", "name: ", DumpScalar(m.name));
  }

  lemma NamePart(m: Meta, rest: seq<string>)
    requires Printable(m.name)
    ensures Part(NameLines(m), KeyIf(m.name != "", "name"))
    ensures m.name != "" ==> (ValueOf(NameLines(m) + rest, "name") == m.name <==> ScalarOk(m.name))
  {
    if m.name != "" {
      assert IsWord("name");
      NameLine(m);
      ScalarLine("name", m.name, rest);
    }
  }

  lemma ShortLines(m: Meta)
    requires Printable(m.description) && m.description != ""
    ensures DescriptionLines(m) == ["description" + ":" + (" " + DumpScalar(m.description))]
  {
    PrintableFacts(m.description);
    KeyLine("description", "description: ", DumpScalar(m.description));
  }

  lemma ShortDescription(m: Meta, rest: seq<string>)
    requires Printable(m.description) && m.description != ""
    ensures Part(DescriptionLines(m), ["description"])
    ensures ValueOf(DescriptionLines(m) + rest, "description") == m.description <==> ScalarOk(m.description)
  {
    assert IsWord("description");
    ShortLines(m);
    ScalarLine("description", m.description, rest);
  }

  lemma TrimBar()
    ensures Trim(" |") == "|"
  {
    TrimTrimmed("|");
    SkipOne("|");
    assert " " + "|" == " |";
  }

  /** The value of a key at the margin of the first line. */
  lemma ValueHere(line: string, rest: seq<string>, key: string, value: string)
    requires Field(line, 0) == Some((key, value))
    ensures ValueOf([line] + rest, key)
         == if Trim(value) == "|" then JoinLines(Block(rest)) else Unquote(Trim(value))
  {
    assert ([line] + rest)[0] == line && ([line] + rest)[1..] == rest;
  }

  lemma BarText()
    ensures "description: |" == "description" + ":" + " |"
  {}

  lemma BlockLine(key: string, rest: seq<string>)
    requires IsWord(key)
    ensures var line := key + ":" + " |";
      Part([line], [key]) && ValueOf([line] + rest, key) == JoinLines(Block(rest))
  {
    MarginLine(key, " |");
    WordIsPrintable(key);
    PrintableFacts(key);
    TrimBar();
    ValueHere(key + ":" + " |", rest, key, " |");
  }

  lemma BarLine(rest: seq<string>)
    ensures Part(["description: |"], ["description"])
    ensures ValueOf(["description: |"] + rest, "description") == JoinLines(Block(rest))
  {
    assert IsWord("description");
    BarText();
    BlockLine("description", rest);
  }

  lemma Assoc3<A>(a: seq<A>, b: seq<A>, c: seq<A>)
    ensures (a + b) + c == a + (b + c)
  {}

  lemma Assoc4<A>(a: seq<A>, b: seq<A>, c: seq<A>, d: seq<A>)
    ensures a + (b + (c + d)) == a + b + c + d
  {}

  lemma BlockLines(parts: seq<string>, rest: seq<string>)
    requires AllInner(IndentAll(2, parts)) && (rest == [] || !StartsWith(rest[0], "  "))
    ensures var lines := ["description: |"] + IndentAll(2, parts);
      && Part(lines, ["description"]) && ValueOf(lines + rest, "description") == JoinLines(parts)
  {
    var head, block := ["description: |"], IndentAll(2, parts);
    InnerPart(block);
    BarLine(block + rest);
    PartConcat(head, ["description"], block, []);
    Assoc3(["description"], [], []);
    BlockOf(parts, rest);
    Assoc3(head, block, rest);
  }

  lemma LongDescription(m: Meta, rest: seq<string>)
    requires '\n' in m.description && (rest == [] || !StartsWith(rest[0], "  "))
    ensures Part(DescriptionLines(m), ["description"])
    ensures ValueOf(DescriptionLines(m) + rest, "description") == m.description
  {
    IndentAllInner(2, m.description);
    BlockLines(SplitLines(m.description), rest);
    JoinSplit(m.description, '\n');
  }

  /** The description on its line, or below it. */
  lemma DescriptionPart(m: Meta, rest: seq<string>)
    requires Printable2(m.description) && (rest == [] || !StartsWith(rest[0], "  "))
    ensures Part(DescriptionLines(m), KeyIf(m.description != "", "description"))
    ensures m.description != "" ==>
      (ValueOf(DescriptionLines(m) + rest, "description") == m.description
       <==> '\n' in m.description || ScalarOk(m.description))
  {
    if '\n' in m.description {
      LongDescription(m, rest);
    } else if m.description != "" {
      ShortDescription(m, rest);
    }
  }

  /** What follows the header. */
  function BodyPart(d: Draft): seq<string> {
    TriggerLines(d.triggers) + (["steps:"] + (FlatMap(StepLines, d.steps) + ["---", ""]))
  }

  lemma TriggersPart(triggers: seq<string>)
    requires forall t :: t in triggers ==> Printable(t)
    ensures Part(TriggerLines(triggers), KeyIf(triggers != [], "triggers"))
  {
    if triggers != [] {
      var lines := FlatMap(TriggerLine, triggers);
      TriggersInner(triggers);
      InnerPart(lines);
      assert IsWord("triggers") && "triggers" + ":" == "triggers:";
      HeadingPart("triggers");
      PartConcat(["triggers:"], ["triggers"], lines, []);
      assert ["triggers"] + [] == ["triggers"];
    }
  }

  lemma StepsPart(d: Draft)
    requires DraftInDomain(d)
    ensures Part(["steps:"] + (FlatMap(StepLines, d.steps) + ["---", ""]), ["steps"])
  {
    var tail := FlatMap(StepLines, d.steps) + ["---", ""];
    StepsInner(d.steps);
    InnerPart(tail);
    assert IsWord("steps") && "steps" + ":" == "steps:";
    HeadingPart("steps");
    PartConcat(["steps:"], ["steps"], tail, []);
    assert ["steps"] + [] == ["steps"];
  }

  lemma BodyKeys(d: Draft)
    requires DraftInDomain(d)
    ensures Part(BodyPart(d), KeyIf(d.triggers != [], "triggers") + ["steps"])
    ensures BodyPart(d) != [] && !StartsWith(BodyPart(d)[0], "  ")
  {
    TriggersPart(d.triggers);
    StepsPart(d);
    PartConcat(TriggerLines(d.triggers), KeyIf(d.triggers != [], "triggers"),
               ["steps:"] + (FlatMap(StepLines, d.steps) + ["---", ""]), ["steps"]);
    assert BodyPart(d)[0] == if d.triggers != [] then "triggers:" else "steps:";
  }

  lemma Nested(n: seq<string>, e: seq<string>, t: seq<string>, s: seq<string>)
    ensures ["---"] + (n + e + t + ["steps:"] + s) + ["---"] + [""]
         == ["---"] + (n + (e + (t + (["steps:"] + (s + ["---", ""])))))
  {}

  /** The lines of the whole document. */
  lemma DocumentLines(d: Draft, m: Meta)
    requires forall l :: l in ["---"] + (NameLines(m) + (DescriptionLines(m) + BodyPart(d))) ==> OneLine(l)
    ensures SplitLines(Encoded(d, m)) == ["---"] + (NameLines(m) + (DescriptionLines(m) + BodyPart(d)))
  {
    var lines := ["---"] + (NameLines(m) + (DescriptionLines(m) + BodyPart(d)));
    SplitJoin(lines, '\n');
    var printed := ["---"] + MiddleLines(d, m) + ["---"];
    JoinSnoc(printed, "", '\n');
    Nested(NameLines(m), DescriptionLines(m), TriggerLines(d.triggers), FlatMap(StepLines, d.steps));
    assert JoinLines(printed) + ['\n'] + "" == JoinLines(printed) + "\n";
  }

  /** The two values of a header, read over the lines that do not have their keys. */
  lemma HeaderValues(
      n: seq<string>, kn: seq<string>, e: seq<string>, ke: seq<string>, body: seq<string>, kb: seq<string>)
    requires Part(n, kn) && Part(e, ke) && Part(body, kb)
    requires "name" !in ke && "name" !in kb && "description" !in kn && "description" !in kb
    ensures var lines := ["---"] + (n + (e + body));
      && Part(lines, kn + (ke + kb))
      && ValueOf(lines, "name") == (if "name" in kn then ValueOf(n + (e + body), "name") else "")
      && ValueOf(lines, "description") == (if "description" in ke then ValueOf(e + body, "description") else "")
  {
    InnerPart(["---"]);
    PartConcat(e, ke, body, kb);
    PartConcat(n, kn, e + body, ke + kb);
    PartConcat(["---"], [], n + (e + body), kn + (ke + kb));
    assert [] + (kn + (ke + kb)) == kn + (ke + kb);
    ValueSkips(["---"], n + (e + body), "name");
    ValueSkips(["---"], n + (e + body), "description");
    ValueSkips(n, e + body, "description");
    if "name" !in kn {
      NoValue(n + (e + body), "name");
    }
    if "description" !in ke {
      NoValue(e + body, "description");
    }
  }

  /** The same of the lines of the document. */
  lemma HeaderOf(d: Draft, m: Meta)
    requires DraftInDomain(d) && MetaInDomain(m)
    ensures var lines := ["---"] + (NameLines(m) + (DescriptionLines(m) + BodyPart(d)));
      && Part(lines, KeyIf(m.name != "", "name") + KeyIf(m.description != "", "description")
                     + KeyIf(d.triggers != [], "triggers") + ["steps"])
      && (ValueOf(lines, "name") == m.name <==> ScalarOk(m.name))
      && (ValueOf(lines, "description") == m.description <==> '\n' in m.description || ScalarOk(m.description))
  {
    var body := BodyPart(d);
    var kn, ke := KeyIf(m.name != "", "name"), KeyIf(m.description != "", "description");
    var kt := KeyIf(d.triggers != [], "triggers");
    BodyKeys(d);
    NamePart(m, DescriptionLines(m) + body);
    DescriptionPart(m, body);
    OtherKeys(m.name != "", m.description != "", d.triggers != []);
    HeaderValues(NameLines(m), kn, DescriptionLines(m), ke, body, kt + ["steps"]);
    Assoc4(kn, ke, kt, ["steps"]);
  }

  lemma OtherKeys(named: bool, described: bool, triggered: bool)
    ensures "name" in KeyIf(named, "name") <==> named
    ensures "description" in KeyIf(described, "description") <==> described
    ensures "name" !in KeyIf(described, "description") && "name" !in KeyIf(triggered, "triggers") + ["steps"]
    ensures "description" !in KeyIf(named, "name") && "description" !in KeyIf(triggered, "triggers") + ["steps"]
  {
    assert "name"[0] == 'n' && "description"[0] == 'd' && "triggers"[0] == 't' && "steps"[0] == 's';
  }

  /**
   What is read at the margin of a printed skill: the name and the description, each
   exactly when it survives printing, and no other keys than those that are there.
  */
  lemma HeaderRoundTrip(d: Draft, m: Meta)
    requires DraftInDomain(d) && MetaInDomain(m)
    ensures HeaderReads(Encoded(d, m), d, m)
  {
    HeaderOf(d, m);
    DocumentLines(d, m);
    if m.name != "" {
      SecondLine(m, DescriptionLines(m) + BodyPart(d));
    }
  }

  lemma SecondLine(m: Meta, rest: seq<string>)
    requires Printable(m.name) && m.name != ""
    ensures NameLines(m) != [] && (["---"] + (NameLines(m) + rest))[1] == NameLines(m)[0]
    ensures MarginKey(NameLines(m)[0]) == ["name"]
  {
    NamePart(m, []);
    var line := NameLines(m)[0];
    assert NameLines(m) == [line] && [line][1..] == [];
    assert MarginKeys([line]) == MarginKey(line) + MarginKeys([]);
  }
}
