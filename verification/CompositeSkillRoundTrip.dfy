/**
 What the decoder returns for an encoded draft, and exactly which drafts come
 back unchanged.
*/
module CompositeSkillRoundTrip {
  import opened Common
  import opened CompositeSkill
  import opened Text
  import opened CompositeSkillText

  // ---------------------------------------------------------------- the drafts considered

  predicate DistinctKeys<V>(bag: seq<(string, V)>) {
    forall i, j :: 0 <= i < j < |bag| ==> bag[i].0 != bag[j].0
  }

  /** The properties of the Locator type. */
  predicate IsLocatorKey(k: string) {
    || k == "role" || k == "name" || k == "name_contains" || k == "aria_label" || k == "icon_class"
    || k == "text" || k == "ancestor_role" || k == "ancestor_contains_text" || k == "nth"
  }

  predicate FieldInDomain(f: (string, FieldValue)) {
    && IsLocatorKey(f.0)
    && (f.1.Text? ==> Printable(f.1.text) && f.0 != "nth")
    && (f.1.Number? ==> f.0 == "nth")
  }

  predicate OpInDomain(e: (string, Locator)) {
    && Printable(e.0) && e.0 != "__proto__"
    && DistinctKeys(e.1) && forall f :: f in e.1 ==> FieldInDomain(f)
  }

  predicate VarInDomain(e: (string, string)) {
    Printable(e.0) && e.0 != "__proto__" && Printable(e.1)
  }

  predicate OptionalInDomain(o: Option<string>) {
    o.Some? ==> Printable(o.value)
  }

  predicate StepInDomain(s: Step) {
    && Printable2(s.instruction)
    && OptionalInDomain(s.siteProfileId) && OptionalInDomain(s.kind) && OptionalInDomain(s.title)
    && (s.locators.Some? ==> DistinctKeys(s.locators.value) && forall e :: e in s.locators.value ==> OpInDomain(e))
    && (s.locatorVars.Some? ==> DistinctKeys(s.locatorVars.value) && forall e :: e in s.locatorVars.value ==>
          VarInDomain(e))
  }

  /** Typed drafts of printable ASCII; only instructions may have several lines. */
  predicate DraftInDomain(d: Draft) {
    (forall t :: t in d.triggers ==> Printable(t)) && forall s :: s in d.steps ==> StepInDomain(s)
  }

  predicate MetaInDomain(m: Meta) {
    Printable(m.name) && Printable2(m.description)
  }

  // ---------------------------------------------------------------- the drafts that survive

  predicate OptionalStorable(o: Option<string>) {
    o.Some? ==> o.value != "" && ScalarOk(o.value)
  }

  predicate FieldStorable(f: (string, FieldValue)) {
    f.1.Number? || (f.1.Text? && f.1.text != "" && ScalarOk(f.1.text))
  }

  predicate OpStorable(e: (string, Locator)) {
    IsWord(e.0) && e.1 != [] && forall f :: f in e.1 ==> FieldStorable(f)
  }

  predicate VarStorable(e: (string, string)) {
    IsWord(e.0) && ScalarOk(e.1)
  }

  predicate InstructionStorable(i: string) {
    && !AllSpaces(i)
    && if '\n' in i then SplitLines(i)[0] != "" else ScalarOk(i) && i != "|"
  }

  predicate StepStorable(s: Step) {
    && InstructionStorable(s.instruction)
    && OptionalStorable(s.siteProfileId) && OptionalStorable(s.kind) && OptionalStorable(s.title)
    && (s.locators.Some? ==> s.locators.value != [] && forall e :: e in s.locators.value ==> OpStorable(e))
    && (s.locatorVars.Some? ==> s.locatorVars.value != [] && forall e :: e in s.locatorVars.value ==> VarStorable(e))
  }

  /**
   The drafts that can be stored: no empty trigger, field or object, no
   quotation mark in a single-line value, no backslash in one that has to be
   quoted, word-like keys, and instructions that are neither blank nor `|` and
   do not begin with an empty line.
  */
  predicate Storable(d: Draft) {
    && (forall t :: t in d.triggers ==> t != "" && ScalarOk(t))
    && forall s :: s in d.steps ==> StepStorable(s)
  }

  /** Every object key in the step is word-like. */
  predicate WordKeys(s: Step) {
    && (s.locators.Some? ==> forall e :: e in s.locators.value ==> IsWord(e.0))
    && (s.locatorVars.Some? ==> forall e :: e in s.locatorVars.value ==> IsWord(e.0))
  }

  // ---------------------------------------------------------------- what comes back

  function ReloadTrigger(t: string): seq<string> {
    if ScalarReload(t) == "" then [] else [ScalarReload(t)]
  }

  function ReloadOptional(o: Option<string>): Option<string> {
    if o.Some? && o.value != "" then Some(ScalarReload(o.value)) else None
  }

  function ReloadField(f: (string, FieldValue)): Locator {
    match f.1
    case Absent => []
    case Number(_) => [f]
    case Text(t) => if t == "" then [] else [(f.0, Text(ScalarReload(t)))]
  }

  function ReloadOp(e: (string, Locator)): LocatorBag {
    if e.1 == [] then [] else [(e.0, FlatMap(ReloadField, e.1))]
  }

  function ReloadLocators(o: Option<LocatorBag>): Option<LocatorBag> {
    if o.Some? && o.value != [] then Some(FlatMap(ReloadOp, o.value)) else None
  }

  function ReloadVar(e: (string, string)): LocatorVars {
    [(e.0, ScalarReload(e.1))]
  }

  function ReloadVars(o: Option<LocatorVars>): Option<LocatorVars> {
    if o.Some? && o.value != [] then Some(FlatMap(ReloadVar, o.value)) else None
  }

  function Accumulate(acc: string, lines: seq<string>): string
    decreases |lines|
  {
    if lines == [] then acc else Accumulate(AppendInstruction(acc, lines[0]), lines[1..])
  }

  function ReloadInstruction(i: string): string {
    if '\n' in i then Accumulate("", SplitLines(i))
    else if ScalarReload(i) == "|" then ""
    else ScalarReload(i)
  }

  function ReloadStep(s: Step): Step {
    Step(ReloadInstruction(s.instruction), ReloadOptional(s.siteProfileId), ReloadOptional(s.kind),
         ReloadOptional(s.title), ReloadLocators(s.locators), ReloadVars(s.locatorVars))
  }

  function KeptStep(s: Step): seq<Step> {
    if Trim(ReloadStep(s).instruction) != "" then [ReloadStep(s)] else []
  }

  function Reload(d: Draft): Draft {
    Draft(FlatMap(ReloadTrigger, d.triggers), FlatMap(KeptStep, d.steps))
  }

  // ---------------------------------------------------------------- decoding line by line

  lemma {:induction false} DecodeConcat(st: Decoder, a: seq<string>, b: seq<string>)
    ensures DecodeLines(st, a + b) == DecodeLines(DecodeLines(st, a), b)
    decreases |a|
  {
    if a == [] {
      assert a + b == b;
    } else {
      assert (a + b)[1..] == a[1..] + b;
      DecodeConcat(DecodeLine(st, a[0]), a[1..], b);
    }
  }

  lemma DecodeCons<A>(st: Decoder, f: A -> seq<string>, xs: seq<A>)
    requires xs != []
    ensures DecodeLines(st, FlatMap(f, xs)) == DecodeLines(DecodeLines(st, f(xs[0])), FlatMap(f, xs[1..]))
  {
    DecodeConcat(st, f(xs[0]), FlatMap(f, xs[1..]));
  }

  lemma AppendFlat<A, B>(acc: seq<B>, f: A -> seq<B>, xs: seq<A>)
    ensures xs == [] ==> acc + FlatMap(f, xs) == acc
    ensures xs != [] ==> acc + f(xs[0]) + FlatMap(f, xs[1..]) == acc + FlatMap(f, xs)
  {}

  /** Keys that were fresh stay fresh after an entry with another key is added. */
  lemma FreshTail<V, W>(bag: seq<(string, V)>, added: seq<(string, V)>, entries: seq<(string, W)>)
    requires entries != [] && DistinctKeys(entries)
    requires forall e :: e in entries ==> !HasKey(bag, e.0)
    requires forall a :: a in added ==> a.0 == entries[0].0
    ensures DistinctKeys(entries[1..])
    ensures forall e :: e in entries[1..] ==> e in entries && !HasKey(bag + added, e.0)
  {
    forall e | e in entries[1..] ensures e in entries && !HasKey(bag + added, e.0) {
      var j :| 0 <= j < |entries[1..]| && entries[1..][j] == e;
      assert entries[j + 1] == e && entries[0].0 != entries[j + 1].0;
      assert !HasKey(bag, e.0);
      forall i | 0 <= i < |bag + added| ensures (bag + added)[i].0 != e.0 {
        if i < |bag| {
          assert (bag + added)[i] == bag[i];
        } else {
          assert (bag + added)[i] in added;
        }
      }
    }
  }

  lemma DecodeOne(st: Decoder, line: string)
    ensures DecodeLines(st, [line]) == DecodeLine(st, line)
  {}

  lemma InStepLine(st: Decoder, indent: nat, x: string)
    requires indent >= 3 && st.section == Steps && st.current.Some?
    ensures DecodeLine(st, Indent(indent) + x) == InStep(st, st.current.value, Indent(indent) + x)
  {
    FieldMisses(indent, x, 0);
    NewItemMisses(indent, x);
  }

  lemma FieldLineShape(indent: nat, key: string, value: string)
    ensures FieldLine(indent, key, value) == Indent(indent) + (key + ": " + value)
  {}

  predicate FreshItem(st: Decoder, st': Decoder, step: Step) {
    st' == Flush(st).(current := Some(step), nested := NoNested, nestedOp := "")
  }

  lemma ItemLine(st: Decoder, dumped: string)
    requires st.section == Steps && Trimmed(dumped) && Printable(dumped)
    ensures var raw := Unquote(Trim(dumped));
            FreshItem(st, DecodeLine(st, Indent(2) + "- instruction: " + dumped),
                      Step(if raw == "|" then "" else raw, None, None, None, None, None))
  {
    NewItemMatches(dumped);
    assert Indent(2) + "- instruction: " + dumped == Indent(2) + ("- instruction: " + dumped);
    FieldMisses(2, "- instruction: " + dumped, 0);
  }

  lemma {:induction false} ContinuationLines(st: Decoder, lines: seq<string>)
    requires st.section == Steps && st.current.Some? && st.nested == NoNested
    requires forall l :: l in lines ==> Printable(l)
    ensures DecodeLines(st, IndentAll(6, lines))
         == st.(current := Some(st.current.value.(instruction := Accumulate(st.current.value.instruction, lines))))
    decreases |lines|
  {
    if lines != [] {
      var l := lines[0];
      var line := Indent(6) + l;
      InStepLine(st, 6, l);
      FieldMisses(6, l, 4);
      assert line[..6] == Indent(6) && line[6..] == l;
      PrintableFacts(l);
      var st' := DecodeLine(st, line);
      assert st' == st.(current :=
        Some(st.current.value.(instruction := AppendInstruction(st.current.value.instruction, l))));
      assert IndentAll(6, lines)[1..] == IndentAll(6, lines[1..]);
      ContinuationLines(st', lines[1..]);
    }
  }

  lemma InstructionChunk(st: Decoder, i: string)
    requires st.section == Steps && Printable2(i)
    ensures FreshItem(st, DecodeLines(st, InstructionLines(i)),
                      Step(ReloadInstruction(i), None, None, None, None, None))
  {
    if '\n' in i {
      ItemLine(st, "|");
      UnquotePlain("|");
      TrimTrimmed("|");
      var first := Indent(2) + "- instruction: " + "|";
      var st' := DecodeLine(st, first);
      LineParts(i);
      ContinuationLines(st', SplitLines(i));
      assert InstructionLines(i)[0] == first;
      assert InstructionLines(i)[1..] == IndentAll(6, SplitLines(i));
    } else {
      DumpShape(i);
      ItemLine(st, DumpScalar(i));
    }
  }

  lemma OptionalChunk(st: Decoder, key: string, value: Option<string>)
    requires st.section == Steps && st.current.Some? && st.nested == NoNested
    requires key == "site_profile_id" || key == "kind" || key == "title"
    requires OptionalInDomain(value)
    ensures DecodeLines(st, OptionalLine(key, value)) ==
            var r := ReloadOptional(value);
            if r.None? then st
            else st.(current := Some(if key == "site_profile_id" then st.current.value.(siteProfileId := r)
                                     else if key == "kind" then st.current.value.(kind := r)
                                     else st.current.value.(title := r)))
  {
    if value.Some? && value.value != "" {
      DumpShape(value.value);
      var dumped := DumpScalar(value.value);
      FieldLineShape(4, key, dumped);
      InStepLine(st, 4, key + ": " + dumped);
      assert IsWord(key);
      FieldValueMatches(4, key, dumped);
      DecodeOne(st, FieldLine(4, key, dumped));
    }
  }

  // ---------------------------------------------------------------- locators

  lemma {:induction false} LookupLast<V>(bag: seq<(string, V)>, key: string, v: V)
    requires !HasKey(bag, key)
    ensures Lookup(bag + [(key, v)], key) == Some(v)
  {
    if bag != [] {
      assert bag[0].0 != key;
      NoKeyTail(bag, key);
      assert (bag + [(key, v)])[1..] == bag[1..] + [(key, v)];
      LookupLast(bag[1..], key, v);
    }
  }

  lemma NoKeyTail<V>(bag: seq<(string, V)>, key: string)
    requires bag != [] && !HasKey(bag, key)
    ensures !HasKey(bag[1..], key)
  {
    forall i | 0 <= i < |bag[1..]| ensures bag[1..][i].0 != key {
      assert bag[i + 1].0 != key;
    }
  }

  lemma {:induction false} PutLast<V>(bag: seq<(string, V)>, key: string, v: V, w: V)
    requires !HasKey(bag, key)
    ensures Put(bag + [(key, v)], key, w) == bag + [(key, w)]
  {
    if bag == [] {
      assert ([(key, v)])[1..] == [];
    } else {
      assert bag[0].0 != key;
      NoKeyTail(bag, key);
      assert (bag + [(key, v)])[1..] == bag[1..] + [(key, v)];
      PutLast(bag[1..], key, v, w);
    }
  }

  lemma LocatorKeyIsWord(k: string)
    requires IsLocatorKey(k)
    ensures IsWord(k)
  {}

  /** The state while the fields of operation `op` are read. */
  predicate InOp(st: Decoder, bag: LocatorBag, op: string, loc: Locator) {
    && st.section == Steps && st.nested == Locators && st.nestedOp == op
    && st.current.Some? && st.current.value.locators == Some(bag + [(op, loc)])
  }

  function WithLocators(st: Decoder, bag: LocatorBag): Decoder
    requires st.current.Some?
  {
    st.(current := Some(st.current.value.(locators := Some(bag))))
  }

  /** What the encoder prints for a locator field that has a value. */
  function DumpedField(v: FieldValue): string
    requires !v.Absent?
  {
    if v.Number? then IntText(v.value) else DumpScalar(v.text)
  }

  lemma DumpedFieldShape(loc: Locator, f: (string, FieldValue))
    requires FieldInDomain(f) && !HasKey(loc, f.0) && !f.1.Absent? && f.1 != FieldValue.Text("")
    ensures var dumped := DumpedField(f.1);
      && dumped != "" && Trimmed(dumped) && Printable(dumped) && LocatorFieldLines(f) == [FieldLine(8, f.0, dumped)]
      && SetLocatorField(loc, f.0, Unquote(Trim(dumped))) == loc + ReloadField(f)
  {
    var dumped := DumpedField(f.1);
    if f.1.Number? {
      IntTextParses(f.1.value);
      TrimTrimmed(dumped);
      UnquotePlain(dumped);
    } else {
      DumpShape(f.1.text);
    }
  }

  lemma LocatorField(st: Decoder, bag: LocatorBag, op: string, loc: Locator, f: (string, FieldValue))
    requires InOp(st, bag, op, loc) && op != "" && !HasKey(bag, op)
    requires FieldInDomain(f) && !HasKey(loc, f.0)
    ensures DecodeLines(st, LocatorFieldLines(f)) == WithLocators(st, bag + [(op, loc + ReloadField(f))])
  {
    if f.1.Absent? || (f.1.Text? && f.1.text == "") {
      assert loc + ReloadField(f) == loc;
      assert DecodeLines(st, []) == st;
    } else {
      DumpedFieldShape(loc, f);
      LocatorKeyIsWord(f.0);
      LocatorLineRead(st, bag, op, loc, f.0, DumpedField(f.1), loc + ReloadField(f));
    }
  }

  /** One printed field of the current operation is read into it. */
  lemma LocatorLineRead(st: Decoder, bag: LocatorBag, op: string, loc: Locator, key: string, dumped: string,
      updated: Locator)
    requires InOp(st, bag, op, loc) && op != "" && !HasKey(bag, op)
    requires IsWord(key) && Trimmed(dumped) && Printable(dumped)
    requires SetLocatorField(loc, key, Unquote(Trim(dumped))) == updated
    ensures DecodeLines(st, [FieldLine(8, key, dumped)]) == WithLocators(st, bag + [(op, updated)])
  {
    FieldLineShape(8, key, dumped);
    var x := key + ": " + dumped;
    InStepLine(st, 8, x);
    FieldMisses(8, x, 4);
    FieldMisses(8, x, 6);
    FieldValueMatches(8, key, dumped);
    LookupLast(bag, op, loc);
    PutLast(bag, op, loc, updated);
    DecodeOne(st, FieldLine(8, key, dumped));
  }

  lemma {:induction false} LocatorFields(st: Decoder, bag: LocatorBag, op: string, loc: Locator, fields: Locator)
    requires InOp(st, bag, op, loc) && op != "" && !HasKey(bag, op)
    requires DistinctKeys(fields) && forall f :: f in fields ==> FieldInDomain(f) && !HasKey(loc, f.0)
    ensures DecodeLines(st, FlatMap(LocatorFieldLines, fields))
         == WithLocators(st, bag + [(op, loc + FlatMap(ReloadField, fields))])
    decreases |fields|
  {
    AppendFlat(loc, ReloadField, fields);
    if fields != [] {
      var f := fields[0];
      LocatorField(st, bag, op, loc, f);
      var loc' := loc + ReloadField(f);
      var st' := WithLocators(st, bag + [(op, loc')]);
      FreshTail(loc, ReloadField(f), fields);
      LocatorFields(st', bag, op, loc', fields[1..]);
      DecodeCons(st, LocatorFieldLines, fields);
    }
  }

  predicate InLocators(st: Decoder, bag: LocatorBag) {
    && st.section == Steps && st.nested == Locators
    && st.current.Some? && st.current.value.locators == Some(bag)
  }

  lemma OpChunk(st: Decoder, bag: LocatorBag, e: (string, Locator))
    requires InLocators(st, bag) && OpInDomain(e) && IsWord(e.0) && !HasKey(bag, e.0)
    ensures var st' := DecodeLines(st, OpLines(e));
            st' == WithLocators(st, bag + ReloadOp(e)).(nestedOp := st'.nestedOp)
  {
    if e.1 == [] {
      assert bag + ReloadOp(e) == bag;
    } else {
      var op := e.0;
      var line := OpLine(op);
      assert line == Indent(6) + (op + ":") == Indent(6) + op + ":" + "";
      InStepLine(st, 6, op + ":");
      FieldMisses(6, op + ":", 4);
      FieldMatches(6, op, "");
      var st' := DecodeLine(st, line);
      assert st' == WithLocators(st, bag + [(op, [])]).(nestedOp := op);
      LocatorFields(st', bag, op, [], e.1);
      assert [] + FlatMap(ReloadField, e.1) == FlatMap(ReloadField, e.1);
      assert OpLines(e)[1..] == FlatMap(LocatorFieldLines, e.1);
    }
  }

  lemma {:induction false} OpsChunk(st: Decoder, bag: LocatorBag, ops: LocatorBag)
    requires InLocators(st, bag) && DistinctKeys(ops)
    requires forall e :: e in ops ==> OpInDomain(e) && IsWord(e.0) && !HasKey(bag, e.0)
    ensures var st' := DecodeLines(st, FlatMap(OpLines, ops));
            st' == WithLocators(st, bag + FlatMap(ReloadOp, ops)).(nestedOp := st'.nestedOp)
    decreases |ops|
  {
    AppendFlat(bag, ReloadOp, ops);
    if ops != [] {
      var e := ops[0];
      OpChunk(st, bag, e);
      var st' := DecodeLines(st, OpLines(e));
      var bag' := bag + ReloadOp(e);
      FreshTail(bag, ReloadOp(e), ops);
      OpsChunk(st', bag', ops[1..]);
      DecodeCons(st, OpLines, ops);
    }
  }

  /** The line that opens a nested object. */
  lemma OpenLine(st: Decoder, key: string)
    requires st.section == Steps && st.current.Some? && IsWord(key)
    ensures DecodeLine(st, Indent(4) + key + ":") == StepField(st, st.current.value, key, "")
  {
    assert Indent(4) + key + ":" == Indent(4) + (key + ":") == Indent(4) + key + ":" + "";
    InStepLine(st, 4, key + ":");
    FieldMatches(4, key, "");
  }

  lemma LocatorsChunk(st: Decoder, locators: Option<LocatorBag>)
    requires st.section == Steps && st.current.Some? && st.nested == NoNested && st.current.value.locators.None?
    requires locators.Some? ==> DistinctKeys(locators.value)
                                && forall e :: e in locators.value ==> OpInDomain(e) && IsWord(e.0)
    ensures var st' := DecodeLines(st, LocatorLines(locators));
            st' == st.(current := Some(st.current.value.(locators := ReloadLocators(locators))),
                       nested := st'.nested, nestedOp := st'.nestedOp)
  {
    if locators.Some? && locators.value != [] {
      var line := Indent(4) + "locators:";
      assert line == Indent(4) + "locators" + ":";
      assert IsWord("locators");
      OpenLine(st, "locators");
      var st' := DecodeLine(st, line);
      OpsChunk(st', [], locators.value);
      assert [] + FlatMap(ReloadOp, locators.value) == FlatMap(ReloadOp, locators.value);
      assert LocatorLines(locators)[1..] == FlatMap(OpLines, locators.value);
    }
  }

  // ---------------------------------------------------------------- locator_vars

  lemma VarChunk(st: Decoder, done: LocatorVars, e: (string, string))
    requires st.section == Steps && st.nested == Vars && st.current.Some? && st.current.value.locatorVars == Some(done)
    requires VarInDomain(e) && IsWord(e.0) && !HasKey(done, e.0)
    ensures DecodeLines(st, VarLine(e))
         == st.(current := Some(st.current.value.(locatorVars := Some(done + ReloadVar(e)))))
  {
    DumpShape(e.1);
    var dumped := DumpScalar(e.1);
    FieldLineShape(6, e.0, dumped);
    InStepLine(st, 6, e.0 + ": " + dumped);
    FieldMisses(6, e.0 + ": " + dumped, 4);
    FieldValueMatches(6, e.0, dumped);
    DecodeOne(st, FieldLine(6, e.0, dumped));
  }

  lemma {:induction false} VarsChunkFrom(st: Decoder, done: LocatorVars, vars: LocatorVars)
    requires st.section == Steps && st.nested == Vars && st.current.Some? && st.current.value.locatorVars == Some(done)
    requires DistinctKeys(vars) && forall e :: e in vars ==> VarInDomain(e) && IsWord(e.0) && !HasKey(done, e.0)
    ensures DecodeLines(st, FlatMap(VarLine, vars))
         == st.(current := Some(st.current.value.(locatorVars := Some(done + FlatMap(ReloadVar, vars)))))
    decreases |vars|
  {
    AppendFlat(done, ReloadVar, vars);
    if vars != [] {
      var e := vars[0];
      VarChunk(st, done, e);
      var done' := done + ReloadVar(e);
      var st' := DecodeLines(st, VarLine(e));
      FreshTail(done, ReloadVar(e), vars);
      VarsChunkFrom(st', done', vars[1..]);
      DecodeCons(st, VarLine, vars);
    }
  }

  lemma VarsChunk(st: Decoder, vars: Option<LocatorVars>)
    requires st.section == Steps && st.current.Some? && st.current.value.locatorVars.None?
    requires vars.Some? ==> DistinctKeys(vars.value) && forall e :: e in vars.value ==> VarInDomain(e) && IsWord(e.0)
    ensures var st' := DecodeLines(st, VarLines(vars));
            st' == st.(current := Some(st.current.value.(locatorVars := ReloadVars(vars))), nested := st'.nested)
  {
    if vars.Some? && vars.value != [] {
      var line := Indent(4) + "locator_vars:";
      assert line == Indent(4) + "locator_vars" + ":";
      assert IsWord("locator_vars");
      OpenLine(st, "locator_vars");
      var st' := DecodeLine(st, line);
      VarsChunkFrom(st', [], vars.value);
      assert [] + FlatMap(ReloadVar, vars.value) == FlatMap(ReloadVar, vars.value);
      assert VarLines(vars)[1..] == FlatMap(VarLine, vars.value);
    }
  }

  // ---------------------------------------------------------------- whole steps and drafts

  lemma StepChunk(st: Decoder, s: Step)
    requires st.section == Steps && StepInDomain(s) && WordKeys(s)
    ensures var st' := DecodeLines(st, StepLines(s));
            st' == Flush(st).(current := Some(ReloadStep(s)), nested := st'.nested, nestedOp := st'.nestedOp)
  {
    var c0 := InstructionLines(s.instruction);
    var c1 := OptionalLine("site_profile_id", s.siteProfileId);
    var c2 := OptionalLine("kind", s.kind);
    var c3 := OptionalLine("title", s.title);
    var c4 := LocatorLines(s.locators);
    var c5 := VarLines(s.locatorVars);
    InstructionChunk(st, s.instruction);
    var s0 := DecodeLines(st, c0);
    OptionalChunk(s0, "site_profile_id", s.siteProfileId);
    var s1 := DecodeLines(s0, c1);
    OptionalChunk(s1, "kind", s.kind);
    var s2 := DecodeLines(s1, c2);
    OptionalChunk(s2, "title", s.title);
    var s3 := DecodeLines(s2, c3);
    LocatorsChunk(s3, s.locators);
    var s4 := DecodeLines(s3, c4);
    VarsChunk(s4, s.locatorVars);
    DecodeConcat(st, c0, c1);
    DecodeConcat(st, c0 + c1, c2);
    DecodeConcat(st, c0 + c1 + c2, c3);
    DecodeConcat(st, c0 + c1 + c2 + c3, c4);
    DecodeConcat(st, c0 + c1 + c2 + c3 + c4, c5);
  }

  lemma {:induction false} StepsChunk(st: Decoder, steps: seq<Step>)
    requires st.section == Steps && forall s :: s in steps ==> StepInDomain(s) && WordKeys(s)
    ensures var end := Flush(DecodeLines(st, FlatMap(StepLines, steps)));
            end.steps == Flush(st).steps + FlatMap(KeptStep, steps) && end.triggers == st.triggers
    decreases |steps|
  {
    AppendFlat(Flush(st).steps, KeptStep, steps);
    if steps != [] {
      var s := steps[0];
      StepChunk(st, s);
      var st' := DecodeLines(st, StepLines(s));
      StepsChunk(st', steps[1..]);
      DecodeCons(st, StepLines, steps);
      assert Flush(st').steps == Flush(st).steps + KeptStep(s);
    }
  }

  lemma TriggerChunk(st: Decoder, t: string)
    requires st.section == Triggers && Printable(t)
    ensures DecodeLines(st, TriggerLine(t)) == st.(triggers := st.triggers + ReloadTrigger(t))
  {
    DumpShape(t);
    TriggerItemMatches(DumpScalar(t));
    var line := Indent(2) + "- " + DumpScalar(t);
    assert line == Indent(2) + ("- " + DumpScalar(t));
    FieldMisses(2, "- " + DumpScalar(t), 0);
    DecodeOne(st, line);
    AppendFlat(st.triggers, ReloadTrigger, []);
    assert st.triggers + [] == st.triggers;
  }

  lemma {:induction false} TriggersChunkFrom(st: Decoder, triggers: seq<string>)
    requires st.section == Triggers && forall t :: t in triggers ==> Printable(t)
    ensures DecodeLines(st, FlatMap(TriggerLine, triggers))
         == st.(triggers := st.triggers + FlatMap(ReloadTrigger, triggers))
    decreases |triggers|
  {
    AppendFlat(st.triggers, ReloadTrigger, triggers);
    if triggers != [] {
      var t := triggers[0];
      TriggerChunk(st, t);
      TriggersChunkFrom(DecodeLines(st, TriggerLine(t)), triggers[1..]);
      DecodeCons(st, TriggerLine, triggers);
    }
  }

  /** A top-level key line. */
  lemma TopLine(st: Decoder, key: string, rest: string)
    requires IsWord(key)
    ensures DecodeLine(st, key + ":" + rest)
         == Flush(st).(section := if AllSpaces(rest) && key == "triggers" then Triggers
                                  else if AllSpaces(rest) && key == "steps" then Steps
                                  else NoSection)
  {
    assert Indent(0) + key + ":" + rest == key + ":" + rest;
    FieldMatches(0, key, rest);
  }

  lemma {:induction false} IgnoredLines(lines: seq<string>)
    ensures DecodeLines(START, IndentAll(2, lines)) == START
    decreases |lines|
  {
    if lines != [] {
      FieldMisses(2, lines[0], 0);
      assert IndentAll(2, lines)[1..] == IndentAll(2, lines[1..]);
      IgnoredLines(lines[1..]);
    }
  }

  lemma NameChunk(m: Meta)
    ensures DecodeLines(START, NameLines(m)) == START
  {
    assert "name: " == "name" + ": ";
    IgnoredField("name", "name: ", DumpScalar(m.name));
  }

  lemma DescriptionChunk(m: Meta)
    ensures DecodeLines(START, DescriptionLines(m)) == START
  {
    if '\n' in m.description {
      BlockChunk(m.description);
    } else {
      assert "description: " == "description" + ": ";
      IgnoredField("description", "description: ", DumpScalar(m.description));
    }
  }

  /** A key the decoder does not know, with a value on its own line. */
  lemma IgnoredField(key: string, head: string, dumped: string)
    requires (key == "name" || key == "description") && head == key + ": "
    ensures DecodeLines(START, [head + dumped]) == START
  {
    assert IsWord("name") && IsWord("description");
    TopLine(START, key, " " + dumped);
    assert head + dumped == key + ":" + (" " + dumped);
    DecodeOne(START, head + dumped);
  }

  lemma BlockChunk(text: string)
    ensures DecodeLines(START, ["description: |"] + IndentAll(2, SplitLines(text))) == START
  {
    assert IsWord("description");
    TopLine(START, "description", " |");
    assert "description: |" == "description" + ":" + " |";
    IgnoredLines(SplitLines(text));
  }

  lemma TriggersChunk(triggers: seq<string>)
    requires forall t :: t in triggers ==> Printable(t)
    ensures DecodeLines(START, TriggerLines(triggers))
         == START.(triggers := FlatMap(ReloadTrigger, triggers),
                   section := if triggers == [] then NoSection else Triggers)
  {
    if triggers != [] {
      assert IsWord("triggers");
      TopLine(START, "triggers", "");
      assert "triggers:" == "triggers" + ":" + "";
      var st := DecodeLine(START, "triggers:");
      TriggersChunkFrom(st, triggers);
      assert [] + FlatMap(ReloadTrigger, triggers) == FlatMap(ReloadTrigger, triggers);
      assert TriggerLines(triggers)[1..] == FlatMap(TriggerLine, triggers);
    }
  }

  lemma DecodeFive(st: Decoder, a: seq<string>, b: seq<string>, c: seq<string>, d: seq<string>, e: seq<string>)
    ensures DecodeLines(st, a + b + c + d + e)
         == DecodeLines(DecodeLines(DecodeLines(DecodeLines(DecodeLines(st, a), b), c), d), e)
  {
    DecodeConcat(st, a, b);
    DecodeConcat(st, a + b, c);
    DecodeConcat(st, a + b + c, d);
    DecodeConcat(st, a + b + c + d, e);
  }

  lemma MiddleChunk(d: Draft, m: Meta)
    requires DraftInDomain(d) && forall s :: s in d.steps ==> WordKeys(s)
    ensures var end := Flush(DecodeLines(START, MiddleLines(d, m)));
            Draft(end.triggers, end.steps) == Reload(d)
  {
    NameChunk(m);
    DescriptionChunk(m);
    TriggersChunk(d.triggers);
    DecodeFive(START, NameLines(m), DescriptionLines(m), TriggerLines(d.triggers), ["steps:"],
               FlatMap(StepLines, d.steps));
    var st := DecodeLines(START, TriggerLines(d.triggers));
    StepsHeading(st);
    var st' := DecodeLines(st, ["steps:"]);
    StepsChunk(st', d.steps);
    assert Flush(st').steps == [];
  }

  lemma StepsHeading(st: Decoder)
    requires st.current.None?
    ensures DecodeLines(st, ["steps:"]) == st.(section := Steps)
  {
    assert IsWord("steps");
    TopLine(st, "steps", "");
    assert "steps:" == "steps" + ":" + "";
    DecodeOne(st, "steps:");
  }

  // ---------------------------------------------------------------- the printed document

  /** A line the fences and the line splitter leave alone. */
  predicate PlainLine(l: string) {
    l != "" && Printable(l) && (l[0] == ' ' || IsLetter(l[0]))
  }

  lemma PlainFacts(l: string)
    requires PlainLine(l)
    ensures OneLine(l) && '\r' !in l && !StartsWith(l, "---")
  {
    PrintableFacts(l);
    assert "---"[0] == '-';
  }

  lemma PlainIndented(n: nat, x: string)
    requires n > 0 && Printable(x)
    ensures PlainLine(Indent(n) + x)
  {}

  lemma WordIsPrintable(w: string)
    requires IsWord(w)
    ensures Printable(w)
  {}

  lemma FieldLinePlain(n: nat, key: string, value: string)
    requires n > 0 && IsWord(key) && Printable(value)
    ensures PlainLine(FieldLine(n, key, value))
  {
    WordIsPrintable(key);
    FieldLineShape(n, key, value);
    PlainIndented(n, key + ": " + value);
  }

  lemma IndentAllPlain(n: nat, text: string)
    requires n > 0 && Printable2(text)
    ensures forall l :: l in IndentAll(n, SplitLines(text)) ==> PlainLine(l)
  {
    LineParts(text);
    forall l | l in SplitLines(text) ensures PlainLine(Indent(n) + l) {
      PlainIndented(n, l);
    }
  }

  lemma OptionalPlain(key: string, value: Option<string>)
    requires IsWord(key) && OptionalInDomain(value)
    ensures forall l :: l in OptionalLine(key, value) ==> PlainLine(l)
  {
    if value.Some? {
      DumpShape(value.value);
      FieldLinePlain(4, key, DumpScalar(value.value));
    }
  }

  lemma OpPlain(e: (string, Locator))
    requires OpInDomain(e) && IsWord(e.0)
    ensures forall l :: l in OpLines(e) ==> PlainLine(l)
  {
    forall f, l | f in e.1 && l in LocatorFieldLines(f) ensures PlainLine(l) {
      LocatorKeyIsWord(f.0);
      if f.1.Number? {
        IntTextParses(f.1.value);
        FieldLinePlain(8, f.0, IntText(f.1.value));
      } else {
        DumpShape(f.1.text);
        FieldLinePlain(8, f.0, DumpScalar(f.1.text));
      }
    }
    FlatMapAll(LocatorFieldLines, e.1, PlainLine);
    assert OpLine(e.0) == Indent(6) + (e.0 + ":");
    PlainIndented(6, e.0 + ":");
  }

  lemma VarPlain(e: (string, string))
    requires VarInDomain(e) && IsWord(e.0)
    ensures forall l :: l in VarLine(e) ==> PlainLine(l)
  {
    DumpShape(e.1);
    FieldLinePlain(6, e.0, DumpScalar(e.1));
  }

  lemma InstructionPlain(i: string)
    requires Printable2(i)
    ensures forall l :: l in InstructionLines(i) ==> PlainLine(l)
  {
    if '\n' in i {
      IndentAllPlain(6, i);
      PlainIndented(2, "- instruction: " + "|");
      assert Indent(2) + "- instruction: " + "|" == Indent(2) + ("- instruction: " + "|");
    } else {
      assert Printable(i);
      DumpShape(i);
      PlainIndented(2, "- instruction: " + DumpScalar(i));
      assert Indent(2) + "- instruction: " + DumpScalar(i) == Indent(2) + ("- instruction: " + DumpScalar(i));
    }
  }

  lemma StepPlain(s: Step)
    requires StepInDomain(s) && WordKeys(s)
    ensures forall l :: l in StepLines(s) ==> PlainLine(l)
  {
    InstructionPlain(s.instruction);
    assert IsWord("site_profile_id") && IsWord("kind") && IsWord("title");
    OptionalPlain("site_profile_id", s.siteProfileId);
    OptionalPlain("kind", s.kind);
    OptionalPlain("title", s.title);
    if s.locators.Some? {
      forall e, l | e in s.locators.value && l in OpLines(e) ensures PlainLine(l) { OpPlain(e); }
      FlatMapAll(OpLines, s.locators.value, PlainLine);
      PlainIndented(4, "locators:");
    }
    if s.locatorVars.Some? {
      forall e, l | e in s.locatorVars.value && l in VarLine(e) ensures PlainLine(l) { VarPlain(e); }
      FlatMapAll(VarLine, s.locatorVars.value, PlainLine);
      PlainIndented(4, "locator_vars:");
    }
  }

  lemma TriggersPlain(triggers: seq<string>)
    requires forall t :: t in triggers ==> Printable(t)
    ensures forall l :: l in TriggerLines(triggers) ==> PlainLine(l)
  {
    forall t, l | t in triggers && l in TriggerLine(t) ensures PlainLine(l) {
      DumpShape(t);
      PlainIndented(2, "- " + DumpScalar(t));
      assert Indent(2) + "- " + DumpScalar(t) == Indent(2) + ("- " + DumpScalar(t));
    }
    FlatMapAll(TriggerLine, triggers, PlainLine);
  }

  lemma NamePlain(m: Meta)
    requires MetaInDomain(m)
    ensures forall l :: l in NameLines(m) ==> PlainLine(l)
  {
    if m.name != "" {
      DumpShape(m.name);
      TopFieldPlain("name", DumpScalar(m.name));
    }
  }

  lemma DescriptionPlain(m: Meta)
    requires MetaInDomain(m)
    ensures forall l :: l in DescriptionLines(m) ==> PlainLine(l)
  {
    if '\n' in m.description {
      IndentAllPlain(2, m.description);
    } else if m.description != "" {
      assert Printable(m.description);
      DumpShape(m.description);
      TopFieldPlain("description", DumpScalar(m.description));
    }
  }

  lemma TopFieldPlain(key: string, dumped: string)
    requires (key == "name" || key == "description") && Printable(dumped)
    ensures PlainLine(key + ": " + dumped)
  {}

  lemma MiddlePlain(d: Draft, m: Meta)
    requires DraftInDomain(d) && MetaInDomain(m) && forall s :: s in d.steps ==> WordKeys(s)
    ensures MiddleLines(d, m) != [] && !IsSpace(MiddleLines(d, m)[0][0])
    ensures forall l :: l in MiddleLines(d, m) ==> PlainLine(l)
  {
    NamePlain(m);
    DescriptionPlain(m);
    ConcatPlain(NameLines(m), DescriptionLines(m));
    TriggersPlain(d.triggers);
    forall s, l | s in d.steps && l in StepLines(s) ensures PlainLine(l) { StepPlain(s); }
    FlatMapAll(StepLines, d.steps, PlainLine);
    var steps := FlatMap(StepLines, d.steps);
    StepsWordPlain();
    ConcatPlain(NameLines(m) + DescriptionLines(m), TriggerLines(d.triggers));
    ConcatPlain(NameLines(m) + DescriptionLines(m) + TriggerLines(d.triggers), ["steps:"]);
    ConcatPlain(NameLines(m) + DescriptionLines(m) + TriggerLines(d.triggers) + ["steps:"], steps);
    FirstLine(d, m);
  }

  lemma StepsWordPlain()
    ensures PlainLine("steps:")
  {}

  predicate AllPlain(lines: seq<string>) {
    forall l :: l in lines ==> PlainLine(l)
  }

  lemma ConcatPlain(a: seq<string>, b: seq<string>)
    requires AllPlain(a) && AllPlain(b)
    ensures AllPlain(a + b)
  {}

  /** The first line is one of the keys at the margin. */
  lemma FirstLine(d: Draft, m: Meta)
    ensures MiddleLines(d, m) != [] && MiddleLines(d, m)[0] != "" && !IsSpace(MiddleLines(d, m)[0][0])
  {
    var head := NameLines(m) + DescriptionLines(m);
    if head != [] {
      assert MiddleLines(d, m)[0] == head[0];
    } else if d.triggers != [] {
      assert MiddleLines(d, m)[0] == TriggerLines(d.triggers)[0];
    } else {
      assert MiddleLines(d, m)[0] == "steps:";
    }
  }

  /** The decoder returns exactly `Reload` of any draft with word-like keys. */
  lemma DecodeEncode(d: Draft, m: Meta)
    requires DraftInDomain(d) && MetaInDomain(m) && forall s :: s in d.steps ==> WordKeys(s)
    ensures Decoded(Encoded(d, m)) == Reload(d)
  {
    var lines := MiddleLines(d, m);
    MiddlePlain(d, m);
    forall l | l in lines ensures OneLine(l) && '\r' !in l && !StartsWith(l, "---") {
      PlainFacts(l);
    }
    assert lines[0] in lines;
    FrontMatterOf(lines);
    BodyLinesJoin(lines);
    MiddleChunk(d, m);
  }

  // ---------------------------------------------------------------- which drafts reload unchanged

  lemma {:induction false} AccumulateJoin(acc: string, lines: seq<string>)
    ensures lines != [] && acc != "" ==> Accumulate(acc, lines) == acc + "\n" + JoinLines(lines)
    ensures lines != [] && acc == "" && lines[0] != "" ==> Accumulate(acc, lines) == JoinLines(lines)
    ensures acc == "" ==> |Accumulate(acc, lines)| <= |JoinLines(lines)|
    decreases |lines|
  {
    if lines != [] {
      var acc' := AppendInstruction(acc, lines[0]);
      AccumulateJoin(acc', lines[1..]);
      if |lines| == 1 {
        assert lines[1..] == [];
      }
    }
  }

  lemma InstructionRoundTrip(i: string)
    requires Printable2(i)
    ensures ReloadInstruction(i) == i && Trim(i) != "" <==> InstructionStorable(i)
  {
    BlankTrim(i);
    var lines := SplitLines(i);
    JoinSplit(i, '\n');
    LineParts(i);
    if '\n' in i {
      AccumulateJoin("", lines);
      if lines[0] == "" {
        AccumulateJoin("", lines[1..]);
        assert |Accumulate("", lines)| <= |JoinLines(lines[1..])| < |JoinLines(lines)|;
      }
    } else {
      assert Printable(i);
      ScalarRoundTrip(i);
    }
  }

  lemma OptionalRoundTrip(o: Option<string>)
    requires OptionalInDomain(o)
    ensures ReloadOptional(o) == o <==> OptionalStorable(o)
  {
    if o.Some? {
      ScalarRoundTrip(o.value);
    }
  }

  lemma OpRoundTrip(e: (string, Locator))
    requires OpInDomain(e) && IsWord(e.0)
    ensures |ReloadOp(e)| <= 1
    ensures ReloadOp(e) == [e] <==> OpStorable(e)
  {
    forall f | f in e.1 ensures ReloadField(f) == [f] <==> FieldStorable(f) {
      if f.1.Text? { ScalarRoundTrip(f.1.text); }
    }
    FlatMapIdentity(ReloadField, e.1);
    if e.1 != [] {
      assert ReloadOp(e)[0] == (e.0, FlatMap(ReloadField, e.1));
      assert e == (e.0, e.1);
    }
  }

  lemma LocatorsRoundTrip(o: Option<LocatorBag>)
    requires o.Some? ==> forall e :: e in o.value ==> OpInDomain(e) && IsWord(e.0)
    ensures ReloadLocators(o) == o <==> (o.Some? ==> o.value != [] && forall e :: e in o.value ==> OpStorable(e))
  {
    if o.Some? {
      forall e | e in o.value ensures |ReloadOp(e)| <= 1 && (ReloadOp(e) == [e] <==> OpStorable(e)) { OpRoundTrip(e); }
      FlatMapIdentity(ReloadOp, o.value);
    }
  }

  lemma VarsRoundTrip(o: Option<LocatorVars>)
    requires o.Some? ==> forall e :: e in o.value ==> VarInDomain(e) && IsWord(e.0)
    ensures ReloadVars(o) == o <==> (o.Some? ==> o.value != [] && forall e :: e in o.value ==> VarStorable(e))
  {
    if o.Some? {
      forall e | e in o.value ensures ReloadVar(e) == [e] <==> VarStorable(e) {
        ScalarRoundTrip(e.1);
        assert e == (e.0, e.1);
      }
      FlatMapIdentity(ReloadVar, o.value);
    }
  }

  lemma StepRoundTrip(s: Step)
    requires StepInDomain(s) && WordKeys(s)
    ensures KeptStep(s) == [s] <==> StepStorable(s)
  {
    InstructionRoundTrip(s.instruction);
    OptionalRoundTrip(s.siteProfileId);
    OptionalRoundTrip(s.kind);
    OptionalRoundTrip(s.title);
    LocatorsRoundTrip(s.locators);
    VarsRoundTrip(s.locatorVars);
    assert s == Step(s.instruction, s.siteProfileId, s.kind, s.title, s.locators, s.locatorVars);
  }

  lemma ReloadRoundTrip(d: Draft)
    requires DraftInDomain(d) && forall s :: s in d.steps ==> WordKeys(s)
    ensures Reload(d) == d <==> Storable(d)
  {
    forall t | t in d.triggers ensures ReloadTrigger(t) == [t] <==> t != "" && ScalarOk(t) {
      ScalarRoundTrip(t);
      ScalarReloadEmpty(t);
    }
    FlatMapIdentity(ReloadTrigger, d.triggers);
    forall s | s in d.steps ensures KeptStep(s) == [s] <==> StepStorable(s) { StepRoundTrip(s); }
    FlatMapIdentity(KeptStep, d.steps);
  }

  // ---------------------------------------------------------------- the decoder only makes word-like keys

  predicate WordState(st: Decoder) {
    && (forall s :: s in st.steps ==> WordKeys(s))
    && (st.current.Some? ==> WordKeys(st.current.value))
  }

  lemma {:induction false} LetterRunLetters(s: string)
    ensures forall i :: 0 <= i < LetterRun(s) ==> IsLetter(s[i])
  {
    if s != "" && IsLetter(s[0]) {
      LetterRunLetters(s[1..]);
    }
  }

  lemma FieldKeyIsWord(line: string, indent: nat)
    ensures Field(line, indent).Some? ==> IsWord(Field(line, indent).value.0)
  {
    if indent <= |line| {
      LetterRunLetters(line[indent..]);
    }
  }

  lemma LookupHasKey<V>(bag: seq<(string, V)>, key: string)
    requires Lookup(bag, key).Some?
    ensures exists e :: e in bag && e.0 == key
  {
    if bag[0].0 == key {
      assert bag[0] in bag;
    } else {
      LookupHasKey(bag[1..], key);
      var e :| e in bag[1..] && e.0 == key;
      assert e in bag;
    }
  }

  lemma LocatorLineWords(st: Decoder, step: Step, line: string)
    requires WordState(st) && WordKeys(step)
    ensures WordState(LocatorLine(st, step, line))
  {
    FieldKeyIsWord(line, 6);
    if step.locators.Some? && Lookup(step.locators.value, st.nestedOp).Some? {
      LookupHasKey(step.locators.value, st.nestedOp);
    }
  }

  lemma VarsLineWords(st: Decoder, step: Step, line: string)
    requires WordState(st) && WordKeys(step)
    ensures WordState(VarsLine(st, step, line))
  {
    FieldKeyIsWord(line, 6);
  }

  lemma StepFieldWords(st: Decoder, step: Step, key: string, value: string)
    requires WordState(st) && WordKeys(step)
    ensures WordState(StepField(st, step, key, value))
  {}

  lemma ContinuationWords(st: Decoder, step: Step, line: string)
    requires WordState(st) && WordKeys(step)
    ensures WordState(ContinuationLine(st, step, line))
  {}

  lemma InStepWords(st: Decoder, step: Step, line: string)
    requires WordState(st) && WordKeys(step)
    ensures WordState(InStep(st, step, line))
  {
    var kv := FieldValueOf(line, 4);
    if kv.Some? {
      StepFieldWords(st, step, kv.value.0, kv.value.1);
    } else {
      match st.nested
      case Locators => LocatorLineWords(st, step, line);
      case Vars => VarsLineWords(st, step, line);
      case NoNested => ContinuationWords(st, step, line);
    }
  }

  lemma DecodeLineWords(st: Decoder, line: string)
    requires WordState(st)
    ensures WordState(DecodeLine(st, line))
  {
    if st.current.Some? {
      InStepWords(st, st.current.value, line);
    }
    assert WordState(Flush(st));
  }

  lemma {:induction false} DecodeLinesWords(st: Decoder, lines: seq<string>)
    requires WordState(st)
    ensures WordState(DecodeLines(st, lines))
    decreases |lines|
  {
    if lines != [] {
      DecodeLineWords(st, lines[0]);
      DecodeLinesWords(DecodeLine(st, lines[0]), lines[1..]);
    }
  }

  lemma DecodedWords(markdown: string)
    ensures forall s :: s in Decoded(markdown).steps ==> WordKeys(s)
  {
    var body := FrontMatter(markdown, 0);
    if body.Some? {
      DecodeLinesWords(START, BodyLines(body.value));
    }
  }

  // ---------------------------------------------------------------- main theorem

  /** A draft survives encoding and decoding exactly when it is storable. */
  lemma RoundTrip(d: Draft, m: Meta)
    requires DraftInDomain(d) && MetaInDomain(m)
    ensures Decoded(Encoded(d, m)) == d <==> Storable(d)
  {
    if forall s :: s in d.steps ==> WordKeys(s) {
      DecodeEncode(d, m);
      ReloadRoundTrip(d);
    } else {
      DecodedWords(Encoded(d, m));
    }
  }

  /** A trigger with a quotation mark is enough to lose a draft. */
  lemma LostDraft(m: Meta)
    requires MetaInDomain(m)
    ensures var d := Draft(["say \"yes\""], []); DraftInDomain(d) && Decoded(Encoded(d, m)) != d
  {
    var d := Draft(["say \"yes\""], []);
    assert d.triggers[0] in d.triggers && d.triggers[0][4] == '"';
    RoundTrip(d, m);
  }
}
