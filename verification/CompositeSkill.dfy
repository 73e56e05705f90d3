/**
 The front-end encoder and decoder for composite-task skill markdown
 (apps/user-web/src/api/compositeSkill.ts). A skill draft is printed as a small
 front-matter document and read back by a line state machine.

 JavaScript objects with word-like keys are association lists in insertion
 order; optional properties are options; the decoder's regular expressions are
 written out as functions on one line.
*/
module CompositeSkill {
  import opened Common
  import opened Text

  // ---------------------------------------------------------------- data

  /** One locator signal. `Absent` is an undefined or null property. */
  datatype FieldValue = Text(text: string) | Number(value: int) | Absent

  type Locator = seq<(string, FieldValue)>
  type LocatorBag = seq<(string, Locator)>
  type LocatorVars = seq<(string, string)>

  datatype Step = Step(
    instruction: string,
    siteProfileId: Option<string>,
    kind: Option<string>,
    title: Option<string>,
    locators: Option<LocatorBag>,
    locatorVars: Option<LocatorVars>)

  datatype Draft = Draft(triggers: seq<string>, steps: seq<Step>)

  datatype Meta = Meta(name: string, description: string)

  // ---------------------------------------------------------------- characters

  /** The class `\s`, which is also what `trim` removes. */
  predicate IsSpace(c: char) {
    || '\t' <= c <= '\r' || c == ' ' || c == '\U{00A0}' || c == '\U{1680}'
    || '\U{2000}' <= c <= '\U{200A}' || c == '\U{2028}' || c == '\U{2029}'
    || c == '\U{202F}' || c == '\U{205F}' || c == '\U{3000}' || c == '\U{FEFF}'
  }

  /** What `.` does not match, and what `^` with the m flag may follow. */
  predicate IsTerminator(c: char) {
    c == '\n' || c == '\r' || c == '\U{2028}' || c == '\U{2029}'
  }

  /** The class `[a-zA-Z_]`. */
  predicate IsLetter(c: char) {
    'a' <= c <= 'z' || 'A' <= c <= 'Z' || c == '_'
  }

  predicate IsPrintable(c: char) {
    ' ' <= c <= '~'
  }

  predicate AllSpaces(s: string) {
    forall c :: c in s ==> IsSpace(c)
  }

  predicate NoTerminator(s: string) {
    forall c :: c in s ==> !IsTerminator(c)
  }

  /** The whole string matches `[a-zA-Z_]+`. */
  predicate IsWord(s: string) {
    s != "" && forall c :: c in s ==> IsLetter(c)
  }

  function SkipSpaces(s: string): string {
    if s != "" && IsSpace(s[0]) then SkipSpaces(s[1..]) else s
  }

  function TrimRight(s: string): string {
    if s != "" && IsSpace(s[|s| - 1]) then TrimRight(s[..|s| - 1]) else s
  }

  function Trim(s: string): string {
    TrimRight(SkipSpaces(s))
  }

  function LetterRun(s: string): (n: nat)
    ensures n <= |s|
  {
    if s != "" && IsLetter(s[0]) then 1 + LetterRun(s[1..]) else 0
  }

  function SpaceRun(s: string): (n: nat)
    ensures n <= |s|
  {
    if s != "" && IsSpace(s[0]) then 1 + SpaceRun(s[1..]) else 0
  }

  function Indent(n: nat): (s: string)
    ensures |s| == n
  {
    seq(n, _ => ' ')
  }

  predicate StartsWith(s: string, prefix: string) {
    prefix <= s
  }

  // ---------------------------------------------------------------- lines

  function SplitLines(s: string): (lines: seq<string>)
    ensures |lines| >= 1
  {
    Split(s, '\n')
  }

  function JoinLines(lines: seq<string>): string {
    Join(lines, '\n')
  }

  predicate OneLine(s: string) {
    '\n' !in s
  }

  // ---------------------------------------------------------------- decimal numbers

  function DigitValue(c: char): (d: nat)
    requires IsDigit(c)
    ensures d < 10
  {
    c as int - '0' as int
  }

  function ParseNat(s: string): Option<nat> {
    if s == "" || !IsDigit(s[|s| - 1]) then None
    else if |s| == 1 then Some(DigitValue(s[0]))
    else match ParseNat(s[..|s| - 1])
      case None => None
      case Some(n) => Some(10 * n + DigitValue(s[|s| - 1]))
  }

  /** `Number(v)` on blank text and decimal integer literals; every other text is not a number here. */
  function ParseInt(s: string): Option<int> {
    if AllSpaces(s) then Some(0)
    else if s != "" && s[0] == '-'
    then match ParseNat(s[1..])
      case None => None
      case Some(n) => var i: int := n; Some(-i)
    else match ParseNat(s)
      case None => None
      case Some(n) => Some(n)
  }

  // ---------------------------------------------------------------- scalars

  /** The characters that force a scalar into quotes. */
  predicate NeedsQuotes(c: char) {
    || c == '\n' || c == ':' || c == '#' || c == '"' || c == '\'' || c == '`' || c == '{' || c == '}'
    || c == '[' || c == ']' || c == ',' || c == '&' || c == '*' || c == '!' || c == '|' || c == '>'
    || c == '%' || c == '@'
  }

  predicate IsSafeInline(s: string) {
    && s != ""
    && (forall c :: c in s ==> !NeedsQuotes(c))
    && Trim(s) == s
  }

  function Escape(s: string): string {
    if s == "" then ""
    else (if s[0] == '\\' then "\\\\" else if s[0] == '"' then "\\\"" else [s[0]]) + Escape(s[1..])
  }

  function DumpScalar(value: string): string {
    if value == "" then "\"\""
    else if IsSafeInline(value) then value
    else "\"" + Escape(value) + "\""
  }

  /** The decoder's quote removal: one leading and one trailing quotation mark, nothing unescaped. */
  function Unquote(s: string): string {
    var a := if s != "" && s[0] == '"' then s[1..] else s;
    if a != "" && a[|a| - 1] == '"' then a[..|a| - 1] else a
  }

  /** What the decoder recovers from a printed scalar. */
  function ScalarReload(value: string): string {
    Unquote(Trim(DumpScalar(value)))
  }

  /** Scalars that survive printing: no quotation mark, and a backslash only where no quoting is needed. */
  predicate ScalarOk(value: string) {
    '"' !in value && ('\\' in value ==> IsSafeInline(value))
  }

  // ---------------------------------------------------------------- encoder

  function FieldLine(indent: nat, key: string, value: string): string {
    Indent(indent) + key + ": " + value
  }

  function OpLine(op: string): string {
    Indent(6) + op + ":"
  }

  function NameLines(meta: Meta): seq<string> {
    if meta.name == "" then [] else ["name: " + DumpScalar(meta.name)]
  }

  function DescriptionLines(meta: Meta): seq<string> {
    if meta.description == "" then []
    else if '\n' in meta.description then
      ["description: |"] + IndentAll(2, SplitLines(meta.description))
    else ["description: " + DumpScalar(meta.description)]
  }

  function IndentAll(n: nat, lines: seq<string>): (r: seq<string>)
    ensures |r| == |lines|
  {
    seq(|lines|, i requires 0 <= i < |lines| => Indent(n) + lines[i])
  }

  function TriggerLine(t: string): seq<string> {
    [Indent(2) + "- " + DumpScalar(t)]
  }

  function TriggerLines(triggers: seq<string>): seq<string> {
    if triggers == [] then [] else ["triggers:"] + FlatMap(TriggerLine, triggers)
  }

  function InstructionLines(instruction: string): seq<string> {
    if '\n' in instruction then
      [Indent(2) + "- instruction: " + "|"] + IndentAll(6, SplitLines(instruction))
    else
      [Indent(2) + "- instruction: " + DumpScalar(instruction)]
  }

  function OptionalLine(key: string, value: Option<string>): seq<string> {
    if value.Some? && value.value != "" then [FieldLine(4, key, DumpScalar(value.value))] else []
  }

  function LocatorFieldLines(field: (string, FieldValue)): seq<string> {
    match field.1
    case Absent => []
    case Number(n) => [FieldLine(8, field.0, IntText(n))]
    case Text(t) => if t == "" then [] else [FieldLine(8, field.0, DumpScalar(t))]
  }

  function OpLines(entry: (string, Locator)): seq<string> {
    if entry.1 == [] then [] else [OpLine(entry.0)] + FlatMap(LocatorFieldLines, entry.1)
  }

  function LocatorLines(locators: Option<LocatorBag>): seq<string> {
    if locators.Some? && locators.value != []
    then [Indent(4) + "locators:"] + FlatMap(OpLines, locators.value)
    else []
  }

  function VarLine(entry: (string, string)): seq<string> {
    [FieldLine(6, entry.0, DumpScalar(entry.1))]
  }

  function VarLines(vars: Option<LocatorVars>): seq<string> {
    if vars.Some? && vars.value != []
    then [Indent(4) + "locator_vars:"] + FlatMap(VarLine, vars.value)
    else []
  }

  function StepLines(step: Step): seq<string> {
    InstructionLines(step.instruction)
    + OptionalLine("site_profile_id", step.siteProfileId)
    + OptionalLine("kind", step.kind)
    + OptionalLine("title", step.title)
    + LocatorLines(step.locators)
    + VarLines(step.locatorVars)
  }

  /** Every line between the two `---` fences. */
  function MiddleLines(draft: Draft, meta: Meta): seq<string> {
    NameLines(meta) + DescriptionLines(meta) + TriggerLines(draft.triggers)
    + ["steps:"] + FlatMap(StepLines, draft.steps)
  }

  function Encoded(draft: Draft, meta: Meta): string {
    JoinLines(["---"] + MiddleLines(draft, meta) + ["---"]) + "\n"
  }

  // ---------------------------------------------------------------- decoder

  datatype Section = NoSection | Triggers | Steps
  datatype Nested = NoNested | Locators | Vars

  datatype Decoder = Decoder(
    triggers: seq<string>,
    steps: seq<Step>,
    section: Section,
    nested: Nested,
    nestedOp: string,
    current: Option<Step>)

  const START := Decoder([], [], NoSection, NoNested, "", None)

  /** Shortest prefix of `s` that a line beginning with `---` ends. */
  function BeforeFence(s: string): Option<string> {
    if StartsWith(s, "\n---") then Some("")
    else if s == "" then None
    else match BeforeFence(s[1..])
      case None => None
      case Some(b) => Some([s[0]] + b)
  }

  /** `^---\s*\n([\s\S]*?)\n---` at the start of `s`, trying the whitespace run's line feeds from the last one down. */
  function FencedFrom(s: string, j: nat): Option<string>
    requires j <= |s|
  {
    if j <= 3 then None
    else if s[j - 1] == '\n' && BeforeFence(s[j..]).Some? then BeforeFence(s[j..])
    else FencedFrom(s, j - 1)
  }

  function Fenced(s: string): Option<string> {
    if StartsWith(s, "---") then FencedFrom(s, 3 + SpaceRun(s[3..])) else None
  }

  /** The leftmost match at a line start. */
  function FrontMatter(s: string, p: nat): Option<string>
    requires p <= |s|
    decreases |s| - p
  {
    if (p == 0 || IsTerminator(s[p - 1])) && Fenced(s[p..]).Some? then Fenced(s[p..])
    else if p == |s| then None
    else FrontMatter(s, p + 1)
  }

  function DropCarriageReturn(s: string): string {
    if s != "" && s[|s| - 1] == '\r' then s[..|s| - 1] else s
  }

  /** Splitting at `\r?\n`. */
  function BodyLines(body: string): (lines: seq<string>) {
    var pieces := SplitLines(body);
    seq(|pieces|, i requires 0 <= i < |pieces| =>
      if i + 1 < |pieces| then DropCarriageReturn(pieces[i]) else pieces[i])
  }

  /** `^\s{indent}([a-zA-Z_]+):` with everything after the colon. */
  function Field(line: string, indent: nat): Option<(string, string)> {
    if indent <= |line| && AllSpaces(line[..indent]) then
      var k := LetterRun(line[indent..]);
      if k > 0 && indent + k < |line| && line[indent + k] == ':'
      then Some((line[indent..indent + k], line[indent + k + 1..]))
      else None
    else None
  }

  /** `Field` followed by `\s*(.*)$`, with the captured value trimmed and unquoted. */
  function FieldValueOf(line: string, indent: nat): Option<(string, string)> {
    match Field(line, indent)
    case None => None
    case Some((key, rest)) =>
      if NoTerminator(SkipSpaces(rest)) then Some((key, Unquote(Trim(SkipSpaces(rest))))) else None
  }

  function TriggerItem(line: string): Option<string> {
    var s := SkipSpaces(line);
    if s != "" && s[0] == '-' && NoTerminator(SkipSpaces(s[1..]))
    then Some(Unquote(Trim(SkipSpaces(s[1..]))))
    else None
  }

  function NewItem(line: string): Option<string> {
    if |line| >= 3 && AllSpaces(line[..2]) && line[2] == '-' then
      var s := SkipSpaces(line[3..]);
      if StartsWith(s, "instruction:") && NoTerminator(SkipSpaces(s[12..]))
      then Some(Unquote(Trim(SkipSpaces(s[12..]))))
      else None
    else None
  }

  function Flush(st: Decoder): Decoder {
    if st.current.Some? && Trim(st.current.value.instruction) != ""
    then st.(steps := st.steps + [st.current.value], current := None)
    else st.(current := None)
  }

  predicate HasKey<V>(bag: seq<(string, V)>, key: string) {
    exists i :: 0 <= i < |bag| && bag[i].0 == key
  }

  /** Property assignment: an existing key keeps its place, a new one goes last. */
  function Put<V>(bag: seq<(string, V)>, key: string, value: V): (r: seq<(string, V)>)
    ensures !HasKey(bag, key) ==> r == bag + [(key, value)]
    ensures forall e :: e in r ==> e in bag || e == (key, value)
  {
    if bag == [] then [(key, value)]
    else if bag[0].0 == key then
      assert HasKey(bag, key);
      [(key, value)] + bag[1..]
    else
      assert HasKey(bag[1..], key) ==> HasKey(bag, key) by {
        if HasKey(bag[1..], key) {
          var i :| 0 <= i < |bag[1..]| && bag[1..][i].0 == key;
          assert bag[i + 1].0 == key;
        }
      }
      [bag[0]] + Put(bag[1..], key, value)
  }

  function Lookup<V>(bag: seq<(string, V)>, key: string): Option<V> {
    if bag == [] then None
    else if bag[0].0 == key then Some(bag[0].1)
    else Lookup(bag[1..], key)
  }

  function AppendInstruction(instruction: string, line: string): string {
    (if instruction != "" then instruction + "\n" else "") + line
  }

  function StepField(st: Decoder, step: Step, key: string, value: string): Decoder {
    if key == "site_profile_id" then
      st.(current := Some(step.(siteProfileId := Some(value))), nested := NoNested)
    else if key == "kind" then
      st.(current := Some(step.(kind := Some(value))), nested := NoNested)
    else if key == "title" then
      st.(current := Some(step.(title := Some(value))), nested := NoNested)
    else if key == "locators" then
      st.(current := Some(step.(locators := Some([]))), nested := Locators, nestedOp := "")
    else if key == "locator_vars" then
      st.(current := Some(step.(locatorVars := Some([]))), nested := Vars)
    else
      st.(nested := NoNested)
  }

  function SetLocatorField(loc: Locator, key: string, value: string): Locator {
    if key == "nth" then
      match ParseInt(value)
      case None => loc
      case Some(n) => Put(loc, key, Number(n))
    else Put(loc, key, Text(value))
  }

  function LocatorLine(st: Decoder, step: Step, line: string): Decoder {
    var op := Field(line, 6);
    var field := FieldValueOf(line, 8);
    if op.Some? && AllSpaces(op.value.1) then
      st.(nestedOp := op.value.0,
          current := if step.locators.Some?
                     then Some(step.(locators := Some(Put(step.locators.value, op.value.0, []))))
                     else st.current)
    else if field.Some? && st.nestedOp != "" && step.locators.Some?
            && Lookup(step.locators.value, st.nestedOp).Some? then
      var loc := SetLocatorField(Lookup(step.locators.value, st.nestedOp).value, field.value.0, field.value.1);
      st.(current := Some(step.(locators := Some(Put(step.locators.value, st.nestedOp, loc)))))
    else st
  }

  function VarsLine(st: Decoder, step: Step, line: string): Decoder {
    match FieldValueOf(line, 6)
    case None => st
    case Some((key, value)) =>
      var vars := if step.locatorVars.Some? then step.locatorVars.value else [];
      st.(current := Some(step.(locatorVars := Some(Put(vars, key, value)))))
  }

  function ContinuationLine(st: Decoder, step: Step, line: string): Decoder {
    if |line| >= 6 && AllSpaces(line[..6]) && NoTerminator(line[6..])
    then st.(current := Some(step.(instruction := AppendInstruction(step.instruction, line[6..]))))
    else st
  }

  function InStep(st: Decoder, step: Step, line: string): Decoder {
    match FieldValueOf(line, 4)
    case Some((key, value)) => StepField(st, step, key, value)
    case None =>
      match st.nested
      case Locators => LocatorLine(st, step, line)
      case Vars => VarsLine(st, step, line)
      case NoNested => ContinuationLine(st, step, line)
  }

  function InSteps(st: Decoder, line: string): Decoder {
    match NewItem(line)
    case Some(raw) =>
      Flush(st).(current := Some(Step(if raw == "|" then "" else raw, None, None, None, None, None)),
                 nested := NoNested, nestedOp := "")
    case None => if st.current.Some? then InStep(st, st.current.value, line) else st
  }

  function InTriggers(st: Decoder, line: string): Decoder {
    match TriggerItem(line)
    case Some(v) => if v != "" then st.(triggers := st.triggers + [v]) else st
    case None => st
  }

  function DecodeLine(st: Decoder, line: string): Decoder {
    match Field(line, 0)
    case Some((key, rest)) =>
      Flush(st).(section := if AllSpaces(rest) && key == "triggers" then Triggers
                            else if AllSpaces(rest) && key == "steps" then Steps
                            else NoSection)
    case None =>
      match st.section
      case Triggers => InTriggers(st, line)
      case Steps => InSteps(st, line)
      case NoSection => st
  }

  function DecodeLines(st: Decoder, lines: seq<string>): Decoder
    decreases |lines|
  {
    if lines == [] then st else DecodeLines(DecodeLine(st, lines[0]), lines[1..])
  }

  function Decoded(markdown: string): Draft {
    match FrontMatter(markdown, 0)
    case None => Draft([], [])
    case Some(body) =>
      var st := Flush(DecodeLines(START, BodyLines(body)));
      Draft(st.triggers, st.steps)
  }
}
