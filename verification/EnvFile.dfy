/**
 Environment files of the offline deployment (deploy/offline/common.py): reading
 KEY=value lines, and merging updates into a text without touching its other lines.
*/
module EnvFile {
  import opened Common
  import opened Text

  // ---------------------------------------------------------------- characters and lines

  /** `str.isspace`, which is also what `\s` matches. */
  predicate IsSpace(c: char) {
    || '\t' <= c <= '\r' || '\U{1C}' <= c <= ' ' || c == '\U{85}' || c == '\U{A0}' || c == '\U{1680}'
    || '\U{2000}' <= c <= '\U{200A}' || c == '\U{2028}' || c == '\U{2029}' || c == '\U{202F}'
    || c == '\U{205F}' || c == '\U{3000}'
  }

  /** Where `str.splitlines` cuts. */
  predicate IsBreak(c: char) {
    || '\n' <= c <= '\r' || '\U{1C}' <= c <= '\U{1E}' || c == '\U{85}' || c == '\U{2028}' || c == '\U{2029}'
  }

  predicate SingleLine(s: string) {
    forall c :: c in s ==> !IsBreak(c)
  }

  /** `str.splitlines`: a break ends a line, and nothing follows the last break. */
  function Lines(s: string): seq<string> {
    if s == "" then []
    else if IsBreak(s[0]) then
      [""] + (if s[0] == '\r' && |s| > 1 && s[1] == '\n' then Lines(s[2..]) else Lines(s[1..]))
    else
      var rest := Lines(s[1..]);
      if rest == [] then [[s[0]]] else [[s[0]] + rest[0]] + rest[1..]
  }

  predicate IsUpper(c: char) {
    'A' <= c <= 'Z'
  }

  predicate IsKeyChar(c: char) {
    IsUpper(c) || '0' <= c <= '9' || c == '_'
  }

  /** `[A-Z][A-Z0-9_]*`. */
  predicate IsKey(k: string) {
    k != "" && IsUpper(k[0]) && forall c :: c in k ==> IsKeyChar(c)
  }

  function SkipSpaces(s: string): (r: string)
    ensures forall c :: c in r ==> c in s
  {
    if s != "" && IsSpace(s[0]) then SkipSpaces(s[1..]) else s
  }

  function SkipSpacesRight(s: string): string {
    if s != "" && IsSpace(s[|s| - 1]) then SkipSpacesRight(s[..|s| - 1]) else s
  }

  predicate IsQuote(c: char) {
    c == '"' || c == '\''
  }

  function SkipQuotes(s: string): string {
    if s != "" && IsQuote(s[0]) then SkipQuotes(s[1..]) else s
  }

  function SkipQuotesRight(s: string): string {
    if s != "" && IsQuote(s[|s| - 1]) then SkipQuotesRight(s[..|s| - 1]) else s
  }

  /** `.strip().strip("\"'")`. */
  function Norm(v: string): string {
    SkipQuotesRight(SkipQuotes(SkipSpacesRight(SkipSpaces(v))))
  }

  /** The length of the longest run of key characters. */
  function KeyRun(s: string): (n: nat)
    ensures n <= |s| && (forall i :: 0 <= i < n ==> IsKeyChar(s[i])) && (n < |s| ==> !IsKeyChar(s[n]))
  {
    if s != "" && IsKeyChar(s[0]) then 1 + KeyRun(s[1..]) else 0
  }

  /** The match of the line pattern: key and raw value. */
  function Field(line: string): (r: Option<(string, string)>)
    ensures r.Some? ==> IsKey(r.value.0) && (SingleLine(line) ==> SingleLine(r.value.1))
  {
    var t := SkipSpaces(line);
    var n := KeyRun(t);
    if t == "" || !IsUpper(t[0]) || n == |t| || t[n] != '=' then None
    else Some((t[..n], t[n + 1..]))
  }

  predicate HasKey(line: string, key: string) {
    Field(line).Some? && Field(line).value.0 == key
  }

  // ---------------------------------------------------------------- reading

  /** A later line for the same key wins. */
  function ReadLines(lines: seq<string>): map<string, string> {
    if lines == [] then map[]
    else
      var before := ReadLines(lines[..|lines| - 1]);
      match Field(lines[|lines| - 1])
      case None => before
      case Some((key, value)) => before[key := Norm(value)]
  }

  /** The variables of a file that may be missing. */
  function Read(text: Option<string>): map<string, string> {
    if text.Some? then ReadLines(Lines(text.value)) else map[]
  }

  // ---------------------------------------------------------------- merging

  /** A dictionary with the order of its keys. */
  datatype Dict = Dict(keys: seq<string>, values: map<string, string>)

  ghost predicate IsDict(u: Dict) {
    && (forall key :: key in u.keys <==> key in u.values)
    && (forall i, j :: 0 <= i < j < |u.keys| ==> u.keys[i] != u.keys[j])
  }

  function Assignment(key: string, value: string): string {
    key + "=" + value
  }

  predicate IsUpdated(line: string, values: map<string, string>) {
    Field(line).Some? && Field(line).value.0 in values
  }

  /** The updated keys that have come up so far. */
  function Seen(lines: seq<string>, values: map<string, string>): set<string> {
    if lines == [] then {}
    else
      var last := lines[|lines| - 1];
      Seen(lines[..|lines| - 1], values) + (if IsUpdated(last, values) then {Field(last).value.0} else {})
  }

  /** What becomes of one line: the first line of an updated key is replaced, further ones go. */
  function Replaced(line: string, seen: set<string>, values: map<string, string>): seq<string> {
    if !IsUpdated(line, values) then [line]
    else
      var key := Field(line).value.0;
      if key in seen then [] else [Assignment(key, values[key])]
  }

  function Kept(lines: seq<string>, values: map<string, string>): seq<string> {
    if lines == [] then []
    else
      var init := lines[..|lines| - 1];
      Kept(init, values) + Replaced(lines[|lines| - 1], Seen(init, values), values)
  }

  /** The lines for the keys that did not come up. */
  function Added(keys: seq<string>, values: map<string, string>, seen: set<string>): seq<string>
    requires forall key :: key in keys ==> key in values
  {
    if keys == [] then []
    else
      var last := keys[|keys| - 1];
      assert last in keys;
      Added(keys[..|keys| - 1], values, seen) + (if last in seen then [] else [Assignment(last, values[last])])
  }

  function MergedLines(lines: seq<string>, u: Dict): seq<string>
    requires forall key :: key in u.keys ==> key in u.values
  {
    Kept(lines, u.values) + Added(u.keys, u.values, Seen(lines, u.values))
  }

  function Merged(text: string, u: Dict): string
    requires forall key :: key in u.keys ==> key in u.values
  {
    Join(MergedLines(Lines(text), u), '\n') + "\n"
  }

  function Normed(values: map<string, string>): map<string, string> {
    map key | key in values :: Norm(values[key])
  }

  ghost predicate KeysOk(u: Dict) {
    forall key :: key in u.keys ==> IsKey(key)
  }

  ghost predicate OneLineEach(u: Dict) {
    forall key :: key in u.values ==> SingleLine(key) && SingleLine(u.values[key])
  }

  // ---------------------------------------------------------------- the methods

  method ReadEnv(text: Option<string>) returns (r: map<string, string>)
    ensures r == Read(text)
  {
    r := map[];
    if text.Some? {
      var lines := Lines(text.value);
      for i := 0 to |lines|
        invariant r == ReadLines(lines[..i])
      {
        assert lines[..i + 1][..i] == lines[..i];
        var field := Field(lines[i]);
        if field.Some? {
          r := r[field.value.0 := Norm(field.value.1)];
        }
      }
      assert lines[..|lines|] == lines;
    }
  }

  method MergeEnv(text: string, u: Dict) returns (r: string)
    requires IsDict(u)
    ensures r == Merged(text, u)
  {
    var kept, seen := MergeLines(Lines(text), u.values);
    var lines := AddMissing(kept, u.keys, u.values, seen);
    r := Join(lines, '\n') + "\n";
  }

  /** The keys that did not come up, in their own order. */
  method AddMissing(kept: seq<string>, keys: seq<string>, values: map<string, string>, seen: set<string>)
    returns (lines: seq<string>)
    requires forall key :: key in keys ==> key in values
    ensures lines == kept + Added(keys, values, seen)
  {
    lines := kept;
    for i := 0 to |keys|
      invariant lines == kept + Added(keys[..i], values, seen)
    {
      assert keys[..i + 1][..i] == keys[..i];
      if keys[i] !in seen {
        lines := lines + [Assignment(keys[i], values[keys[i]])];
      }
    }
    assert keys[..|keys|] == keys;
  }

  /** The first loop: over the lines of the text. */
  method MergeLines(before: seq<string>, values: map<string, string>) returns (lines: seq<string>, seen: set<string>)
    ensures lines == Kept(before, values) && seen == Seen(before, values)
  {
    lines, seen := [], {};
    for i := 0 to |before|
      invariant lines == Kept(before[..i], values) && seen == Seen(before[..i], values)
    {
      assert before[..i + 1][..i] == before[..i];
      var field := Field(before[i]);
      if field.Some? && field.value.0 in values {
        var key := field.value.0;
        if key !in seen {
          lines, seen := lines + [Assignment(key, values[key])], seen + {key};
        }
      } else {
        lines := lines + [before[i]];
      }
    }
    assert before[..|before|] == before;
  }
}
