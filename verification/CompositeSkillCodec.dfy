/** The encoder and the decoder as they run: lines pushed one by one, and a loop over lines with mutable state. */
module CompositeSkillCodec {
  import opened Common
  import opened CompositeSkill
  import opened CompositeSkillRoundTrip
  import opened CompositeSkillHeader

  lemma TakeNext<A>(xs: seq<A>, i: nat)
    requires i < |xs|
    ensures xs[..i + 1] == xs[..i] + [xs[i]]
  {}

  lemma FlatMapPrefix<A, B>(f: A -> seq<B>, xs: seq<A>, i: nat)
    requires i < |xs|
    ensures FlatMap(f, xs[..i + 1]) == FlatMap(f, xs[..i]) + f(xs[i])
  {
    TakeNext(xs, i);
    FlatMapSnoc(f, xs[..i], xs[i]);
  }

  /** Pushing the next element's lines extends the pushed prefix by one element. */
  lemma Pushed<A, B>(base: seq<B>, f: A -> seq<B>, xs: seq<A>, i: nat, r: seq<B>, r': seq<B>)
    requires i < |xs| && r == base + FlatMap(f, xs[..i]) && r' == r + f(xs[i])
    ensures r' == base + FlatMap(f, xs[..i + 1])
  {
    FlatMapPrefix(f, xs, i);
  }

  lemma PushedAll<A, B>(base: seq<B>, f: A -> seq<B>, xs: seq<A>)
    ensures base + FlatMap(f, xs[..0]) == base
    ensures base + FlatMap(f, xs[..|xs|]) == base + FlatMap(f, xs)
  {
    assert xs[..|xs|] == xs;
  }

  method PushIndented(lines: seq<string>, n: nat, text: string) returns (r: seq<string>)
    ensures r == lines + IndentAll(n, SplitLines(text))
  {
    r := lines;
    var parts := SplitLines(text);
    for i := 0 to |parts|
      invariant r == lines + IndentAll(n, parts[..i])
    {
      r := r + [Indent(n) + parts[i]];
      assert IndentAll(n, parts[..i + 1]) == IndentAll(n, parts[..i]) + [Indent(n) + parts[i]];
    }
    assert parts[..|parts|] == parts;
  }

  method PushField(lines: seq<string>, field: (string, FieldValue)) returns (r: seq<string>)
    ensures r == lines + LocatorFieldLines(field)
  {
    r := lines;
    if field.1.Absent? || field.1 == FieldValue.Text("") {
      return;
    }
    r := r + [FieldLine(8, field.0, DumpedField(field.1))];
  }

  method PushOp(lines: seq<string>, op: string, loc: Locator) returns (r: seq<string>)
    ensures r == lines + OpLines((op, loc))
  {
    r := lines;
    if loc == [] {
      return;
    }
    r := r + [OpLine(op)];
    ghost var base := r;
    PushedAll(base, LocatorFieldLines, loc);
    for j := 0 to |loc|
      invariant r == base + FlatMap(LocatorFieldLines, loc[..j])
    {
      var next := PushField(r, loc[j]);
      Pushed(base, LocatorFieldLines, loc, j, r, next);
      r := next;
    }
    Regroup3(lines, [OpLine(op)], FlatMap(LocatorFieldLines, loc));
  }

  method PushLocators(lines: seq<string>, locators: Option<LocatorBag>) returns (r: seq<string>)
    ensures r == lines + LocatorLines(locators)
  {
    r := lines;
    if locators.None? || locators.value == [] {
      return;
    }
    var bag := locators.value;
    r := r + [Indent(4) + "locators:"];
    ghost var base := r;
    PushedAll(base, OpLines, bag);
    for i := 0 to |bag|
      invariant r == base + FlatMap(OpLines, bag[..i])
    {
      var next := PushOp(r, bag[i].0, bag[i].1);
      assert bag[i] == (bag[i].0, bag[i].1);
      Pushed(base, OpLines, bag, i, r, next);
      r := next;
    }
    AppendAssoc(lines, [Indent(4) + "locators:"], FlatMap(OpLines, bag));
  }

  lemma AppendAssoc<A>(a: seq<A>, b: seq<A>, c: seq<A>)
    ensures a + b + c == a + (b + c)
  {}

  method PushVars(lines: seq<string>, vars: Option<LocatorVars>) returns (r: seq<string>)
    ensures r == lines + VarLines(vars)
  {
    r := lines;
    if vars.None? || vars.value == [] {
      return;
    }
    r := r + [Indent(4) + "locator_vars:"];
    for i := 0 to |vars.value|
      invariant r == lines + [Indent(4) + "locator_vars:"] + FlatMap(VarLine, vars.value[..i])
    {
      FlatMapPrefix(VarLine, vars.value, i);
      r := r + [FieldLine(6, vars.value[i].0, DumpScalar(vars.value[i].1))];
    }
    assert vars.value[..|vars.value|] == vars.value;
    VarShape(lines, vars);
  }

  lemma VarShape(lines: seq<string>, vars: Option<LocatorVars>)
    requires vars.Some? && vars.value != []
    ensures lines + [Indent(4) + "locator_vars:"] + FlatMap(VarLine, vars.value) == lines + VarLines(vars)
  {}

  method PushOptional(lines: seq<string>, key: string, value: Option<string>) returns (r: seq<string>)
    ensures r == lines + OptionalLine(key, value)
  {
    r := lines;
    if value.Some? && value.value != "" {
      r := r + [FieldLine(4, key, DumpScalar(value.value))];
    }
  }

  method PushInstruction(lines: seq<string>, instruction: string) returns (r: seq<string>)
    ensures r == lines + InstructionLines(instruction)
  {
    var multiline := '\n' in instruction;
    r := lines + [Indent(2) + "- instruction: " + (if multiline then "|" else DumpScalar(instruction))];
    if multiline {
      r := PushIndented(r, 6, instruction);
    }
  }

  lemma Concat6<A>(l: seq<A>, a: seq<A>, b: seq<A>, c: seq<A>, d: seq<A>, e: seq<A>, f: seq<A>)
    ensures l + a + b + c + d + e + f == l + (a + b + c + d + e + f)
  {}

  method PushStep(lines: seq<string>, step: Step) returns (r: seq<string>)
    ensures r == lines + StepLines(step)
  {
    r := PushInstruction(lines, step.instruction);
    r := PushOptional(r, "site_profile_id", step.siteProfileId);
    r := PushOptional(r, "kind", step.kind);
    r := PushOptional(r, "title", step.title);
    r := PushLocators(r, step.locators);
    r := PushVars(r, step.locatorVars);
    Concat6(lines, InstructionLines(step.instruction), OptionalLine("site_profile_id", step.siteProfileId),
            OptionalLine("kind", step.kind), OptionalLine("title", step.title), LocatorLines(step.locators),
            VarLines(step.locatorVars));
  }

  method PushHeader(lines: seq<string>, meta: Meta) returns (r: seq<string>)
    ensures r == lines + (NameLines(meta) + DescriptionLines(meta))
  {
    r := lines;
    if meta.name != "" {
      r := r + ["name: " + DumpScalar(meta.name)];
    }
    assert r == lines + NameLines(meta);
    r := PushDescription(r, meta);
    Regroup3(lines, NameLines(meta), DescriptionLines(meta));
  }

  lemma Regroup3<A>(a: seq<A>, b: seq<A>, c: seq<A>)
    ensures a + b + c == a + (b + c)
  {}

  method PushDescription(lines: seq<string>, meta: Meta) returns (r: seq<string>)
    ensures r == lines + DescriptionLines(meta)
  {
    r := lines;
    if meta.description != "" {
      if '\n' in meta.description {
        r := r + ["description: |"];
        r := PushIndented(r, 2, meta.description);
        Regroup3(lines, ["description: |"], IndentAll(2, SplitLines(meta.description)));
      } else {
        r := r + ["description: " + DumpScalar(meta.description)];
      }
    }
  }

  method PushTriggers(lines: seq<string>, triggers: seq<string>) returns (r: seq<string>)
    ensures r == lines + TriggerLines(triggers)
  {
    r := lines;
    if triggers == [] {
      return;
    }
    r := r + ["triggers:"];
    ghost var base := r;
    PushedAll(base, TriggerLine, triggers);
    for i := 0 to |triggers|
      invariant r == base + FlatMap(TriggerLine, triggers[..i])
    {
      var next := r + [Indent(2) + "- " + DumpScalar(triggers[i])];
      Pushed(base, TriggerLine, triggers, i, r, next);
      r := next;
    }
    AppendAssoc(lines, ["triggers:"], FlatMap(TriggerLine, triggers));
  }

  method PushSteps(lines: seq<string>, steps: seq<Step>) returns (r: seq<string>)
    ensures r == lines + FlatMap(StepLines, steps)
  {
    r := lines;
    PushedAll(lines, StepLines, steps);
    for i := 0 to |steps|
      invariant r == lines + FlatMap(StepLines, steps[..i])
    {
      var next := PushStep(r, steps[i]);
      Pushed(lines, StepLines, steps, i, r, next);
      r := next;
    }
  }

  lemma Sandwich<A>(l: seq<A>, a: seq<A>, b: seq<A>, c: seq<A>, d: seq<A>, e: seq<A>)
    ensures l + (a + b) + c + d + e == l + (a + b + c + d + e)
  {}

  lemma DocumentShape(draft: Draft, meta: Meta, lines: seq<string>)
    requires lines == ["---"] + (NameLines(meta) + DescriptionLines(meta)) + TriggerLines(draft.triggers)
                      + ["steps:"] + FlatMap(StepLines, draft.steps)
    ensures lines == ["---"] + MiddleLines(draft, meta)
  {
    Sandwich(["---"], NameLines(meta), DescriptionLines(meta), TriggerLines(draft.triggers), ["steps:"],
             FlatMap(StepLines, draft.steps));
  }

  /** Prints a draft; reading the text back gives the draft exactly when the draft is storable. */
  method EncodeCompositeSkill(draft: Draft, meta: Meta) returns (text: string)
    ensures text == Encoded(draft, meta)
    ensures DraftInDomain(draft) && MetaInDomain(meta) ==> (Decoded(text) == draft <==> Storable(draft))
    ensures DraftInDomain(draft) && MetaInDomain(meta) ==> HeaderReads(text, draft, meta)
  {
    var lines := PushHeader(["---"], meta);
    lines := PushTriggers(lines, draft.triggers);
    lines := PushSteps(lines + ["steps:"], draft.steps);
    DocumentShape(draft, meta, lines);
    text := JoinLines(lines + ["---"]) + "\n";
    if DraftInDomain(draft) && MetaInDomain(meta) {
      RoundTrip(draft, meta);
      HeaderRoundTrip(draft, meta);
    }
  }

  method FlushStep(steps: seq<Step>, current: Option<Step>) returns (r: seq<Step>)
    ensures r == Flush(Decoder([], steps, NoSection, NoNested, "", current)).steps
  {
    r := steps;
    if current.Some? && Trim(current.value.instruction) != "" {
      r := r + [current.value];
    }
  }

  /** One line inside a step: the branches from the key pattern down to the continuation pattern. */
  method ReadStepLine(step: Step, nested: Nested, nestedOp: string, line: string)
    returns (step': Step, nested': Nested, nestedOp': string)
    ensures forall triggers, steps, section ::
      InStep(Decoder(triggers, steps, section, nested, nestedOp, Some(step)), step, line)
      == Decoder(triggers, steps, section, nested', nestedOp', Some(step'))
  {
    step', nested', nestedOp' := step, nested, nestedOp;
    var kv := FieldValueOf(line, 4);
    if kv.Some? {
      var key, val := kv.value.0, kv.value.1;
      nested' := NoNested;
      if key == "site_profile_id" {
        step' := step.(siteProfileId := Some(val));
      } else if key == "kind" {
        step' := step.(kind := Some(val));
      } else if key == "title" {
        step' := step.(title := Some(val));
      } else if key == "locators" {
        step', nested', nestedOp' := step.(locators := Some([])), Locators, "";
      } else if key == "locator_vars" {
        step', nested' := step.(locatorVars := Some([])), Vars;
      }
      return;
    }
    if nested == Locators {
      var opLine := Field(line, 6);
      if opLine.Some? && AllSpaces(opLine.value.1) {
        nestedOp' := opLine.value.0;
        if step.locators.Some? {
          step' := step.(locators := Some(Put(step.locators.value, nestedOp', [])));
        }
        return;
      }
      var locKv := FieldValueOf(line, 8);
      if locKv.Some? && nestedOp != "" && step.locators.Some? {
        var loc := Lookup(step.locators.value, nestedOp);
        if loc.Some? {
          var k, v := locKv.value.0, locKv.value.1;
          var fields := loc.value;
          if k == "nth" {
            var n := ParseInt(v);
            if n.Some? {
              fields := Put(fields, k, Number(n.value));
            }
          } else {
            fields := Put(fields, k, Text(v));
          }
          step' := step.(locators := Some(Put(step.locators.value, nestedOp, fields)));
        }
      }
      return;
    }
    if nested == Vars {
      var kv2 := FieldValueOf(line, 6);
      if kv2.Some? {
        var vars := if step.locatorVars.Some? then step.locatorVars.value else [];
        step' := step.(locatorVars := Some(Put(vars, kv2.value.0, kv2.value.1)));
      }
      return;
    }
    if |line| >= 6 && AllSpaces(line[..6]) && NoTerminator(line[6..]) {
      step' := step.(instruction := (if step.instruction != "" then step.instruction + "\n" else "") + line[6..]);
    }
  }

  /** Reads a document back, line by line. */
  method DecodeCompositeSkill(markdown: string) returns (draft: Draft)
    ensures draft == Decoded(markdown)
  {
    var m := FrontMatter(markdown, 0);
    if m.None? {
      return Draft([], []);
    }
    var body := BodyLines(m.value);
    var triggers: seq<string>, steps: seq<Step> := [], [];
    var section, nested, nestedOp := NoSection, NoNested, "";
    var currentStep: Option<Step> := None;
    for i := 0 to |body|
      invariant Decoder(triggers, steps, section, nested, nestedOp, currentStep) == DecodeLines(START, body[..i])
    {
      TakeNext(body, i);
      DecodeConcat(START, body[..i], [body[i]]);
      var line := body[i];
      var top := Field(line, 0);
      if top.Some? {
        steps := FlushStep(steps, currentStep);
        currentStep := None;
        if top.value.0 == "triggers" && AllSpaces(top.value.1) {
          section := Triggers;
        } else if top.value.0 == "steps" && AllSpaces(top.value.1) {
          section := Steps;
        } else {
          section := NoSection;
        }
        continue;
      }
      if section == Triggers {
        var item := TriggerItem(line);
        if item.Some? && item.value != "" {
          triggers := triggers + [item.value];
        }
        continue;
      }
      if section == Steps {
        var newItem := NewItem(line);
        if newItem.Some? {
          steps := FlushStep(steps, currentStep);
          var raw := newItem.value;
          currentStep := Some(Step(if raw == "|" then "" else raw, None, None, None, None, None));
          nested, nestedOp := NoNested, "";
          continue;
        }
        if currentStep.Some? {
          var step: Step;
          step, nested, nestedOp := ReadStepLine(currentStep.value, nested, nestedOp, line);
          currentStep := Some(step);
        }
      }
    }
    assert body[..|body|] == body;
    steps := FlushStep(steps, currentStep);
    draft := Draft(triggers, steps);
  }
}
