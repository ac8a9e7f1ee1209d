/**
 * The test builder page's state and its editing operations: the test name and
 * description, the ordered step list, the selected step, the YAML text pane
 * and its error line, and which tab is shown.
 *
 * Each React state update becomes an assignment to a field. The effect that
 * re-renders the YAML pane whenever the steps, name, description or tab
 * change while the YAML tab is shown is folded into every method that changes
 * one of those. `generateId` is modelled by a counter `nextId` whose values
 * are handed out once each.
 */
module Editor {
  import opened Wrappers
  import opened Text
  import opened Decimal
  import opened Steps
  import opened Catalog
  import opened Transcoder

  datatype Tab = VisualTab | YamlTab

  datatype Direction = Up | Down

  /** Every identifier lies below `bound` and no two steps share one. */
  predicate FreshIds(steps: seq<Step>, bound: nat)
  {
    (forall i :: 0 <= i < |steps| ==> steps[i].id < bound)
    && forall i, j :: 0 <= i < j < |steps| ==> steps[i].id != steps[j].id
  }

  // ------------------------------------------------------- pure operations

  /** The step `addStep(kind)` creates: catalogue defaults, and the catalogue caption as its description. */
  function NewStep(kind: string, id: nat): (st: Step)
    ensures st.id == id && st.kind == kind
    ensures st.params == DefaultParams(kind)
    ensures Find(kind).None? ==> st.description == "" && st.params == []
  {
    Step(id, kind, if Find(kind).Some? then Find(kind).value.caption else "", DefaultParams(kind))
  }

  /** `steps.filter((s) => s.id !== id)`. */
  function WithoutId(steps: seq<Step>, id: nat): (r: seq<Step>)
    ensures |r| <= |steps|
    ensures forall s :: s in r <==> s in steps && s.id != id
    ensures (forall s :: s in steps ==> s.id != id) ==> r == steps
  {
    if |steps| == 0 then []
    else if steps[0].id == id then WithoutId(steps[1..], id)
    else [steps[0]] + WithoutId(steps[1..], id)
  }

  /** Deleting piece by piece: the pieces' results joined, so the other steps stay in order. */
  lemma {:induction false} WithoutIdAppend(a: seq<Step>, b: seq<Step>, id: nat)
    ensures WithoutId(a + b, id) == WithoutId(a, id) + WithoutId(b, id)
    ensures |a| == 1 ==> WithoutId(a, id) == if a[0].id == id then [] else a
    decreases |a|
  {
    if |a| == 0 {
      assert a + b == b;
    } else {
      assert (a + b)[0] == a[0] && (a + b)[1..] == a[1..] + b;
      WithoutIdAppend(a[1..], b, id);
      assert |a| == 1 ==> a[1..] == [];
    }
  }

  /** The slot `moveStep(index, direction)` swaps with. */
  function Target(index: nat, direction: Direction): int
  {
    if direction == Up then index - 1 else index + 1
  }

  /** `moveStep`'s new list: the two slots swapped, or the list unchanged when the target is outside it. */
  function Moved(steps: seq<Step>, index: nat, direction: Direction): (r: seq<Step>)
    requires index < |steps|
    ensures |r| == |steps| && multiset(r) == multiset(steps)
    ensures var t := Target(index, direction);
      if 0 <= t < |steps| then
        r[index] == steps[t] && r[t] == steps[index]
        && forall k :: 0 <= k < |steps| && k != index && k != t ==> r[k] == steps[k]
      else r == steps
  {
    var t := Target(index, direction);
    if t < 0 || t >= |steps| then steps
    else steps[index := steps[t]][t := steps[index]]
  }

  /** `{ ...s, params: { ...s.params, [key]: v } }` applied to every step with identifier `id`. */
  function WithParam(steps: seq<Step>, id: nat, key: string, v: Value): (r: seq<Step>)
    ensures |r| == |steps|
    ensures forall i :: 0 <= i < |steps| ==>
      r[i].id == steps[i].id && r[i].kind == steps[i].kind && r[i].description == steps[i].description
    ensures forall i :: 0 <= i < |steps| && steps[i].id != id ==> r[i] == steps[i]
  {
    seq(|steps|, i requires 0 <= i < |steps| =>
      if steps[i].id == id then steps[i].(params := Assign(steps[i].params, key, v)) else steps[i])
  }

  /** `{ ...s, description }` applied to every step with identifier `id`. */
  function WithDescription(steps: seq<Step>, id: nat, description: string): (r: seq<Step>)
    ensures |r| == |steps|
    ensures forall i :: 0 <= i < |steps| ==>
      r[i].id == steps[i].id && r[i].kind == steps[i].kind && r[i].params == steps[i].params
      && r[i].description == (if steps[i].id == id then description else steps[i].description)
  {
    seq(|steps|, i requires 0 <= i < |steps| =>
      if steps[i].id == id then steps[i].(description := description) else steps[i])
  }

  /** The name `handleSave` stores the document under: white-space runs become `_`, then the time stamp and `.yaml`. */
  function SaveFileName(testName: string, timestamp: nat): (f: string)
    ensures forall i :: 0 <= i < |f| ==> !IsSpace(f[i])
    ensures |f| >= 7 && f[|f| - 5..] == ".yaml"
  {
    var stem := UnderscoreSpaceRuns(testName);
    var stamp := NatToString(timestamp);
    assert forall i :: 0 <= i < |stamp| ==> !IsSpace(stamp[i]) by {
      assert AllDigits(stamp);
    }
    stem + "_" + stamp + ".yaml"
  }

  /**
   * The save name reads back as its parts: the name with its white-space
   * runs turned into `_` (see `UnderscoreJoin`), a `_`, and digits whose
   * value is the time stamp.
   */
  lemma SaveFileNameParts(testName: string, timestamp: nat)
    ensures var f := SaveFileName(testName, timestamp);
      var stem := UnderscoreSpaceRuns(testName);
      |stem| + 6 < |f| && f[..|stem|] == stem && f[|stem|] == '_'
      && AllDigits(f[|stem| + 1..|f| - 5]) && DigitsValue(f[|stem| + 1..|f| - 5]) == timestamp
  {
    var f := SaveFileName(testName, timestamp);
    var stem := UnderscoreSpaceRuns(testName);
    var stamp := NatToString(timestamp);
    assert f == stem + "_" + stamp + ".yaml";
    assert f[..|stem|] == stem;
    assert f[|stem| + 1..|f| - 5] == stamp;
    NatRoundTrip(timestamp);
  }

  // ---------------------------------------------------- what the edits keep

  /** A new step holds every parameter of its catalogue entry, each at its default. */
  lemma NewStepDefaults(t: StepTypeInfo, id: nat, p: ParamSpec)
    requires t in StepTypes && p in t.params
    ensures Lookup(NewStep(t.kind, id).params, p.name) == Some(p.defaultValue)
    ensures NewStep(t.kind, id).description == t.caption
  {
    EntryFacts(t);
    var ps := DefaultParams(t.kind);
    var k :| 0 <= k < |t.params| && t.params[k] == p;
    assert forall i :: 0 <= i < |ps| ==> ps[i].0 == t.params[i].name;
    LookupAt(ps, k);
  }

  /** In a parameter list with distinct keys, an entry's key reads its value. */
  lemma {:induction false} LookupAt(ps: Params, k: nat)
    requires k < |ps|
    requires forall i, j :: 0 <= i < j < |ps| ==> ps[i].0 != ps[j].0
    ensures Lookup(ps, ps[k].0) == Some(ps[k].1)
  {
    if k > 0 {
      LookupAt(ps[1..], k - 1);
    }
  }

  /** The edited steps read `v` under `key`, and every other read is unchanged. */
  lemma WithParamReads(steps: seq<Step>, id: nat, key: string, v: Value, i: nat, k: string)
    requires i < |steps|
    ensures Lookup(WithParam(steps, id, key, v)[i].params, k)
      == if steps[i].id == id && k == key then Some(v) else Lookup(steps[i].params, k)
  {
    if steps[i].id == id {
      AssignLookup(steps[i].params, key, v, k);
    }
  }

  /** Moving a step up and then moving it back down restores the list. */
  lemma MoveUpThenDown(steps: seq<Step>, index: nat)
    requires 0 < index < |steps|
    ensures Moved(Moved(steps, index, Up), index - 1, Down) == steps
  {
  }

  lemma {:induction false} WithoutIdKeepsFresh(steps: seq<Step>, id: nat, bound: nat)
    requires FreshIds(steps, bound)
    ensures FreshIds(WithoutId(steps, id), bound)
    ensures forall s :: s in WithoutId(steps, id) ==> s.id != id
  {
    if |steps| > 0 {
      var rest := WithoutId(steps[1..], id);
      WithoutIdKeepsFresh(steps[1..], id, bound);
      if steps[0].id != id {
        var r := [steps[0]] + rest;
        forall j | 0 < j < |r| ensures r[0].id != r[j].id {
          assert r[j] in steps[1..];
        }
      }
    }
  }

  /** Steps numbered consecutively from `firstId` hold fresh identifiers below the next number. */
  lemma FreshAppend(steps: seq<Step>, st: Step, bound: nat)
    requires FreshIds(steps, bound) && st.id == bound
    ensures FreshIds(steps + [st], bound + 1)
  {
  }

  lemma ConsecutiveFresh(steps: seq<Step>, firstId: nat)
    requires forall i :: 0 <= i < |steps| ==> steps[i].id == firstId + i
    ensures FreshIds(steps, firstId + |steps|)
  {
  }

  lemma MovedKeepsFresh(steps: seq<Step>, index: nat, direction: Direction, bound: nat)
    requires index < |steps| && FreshIds(steps, bound)
    ensures FreshIds(Moved(steps, index, direction), bound)
  {
  }

  // ----------------------------------------------------- the page's state

  class TestBuilder {
    var testName: string
    var testDescription: string
    var steps: seq<Step>
    var selectedStep: Option<Step>
    var yamlContent: string
    var yamlError: Option<string>
    var activeTab: Tab
    /** The next identifier `generateId` hands out. */
    var nextId: nat

    ghost predicate Valid()
      reads this
    {
      FreshIds(steps, nextId)
    }

    /** What the YAML pane shows once the synchronising effect has run after a change, given what it showed before. */
    function Synced(previous: string): string
      reads this
    {
      if activeTab == YamlTab then StepsToYaml(testName, testDescription, steps) else previous
    }

    /** The page's initial state: a four-step skeleton on the visual tab. */
    constructor ()
      ensures Valid()
      ensures testName == "New Motor Test" && testDescription == "Test description"
      ensures steps == [
        Step(0, "start_motor", "Initialize motor", []),
        Step(1, "set_speed", "Set target speed", [("rpm", Num(Int(1500)))]),
        Step(2, "wait", "Wait for stabilization", [("duration_s", Num(Int(5)))]),
        Step(3, "stop_motor", "Stop motor", [])]
      ensures selectedStep == None && yamlContent == "" && yamlError == None
      ensures activeTab == VisualTab && nextId == 4
    {
      testName := "New Motor Test";
      testDescription := "Test description";
      steps := [
        Step(0, "start_motor", "Initialize motor", []),
        Step(1, "set_speed", "Set target speed", [("rpm", Num(Int(1500)))]),
        Step(2, "wait", "Wait for stabilization", [("duration_s", Num(Int(5)))]),
        Step(3, "stop_motor", "Stop motor", [])];
      selectedStep := None;
      yamlContent := "";
      yamlError := None;
      activeTab := VisualTab;
      nextId := 4;
    }

    /** `addStep(kind)`: appends a fresh step with the catalogue defaults and selects it. */
    method AddStep(kind: string)
      requires Valid()
      modifies this
      ensures Valid()
      ensures steps == old(steps) + [NewStep(kind, old(nextId))]
      ensures selectedStep == Some(NewStep(kind, old(nextId)))
      ensures nextId == old(nextId) + 1
      ensures testName == old(testName) && testDescription == old(testDescription)
      ensures activeTab == old(activeTab) && yamlError == old(yamlError)
      ensures yamlContent == Synced(old(yamlContent))
    {
      var st := NewStep(kind, nextId);
      FreshAppend(steps, st, nextId);
      steps := steps + [st];
      selectedStep := Some(st);
      nextId := nextId + 1;
      SyncYaml();
    }

    /** `removeStep(id)`: drops the steps with that identifier and clears a selection that had it. */
    method RemoveStep(id: nat)
      requires Valid()
      modifies this
      ensures Valid()
      ensures steps == WithoutId(old(steps), id)
      ensures forall s :: s in steps ==> s.id != id
      ensures selectedStep == if old(selectedStep).Some? && old(selectedStep).value.id == id then None else old(selectedStep)
      ensures testName == old(testName) && testDescription == old(testDescription) && nextId == old(nextId)
      ensures activeTab == old(activeTab) && yamlError == old(yamlError)
      ensures yamlContent == Synced(old(yamlContent))
    {
      WithoutIdKeepsFresh(steps, id, nextId);
      steps := WithoutId(steps, id);
      if selectedStep.Some? && selectedStep.value.id == id {
        selectedStep := None;
      }
      SyncYaml();
    }

    /**
     * `moveStep(index, direction)`: swaps two slots of a copy of the list, or
     * returns without touching anything when the target slot does not exist.
     */
    method MoveStep(index: nat, direction: Direction)
      requires Valid() && index < |steps|
      modifies this
      ensures Valid()
      ensures steps == Moved(old(steps), index, direction)
      ensures selectedStep == old(selectedStep) && nextId == old(nextId)
      ensures testName == old(testName) && testDescription == old(testDescription)
      ensures activeTab == old(activeTab) && yamlError == old(yamlError)
      ensures var t := Target(index, direction);
        yamlContent == if 0 <= t < |old(steps)| then Synced(old(yamlContent)) else old(yamlContent)
    {
      var t := Target(index, direction);
      if t < 0 || t >= |steps| {
        return;
      }
      var copy := new Step[|steps|](i requires 0 <= i < |steps| reads this => steps[i]);
      assert copy[..] == steps;
      copy[index], copy[t] := copy[t], copy[index];
      assert copy[..] == steps[index := steps[t]][t := steps[index]];
      MovedKeepsFresh(steps, index, direction, nextId);
      steps := copy[..];
      SyncYaml();
    }

    /** `updateStepParam(id, key, v)`: writes the parameter on every step with that identifier, and on the selected copy. */
    method UpdateStepParam(id: nat, key: string, v: Value)
      requires Valid()
      modifies this
      ensures Valid()
      ensures steps == WithParam(old(steps), id, key, v)
      ensures selectedStep == if old(selectedStep).Some? && old(selectedStep).value.id == id
        then Some(old(selectedStep).value.(params := Assign(old(selectedStep).value.params, key, v)))
        else old(selectedStep)
      ensures testName == old(testName) && testDescription == old(testDescription) && nextId == old(nextId)
      ensures activeTab == old(activeTab) && yamlError == old(yamlError)
      ensures yamlContent == Synced(old(yamlContent))
    {
      steps := WithParam(steps, id, key, v);
      if selectedStep.Some? && selectedStep.value.id == id {
        selectedStep := Some(selectedStep.value.(params := Assign(selectedStep.value.params, key, v)));
      }
      SyncYaml();
    }

    /** `updateStepDescription(id, d)`: sets the description of every step with that identifier, and of the selected copy. */
    method UpdateStepDescription(id: nat, description: string)
      requires Valid()
      modifies this
      ensures Valid()
      ensures steps == WithDescription(old(steps), id, description)
      ensures selectedStep == if old(selectedStep).Some? && old(selectedStep).value.id == id
        then Some(old(selectedStep).value.(description := description))
        else old(selectedStep)
      ensures testName == old(testName) && testDescription == old(testDescription) && nextId == old(nextId)
      ensures activeTab == old(activeTab) && yamlError == old(yamlError)
      ensures yamlContent == Synced(old(yamlContent))
    {
      steps := WithDescription(steps, id, description);
      if selectedStep.Some? && selectedStep.value.id == id {
        selectedStep := Some(selectedStep.value.(description := description));
      }
      SyncYaml();
    }

    /** Clicking a step card selects it; nothing the pane depends on changes. */
    method SelectStep(st: Step)
      modifies this
      ensures selectedStep == Some(st)
      ensures steps == old(steps) && nextId == old(nextId) && yamlContent == old(yamlContent)
      ensures testName == old(testName) && testDescription == old(testDescription)
      ensures activeTab == old(activeTab) && yamlError == old(yamlError)
    {
      selectedStep := Some(st);
    }

    /** The name field; the pane is refreshed only when the value actually changes. */
    method SetTestName(name: string)
      modifies this
      ensures testName == name
      ensures steps == old(steps) && selectedStep == old(selectedStep) && nextId == old(nextId)
      ensures testDescription == old(testDescription) && activeTab == old(activeTab) && yamlError == old(yamlError)
      ensures yamlContent == if name != old(testName) then Synced(old(yamlContent)) else old(yamlContent)
    {
      if name != testName {
        testName := name;
        SyncYaml();
      }
    }

    /** The description field; the pane is refreshed only when the value actually changes. */
    method SetTestDescription(description: string)
      modifies this
      ensures testDescription == description
      ensures steps == old(steps) && selectedStep == old(selectedStep) && nextId == old(nextId)
      ensures testName == old(testName) && activeTab == old(activeTab) && yamlError == old(yamlError)
      ensures yamlContent == if description != old(testDescription) then Synced(old(yamlContent)) else old(yamlContent)
    {
      if description != testDescription {
        testDescription := description;
        SyncYaml();
      }
    }

    /** Switching tabs; switching to the YAML tab renders the current test into the pane. */
    method SetActiveTab(tab: Tab)
      modifies this
      ensures activeTab == tab
      ensures steps == old(steps) && selectedStep == old(selectedStep) && nextId == old(nextId)
      ensures testName == old(testName) && testDescription == old(testDescription) && yamlError == old(yamlError)
      ensures yamlContent == if tab != old(activeTab) then Synced(old(yamlContent)) else old(yamlContent)
    {
      if tab != activeTab {
        activeTab := tab;
        SyncYaml();
      }
    }

    /**
     * `handleYamlChange(text)`: the pane takes the typed text; a document the
     * page's reader accepts replaces the name, description and steps (with
     * fresh identifiers), one it rejects sets the error and keeps everything
     * else. The reader is the one the page runs, so the first step's kind
     * keeps its `- step: ` marker.
     */
    method HandleYamlChange(text: string)
      requires Valid()
      modifies this
      ensures Valid()
      ensures selectedStep == old(selectedStep) && activeTab == old(activeTab)
      ensures ParseYamlAsWritten(text, old(nextId)).None? ==>
        yamlError == Some("Invalid YAML syntax") && yamlContent == text
        && testName == old(testName) && testDescription == old(testDescription)
        && steps == old(steps) && nextId == old(nextId)
      ensures ParseYamlAsWritten(text, old(nextId)).Some? ==>
        var parsed := ParseYamlAsWritten(text, old(nextId)).value;
        yamlError == None && testName == parsed.name && testDescription == parsed.description
        && steps == parsed.steps && nextId == old(nextId) + |parsed.steps|
        && yamlContent == (if activeTab == YamlTab then StepsToYaml(testName, testDescription, steps) else text)
    {
      var parsed := YamlToSteps(text, nextId);
      Accept(text, parsed);
    }

    /** `handleYamlChange` with the corrected reader, under which every step's kind loses its marker. */
    method HandleYamlChangeCorrected(text: string)
      requires Valid()
      modifies this
      ensures Valid()
      ensures selectedStep == old(selectedStep) && activeTab == old(activeTab)
      ensures ParseYaml(text, old(nextId)).None? ==>
        yamlError == Some("Invalid YAML syntax") && yamlContent == text
        && testName == old(testName) && testDescription == old(testDescription)
        && steps == old(steps) && nextId == old(nextId)
      ensures ParseYaml(text, old(nextId)).Some? ==>
        var parsed := ParseYaml(text, old(nextId)).value;
        yamlError == None && testName == parsed.name && testDescription == parsed.description
        && steps == parsed.steps && nextId == old(nextId) + |parsed.steps|
        && yamlContent == (if activeTab == YamlTab then StepsToYaml(testName, testDescription, steps) else text)
    {
      var parsed := YamlToStepsCorrected(text, nextId);
      Accept(text, parsed);
    }

    /** The pane takes `text`, then the reader's result is loaded, or the error is shown when there is none. */
    method Accept(text: string, parsed: Option<TestDefinition>)
      requires Valid()
      requires parsed.Some? ==> forall i :: 0 <= i < |parsed.value.steps| ==> parsed.value.steps[i].id == nextId + i
      modifies this
      ensures Valid()
      ensures selectedStep == old(selectedStep) && activeTab == old(activeTab)
      ensures parsed.None? ==>
        yamlError == Some("Invalid YAML syntax") && yamlContent == text
        && testName == old(testName) && testDescription == old(testDescription)
        && steps == old(steps) && nextId == old(nextId)
      ensures parsed.Some? ==>
        yamlError == None && testName == parsed.value.name && testDescription == parsed.value.description
        && steps == parsed.value.steps && nextId == old(nextId) + |parsed.value.steps|
        && yamlContent == (if activeTab == YamlTab then StepsToYaml(testName, testDescription, steps) else text)
    {
      yamlContent := text;
      if parsed.None? {
        yamlError := Some("Invalid YAML syntax");
      } else {
        Load(parsed.value);
      }
    }

    /** The accepted document's name, description and steps replace the test's; the steps' identifiers run on from `nextId`. */
    method Load(t: TestDefinition)
      requires forall i :: 0 <= i < |t.steps| ==> t.steps[i].id == nextId + i
      modifies this
      ensures Valid()
      ensures yamlError == None && testName == t.name && testDescription == t.description
      ensures steps == t.steps && nextId == old(nextId) + |t.steps|
      ensures selectedStep == old(selectedStep) && activeTab == old(activeTab)
      ensures yamlContent == Synced(old(yamlContent))
    {
      ConsecutiveFresh(t.steps, nextId);
      yamlError := None;
      testName := t.name;
      testDescription := t.description;
      steps := t.steps;
      nextId := nextId + |t.steps|;
      SyncYaml();
    }

    /** The synchronising effect: while the YAML tab is shown, the pane is re-rendered from the state. */
    method SyncYaml()
      modifies this
      ensures yamlContent == Synced(old(yamlContent))
      ensures steps == old(steps) && selectedStep == old(selectedStep) && nextId == old(nextId)
      ensures testName == old(testName) && testDescription == old(testDescription)
      ensures activeTab == old(activeTab) && yamlError == old(yamlError)
    {
      if activeTab == YamlTab {
        yamlContent := StepsToYaml(testName, testDescription, steps);
      }
    }
  }

  // ------------------------------------------------------- reading a document

  /** The loop over one block's lines, filling the parameters and the description. */
  method ParseBlock(block: string, id: nat) returns (st: Step)
    ensures st == BlockStep(block, id)
  {
    var lines := Split(Trim(block), LineBreak);
    var description := "";
    var params: Params := [];
    var i := 1;
    var done := false;
    while i < |lines| && !done
      invariant 1 <= i <= |lines|
      invariant BlockFields(lines, i, description, params) == BlockFields(lines, 1, "", [])
      invariant done ==> BlockFields(lines, i, description, params) == (description, params)
      decreases |lines| - i, if done then 0 else 1
    {
      var line := Trim(lines[i]);
      if line == "" || line[0] == '-' {
        done := true;
      } else {
        ghost var before := (description, params);
        match FirstKeyValue(line) {
          case None =>
          case Some(kv) =>
            if kv.0 == "description" {
              description := Without(kv.1, '"');
            } else {
              params := Assign(params, kv.0, ParseValue(kv.1));
            }
        }
        assert BlockFields(lines, i, before.0, before.1) == BlockFields(lines, i + 1, description, params);
        i := i + 1;
      }
    }
    st := Step(id, Trim(lines[0]), description, params);
  }

  /** One more block read is one more step, numbered after the others. */
  lemma BlockStepsSnoc(blocks: seq<string>, i: nat, firstId: nat)
    requires i < |blocks|
    ensures BlockSteps(blocks[..i + 1], firstId) == BlockSteps(blocks[..i], firstId) + [BlockStep(blocks[i], firstId + i)]
  {
    NumberedSnoc(blocks, firstId, BlockStep, i);
  }

  lemma OneMoreBlock(blocks: seq<string>, i: nat, firstId: nat, steps: seq<Step>, st: Step)
    requires i < |blocks| && steps == BlockSteps(blocks[..i], firstId) && st == BlockStep(blocks[i], firstId + i)
    ensures steps + [st] == BlockSteps(blocks[..i + 1], firstId)
  {
    BlockStepsSnoc(blocks, i, firstId);
  }

  /** The loop over the blocks: each one parsed in turn, with consecutive identifiers. */
  method ParseBlocks(blocks: seq<string>, firstId: nat) returns (steps: seq<Step>)
    ensures steps == BlockSteps(blocks, firstId)
    ensures forall i :: 0 <= i < |steps| ==> steps[i].id == firstId + i
  {
    steps := [];
    var i := 0;
    while i < |blocks|
      invariant 0 <= i <= |blocks|
      invariant steps == BlockSteps(blocks[..i], firstId)
    {
      var st := ParseBlock(blocks[i], firstId + i);
      OneMoreBlock(blocks, i, firstId, steps, st);
      steps := steps + [st];
      i := i + 1;
    }
    assert blocks[..i] == blocks;
    BlockStepsNumbered(blocks, firstId);
  }

  /** `yamlToSteps`: the section is split on the step marker as it stands. */
  method YamlToSteps(yaml: string, firstId: nat) returns (r: Option<TestDefinition>)
    ensures r == ParseYamlAsWritten(yaml, firstId)
    ensures r.Some? ==> forall i :: 0 <= i < |r.value.steps| ==> r.value.steps[i].id == firstId + i
  {
    var section := SequenceSection(yaml);
    if section.None? {
      return None;
    }
    var t := ReadDocument(yaml, NonEmpty(Split(section.value, StepMarker)), firstId);
    r := Some(t);
  }

  /** `yamlToSteps` with the section split after a leading line break, so every step marker is found. */
  method YamlToStepsCorrected(yaml: string, firstId: nat) returns (r: Option<TestDefinition>)
    ensures r == ParseYaml(yaml, firstId)
    ensures r.Some? ==> forall i :: 0 <= i < |r.value.steps| ==> r.value.steps[i].id == firstId + i
  {
    var section := SequenceSection(yaml);
    if section.None? {
      return None;
    }
    var t := ReadDocument(yaml, NonEmpty(Split("\n" + section.value, StepMarker)), firstId);
    r := Some(t);
  }

  /** The rest of `yamlToSteps` once the blocks are cut: the block loop, then the name and description with their fallbacks. */
  method ReadDocument(yaml: string, blocks: seq<string>, firstId: nat) returns (t: TestDefinition)
    ensures t == Assemble(yaml, blocks, firstId)
    ensures forall i :: 0 <= i < |t.steps| ==> t.steps[i].id == firstId + i
  {
    var steps := ParseBlocks(blocks, firstId);
    var name := FirstQuotedField(yaml, NameLabel);
    var description := FirstQuotedField(yaml, DescriptionLabel);
    t := TestDefinition(
      if name.Some? && name.value != "" then name.value else "Untitled Test",
      if description.Some? && description.value != "" then description.value else "",
      steps);
  }
}
