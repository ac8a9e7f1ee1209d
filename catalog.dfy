/**
 * The step-type catalogue of the test builder: for each step kind its label
 * and the parameters the builder offers, with their types and default values.
 * Icons and colours are presentation only and are not modelled.
 */
module Catalog {
  import opened Wrappers
  import opened Text
  import opened Steps

  datatype ParamType = NumberParam | BooleanParam

  datatype ParamSpec = ParamSpec(name: string, paramType: ParamType, caption: string, defaultValue: Value)

  datatype StepTypeInfo = StepTypeInfo(kind: string, caption: string, params: seq<ParamSpec>)

  const StepTypes: seq<StepTypeInfo> := [
    StepTypeInfo("start_motor", "Start Motor", []),
    StepTypeInfo("set_speed", "Set Speed", [ParamSpec("rpm", NumberParam, "Target RPM", Num(Int(1500)))]),
    StepTypeInfo("apply_load", "Apply Load", [ParamSpec("load_nm", NumberParam, "Torque (Nm)", Num(Int(25)))]),
    StepTypeInfo("wait", "Wait", [ParamSpec("duration_s", NumberParam, "Duration (s)", Num(Int(5)))]),
    StepTypeInfo("monitor", "Monitor", [
      ParamSpec("duration_s", NumberParam, "Duration (s)", Num(Int(10))),
      ParamSpec("check_temperature", BooleanParam, "Check Temperature", Bool(true)),
      ParamSpec("max_temp", NumberParam, "Max Temp (\U{B0}C)", Num(Int(80)))]),
    StepTypeInfo("remove_load", "Remove Load", []),
    StepTypeInfo("stop_motor", "Stop Motor", [])
  ]

  /** `stepTypes.find((s) => s.type === kind)`: the first entry of `types` with that kind. */
  function FindIn(types: seq<StepTypeInfo>, kind: string): (r: Option<StepTypeInfo>)
    ensures r.Some? ==> r.value in types && r.value.kind == kind
    ensures r.None? ==> forall t :: t in types ==> t.kind != kind
  {
    if |types| == 0 then None
    else if types[0].kind == kind then Some(types[0])
    else FindIn(types[1..], kind)
  }

  function Find(kind: string): Option<StepTypeInfo>
  {
    FindIn(StepTypes, kind)
  }

  /** The parameter object `addStep` builds: one entry per catalogue parameter, holding its default. */
  function DefaultParams(kind: string): (r: Params)
    ensures Find(kind).None? ==> r == []
    ensures Find(kind).Some? ==>
      |r| == |Find(kind).value.params|
      && forall i :: 0 <= i < |r| ==>
           r[i] == (Find(kind).value.params[i].name, Find(kind).value.params[i].defaultValue)
  {
    match Find(kind)
    case None => []
    case Some(t) => seq(|t.params|, i requires 0 <= i < |t.params| => (t.params[i].name, t.params[i].defaultValue))
  }

  predicate WellTyped(p: ParamSpec)
  {
    match p.paramType
    case NumberParam => p.defaultValue.Num? && p.defaultValue.n.Int?
    case BooleanParam => p.defaultValue.Bool?
  }

  /**
   * A catalogue entry whose parameters all have a default of their declared
   * type, a name the YAML reader's `\w+` key pattern accepts and other than
   * `description`, and pairwise different names.
   */
  predicate WellFormedEntry(t: StepTypeInfo)
  {
    (forall p :: p in t.params ==> WellTyped(p) && IsWord(p.name) && p.name != "description")
    && forall i, j :: 0 <= i < j < |t.params| ==> t.params[i].name != t.params[j].name
  }

  lemma MonitorNamesAreWords()
    ensures forall p :: p in StepTypes[4].params ==> IsWord(p.name)
  {
    var ps := StepTypes[4].params;
    assert ps == [
      ParamSpec("duration_s", NumberParam, "Duration (s)", Num(Int(10))),
      ParamSpec("check_temperature", BooleanParam, "Check Temperature", Bool(true)),
      ParamSpec("max_temp", NumberParam, "Max Temp (\U{B0}C)", Num(Int(80)))];
    assert IsWord("duration_s") && IsWord("check_temperature") && IsWord("max_temp");
  }

  lemma MonitorDefaultsWellTyped()
    ensures forall p :: p in StepTypes[4].params ==> WellTyped(p) && p.name != "description"
  {
  }

  lemma MonitorNamesDistinct()
    ensures forall i, j :: 0 <= i < j < |StepTypes[4].params| ==>
      StepTypes[4].params[i].name != StepTypes[4].params[j].name
  {
  }

  lemma CatalogParamsWellFormed()
    ensures forall i :: 0 <= i < |StepTypes| ==> WellFormedEntry(StepTypes[i])
  {
    forall i | 0 <= i < |StepTypes| ensures WellFormedEntry(StepTypes[i]) {
      if i == 4 {
        MonitorNamesAreWords();
        MonitorDefaultsWellTyped();
        MonitorNamesDistinct();
      } else if i == 1 {
        assert IsWord("rpm");
      } else if i == 2 {
        assert IsWord("load_nm");
      } else if i == 3 {
        assert IsWord("duration_s");
      }
    }
  }

  lemma {:induction false} FindInFirst(types: seq<StepTypeInfo>, i: nat)
    requires i < |types|
    requires forall j :: 0 <= j < i ==> types[j].kind != types[i].kind
    ensures FindIn(types, types[i].kind) == Some(types[i])
  {
    if i > 0 {
      FindInFirst(types[1..], i - 1);
    }
  }

  lemma KindsDistinct()
    ensures |StepTypes| == 7
    ensures forall i, j :: 0 <= i < j < |StepTypes| ==> StepTypes[i].kind != StepTypes[j].kind
  {
    var kinds := ["start_motor", "set_speed", "apply_load", "wait", "monitor", "remove_load", "stop_motor"];
    assert forall i :: 0 <= i < 7 ==> StepTypes[i].kind == kinds[i];
    assert forall i, j :: 0 <= i < j < 7 ==> kinds[i] != kinds[j];
  }

  /** The seven kinds of the `TestStep` union, each described exactly once, so `find` returns each entry for its own kind. */
  lemma CatalogKinds()
    ensures |StepTypes| == 7
    ensures forall i, j :: 0 <= i < j < |StepTypes| ==> StepTypes[i].kind != StepTypes[j].kind
    ensures forall t :: t in StepTypes ==> Find(t.kind) == Some(t)
  {
    KindsDistinct();
    forall i | 0 <= i < |StepTypes| ensures Find(StepTypes[i].kind) == Some(StepTypes[i]) {
      FindInFirst(StepTypes, i);
    }
  }

  /** What the builder relies on for one catalogue entry: `find` returns it for its kind, and its parameters are well formed. */
  lemma EntryFacts(t: StepTypeInfo)
    requires t in StepTypes
    ensures Find(t.kind) == Some(t) && WellFormedEntry(t)
  {
    CatalogKinds();
    var i :| 0 <= i < |StepTypes| && StepTypes[i] == t;
    CatalogParamsWellFormed();
  }
}
