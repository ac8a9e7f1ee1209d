/**
 * The test builder's YAML transcoder: `stepsToYaml` renders a test name,
 * description and step list through a fixed text template, and `yamlToSteps`
 * reads them back with regular-expression matching instead of a YAML parser.
 *
 * Each regular expression is modelled as a function that matches it at the
 * start of a string ("anchored", the way `split` tries a separator at each
 * position) plus a leftmost search over suffixes (the way `match` scans).
 * Greedy quantifiers and their backtracking are written out per pattern.
 */
module Transcoder {
  import opened Wrappers
  import opened Text
  import opened Decimal
  import opened Steps

  datatype TestDefinition = TestDefinition(name: string, description: string, steps: seq<Step>)

  // ---------------------------------------------------------------- writing

  /** `${value}` for a number: its decimal numeral, or `NaN`. */
  function NumberText(n: Number): string
  {
    match n
    case Int(i) => IntToString(i)
    case NaN => "NaN"
  }

  /** A parameter value as the template writes it: strings quoted, numbers and booleans bare. */
  function ValueText(v: Value): string
  {
    match v
    case Str(s) => "\"" + s + "\""
    case Num(n) => NumberText(n)
    case Bool(b) => if b then "true" else "false"
  }

  function DescriptionLine(d: string): string
  {
    if d == "" then "" else "\n    description: \"" + d + "\""
  }

  function ParamLines(ps: Params): string
  {
    if |ps| == 0 then ""
    else "\n    " + ps[0].0 + ": " + ValueText(ps[0].1) + ParamLines(ps[1..])
  }

  const StepPrefix := "  - step: "

  function StepYaml(st: Step): string
  {
    StepPrefix + st.kind + DescriptionLine(st.description) + ParamLines(st.params)
  }

  /** The step texts joined with a blank line between consecutive steps. */
  function StepsYaml(steps: seq<Step>): string
  {
    if |steps| == 0 then ""
    else if |steps| == 1 then StepYaml(steps[0])
    else StepYaml(steps[0]) + "\n\n" + StepsYaml(steps[1..])
  }

  const InfoKey := "test_info:\n  "
  const NameKey := "name: \""
  const NameEnd := "\"\n  "
  const DescriptionKey := "description: \""
  const DescriptionEnd := "\"\n"
  /** The fixed lines between the test description and the `sequence:` key. */
  const FixedSettings :=
    "  author: \"Test Engineer\"\n"
    + "  version: \"1.0\"\n"
    + "\n"
    + "global_settings:\n"
    + "  sample_rate_hz: 10\n"
    + "  max_test_time_s: 120\n"
    + "\n"
  const SequenceKey := "sequence:\n"

  /** `stepsToYaml(testName, description, steps)`. */
  function StepsToYaml(name: string, description: string, steps: seq<Step>): string
  {
    InfoKey + NameKey + name + NameEnd + DescriptionKey + description + DescriptionEnd
    + FixedSettings + SequenceKey + StepsYaml(steps)
  }

  // ------------------------------------------------------ pattern matching

  /** Length of the longest prefix without a `"` (what a greedy `[^"]+` consumes). */
  function NonQuoteLen(s: string): (n: nat)
    ensures n <= |s|
    ensures forall i :: 0 <= i < n ==> s[i] != '"'
    ensures n < |s| ==> s[n] == '"'
  {
    if |s| == 0 || s[0] == '"' then 0 else 1 + NonQuoteLen(s[1..])
  }

  /** Length of the longest prefix of `\w` characters. */
  function WordLen(s: string): (n: nat)
    ensures n <= |s|
    ensures forall i :: 0 <= i < n ==> IsWordChar(s[i])
    ensures n < |s| ==> !IsWordChar(s[n])
  {
    if |s| == 0 || !IsWordChar(s[0]) then 0 else 1 + WordLen(s[1..])
  }

  /** Length of the longest prefix without a line terminator (what a greedy `.+` consumes). */
  function LineLen(s: string): (n: nat)
    ensures n <= |s|
    ensures forall i :: 0 <= i < n ==> !IsLineTerminator(s[i])
    ensures n < |s| ==> IsLineTerminator(s[n])
  {
    if |s| == 0 || IsLineTerminator(s[0]) then 0 else 1 + LineLen(s[1..])
  }

  /** The last position of `c` in `s`, if any. */
  function LastIndexOf(s: string, c: char): (r: Option<nat>)
    ensures r.None? ==> c !in s
    ensures r.Some? ==> r.value < |s| && s[r.value] == c
    ensures r.Some? ==> forall j :: r.value < j < |s| ==> s[j] != c
  {
    if |s| == 0 then None
    else if s[|s| - 1] == c then Some(|s| - 1)
    else
      assert s == s[..|s| - 1] + [s[|s| - 1]];
      LastIndexOf(s[..|s| - 1], c)
  }

  /** The last position in `s` of a character that is not a line terminator, if any. */
  function LastNonTerminator(s: string): (r: Option<nat>)
    ensures r.None? ==> forall i :: 0 <= i < |s| ==> IsLineTerminator(s[i])
    ensures r.Some? ==> r.value < |s| && !IsLineTerminator(s[r.value])
    ensures r.Some? ==> forall j :: r.value < j < |s| ==> IsLineTerminator(s[j])
  {
    if |s| == 0 then None
    else if !IsLineTerminator(s[|s| - 1]) then Some(|s| - 1)
    else LastNonTerminator(s[..|s| - 1])
  }

  const NameLabel := "name:"
  const DescriptionLabel := "description:"
  const SequenceLabel := "sequence:"
  const StepLabel := "step:"

  /** `key\s*"([^"]+)"` matched at the start of `s`: the captured text. */
  function QuotedFieldAt(s: string, key: string): (r: Option<string>)
    ensures r.Some? ==> |r.value| > 0 && '"' !in r.value
  {
    if !StartsWith(s, key) then None
    else
      var rest := s[|key|..];
      var w := SpaceLen(rest);
      if w == |rest| || rest[w] != '"' then None
      else
        var body := rest[w + 1..];
        var n := NonQuoteLen(body);
        if n == 0 || n == |body| then None else Some(body[..n])
  }

  /** `s.match(/key\s*"([^"]+)"/)?.[1]`: the capture of the leftmost match. */
  function FirstQuotedField(s: string, key: string): (r: Option<string>)
    ensures r.Some? ==> |r.value| > 0 && '"' !in r.value
  {
    if |s| == 0 then None
    else
      match QuotedFieldAt(s, key)
      case Some(v) => Some(v)
      case None => FirstQuotedField(s[1..], key)
  }

  /** The capture is the one at the leftmost position where the pattern matches. */
  lemma {:induction false} FirstQuotedFieldLeftmost(s: string, key: string, i: nat)
    requires i < |s| && QuotedFieldAt(s[i..], key).Some?
    requires forall j :: 0 <= j < i ==> QuotedFieldAt(s[j..], key).None?
    ensures FirstQuotedField(s, key) == QuotedFieldAt(s[i..], key)
    decreases i
  {
    assert s[0..] == s;
    if i > 0 {
      forall j | 0 <= j < i - 1 ensures QuotedFieldAt(s[1..][j..], key).None? {
        assert s[1..][j..] == s[j + 1..];
      }
      assert s[1..][i - 1..] == s[i..];
      FirstQuotedFieldLeftmost(s[1..], key, i - 1);
    }
  }

  /** There is no capture exactly when the pattern matches at no position. */
  lemma {:induction false} FirstQuotedFieldNone(s: string, key: string)
    ensures FirstQuotedField(s, key).None? <==> forall j :: 0 <= j < |s| ==> QuotedFieldAt(s[j..], key).None?
    decreases |s|
  {
    if |s| > 0 {
      assert s[0..] == s;
      FirstQuotedFieldNone(s[1..], key);
      forall j | 0 < j < |s| ensures s[1..][j - 1..] == s[j..] {
      }
    }
  }

  /** The three separators `yamlToSteps` splits on. */
  datatype Separator =
    | SequenceMarker   // /sequence:\s*\n/
    | StepMarker       // /\n\s*-\s+step:\s+/
    | LineBreak        // '\n'

  /** The length of the separator's match at the start of `s`, if it matches there. */
  function SeparatorAt(sep: Separator, s: string): (r: Option<nat>)
    ensures r.Some? ==> 0 < r.value <= |s|
  {
    match sep
    case LineBreak =>
      if |s| > 0 && s[0] == '\n' then Some(1) else None
    case SequenceMarker =>
      // `\s*` is greedy, then gives characters back until a `\n` follows it:
      // the match ends just after the last line break of the white-space run.
      if !StartsWith(s, SequenceLabel) then None
      else
        var rest := s[|SequenceLabel|..];
        (match LastIndexOf(rest[..SpaceLen(rest)], '\n')
         case None => None
         case Some(k) => Some(|SequenceLabel| + k + 1))
    case StepMarker =>
      // Each `\s` run is followed by a character that is not white space, so
      // the greedy runs never need to give anything back.
      if |s| == 0 || s[0] != '\n' then None
      else
        var a := 1 + SpaceLen(s[1..]);
        if a == |s| || s[a] != '-' then None
        else
          var b := SpaceLen(s[a + 1..]);
          var t := s[a + 1 + b..];
          if b == 0 || !StartsWith(t, StepLabel) then None
          else
            var c := SpaceLen(t[|StepLabel|..]);
            if c == 0 then None else Some(a + 1 + b + |StepLabel| + c)
  }

  /**
   * `s.split(separator)`: the pieces between the leftmost non-overlapping
   * matches, tried at every position from left to right.
   */
  function Split(s: string, sep: Separator): (r: seq<string>)
    ensures |r| >= 1
    decreases |s|
  {
    if |s| == 0 then [""]
    else
      match SeparatorAt(sep, s)
      case Some(n) => [""] + Split(s[n..], sep)
      case None =>
        var t := Split(s[1..], sep);
        [[s[0]] + t[0]] + t[1..]
  }

  /** `.filter(Boolean)` on strings: drops the empty ones. */
  function NonEmpty(parts: seq<string>): (r: seq<string>)
    ensures forall p :: p in r <==> p in parts && p != ""
    ensures |r| <= |parts|
  {
    if |parts| == 0 then []
    else if parts[0] == "" then NonEmpty(parts[1..])
    else [parts[0]] + NonEmpty(parts[1..])
  }

  /** Dropping empty parts piece by piece: the pieces' results joined, so the other parts stay in order. */
  lemma {:induction false} NonEmptyAppend(a: seq<string>, b: seq<string>)
    ensures NonEmpty(a + b) == NonEmpty(a) + NonEmpty(b)
    ensures |a| == 1 ==> NonEmpty(a) == if a[0] == "" then [] else a
    decreases |a|
  {
    if |a| == 0 {
      assert a + b == b;
    } else {
      assert (a + b)[0] == a[0] && (a + b)[1..] == a[1..] + b;
      NonEmptyAppend(a[1..], b);
      assert |a| == 1 ==> a[1..] == [];
    }
  }

  // -------------------------------------------------------------- reading

  /** Where `(.+)` starts after `:\s*`: after the greedy white-space run, or backtracked into it. */
  function ValueStart(rest: string): (r: Option<nat>)
    ensures r.Some? ==> r.value < |rest| && !IsLineTerminator(rest[r.value])
  {
    var w := SpaceLen(rest);
    if w < |rest| then Some(w) else LastNonTerminator(rest)
  }

  /** `(\w+):\s*(.+)` matched at the start of `s`: the key and the value captured. */
  function KeyValueAt(s: string): (r: Option<(string, string)>)
    ensures r.Some? ==> |r.value.0| > 0 && |r.value.1| > 0
  {
    var k := WordLen(s);
    if k == 0 || k == |s| || s[k] != ':' then None
    else
      var rest := s[k + 1..];
      match ValueStart(rest)
      case None => None
      case Some(v) => Some((s[..k], rest[v..v + LineLen(rest[v..])]))
  }

  /** `line.match(/(\w+):\s*(.+)/)`: the captures of the leftmost match. */
  function FirstKeyValue(s: string): (r: Option<(string, string)>)
    ensures r.Some? ==> |r.value.0| > 0 && |r.value.1| > 0
  {
    if |s| == 0 then None
    else
      match KeyValueAt(s)
      case Some(kv) => Some(kv)
      case None => FirstKeyValue(s[1..])
  }

  /** JavaScript `Number(text)`: white space trimmed, empty text is 0, a signed integer numeral its value, anything else NaN. */
  function ToNumber(text: string): Number
  {
    var t := Trim(text);
    if t == "" then Int(0)
    else
      match ParseInt(t)
      case Some(i) => Int(i)
      case None => NaN
  }

  /** The coercion of a parameter's value text: booleans, then numbers, then a string with its quotes removed. */
  function ParseValue(text: string): Value
  {
    var clean := Trim(text);
    if clean == "true" then Bool(true)
    else if clean == "false" then Bool(false)
    else if ToNumber(clean).Int? then Num(ToNumber(clean))
    else Str(Without(clean, '"'))
  }

  /** What one trimmed line of a block does in the reader's line loop. */
  datatype LineRead =
    | Stop                                // an empty line or a new list item: `break`
    | Skip                                // no `key: value` match
    | Describe(text: string)              // the `description` key, quotes removed
    | Param(key: string, value: Value)    // any other key, its value coerced

  function ReadLine(line: string): LineRead
  {
    if line == "" || line[0] == '-' then Stop
    else
      match FirstKeyValue(line)
      case None => Skip
      case Some(kv) =>
        if kv.0 == "description" then Describe(Without(kv.1, '"'))
        else Param(kv.0, ParseValue(kv.1))
  }

  /**
   * The `for` loop over a block's lines from `lines[i]` on: it stops at an
   * empty line or one starting with `-`, skips lines without `key: value`,
   * takes `description` lines as the step description and every other key
   * as a parameter.
   */
  function BlockFields(lines: seq<string>, i: nat, description: string, params: Params): (string, Params)
    decreases |lines| - i
  {
    if i >= |lines| then (description, params)
    else
      match ReadLine(Trim(lines[i]))
      case Stop => (description, params)
      case Skip => BlockFields(lines, i + 1, description, params)
      case Describe(text) => BlockFields(lines, i + 1, text, params)
      case Param(key, value) => BlockFields(lines, i + 1, description, Assign(params, key, value))
  }

  /** The step one block describes: its first line is the kind, the rest its fields. */
  function BlockStep(block: string, id: nat): Step
  {
    var lines := Split(Trim(block), LineBreak);
    var fields := BlockFields(lines, 1, "", []);
    Step(id, Trim(lines[0]), fields.0, fields.1)
  }

  /** `f` applied to every text with its position counted from `firstId`. */
  function Numbered<T>(xs: seq<string>, firstId: nat, f: (string, nat) -> T): (r: seq<T>)
    ensures |r| == |xs|
  {
    seq(|xs|, i requires 0 <= i < |xs| => f(xs[i], firstId + i))
  }

  lemma NumberedAt<T>(xs: seq<string>, firstId: nat, f: (string, nat) -> T, i: nat)
    requires i < |xs|
    ensures Numbered(xs, firstId, f)[i] == f(xs[i], firstId + i)
  {
  }

  lemma NumberedSnoc<T>(xs: seq<string>, firstId: nat, f: (string, nat) -> T, i: nat)
    requires i < |xs|
    ensures Numbered(xs[..i + 1], firstId, f) == Numbered(xs[..i], firstId, f) + [f(xs[i], firstId + i)]
  {
    var a := Numbered(xs[..i + 1], firstId, f);
    var b := Numbered(xs[..i], firstId, f);
    forall j | 0 <= j < i ensures a[j] == b[j] {
      assert xs[..i + 1][j] == xs[..i][j];
    }
  }

  /** The steps read from the blocks, the i-th under the identifier firstId + i. */
  function BlockSteps(blocks: seq<string>, firstId: nat): (r: seq<Step>)
    ensures |r| == |blocks|
  {
    Numbered(blocks, firstId, BlockStep)
  }

  /** The reader numbers the steps consecutively from `firstId`, in block order. */
  lemma BlockStepsNumbered(blocks: seq<string>, firstId: nat)
    ensures forall i :: 0 <= i < |blocks| ==> BlockSteps(blocks, firstId)[i].id == firstId + i
  {
    forall i | 0 <= i < |blocks| ensures BlockSteps(blocks, firstId)[i].id == firstId + i {
      NumberedAt(blocks, firstId, BlockStep, i);
    }
  }

  /** The name, description and steps of a document whose step blocks are `blocks`. */
  function Assemble(yaml: string, blocks: seq<string>, firstId: nat): TestDefinition
  {
    var name := FirstQuotedField(yaml, NameLabel);
    var description := FirstQuotedField(yaml, DescriptionLabel);
    TestDefinition(
      if name.Some? && name.value != "" then name.value else "Untitled Test",
      if description.Some? && description.value != "" then description.value else "",
      BlockSteps(blocks, firstId))
  }

  /** The text after the first `sequence:` marker and before any second one, or None when there is none or it is empty. */
  function SequenceSection(yaml: string): Option<string>
  {
    var sections := Split(yaml, SequenceMarker);
    if |sections| < 2 || sections[1] == "" then None else Some(sections[1])
  }

  /**
   * `yamlToSteps` as written: the section is split on `\n\s*-\s+step:\s+`
   * directly, so the first step's own `- step:` line, which follows the
   * `sequence:` marker without a line break of its own, stays in its block.
   * Generated identifiers are `firstId`, `firstId + 1`, ...
   */
  function ParseYamlAsWritten(yaml: string, firstId: nat): Option<TestDefinition>
  {
    match SequenceSection(yaml)
    case None => None
    case Some(section) => Some(Assemble(yaml, NonEmpty(Split(section, StepMarker)), firstId))
  }

  /** `yamlToSteps` with the section split after a leading line break, so every step marker is found. */
  function ParseYaml(yaml: string, firstId: nat): Option<TestDefinition>
  {
    match SequenceSection(yaml)
    case None => None
    case Some(section) => Some(Assemble(yaml, NonEmpty(Split("\n" + section, StepMarker)), firstId))
  }
}
