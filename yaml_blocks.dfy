/**
 * One step through the transcoder: the text `stepsToYaml` writes for a step
 * (after its `- step:` marker) is read back by `yamlToSteps` as the same
 * step, with a fresh identifier, provided the step's texts stay within what
 * the template can carry (no quotes or line breaks inside quoted texts, word
 * keys, integer numbers).
 */
module YamlBlocks {
  import opened Wrappers
  import opened Text
  import opened Decimal
  import opened Steps
  import opened Transcoder
  import opened YamlRoundTrip

  // ------------------------------------------------------ what round-trips

  /** A character the writer may end a line with: neither white space nor a colon. */
  predicate Solid(c: char)
  {
    !IsSpace(c) && c != ':'
  }

  predicate NoLineTerminator(s: string)
  {
    forall i :: 0 <= i < |s| ==> !IsLineTerminator(s[i])
  }

  /** A value the reader gives back unchanged: a quote- and break-free string, an integer, a boolean. */
  predicate ValueReadable(v: Value)
  {
    match v
    case Str(s) => '"' !in s && NoLineTerminator(s)
    case Num(n) => n.Int?
    case Bool(_) => true
  }

  predicate KindReadable(kind: string)
  {
    |kind| > 0 && '\n' !in kind && !IsSpace(kind[0]) && Solid(kind[|kind| - 1])
  }

  predicate DescriptionReadable(d: string)
  {
    '"' !in d && NoLineTerminator(d)
  }

  predicate ParamsReadable(ps: Params)
  {
    DistinctKeys(ps)
    && forall i :: 0 <= i < |ps| ==> IsWord(ps[i].0) && ps[i].0 != "description" && ValueReadable(ps[i].1)
  }

  predicate StepReadable(st: Step)
  {
    KindReadable(st.kind) && DescriptionReadable(st.description) && ParamsReadable(st.params)
  }

  // ------------------------------------------------------------ the text

  /** What the writer puts after `- step: `: the kind, the description line and the parameter lines. */
  function Body(st: Step): string
  {
    st.kind + DescriptionLine(st.description) + ParamLines(st.params)
  }

  /** `description: "d"` as the writer puts it on the description line. */
  function DescriptionField(d: string): string
  {
    "description: \"" + d + "\""
  }

  function DescriptionText(d: string): string
  {
    "    " + DescriptionField(d)
  }

  function ParamLine(p: (string, Value)): string
  {
    "    " + p.0 + ": " + ValueText(p.1)
  }

  function ParamLineSeq(ps: Params): (r: seq<string>)
    ensures |r| == |ps|
  {
    seq(|ps|, i requires 0 <= i < |ps| => ParamLine(ps[i]))
  }

  function DescriptionLines(d: string): seq<string>
  {
    if d == "" then [] else [DescriptionText(d)]
  }

  /** The lines of a step's body, in the order the writer emits them. */
  function LinesOf(st: Step): seq<string>
  {
    [st.kind] + (DescriptionLines(st.description) + ParamLineSeq(st.params))
  }

  // ------------------------------------------------------- text helpers

  lemma {:induction false} SpaceLenPadded(p: string, x: string)
    requires AllSpace(p)
    requires |x| > 0 ==> !IsSpace(x[0])
    ensures SpaceLen(p + x) == |p|
  {
    if |p| > 0 {
      assert (p + x)[0] == p[0];
      assert (p + x)[1..] == p[1..] + x;
      SpaceLenPadded(p[1..], x);
    } else {
      assert p + x == x;
    }
  }

  /** The writer's four-space indentation is trimmed off a line that starts and ends with a visible character. */
  lemma IndentTrimmed(x: string)
    requires |x| > 0 && !IsSpace(x[0]) && !IsSpace(x[|x| - 1])
    ensures Trim("    " + x) == x
  {
    PadsAreSpace();
    TrimPadded("    ", x);
  }

  /** The writer's indentations are white space. */
  lemma PadsAreSpace()
    ensures AllSpace("  ") && AllSpace("    ")
  {
  }

  /** Trimming a trimmed text behind white space gives the text back. */
  lemma TrimPadded(p: string, x: string)
    requires AllSpace(p)
    requires |x| > 0 && !IsSpace(x[0]) && !IsSpace(x[|x| - 1])
    ensures Trim(p + x) == x
  {
    SpaceLenPadded(p, x);
    assert TrimStart(p + x) == x;
    assert TrailingSpaceLen(x) == 0;
  }

  lemma WithoutQuotes(d: string)
    requires '"' !in d
    ensures Without("\"" + d + "\"", '"') == d
  {
    WithoutAppend("\"" + d, "\"", '"');
    WithoutAppend("\"", d, '"');
  }

  lemma SplitAtBreak(r: string)
    ensures Split("\n" + r, LineBreak) == [""] + Split(r, LineBreak)
  {
    var s := "\n" + r;
    assert SeparatorAt(LineBreak, s) == Some(1);
    assert s[1..] == r;
  }

  lemma SplitUnbroken(a: string, r: string)
    requires '\n' !in a
    ensures Split(a + r, LineBreak) == [a + Split(r, LineBreak)[0]] + Split(r, LineBreak)[1..]
  {
    LiteralClear(Separating(LineBreak), a, r, 0);
    SplitSkip(LineBreak, a, r);
  }

  // ------------------------------------------------------- value texts

  lemma ValueTextShape(v: Value)
    requires ValueReadable(v)
    ensures var t := ValueText(v);
      |t| > 0 && !IsSpace(t[0]) && Solid(t[|t| - 1]) && NoLineTerminator(t) && '\n' !in t
  {
    var t := ValueText(v);
    match v
    case Str(s) =>
      assert t == "\"" + s + "\"";
      assert forall i :: 0 < i < |t| - 1 ==> t[i] == s[i - 1];
    case Num(n) =>
      var i := n.value;
      var digits := NatToString(if i < 0 then -i else i);
      assert t == (if i < 0 then "-" else "") + digits;
      assert t[|t| - 1] == digits[|digits| - 1];
      assert forall k :: 0 <= k < |t| ==> t[k] == '-' || IsDigit(t[k]);
    case Bool(b) =>
  }

  /** The reader's coercion gives a readable value back from the text the writer made of it. */
  lemma ParseValueText(v: Value)
    requires ValueReadable(v)
    ensures ParseValue(ValueText(v)) == v
  {
    var t := ValueText(v);
    ValueTextShape(v);
    TrimKeepsTrimmed(t);
    match v
    case Str(s) =>
      assert t[0] == '"';
      assert ParseInt(t).None?;
      WithoutQuotes(s);
    case Num(n) =>
      IntRoundTrip(n.value);
      assert t != "true" && t != "false" by {
        assert t[0] == '-' || IsDigit(t[0]);
      }
    case Bool(b) =>
  }

  /** A `NaN` parameter is written bare, fails the number test on reading, and comes back as the text "NaN". */
  lemma NaNReadsAsText()
    ensures ValueText(Num(NaN)) == "NaN"
    ensures ParseValue(ValueText(Num(NaN))) == Str("NaN")
  {
    assert ParseInt("NaN").None?;
    TrimKeepsTrimmed("NaN");
  }

  // ---------------------------------------------------------- the lines

  /** A word followed by a character outside `\w`: `\w+` takes exactly the word. */
  lemma WordThenStop(k: string, t: string)
    requires IsWord(k) && |t| > 0 && !IsWordChar(t[0])
    ensures WordLen(k + t) == |k| && (k + t)[..|k|] == k && (k + t)[|k|..] == t
  {
    var s := k + t;
    var n := WordLen(s);
    assert s[|k|] == t[0];
    assert forall i :: 0 <= i < |k| ==> s[i] == k[i];
    assert s[..|k|] == k && s[|k|..] == t;
  }

  /** After `: `, the value starts at its first character and runs to its end. */
  lemma ValueAfterSpace(vt: string)
    requires |vt| > 0 && !IsSpace(vt[0]) && NoLineTerminator(vt)
    ensures ValueStart(" " + vt) == Some(1) && (" " + vt)[1..] == vt && LineLen(vt) == |vt|
  {
    SpaceLenPadded(" ", vt);
    assert (" " + vt)[1..] == vt;
  }

  /** `(\w+):\s*(.+)` on `key: value` captures the key and the whole value. */
  lemma KeyValueLine(k: string, vt: string)
    requires IsWord(k) && |vt| > 0 && !IsSpace(vt[0]) && NoLineTerminator(vt)
    ensures FirstKeyValue(k + ": " + vt) == Some((k, vt))
  {
    var t := ":" + (" " + vt);
    var s := k + t;
    assert k + ": " + vt == s;
    WordThenStop(k, t);
    assert s[|k|] == ':' && s[|k| + 1..] == " " + vt by {
      assert s[|k|..] == t;
      assert t[1..] == " " + vt;
    }
    ValueAfterSpace(vt);
    KeyValueAtParts(s, k, vt);
  }

  /** `(\w+):\s*(.+)` at the start of a text that is a word, a colon, one space and the value. */
  lemma KeyValueAtParts(s: string, k: string, vt: string)
    requires |k| > 0 && WordLen(s) == |k| < |s| && s[|k|] == ':' && s[..|k|] == k
    requires s[|k| + 1..] == " " + vt && ValueStart(" " + vt) == Some(1) && (" " + vt)[1..] == vt
    requires LineLen(vt) == |vt|
    ensures KeyValueAt(s) == Some((k, vt))
  {
    var rest := s[|k| + 1..];
    assert ValueStart(rest) == Some(1);
    assert rest[1..1 + LineLen(rest[1..])] == vt by {
      assert rest[1..] == vt;
      assert vt[..|vt|] == vt;
    }
  }

  lemma BreakIndent()
    ensures "\n    " == "\n" + "    "
  {
  }

  /** The parameter lines are a line break and the first parameter line, then the others. */
  lemma ParamLinesCons(ps: Params)
    requires |ps| > 0
    ensures ParamLines(ps) == ("\n" + ParamLine(ps[0])) + ParamLines(ps[1..])
  {
    BreakIndent();
    Regroup6("\n", "    ", ps[0].0, ": ", ValueText(ps[0].1), ParamLines(ps[1..]));
  }

  lemma Regroup6(a: string, b: string, c: string, d: string, e: string, f: string)
    ensures ((((a + b) + c) + d) + e) + f == (a + (((b + c) + d) + e)) + f
  {
  }

  /** A break, then a line without one, then text that splits as `[""] + rest`. */
  lemma SplitBrokenLine(x: string, tail: string, rest: seq<string>)
    requires '\n' !in x
    requires Split(tail, LineBreak) == [""] + rest
    ensures Split("\n" + (x + tail), LineBreak) == [""] + ([x] + rest)
  {
    SplitAtBreak(x + tail);
    SplitOneLine(x, tail, rest);
  }

  lemma {:induction false} SplitParamLines(ps: Params)
    requires forall i :: 0 <= i < |ps| ==> '\n' !in ParamLine(ps[i])
    ensures Split(ParamLines(ps), LineBreak) == [""] + ParamLineSeq(ps)
  {
    if |ps| > 0 {
      var x := ParamLine(ps[0]);
      var tail := ParamLines(ps[1..]);
      calc {
        Split(ParamLines(ps), LineBreak);
        { ParamLinesCons(ps); Regroup3("\n", x, tail); }
        Split("\n" + (x + tail), LineBreak);
        { SplitParamLines(ps[1..]); SplitBrokenLine(x, tail, ParamLineSeq(ps[1..])); }
        [""] + ([x] + ParamLineSeq(ps[1..]));
        { assert ParamLineSeq(ps) == [x] + ParamLineSeq(ps[1..]); }
        [""] + ParamLineSeq(ps);
      }
    }
  }

  /** `key: value` as the writer puts it on a parameter line. */
  function KeyValueText(p: (string, Value)): string
  {
    p.0 + ": " + ValueText(p.1)
  }

  lemma ParamLineShape(p: (string, Value))
    requires IsWord(p.0) && ValueReadable(p.1)
    ensures ParamLine(p) == "    " + KeyValueText(p)
    ensures '\n' !in ParamLine(p)
  {
    var x := KeyValueText(p);
    assert ParamLine(p) == "    " + x;
    ValueTextShape(p.1);
    assert '\n' !in p.0;
  }

  lemma ParamLineRead(p: (string, Value))
    requires IsWord(p.0) && ValueReadable(p.1)
    ensures var x := KeyValueText(p);
      Trim(ParamLine(p)) == x && x != "" && x[0] != '-'
      && FirstKeyValue(x) == Some((p.0, ValueText(p.1)))
  {
    var t := ValueText(p.1);
    var x := KeyValueText(p);
    ParamLineShape(p);
    ValueTextShape(p.1);
    assert x[0] == p.0[0] && x[|x| - 1] == t[|t| - 1];
    IndentTrimmed(x);
    KeyValueLine(p.0, t);
  }

  lemma DescriptionLiteral()
    ensures "\n    description: \"" == "\n" + "    " + "description: \""
  {
  }

  lemma Regroup4(a: string, b: string, c: string, d: string)
    ensures a + b + c + d == a + (b + c + d)
  {
  }

  lemma DescriptionShape(d: string)
    requires d != "" && DescriptionReadable(d)
    ensures DescriptionLine(d) == "\n" + DescriptionText(d)
    ensures '\n' !in DescriptionText(d)
  {
    calc {
      DescriptionLine(d);
      "\n    description: \"" + d + "\"";
      { DescriptionLiteral(); }
      "\n" + "    " + "description: \"" + d + "\"";
      { Regroup4("\n" + "    ", "description: \"", d, "\""); }
      "\n" + "    " + DescriptionField(d);
      { Regroup3("\n", "    ", DescriptionField(d)); }
      "\n" + DescriptionText(d);
    }
    assert '\n' !in d;
  }

  lemma DescriptionLabelShape()
    ensures IsWord("description") && "description: \"" == "description" + ": " + "\""
  {
  }

  /** The quoted description: no line terminator, and a quote at both ends. */
  lemma QuotedDescription(d: string)
    requires DescriptionReadable(d)
    ensures var vt := "\"" + d + "\"";
      |vt| > 0 && vt[0] == '"' && vt[|vt| - 1] == '"' && NoLineTerminator(vt)
  {
    var vt := "\"" + d + "\"";
    assert forall i :: 0 < i < |vt| - 1 ==> vt[i] == d[i - 1];
  }

  lemma DescriptionRead(d: string)
    requires d != "" && DescriptionReadable(d)
    ensures var x := DescriptionField(d);
      Trim(DescriptionText(d)) == x && x[0] == 'd'
      && FirstKeyValue(x) == Some(("description", "\"" + d + "\""))
  {
    var vt := "\"" + d + "\"";
    var x := DescriptionField(d);
    QuotedDescription(d);
    assert x == "description" + ": " + vt by {
      DescriptionLabelShape();
      Regroup5("description", ": ", "\"", d, "\"");
    }
    assert FirstKeyValue(x) == Some(("description", vt)) by {
      DescriptionLabelShape();
      KeyValueLine("description", vt);
    }
    assert Trim(DescriptionText(d)) == x by {
      assert x[0] == 'd' && x[|x| - 1] == '"';
      IndentTrimmed(x);
    }
  }

  lemma Regroup5(a: string, b: string, c: string, d: string, e: string)
    ensures a + b + c + d + e == a + b + (c + d + e)
  {
  }

  /** The description line and the parameter lines split into an empty first part and then one part per line. */
  lemma SplitFields(d: string, ps: Params)
    requires DescriptionReadable(d) && ParamsReadable(ps)
    ensures Split(DescriptionLine(d) + ParamLines(ps), LineBreak) == [""] + (DescriptionLines(d) + ParamLineSeq(ps))
  {
    forall i | 0 <= i < |ps| ensures '\n' !in ParamLine(ps[i]) {
      ParamLineShape(ps[i]);
    }
    SplitParamLines(ps);
    var pl := ParamLines(ps);
    if d == "" {
      assert DescriptionLine(d) + pl == pl;
      assert DescriptionLines(d) + ParamLineSeq(ps) == ParamLineSeq(ps);
    } else {
      var dt := DescriptionText(d);
      calc {
        Split(DescriptionLine(d) + pl, LineBreak);
        { DescriptionShape(d); Regroup3("\n", dt, pl); }
        Split("\n" + (dt + pl), LineBreak);
        { DescriptionShape(d); SplitBrokenLine(dt, pl, ParamLineSeq(ps)); }
        [""] + ([dt] + ParamLineSeq(ps));
      }
      assert DescriptionLines(d) + ParamLineSeq(ps) == [dt] + ParamLineSeq(ps);
    }
  }

  /** A line without a break in front of a text that splits as `[""] + rest` splits as that line and then `rest`. */
  lemma SplitOneLine(a: string, r: string, rest: seq<string>)
    requires '\n' !in a
    requires Split(r, LineBreak) == [""] + rest
    ensures Split(a + r, LineBreak) == [a] + rest
  {
    SplitUnbroken(a, r);
    assert a + "" == a;
  }

  /** A line without a break in front of two texts that split as `[""] + rest` splits as that line and then `rest`. */
  lemma SplitLeadingLine(a: string, x: string, y: string, rest: seq<string>)
    requires '\n' !in a
    requires Split(x + y, LineBreak) == [""] + rest
    ensures Split(a + x + y, LineBreak) == [a] + rest
  {
    assert a + x + y == a + (x + y);
    SplitOneLine(a, x + y, rest);
  }

  /** The body of a readable step splits on line breaks into exactly the lines the writer emitted. */
  lemma SplitBody(st: Step)
    requires StepReadable(st)
    ensures Split(Body(st), LineBreak) == LinesOf(st)
  {
    SplitFields(st.description, st.params);
    SplitLeadingLine(st.kind, DescriptionLine(st.description), ParamLines(st.params),
      DescriptionLines(st.description) + ParamLineSeq(st.params));
  }

  /** One parameter line: the reader classifies it as that parameter, with the value read back unchanged. */
  lemma ParamLineReads(p: (string, Value))
    requires IsWord(p.0) && p.0 != "description" && ValueReadable(p.1)
    ensures ReadLine(Trim(ParamLine(p))) == Param(p.0, p.1)
  {
    ParamLineRead(p);
    ParseValueText(p.1);
  }

  /** Each of `lines` is read as the parameter at the same position. */
  predicate ReadAsParams(lines: seq<string>, ps: Params)
  {
    |lines| == |ps| && forall k :: 0 <= k < |ps| ==> ReadLine(Trim(lines[k])) == Param(ps[k].0, ps[k].1)
  }

  lemma ParamLinesReadAsParams(ps: Params)
    requires ParamsReadable(ps)
    ensures ReadAsParams(ParamLineSeq(ps), ps)
  {
    forall k | 0 <= k < |ps| ensures ReadLine(Trim(ParamLineSeq(ps)[k])) == Param(ps[k].0, ps[k].1) {
      ParamLineReads(ps[k]);
    }
  }

  lemma AppendFirst(acc: Params, ps: Params)
    requires |ps| > 0
    ensures acc + [ps[0]] + ps[1..] == acc + ps
  {
    assert [ps[0]] + ps[1..] == ps;
  }

  /** Adding the first parameter keeps the remaining ones new and distinct. */
  lemma FreshKeysRemain(acc: Params, ps: Params)
    requires |ps| > 0 && DistinctKeys(ps)
    requires forall j :: 0 <= j < |ps| ==> ps[j].0 !in Keys(acc)
    ensures DistinctKeys(ps[1..])
    ensures forall j :: 0 <= j < |ps| - 1 ==> ps[1..][j].0 !in Keys(acc + [ps[0]])
  {
    var next := acc + [ps[0]];
    assert Keys(next) == Keys(acc) + [ps[0].0];
    var more := ps[1..];
    forall j | 0 <= j < |more| ensures more[j].0 !in Keys(next) {
      assert more[j] == ps[j + 1];
      assert ps[j + 1].0 != ps[0].0;
    }
  }

  /**
   * The reader's loop over the parameter lines `lines[i..]`: each line adds
   * its key with the value read from it, so the parameters come back in order.
   */
  lemma {:induction false} FieldsOfParams(lines: seq<string>, i: nat, d: string, acc: Params, ps: Params)
    requires i <= |lines| && ReadAsParams(lines[i..], ps)
    requires DistinctKeys(ps)
    requires forall j :: 0 <= j < |ps| ==> ps[j].0 !in Keys(acc)
    ensures BlockFields(lines, i, d, acc) == (d, acc + ps)
    decreases |ps|
  {
    if |ps| == 0 {
      assert i == |lines|;
      assert acc + ps == acc;
    } else {
      var next := acc + [ps[0]];
      var more := ps[1..];
      assert ReadLine(Trim(lines[i])) == Param(ps[0].0, ps[0].1) by {
        assert lines[i..][0] == lines[i];
      }
      assert Assign(acc, ps[0].0, ps[0].1) == next by {
        assert ps[0].0 !in Keys(acc);
        AssignNewKey(acc, ps[0].0, ps[0].1);
      }
      assert ReadAsParams(lines[i + 1..], more) by {
        forall k | 0 <= k < |more| ensures lines[i + 1..][k] == lines[i..][k + 1] && more[k] == ps[k + 1] {
        }
      }
      FreshKeysRemain(acc, ps);
      FieldsOfParams(lines, i + 1, d, next, more);
      AppendFirst(acc, ps);
    }
  }

  /** The description line: the reader classifies it as the description, with its quotes removed. */
  lemma DescriptionLineReads(d: string)
    requires d != "" && DescriptionReadable(d)
    ensures ReadLine(Trim(DescriptionText(d))) == Describe(d)
  {
    DescriptionRead(d);
    WithoutQuotes(d);
  }

  /** The lines after a block's first: an optional description line, then one line per parameter. */
  predicate FieldLinesRead(lines: seq<string>, d: string, ps: Params)
  {
    if d == "" then ReadAsParams(lines, ps)
    else |lines| >= 1 && ReadLine(Trim(lines[0])) == Describe(d) && ReadAsParams(lines[1..], ps)
  }

  lemma FieldLinesOfStep(st: Step)
    requires StepReadable(st)
    ensures FieldLinesRead(LinesOf(st)[1..], st.description, st.params)
  {
    var d := st.description;
    var ps := st.params;
    var fields := LinesOf(st)[1..];
    assert fields == DescriptionLines(d) + ParamLineSeq(ps);
    ParamLinesReadAsParams(ps);
    if d != "" {
      assert fields[0] == DescriptionText(d) && fields[1..] == ParamLineSeq(ps);
      DescriptionLineReads(d);
    } else {
      assert fields == ParamLineSeq(ps);
    }
  }

  /** The reader's line loop over such lines gives back the description and the parameters. */
  lemma BlockFieldsOfReads(lines: seq<string>, d: string, ps: Params)
    requires |lines| >= 1 && FieldLinesRead(lines[1..], d, ps) && DistinctKeys(ps)
    ensures BlockFields(lines, 1, "", []) == (d, ps)
  {
    assert [] + ps == ps;
    if d == "" {
      FieldsOfParams(lines, 1, d, [], ps);
    } else {
      assert |lines| >= 2 && ReadLine(Trim(lines[1])) == Describe(d) by {
        assert lines[1..][0] == lines[1];
      }
      assert lines[1..][1..] == lines[2..];
      FieldsOfParams(lines, 2, d, [], ps);
      DescribedFields(lines, d, ps);
    }
  }

  /** A description line second: the reader takes its text and goes on with the line after it. */
  lemma DescribedFields(lines: seq<string>, d: string, ps: Params)
    requires |lines| >= 2 && ReadLine(Trim(lines[1])) == Describe(d)
    requires BlockFields(lines, 2, d, []) == (d, ps)
    ensures BlockFields(lines, 1, "", []) == (d, ps)
  {
  }

  /** After the first line, the reader takes the description line and then every parameter line. */
  lemma BlockFieldsOfLines(lines: seq<string>, st: Step)
    requires StepReadable(st)
    requires |lines| >= 1 && lines[1..] == LinesOf(st)[1..]
    ensures BlockFields(lines, 1, "", []) == (st.description, st.params)
  {
    FieldLinesOfStep(st);
    BlockFieldsOfReads(lines, st.description, st.params);
  }

  lemma BodyEnds(st: Step)
    requires StepReadable(st)
    ensures |Body(st)| > 0 && Body(st)[0] == st.kind[0] && Solid(Body(st)[|Body(st)| - 1])
  {
    var b := Body(st);
    var ps := st.params;
    assert b[0] == st.kind[0];
    if |ps| > 0 {
      var last := ps[|ps| - 1];
      ParamLinesEnd(ps);
      assert b[|b| - 1] == ParamLines(ps)[|ParamLines(ps)| - 1];
    } else if st.description != "" {
      assert ParamLines(ps) == "";
      assert b == st.kind + DescriptionLine(st.description);
    } else {
      assert b == st.kind;
    }
  }

  lemma {:induction false} ParamLinesEnd(ps: Params)
    requires |ps| > 0 && ParamsReadable(ps)
    ensures |ParamLines(ps)| > 0 && Solid(ParamLines(ps)[|ParamLines(ps)| - 1])
  {
    if |ps| == 1 {
      ValueTextShape(ps[0].1);
      var t := ValueText(ps[0].1);
      assert ParamLines(ps) == "\n    " + ps[0].0 + ": " + t + "";
    } else {
      assert ParamsReadable(ps[1..]);
      ParamLinesEnd(ps[1..]);
    }
  }

  /** A readable step's body is read back as the step itself, under the identifier the reader assigns. */
  lemma BlockOfBody(st: Step, id: nat)
    requires StepReadable(st)
    ensures BlockStep(Body(st), id) == st.(id := id)
  {
    BodyEnds(st);
    TrimKeepsTrimmed(Body(st));
    SplitBody(st);
    TrimKeepsTrimmed(st.kind);
    BlockFieldsOfLines(LinesOf(st), st);
  }

  /** The text of the step marker after its leading indentation. */
  const StepMarkerText := "- step: "

  lemma MarkerShape()
    ensures StepPrefix == "  " + StepMarkerText
    ensures '\n' !in StepMarkerText && StepMarkerText[0] == '-' && !IsSpace(StepMarkerText[0])
  {
  }

  lemma Regroup3(a: string, b: string, c: string)
    ensures a + b + c == a + (b + c)
  {
  }

  /** A block that starts with the step prefix is indentation, then the marker, then the rest. */
  lemma MarkedText(b: string)
    ensures StepPrefix + b == "  " + (StepMarkerText + b)
  {
    MarkerShape();
  }

  /** A block written behind the step marker splits into its own lines with the marker in front of the first. */
  lemma MarkedLines(b: string, ls: seq<string>)
    requires |b| > 0 && !IsSpace(b[|b| - 1]) && Split(b, LineBreak) == ls
    ensures |ls| >= 1 && Split(Trim(StepPrefix + b), LineBreak) == [StepMarkerText + ls[0]] + ls[1..]
  {
    PadsAreSpace();
    MarkerShape();
    MarkedText(b);
    PrefixedLines("  ", StepMarkerText, b);
  }

  /** The reader's step of a block is its first line's kind and the fields of the lines after it. */
  lemma BlockStepOfLines(block: string, id: nat, lines: seq<string>)
    requires Split(Trim(block), LineBreak) == lines
    ensures var fields := BlockFields(lines, 1, "", []);
      BlockStep(block, id) == Step(id, Trim(lines[0]), fields.0, fields.1)
  {
  }

  /** Trimming white space and a marker off a block, then splitting it, leaves the marker on the first line. */
  lemma PrefixedLines(pad: string, m: string, b: string)
    requires AllSpace(pad) && |m| > 0 && !IsSpace(m[0]) && '\n' !in m
    requires |b| > 0 && !IsSpace(b[|b| - 1])
    ensures Split(Trim(pad + (m + b)), LineBreak) == [m + Split(b, LineBreak)[0]] + Split(b, LineBreak)[1..]
  {
    assert (m + b)[0] == m[0] && (m + b)[|m + b| - 1] == b[|b| - 1];
    TrimPadded(pad, m + b);
    SplitUnbroken(m, b);
  }

  /** The lines of the first block as the unfixed reader splits them: the marker stays on the kind's line. */
  lemma FirstBlockLines(st: Step, lines: seq<string>)
    requires StepReadable(st)
    requires |lines| >= 1 && lines[0] == StepMarkerText + st.kind && lines[1..] == LinesOf(st)[1..]
    ensures Trim(lines[0]) == StepMarkerText + st.kind
    ensures BlockFields(lines, 1, "", []) == (st.description, st.params)
  {
    assert Trim(lines[0]) == StepMarkerText + st.kind by {
      MarkerShape();
      assert |st.kind| > 0 && Solid(st.kind[|st.kind| - 1]);
      TrimKeepsTrimmed(StepMarkerText + st.kind);
    }
    BlockFieldsOfLines(lines, st);
  }

  /**
   * The first block as the unfixed reader sees it: the step marker's own text
   * stays in front of the kind, and the description and parameters are read
   * as usual.
   */
  lemma FirstBlockAsWritten(st: Step, id: nat)
    requires StepReadable(st)
    ensures BlockStep(StepPrefix + Body(st), id) == st.(id := id, kind := StepMarkerText + st.kind)
  {
    var b := Body(st);
    var ls := LinesOf(st);
    assert |b| > 0 && !IsSpace(b[|b| - 1]) && Split(b, LineBreak) == ls by {
      BodyEnds(st);
      SplitBody(st);
    }
    MarkedLines(b, ls);
    var lines := [StepMarkerText + ls[0]] + ls[1..];
    FirstBlockLines(st, lines);
    BlockStepOfLines(StepPrefix + b, id, lines);
  }
}
