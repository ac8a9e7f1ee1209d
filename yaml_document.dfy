/**
 * The whole document through the transcoder: what `yamlToSteps` makes of the
 * text `stepsToYaml` writes. With a non-empty name and description and at
 * least one step, the corrected reader gives back the name, the description
 * and the steps (renumbered from the first identifier it hands out); the
 * reader as written gives the steps back too, except that the first one's
 * kind keeps the `- step: ` marker in front of it. With no steps, both
 * readers reject the document.
 */
module YamlDocument {
  import opened Wrappers
  import opened Text
  import opened Steps
  import opened Transcoder
  import opened YamlRoundTrip
  import opened YamlBlocks

  // ------------------------------------------------------------- the text

  /** Everything the writer emits before the `sequence:` key. */
  function Header(name: string, description: string): string
  {
    InfoKey + NameKey + name + NameEnd + DescriptionKey + description + DescriptionEnd + FixedSettings
  }

  /** What separates two consecutive steps: a blank line and the next marker. */
  const Joint := "\n\n" + StepPrefix

  /** The step texts after the first marker: each body, and a joint before every following one. */
  function Rest(steps: seq<Step>): string
    requires |steps| > 0
  {
    Body(steps[0]) + (if |steps| == 1 then "" else Joint + Rest(steps[1..]))
  }

  function Bodies(steps: seq<Step>): (r: seq<string>)
    ensures |r| == |steps|
  {
    seq(|steps|, i requires 0 <= i < |steps| => Body(steps[i]))
  }

  /** The steps under the identifiers the reader hands out, from `firstId` on. */
  function Renumbered(steps: seq<Step>, firstId: nat): (r: seq<Step>)
    ensures |r| == |steps|
  {
    seq(|steps|, i requires 0 <= i < |steps| => steps[i].(id := firstId + i))
  }

  predicate AllReadable(steps: seq<Step>)
  {
    forall i :: 0 <= i < |steps| ==> StepReadable(steps[i])
  }

  /** A name or description the header carries back: non-empty, without quotes or line breaks. */
  predicate HeaderText(t: string)
  {
    t != "" && '"' !in t && '\n' !in t
  }

  lemma {:induction false} StepsYamlRest(steps: seq<Step>)
    requires |steps| > 0
    ensures StepsYaml(steps) == StepPrefix + Rest(steps)
    decreases |steps|
  {
    var st := steps[0];
    var b := Body(st);
    assert StepYaml(st) == StepPrefix + b by {
      Regroup4(StepPrefix, st.kind, DescriptionLine(st.description), ParamLines(st.params));
    }
    if |steps| > 1 {
      var more := Rest(steps[1..]);
      calc {
        StepsYaml(steps);
        StepYaml(st) + "\n\n" + StepsYaml(steps[1..]);
        { StepsYamlRest(steps[1..]); }
        StepPrefix + b + "\n\n" + (StepPrefix + more);
        { JointRegroup(StepPrefix, b, more); }
        StepPrefix + (b + (Joint + more));
        StepPrefix + Rest(steps);
      }
    } else {
      assert Rest(steps) == b + "";
    }
  }

  lemma JointRegroup(p: string, b: string, more: string)
    ensures p + b + "\n\n" + (p + more) == p + (b + ("\n\n" + p + more))
  {
  }

  /** The document as nested pieces, grouped from the right. */
  lemma DocumentPieces(name: string, description: string, steps: seq<Step>)
    ensures StepsToYaml(name, description, steps)
      == InfoKey + (NameKey + (name + (NameEnd + (DescriptionKey + (description + (DescriptionEnd
         + (FixedSettings + (SequenceKey + StepsYaml(steps)))))))))
  {
    Regroup(InfoKey, NameKey, name, NameEnd, DescriptionKey, description, DescriptionEnd,
      FixedSettings, SequenceKey, StepsYaml(steps));
  }

  lemma Regroup(a: string, b: string, c: string, d: string, e: string, f: string, g: string,
                h: string, i: string, j: string)
    ensures a + b + c + d + e + f + g + h + i + j == a + (b + (c + (d + (e + (f + (g + (h + (i + j))))))))
  {
  }

  lemma DocumentShape(name: string, description: string, steps: seq<Step>)
    ensures StepsToYaml(name, description, steps) == Header(name, description) + (SequenceKey + StepsYaml(steps))
  {
    Regroup3(Header(name, description), SequenceKey, StepsYaml(steps));
  }

  // ---------------------------------------------------- the header fields

  /** Where `"` ends a quote-free text, `[^"]+` takes exactly that text. */
  lemma NonQuoteText(t: string, r: string)
    requires '"' !in t && |r| > 0 && r[0] == '"'
    ensures NonQuoteLen(t + r) == |t|
  {
    var s := t + r;
    assert s[|t|] == '"';
    assert forall i :: 0 <= i < |t| ==> s[i] == t[i];
  }

  /** `key\s*"([^"]+)"` at `key "t"...` captures `t`. */
  lemma FieldRead(key: string, t: string, r: string)
    requires t != "" && '"' !in t && |r| > 0 && r[0] == '"'
    ensures FirstQuotedField(key + (" \"" + (t + r)), key) == Some(t)
  {
    var s := key + (" \"" + (t + r));
    assert s[..|key|] == key;
    var rest := s[|key|..];
    assert rest == " " + ("\"" + (t + r));
    SpaceLenPadded(" ", "\"" + (t + r));
    var body := rest[2..];
    assert body == t + r;
    NonQuoteText(t, r);
    assert body[..|t|] == t;
    assert QuotedFieldAt(s, key) == Some(t);
  }

  lemma NameKeyShape()
    ensures NameKey == NameLabel + " \""
    ensures DescriptionKey == DescriptionLabel + " \""
  {
  }

  lemma DescriptionLabelQuoteFree()
    ensures '"' !in DescriptionLabel
  {
  }

  lemma InfoKeyClear(r: string)
    ensures Clear(Field(NameLabel), InfoKey, r)
    ensures Clear(Field(DescriptionLabel), InfoKey, r)
  {
    LiteralClear(Field(NameLabel), InfoKey, r, 1);
    LiteralClear(Field(DescriptionLabel), InfoKey, r, 0);
  }

  /** The first `name: "..."` of the document is the test name. */
  lemma NameOfDocument(name: string, description: string, steps: seq<Step>)
    requires HeaderText(name)
    ensures FirstQuotedField(StepsToYaml(name, description, steps), NameLabel) == Some(name)
  {
    var r := NameEnd + (DescriptionKey + (description + (DescriptionEnd + (FixedSettings + (SequenceKey + StepsYaml(steps))))));
    var x := NameKey + (name + r);
    var doc := StepsToYaml(name, description, steps);
    DocumentPieces(name, description, steps);
    assert doc == InfoKey + x;
    SkipInfoKey(NameLabel, x);
    assert FirstQuotedField(doc, NameLabel) == FirstQuotedField(x, NameLabel);
    assert x == NameLabel + (" \"" + (name + r)) by {
      NameKeyShape();
      Regroup3(NameLabel, " \"", name + r);
    }
    assert r[0] == '"';
    FieldRead(NameLabel, name, r);
  }

  /** A quoted field cannot start in the `test_info:` line. */
  lemma SkipInfoKey(key: string, r: string)
    requires key == NameLabel || key == DescriptionLabel
    ensures FirstQuotedField(InfoKey + r, key) == FirstQuotedField(r, key)
  {
    InfoKeyClear(r);
    FieldSkip(key, InfoKey, r);
  }

  /** A `description: "..."` match cannot start in a piece without a `d`. */
  lemma SkipLiteral(key: string, p: string, r: string)
    requires key == DescriptionLabel && 'd' !in p
    ensures FirstQuotedField(p + r, key) == FirstQuotedField(r, key)
  {
    LiteralClear(Field(key), p, r, 0);
    FieldSkip(key, p, r);
  }

  /** No `description: "..."` match starts in the name or the rest of its line. */
  lemma SkipNameLine(name: string, x3: string)
    requires '"' !in name && !EndsWithKey(name, DescriptionLabel)
    ensures FirstQuotedField(name + (NameEnd + x3), DescriptionLabel) == FirstQuotedField(x3, DescriptionLabel)
  {
    var key := DescriptionLabel;
    var x2 := NameEnd + x3;
    DescriptionLabelQuoteFree();
    assert x2[0] == NameEnd[0] == '"';
    QuotedTextClearOfField(name, x2, key);
    FieldSkip(key, name, x2);
    SkipLiteral(key, NameEnd, x3);
  }

  /** No `description: "..."` match starts before the description's own key. */
  lemma SkipToDescription(name: string, x3: string)
    requires '"' !in name && !EndsWithKey(name, DescriptionLabel)
    ensures FirstQuotedField(InfoKey + (NameKey + (name + (NameEnd + x3))), DescriptionLabel)
      == FirstQuotedField(x3, DescriptionLabel)
  {
    var x1 := name + (NameEnd + x3);
    var x0 := NameKey + x1;
    SkipInfoKey(DescriptionLabel, x0);
    SkipLiteral(DescriptionLabel, NameKey, x1);
    SkipNameLine(name, x3);
  }

  /** The first `description: "..."` of the document is the test description. */
  lemma DescriptionOfDocument(name: string, description: string, steps: seq<Step>)
    requires HeaderText(name) && HeaderText(description)
    requires !EndsWithKey(name, DescriptionLabel)
    ensures FirstQuotedField(StepsToYaml(name, description, steps), DescriptionLabel) == Some(description)
  {
    var key := DescriptionLabel;
    var r := DescriptionEnd + (FixedSettings + (SequenceKey + StepsYaml(steps)));
    var x3 := DescriptionKey + (description + r);
    var doc := StepsToYaml(name, description, steps);
    DocumentPieces(name, description, steps);
    assert doc == InfoKey + (NameKey + (name + (NameEnd + x3)));
    SkipToDescription(name, x3);
    assert x3 == key + (" \"" + (description + r)) by {
      NameKeyShape();
      Regroup3(key, " \"", description + r);
    }
    assert r[0] == '"';
    FieldRead(key, description, r);
  }
  // ------------------------------------------------- the sequence section

  /** A `sequence:` marker cannot start in a piece without a `q` that does not end in an `s`. */
  lemma NoSequenceIn(p: string, r: string)
    requires 'q' !in p
    requires forall j :: 0 <= j < |p| && |p| - 2 <= j ==> p[j] != 's'
    ensures Clear(Separating(SequenceMarker), p, r)
  {
    LiteralClear(Separating(SequenceMarker), p, r, 2);
  }

  lemma SettingsClear(r: string)
    ensures Clear(Separating(SequenceMarker), FixedSettings, r)
  {
    var n := |FixedSettings|;
    assert FixedSettings[n - 1] == '\n' && FixedSettings[n - 2] == '\n';
    assert 'q' !in FixedSettings;
    NoSequenceIn(FixedSettings, r);
  }

  /** From the description on, the header holds no `sequence:` marker. */
  lemma DescriptionPartClear(description: string, r: string)
    requires '\n' !in description
    ensures Clear(Separating(SequenceMarker), DescriptionKey + (description + (DescriptionEnd + FixedSettings)), r)
  {
    var pat := Separating(SequenceMarker);
    var y6 := DescriptionEnd + FixedSettings;
    SettingsClear(r);
    NoSequenceIn(DescriptionEnd, FixedSettings + r);
    ClearConcat(pat, DescriptionEnd, FixedSettings, r);
    assert (y6 + r)[0] == '"';
    QuotedTextClearOfSequence(description, y6 + r);
    ClearConcat(pat, description, y6, r);
    var y5 := description + y6;
    NoSequenceIn(DescriptionKey, y5 + r);
    ClearConcat(pat, DescriptionKey, y5, r);
  }

  /** The whole header holds no `sequence:` marker. */
  lemma HeaderClear(name: string, description: string, r: string)
    requires '\n' !in name && '\n' !in description
    ensures Clear(Separating(SequenceMarker), Header(name, description), r)
  {
    var pat := Separating(SequenceMarker);
    var y4 := DescriptionKey + (description + (DescriptionEnd + FixedSettings));
    DescriptionPartClear(description, r);
    NoSequenceIn(NameEnd, y4 + r);
    ClearConcat(pat, NameEnd, y4, r);
    var y3 := NameEnd + y4;
    assert (y3 + r)[0] == '"';
    QuotedTextClearOfSequence(name, y3 + r);
    ClearConcat(pat, name, y3, r);
    var y2 := name + y3;
    NoSequenceIn(NameKey, y2 + r);
    ClearConcat(pat, NameKey, y2, r);
    var y1 := NameKey + y2;
    NoSequenceIn(InfoKey, y1 + r);
    ClearConcat(pat, InfoKey, y1, r);
    HeaderPieces(name, description);
  }

  lemma HeaderPieces(name: string, description: string)
    ensures Header(name, description)
      == InfoKey + (NameKey + (name + (NameEnd + (DescriptionKey + (description + (DescriptionEnd + FixedSettings))))))
  {
    Regroup8(InfoKey, NameKey, name, NameEnd, DescriptionKey, description, DescriptionEnd, FixedSettings);
  }

  lemma Regroup8(a: string, b: string, c: string, d: string, e: string, f: string, g: string, h: string)
    ensures a + b + c + d + e + f + g + h == a + (b + (c + (d + (e + (f + (g + h))))))
  {
  }

  /** `sequence:\s*\n` matches the `sequence:` line, up to its line break, when the steps' indentation follows. */
  lemma SequenceKeyMatch(r: string)
    requires r == "" || (|r| >= 3 && r[0] == ' ' && r[1] == ' ' && r[2] == '-')
    ensures SeparatorAt(SequenceMarker, SequenceKey + r) == Some(|SequenceKey|)
  {
    var s := SequenceKey + r;
    assert s[..|SequenceLabel|] == SequenceLabel;
    var rest := s[|SequenceLabel|..];
    assert rest == "\n" + r;
    var w := SpaceLen(rest);
    if r == "" {
      assert w == 1;
    } else {
      assert rest == "\n  " + r[2..];
      SpaceLenPadded("\n  ", r[2..]);
      assert w == 3;
    }
    var lead := rest[..w];
    assert lead[0] == '\n';
    assert forall j :: 0 < j < |lead| ==> lead[j] == ' ';
  }

  /** After the `sequence:` key, the split gives an empty piece and then the whole step text. */
  lemma SequenceTail(sy: string)
    requires sy == "" || (|sy| >= 3 && sy[0] == ' ' && sy[1] == ' ' && sy[2] == '-' && Guarded(sy))
    ensures Split(SequenceKey + sy, SequenceMarker) == ["", sy]
  {
    var tail := SequenceKey + sy;
    SequenceKeyMatch(sy);
    SplitAtSeparator(tail, SequenceMarker, |SequenceKey|);
    assert tail[|SequenceKey|..] == sy;
    StepTextWhole(sy);
  }

  /** A separator at the very start gives an empty first piece. */
  lemma SplitAtSeparator(s: string, sep: Separator, n: nat)
    requires |s| > 0 && SeparatorAt(sep, s) == Some(n)
    ensures Split(s, sep) == [""] + Split(s[n..], sep)
  {
  }

  /** Step text holds no `sequence:` marker, so splitting on one leaves it whole. */
  lemma StepTextWhole(sy: string)
    requires sy == "" || Guarded(sy)
    ensures Split(sy, SequenceMarker) == [sy]
  {
    if sy != "" {
      GuardedClearOfSequence(sy);
      SplitSkip(SequenceMarker, sy, "");
      assert sy + "" == sy;
    }
  }

  /** Splitting on `sequence:` markers: the header, then the step text. */
  lemma SectionsOfDocument(name: string, description: string, sy: string)
    requires '\n' !in name && '\n' !in description
    requires sy == "" || (|sy| >= 3 && sy[0] == ' ' && sy[1] == ' ' && sy[2] == '-' && Guarded(sy))
    ensures Split(Header(name, description) + (SequenceKey + sy), SequenceMarker) == [Header(name, description), sy]
  {
    var tail := SequenceKey + sy;
    SequenceTail(sy);
    HeaderClear(name, description, tail);
    SplitTwo(Header(name, description), tail, sy);
  }

  lemma SplitTwo(h: string, tail: string, sy: string)
    requires Clear(Separating(SequenceMarker), h, tail)
    requires Split(tail, SequenceMarker) == ["", sy]
    ensures Split(h + tail, SequenceMarker) == [h, sy]
  {
    SplitSkip(SequenceMarker, h, tail);
    assert h + "" == h;
  }
  // ------------------------------------------- line breaks in the step text

  lemma NoBreakGuarded(s: string)
    requires '\n' !in s
    ensures Guarded(s)
  {
    assert forall i :: 0 <= i < |s| ==> s[i] in s;
  }

  lemma BreakLineGuarded(x: string)
    requires '\n' !in x
    ensures Guarded("\n" + x)
  {
    var s := "\n" + x;
    assert forall i :: 0 < i < |s| ==> s[i] == x[i - 1] && x[i - 1] in x;
  }

  lemma {:induction false} ParamLinesGuarded(ps: Params)
    requires ParamsReadable(ps)
    ensures Guarded(ParamLines(ps))
    ensures |ps| > 0 ==> EndsGood(ParamLines(ps))
    decreases |ps|
  {
    if |ps| > 0 {
      var line := "\n" + ParamLine(ps[0]);
      var more := ParamLines(ps[1..]);
      ParamLineShape(ps[0]);
      BreakLineGuarded(ParamLine(ps[0]));
      ValueTextShape(ps[0].1);
      var t := ValueText(ps[0].1);
      assert line[|line| - 1] == t[|t| - 1];
      assert ParamsReadable(ps[1..]);
      ParamLinesGuarded(ps[1..]);
      if |ps[1..]| > 0 {
        ParamLinesCons(ps[1..]);
      } else {
        assert more == "";
      }
      ParamLinesCons(ps);
      GuardedConcat(line, more);
      ParamLinesEnd(ps);
    }
  }

  lemma BodyGuarded(st: Step)
    requires StepReadable(st)
    ensures Guarded(Body(st)) && EndsGood(Body(st))
  {
    var k := st.kind;
    var d := st.description;
    var dl := DescriptionLine(d);
    var pl := ParamLines(st.params);
    NoBreakGuarded(k);
    if d == "" {
      assert k + dl == k;
    } else {
      DescriptionShape(d);
      BreakLineGuarded(DescriptionText(d));
      GuardedConcat(k, dl);
      assert (k + dl)[|k + dl| - 1] == '"';
    }
    ParamLinesGuarded(st.params);
    if |st.params| > 0 {
      ParamLinesCons(st.params);
    } else {
      assert pl == "";
    }
    GuardedConcat(k + dl, pl);
    BodyEnds(st);
  }

  lemma JointGuarded()
    ensures Guarded(Joint) && |Joint| == 12
    ensures forall i :: 0 <= i < |Joint| ==> (Joint[i] == '\n' <==> i < 2)
  {
  }

  lemma {:induction false} RestGuarded(steps: seq<Step>)
    requires |steps| > 0 && AllReadable(steps)
    ensures Guarded(Rest(steps))
    ensures |Rest(steps)| > 0 && Rest(steps)[0] == steps[0].kind[0]
    decreases |steps|
  {
    var b := Body(steps[0]);
    BodyGuarded(steps[0]);
    BodyEnds(steps[0]);
    if |steps| == 1 {
      assert Rest(steps) == b + "";
    } else {
      var more := Rest(steps[1..]);
      assert AllReadable(steps[1..]) by {
        forall i | 0 <= i < |steps[1..]| ensures StepReadable(steps[1..][i]) {
          assert steps[1..][i] == steps[i + 1];
        }
      }
      RestGuarded(steps[1..]);
      JointGuarded();
      assert steps[1].kind[0] != '\n';
      GuardedConcat(Joint, more);
      GuardedConcat(b, Joint + more);
      assert Rest(steps) == b + (Joint + more);
    }
  }

  /** The step text holds every line break behind a line break or a solid character, and starts with the first marker's indentation. */
  lemma StepsYamlGuarded(steps: seq<Step>)
    requires |steps| > 0 && AllReadable(steps)
    ensures var sy := StepsYaml(steps);
      |sy| >= 3 && sy[0] == ' ' && sy[1] == ' ' && sy[2] == '-' && Guarded(sy)
  {
    StepsYamlRest(steps);
    RestGuarded(steps);
    NoBreakGuarded(StepPrefix);
    assert steps[0].kind[0] != '\n';
    GuardedConcat(StepPrefix, Rest(steps));
  }
  // ------------------------------------------------------ the step blocks

  /** After the `-`: one space, `step:`, one space, and the kind. */
  lemma MarkerAfterDash(b: string)
    requires |b| > 0 && !IsSpace(b[0])
    ensures var t := "step:" + (" " + b);
      SpaceLen(" " + t) == 1 && (" " + t)[1..] == t
      && StartsWith(t, StepLabel) && t[|StepLabel|..] == " " + b && SpaceLen(" " + b) == 1
  {
    var t := "step:" + (" " + b);
    SpaceLenPadded(" ", t);
    assert t[..5] == StepLabel;
    SpaceLenPadded(" ", b);
  }

  /** Before the `-`: the line breaks and the indentation. */
  lemma MarkerLead(p: string, b: string)
    requires p == "\n" || p == "\n\n"
    ensures var u := "-" + (" " + ("step:" + (" " + b)));
      p + StepPrefix + b == "\n" + ((p[1..] + "  ") + u)
      && SpaceLen((p[1..] + "  ") + u) == |p| + 1
  {
    var lead := p[1..] + "  ";
    var u := "-" + (" " + ("step:" + (" " + b)));
    assert StepPrefix == "  " + "- " + "step:" + " ";
    assert p == "\n" + p[1..];
    assert AllSpace(lead);
    SpaceLenPadded(lead, u);
  }

  /** `\n\s*-\s+step:\s+` matches where a line break, white space, a `-`, one space, `step:` and one space are followed by the kind. */
  lemma MarkerMatch(s: string, a: nat)
    requires 0 < a < |s| && s[0] == '\n' && 1 + SpaceLen(s[1..]) == a && s[a] == '-'
    requires SpaceLen(s[a + 1..]) == 1 && StartsWith(s[a + 2..], StepLabel)
    requires SpaceLen(s[a + 2..][|StepLabel|..]) == 1
    ensures SeparatorAt(StepMarker, s) == Some(a + 2 + |StepLabel| + 1)
  {
  }

  /** The pieces of a marker line behind a line break and a run of white space. */
  lemma MarkerSlices(lead: string, b: string)
    ensures var t := "step:" + (" " + b);
      var u := "-" + (" " + t);
      var s := "\n" + (lead + u);
      var a := 1 + |lead|;
      s[1..] == lead + u && s[a] == '-' && s[a + 1..] == " " + t && s[a + 2..] == t
  {
    var t := "step:" + (" " + b);
    var u := "-" + (" " + t);
    var s := "\n" + (lead + u);
    var a := 1 + |lead|;
    assert s[1..] == lead + u;
    assert s[a..] == u;
  }

  /** The marker matches after a line break and a run of white space, up to the kind. */
  lemma LeadMarker(lead: string, b: string)
    requires |b| > 0 && !IsSpace(b[0])
    requires SpaceLen(lead + ("-" + (" " + ("step:" + (" " + b))))) == |lead|
    ensures SeparatorAt(StepMarker, "\n" + (lead + ("-" + (" " + ("step:" + (" " + b)))))) == Some(|lead| + 9)
  {
    MarkerAfterDash(b);
    MarkerSlices(lead, b);
    MarkerMatch("\n" + (lead + ("-" + (" " + ("step:" + (" " + b))))), 1 + |lead|);
  }

  /** `\n\s*-\s+step:\s+` matches a marker line after one or two line breaks, up to the kind. */
  lemma StepMarkerAt(p: string, b: string)
    requires p == "\n" || p == "\n\n"
    requires |b| > 0 && !IsSpace(b[0])
    ensures SeparatorAt(StepMarker, p + StepPrefix + b) == Some(|p| + 10)
  {
    MarkerLead(p, b);
    LeadMarker(p[1..] + "  ", b);
  }

  /** A break-free line behind a line break and the indentation holds no step marker when it starts with neither white space nor `-`. */
  lemma IndentedLineClear(x: string, r: string)
    requires |x| > 0 && !IsSpace(x[0]) && x[0] != '-' && '\n' !in x
    ensures Clear(Separating(StepMarker), "\n" + ("    " + x), r)
  {
    var pat := Separating(StepMarker);
    var y := "    " + x;
    PaddedBreakFree(x);
    LiteralClear(pat, y, r, 0);
    IndentedNoMarker(x, r);
    ClearConcat(pat, "\n", y, r);
  }

  lemma PaddedBreakFree(x: string)
    requires '\n' !in x
    ensures '\n' !in "    " + x
  {
    var y := "    " + x;
    assert forall i :: 0 <= i < |y| ==> y[i] == ' ' || y[i] == x[i - 4];
    assert forall i :: 4 <= i < |y| ==> y[i] in x;
  }

  /** No step marker starts at the line break before an indented line that starts with neither white space nor `-`. */
  lemma IndentedNoMarker(x: string, r: string)
    requires |x| > 0 && !IsSpace(x[0]) && x[0] != '-'
    ensures SeparatorAt(StepMarker, ("\n" + (("    " + x) + r))[0..]).None?
  {
    var s := "\n" + (("    " + x) + r);
    assert s[0..] == s;
    assert s[1..] == "    " + (x + r);
    SpaceLenPadded("    ", x + r);
    assert s[5] == x[0];
  }

  lemma {:induction false} ParamLinesClear(ps: Params, r: string)
    requires ParamsReadable(ps)
    ensures Clear(Separating(StepMarker), ParamLines(ps), r)
    decreases |ps|
  {
    if |ps| > 0 {
      var p := ps[0];
      var more := ParamLines(ps[1..]);
      ParamLineShape(p);
      ValueTextShape(p.1);
      var x := KeyValueText(p);
      assert x[0] == p.0[0];
      assert '\n' !in x;
      IndentedLineClear(x, more + r);
      assert ParamsReadable(ps[1..]);
      ParamLinesClear(ps[1..], r);
      ClearConcat(Separating(StepMarker), "\n" + ParamLine(p), more, r);
      ParamLinesCons(ps);
    }
  }

  /** No step marker starts inside a readable step's body, whatever follows it. */
  lemma BodyClear(st: Step, r: string)
    requires StepReadable(st)
    ensures Clear(Separating(StepMarker), Body(st), r)
  {
    var pat := Separating(StepMarker);
    var k := st.kind;
    var d := st.description;
    var dl := DescriptionLine(d);
    var pl := ParamLines(st.params);
    ParamLinesClear(st.params, r);
    if d == "" {
      assert k + dl == k;
    } else {
      DescriptionShape(d);
      DescriptionRead(d);
      IndentedLineClear(DescriptionField(d), pl + r);
      ClearConcat(pat, dl, pl, r);
    }
    LiteralClear(pat, k, dl + (pl + r), 0);
    ClearConcat(pat, k, dl, pl + r);
    ClearConcat(pat, k + dl, pl, r);
  }

  lemma SplitAfterMarker(p: string, b: string)
    requires p == "\n" || p == "\n\n"
    requires |b| > 0 && !IsSpace(b[0])
    ensures Split(p + StepPrefix + b, StepMarker) == [""] + Split(b, StepMarker)
  {
    var s := p + StepPrefix + b;
    StepMarkerAt(p, b);
    assert s[|p| + 10..] == b;
  }

  /** A body clear of step markers, then a joint: the body is one piece and the split goes on after the joint. */
  lemma SplitAtJoint(b: string, more: string)
    requires Clear(Separating(StepMarker), b, Joint + more)
    requires |more| > 0 && !IsSpace(more[0])
    ensures Split(b + (Joint + more), StepMarker) == [b] + Split(more, StepMarker)
  {
    SplitAfterMarker("\n\n", more);
    assert Joint + more == "\n\n" + StepPrefix + more;
    SplitSkip(StepMarker, b, Joint + more);
    assert b + "" == b;
  }

  lemma AllReadableTail(steps: seq<Step>)
    requires |steps| > 0 && AllReadable(steps)
    ensures AllReadable(steps[1..]) && StepReadable(steps[0])
  {
    forall i | 0 <= i < |steps[1..]| ensures StepReadable(steps[1..][i]) {
      assert steps[1..][i] == steps[i + 1];
    }
  }

  lemma {:induction false} SplitRest(steps: seq<Step>)
    requires |steps| > 0 && AllReadable(steps)
    ensures Split(Rest(steps), StepMarker) == Bodies(steps)
    decreases |steps|
  {
    var b := Body(steps[0]);
    AllReadableTail(steps);
    if |steps| == 1 {
      BodyClear(steps[0], "");
      SplitSkip(StepMarker, b, "");
      assert Rest(steps) == b + "";
      assert b + "" == b;
    } else {
      var more := Rest(steps[1..]);
      RestGuarded(steps[1..]);
      AllReadableTail(steps[1..]);
      BodyClear(steps[0], Joint + more);
      SplitRest(steps[1..]);
      SplitRestStep(steps);
    }
  }

  /** `SplitRest`'s step: the first body, then the split of the other steps' text. */
  lemma SplitRestStep(steps: seq<Step>)
    requires |steps| > 1
    requires Clear(Separating(StepMarker), Body(steps[0]), Joint + Rest(steps[1..]))
    requires |Rest(steps[1..])| > 0 && !IsSpace(Rest(steps[1..])[0])
    requires Split(Rest(steps[1..]), StepMarker) == Bodies(steps[1..])
    ensures Split(Rest(steps), StepMarker) == Bodies(steps)
  {
    var b := Body(steps[0]);
    var more := Rest(steps[1..]);
    assert Rest(steps) == b + (Joint + more);
    SplitAtJoint(b, more);
    BodiesCons(steps);
  }

  lemma BodiesCons(steps: seq<Step>)
    requires |steps| > 0
    ensures Bodies(steps) == [Body(steps[0])] + Bodies(steps[1..])
  {
    var r := [Body(steps[0])] + Bodies(steps[1..]);
    forall i | 0 <= i < |steps| ensures Bodies(steps)[i] == r[i] {
      if i > 0 {
        assert steps[1..][i - 1] == steps[i];
      }
    }
  }

  /** The step text behind a line break: an empty piece, then the bodies. */
  lemma SplitStepText(steps: seq<Step>)
    requires |steps| > 0 && AllReadable(steps)
    ensures Split("\n" + StepsYaml(steps), StepMarker) == [""] + Bodies(steps)
  {
    StepsYamlRest(steps);
    RestGuarded(steps);
    AllReadableTail(steps);
    SplitRest(steps);
    SplitFirst(StepsYaml(steps), Rest(steps), Bodies(steps));
  }

  lemma SplitFirst(sy: string, rest: string, bs: seq<string>)
    requires sy == StepPrefix + rest && |rest| > 0 && !IsSpace(rest[0])
    requires Split(rest, StepMarker) == bs
    ensures Split("\n" + sy, StepMarker) == [""] + bs
  {
    calc {
      Split("\n" + sy, StepMarker);
      { assert "\n" + sy == "\n" + StepPrefix + rest; }
      Split("\n" + StepPrefix + rest, StepMarker);
      { SplitAfterMarker("\n", rest); }
      [""] + bs;
    }
  }

  lemma {:induction false} NonEmptyKeeps(parts: seq<string>)
    requires forall i :: 0 <= i < |parts| ==> parts[i] != ""
    ensures NonEmpty(parts) == parts
  {
    if |parts| > 0 {
      NonEmptyKeeps(parts[1..]);
      assert [parts[0]] + parts[1..] == parts;
    }
  }

  lemma NonEmptyDropsEmpty(parts: seq<string>)
    ensures NonEmpty([""] + parts) == NonEmpty(parts)
  {
    assert ([""] + parts)[1..] == parts;
  }

  lemma BodiesNonEmpty(steps: seq<Step>)
    requires AllReadable(steps)
    ensures forall i :: 0 <= i < |steps| ==> Bodies(steps)[i] != ""
  {
    forall i | 0 <= i < |steps| ensures Bodies(steps)[i] != "" {
      BodyEnds(steps[i]);
    }
  }

  /** The corrected reader finds one block per step: the step's body. */
  lemma StepBlocks(steps: seq<Step>)
    requires |steps| > 0 && AllReadable(steps)
    ensures NonEmpty(Split("\n" + StepsYaml(steps), StepMarker)) == Bodies(steps)
  {
    var bs := Bodies(steps);
    SplitStepText(steps);
    NonEmptyDropsEmpty(bs);
    BodiesNonEmpty(steps);
    NonEmptyKeeps(bs);
  }

  lemma PrefixClear(r: string)
    ensures Clear(Separating(StepMarker), StepPrefix, r)
  {
    LiteralClear(Separating(StepMarker), StepPrefix, r, 0);
  }

  /** Replacing the first of a list of non-empty texts by another non-empty text keeps all of them non-empty. */
  lemma NonEmptyReplacedFirst(x: string, bs: seq<string>)
    requires x != "" && |bs| > 0
    requires forall i :: 0 <= i < |bs| ==> bs[i] != ""
    ensures NonEmpty([x] + bs[1..]) == [x] + bs[1..]
  {
    var blocks := [x] + bs[1..];
    forall i | 0 <= i < |blocks| ensures blocks[i] != "" {
      if i > 0 {
        assert blocks[i] == bs[i];
      }
    }
    NonEmptyKeeps(blocks);
  }

  /** The reader as written finds the same blocks, but the first one still carries its marker. */
  lemma StepBlocksAsWritten(steps: seq<Step>)
    requires |steps| > 0 && AllReadable(steps)
    ensures NonEmpty(Split(StepsYaml(steps), StepMarker)) == [StepPrefix + Body(steps[0])] + Bodies(steps)[1..]
  {
    var bs := Bodies(steps);
    StepsYamlRest(steps);
    PrefixClear(Rest(steps));
    SplitSkip(StepMarker, StepPrefix, Rest(steps));
    SplitRest(steps);
    assert Split(StepsYaml(steps), StepMarker) == [StepPrefix + bs[0]] + bs[1..];
    BodiesNonEmpty(steps);
    NonEmptyReplacedFirst(StepPrefix + bs[0], bs);
  }

  /** The reader's step at position `i` is the one read from the `i`-th block. */
  lemma BlockStepAt(blocks: seq<string>, firstId: nat, i: nat)
    requires i < |blocks|
    ensures |BlockSteps(blocks, firstId)| == |blocks|
    ensures BlockSteps(blocks, firstId)[i] == BlockStep(blocks[i], firstId + i)
  {
    NumberedAt(blocks, firstId, BlockStep, i);
  }

  /** Two step lists agree when the reader's step for every position agrees. */
  lemma BlockStepsEqual(blocks: seq<string>, firstId: nat, expected: seq<Step>)
    requires |blocks| == |expected|
    requires forall i :: 0 <= i < |blocks| ==> BlockSteps(blocks, firstId)[i] == expected[i]
    ensures BlockSteps(blocks, firstId) == expected
  {
  }

  lemma BlocksOfBodies(steps: seq<Step>, firstId: nat)
    requires AllReadable(steps)
    ensures BlockSteps(Bodies(steps), firstId) == Renumbered(steps, firstId)
  {
    var bs := Bodies(steps);
    var expected := Renumbered(steps, firstId);
    forall i | 0 <= i < |steps| ensures BlockSteps(bs, firstId)[i] == expected[i] {
      BlockStepAt(bs, firstId, i);
      BlockOfBody(steps[i], firstId + i);
    }
    BlockStepsEqual(bs, firstId, expected);
  }

  /** Replacing the first block changes the reader's first step and no other. */
  lemma FirstBlockReplaced(blocks: seq<string>, first: string, firstId: nat, expected: seq<Step>, head: Step)
    requires |blocks| > 0 && BlockSteps(blocks, firstId) == expected
    requires BlockStep(first, firstId) == head
    ensures BlockSteps([first] + blocks[1..], firstId) == expected[0 := head]
  {
    var nb := [first] + blocks[1..];
    BlockStepAt(blocks, firstId, 0);
    forall i | 0 <= i < |nb| ensures BlockSteps(nb, firstId)[i] == expected[0 := head][i] {
      ReplacedBlockAt(blocks, first, firstId, i);
    }
    BlockStepsEqual(nb, firstId, expected[0 := head]);
  }

  /** One position of `FirstBlockReplaced`: the first step is read from the new block, the others from the old ones. */
  lemma ReplacedBlockAt(blocks: seq<string>, first: string, firstId: nat, i: nat)
    requires 0 <= i < |blocks|
    ensures BlockSteps([first] + blocks[1..], firstId)[i]
      == if i == 0 then BlockStep(first, firstId) else BlockSteps(blocks, firstId)[i]
  {
    var nb := [first] + blocks[1..];
    BlockStepAt(nb, firstId, i);
    BlockStepAt(blocks, firstId, i);
    assert i > 0 ==> nb[i] == blocks[i];
  }

  lemma BlocksAsWritten(steps: seq<Step>, firstId: nat)
    requires |steps| > 0 && AllReadable(steps)
    ensures var blocks := [StepPrefix + Body(steps[0])] + Bodies(steps)[1..];
      BlockSteps(blocks, firstId)
      == Renumbered(steps, firstId)[0 := steps[0].(id := firstId, kind := StepMarkerText + steps[0].kind)]
  {
    BlocksOfBodies(steps, firstId);
    AllReadableTail(steps);
    FirstBlockAsWritten(steps[0], firstId);
    FirstBlockReplaced(Bodies(steps), StepPrefix + Body(steps[0]), firstId, Renumbered(steps, firstId),
      steps[0].(id := firstId, kind := StepMarkerText + steps[0].kind));
  }

  // ------------------------------------------------------------ theorems

  /** The `sequence:` section of a document with steps is exactly the step text. */
  lemma SectionOfDocument(name: string, description: string, steps: seq<Step>)
    requires '\n' !in name && '\n' !in description
    requires |steps| > 0 && AllReadable(steps)
    ensures SequenceSection(StepsToYaml(name, description, steps)) == Some(StepsYaml(steps))
  {
    StepsYamlGuarded(steps);
    DocumentShape(name, description, steps);
    SectionsOfDocument(name, description, StepsYaml(steps));
  }

  /**
   * `yamlToSteps(stepsToYaml(name, description, steps))` gives back the name,
   * the description and the steps, renumbered from the reader's first
   * identifier, for every non-empty list of readable steps under a
   * non-empty, quote- and break-free name and description.
   */
  lemma RoundTrip(name: string, description: string, steps: seq<Step>, firstId: nat)
    requires HeaderText(name) && HeaderText(description)
    requires !EndsWithKey(name, DescriptionLabel)
    requires |steps| > 0 && AllReadable(steps)
    ensures ParseYaml(StepsToYaml(name, description, steps), firstId)
      == Some(TestDefinition(name, description, Renumbered(steps, firstId)))
  {
    SectionOfDocument(name, description, steps);
    StepBlocks(steps);
    BlocksOfBodies(steps, firstId);
    NameOfDocument(name, description, steps);
    DescriptionOfDocument(name, description, steps);
  }

  /** The reader as written gives back everything except the first step's kind, which keeps the `- step: ` marker. */
  lemma RoundTripAsWritten(name: string, description: string, steps: seq<Step>, firstId: nat)
    requires HeaderText(name) && HeaderText(description)
    requires !EndsWithKey(name, DescriptionLabel)
    requires |steps| > 0 && AllReadable(steps)
    ensures ParseYamlAsWritten(StepsToYaml(name, description, steps), firstId)
      == Some(TestDefinition(name, description,
           Renumbered(steps, firstId)[0 := steps[0].(id := firstId, kind := StepMarkerText + steps[0].kind)]))
  {
    SectionOfDocument(name, description, steps);
    StepBlocksAsWritten(steps);
    BlocksAsWritten(steps, firstId);
    NameOfDocument(name, description, steps);
    DescriptionOfDocument(name, description, steps);
  }

  /** A document without steps has an empty `sequence:` section, and both readers reject it. */
  lemma ZeroStepsRejected(name: string, description: string, firstId: nat)
    requires '\n' !in name && '\n' !in description
    ensures ParseYaml(StepsToYaml(name, description, []), firstId).None?
    ensures ParseYamlAsWritten(StepsToYaml(name, description, []), firstId).None?
  {
    DocumentShape(name, description, []);
    SectionsOfDocument(name, description, "");
    assert StepsYaml([]) == "";
  }
}
