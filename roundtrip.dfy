/**
 * What `yamlToSteps` recovers from the text `stepsToYaml` writes.
 *
 * The proofs walk the generated document piece by piece: a pattern whose
 * leftmost match lies further on can be skipped over a piece in which no
 * match of it can start ("the piece is clear of the pattern").
 */
module YamlRoundTrip {
  import opened Wrappers
  import opened Text
  import opened Decimal
  import opened Steps
  import opened Transcoder

  // ------------------------------------------------ skipping clear pieces

  datatype Pattern = Separating(sep: Separator) | Field(key: string)

  predicate MatchesAt(pat: Pattern, s: string)
  {
    match pat
    case Separating(sep) => SeparatorAt(sep, s).Some?
    case Field(key) => QuotedFieldAt(s, key).Some?
  }

  /** The literal text every match of the pattern starts with. */
  function Anchor(pat: Pattern): string
  {
    match pat
    case Separating(sep) => if sep == SequenceMarker then SequenceLabel else "\n"
    case Field(key) => key
  }

  lemma MatchStartsWithAnchor(pat: Pattern, s: string)
    ensures MatchesAt(pat, s) ==> StartsWith(s, Anchor(pat))
  {
  }

  /** No match of `pat` starts inside `p` when `p` is followed by `r`. */
  predicate Clear(pat: Pattern, p: string, r: string)
  {
    forall i :: 0 <= i < |p| ==> !MatchesAt(pat, (p + r)[i..])
  }

  lemma ClearConcat(pat: Pattern, a: string, b: string, r: string)
    requires Clear(pat, a, b + r) && Clear(pat, b, r)
    ensures Clear(pat, a + b, r)
  {
    forall i | 0 <= i < |a + b| ensures !MatchesAt(pat, ((a + b) + r)[i..]) {
      if i < |a| {
        assert ((a + b) + r)[i..] == (a + (b + r))[i..];
      } else {
        assert ((a + b) + r)[i..] == (b + r)[i - |a|..];
      }
    }
  }

  /**
   * A piece is clear of a pattern when some character of the anchor (the
   * `k`-th) does not occur in it and none of its last `k` characters can
   * begin the anchor.
   */
  lemma LiteralClear(pat: Pattern, p: string, r: string, k: nat)
    requires k < |Anchor(pat)|
    requires Anchor(pat)[k] !in p
    requires forall j :: 0 <= j < |p| && |p| - k <= j ==> p[j] != Anchor(pat)[0]
    ensures Clear(pat, p, r)
  {
    var a := Anchor(pat);
    forall i | 0 <= i < |p| ensures !MatchesAt(pat, (p + r)[i..]) {
      var s := (p + r)[i..];
      MatchStartsWithAnchor(pat, s);
      if i + k < |p| {
        assert s[k] == p[i + k];
        assert s[k] != a[k];
      } else {
        assert s[0] == p[i];
        assert s[0] != a[0];
      }
    }
  }

  /** A clear piece stays clear without its first character, and no match starts at that character. */
  lemma ClearTail(pat: Pattern, p: string, r: string)
    requires |p| > 0 && Clear(pat, p, r)
    ensures !MatchesAt(pat, p + r) && (p + r)[1..] == p[1..] + r
    ensures Clear(pat, p[1..], r)
  {
    var q := p + r;
    assert q[0..] == q;
    forall i | 0 <= i < |p[1..]| ensures !MatchesAt(pat, (p[1..] + r)[i..]) {
      assert (p[1..] + r)[i..] == q[i + 1..];
    }
  }

  /** Where no separator starts, the first character joins the first piece of the rest's split. */
  lemma SplitNoSeparator(sep: Separator, q: string)
    requires |q| > 0 && SeparatorAt(sep, q).None?
    ensures Split(q, sep) == [[q[0]] + Split(q[1..], sep)[0]] + Split(q[1..], sep)[1..]
  {
  }

  /** Putting a character in front of the first piece of a split. */
  lemma JoinFirst(c: char, tail: string, u: seq<string>, t: seq<string>)
    requires |t| >= 1 && u == [tail + t[0]] + t[1..]
    ensures [[c] + u[0]] + u[1..] == [([c] + tail) + t[0]] + t[1..]
  {
    assert u[0] == tail + t[0] && u[1..] == t[1..];
    assert [c] + (tail + t[0]) == ([c] + tail) + t[0];
  }

  lemma {:induction false} SplitSkip(sep: Separator, p: string, r: string)
    requires Clear(Separating(sep), p, r)
    ensures Split(p + r, sep) == [p + Split(r, sep)[0]] + Split(r, sep)[1..]
  {
    var t := Split(r, sep);
    if |p| > 0 {
      var q := p + r;
      ClearTail(Separating(sep), p, r);
      SplitNoSeparator(sep, q);
      SplitSkip(sep, p[1..], r);
      JoinFirst(q[0], p[1..], Split(p[1..] + r, sep), t);
      assert [q[0]] + p[1..] == p;
    } else {
      assert p + r == r && p + t[0] == t[0];
      assert [t[0]] + t[1..] == t;
    }
  }

  lemma {:induction false} FieldSkip(key: string, p: string, r: string)
    requires Clear(Field(key), p, r)
    ensures FirstQuotedField(p + r, key) == FirstQuotedField(r, key)
  {
    if |p| > 0 {
      var q := p + r;
      ClearTail(Field(key), p, r);
      assert FirstQuotedField(q, key) == FirstQuotedField(q[1..], key);
      FieldSkip(key, p[1..], r);
    } else {
      assert p + r == r;
    }
  }

  // ------------------------------------------- free text inside the header

  /** A `sequence:` marker cannot start inside a piece without line breaks that a `"` follows. */
  lemma QuotedTextClearOfSequence(t: string, r: string)
    requires '\n' !in t
    requires |r| > 0 && r[0] == '"'
    ensures Clear(Separating(SequenceMarker), t, r)
  {
    forall i | 0 <= i < |t| ensures SeparatorAt(SequenceMarker, (t + r)[i..]).None? {
      var s := (t + r)[i..];
      var n := |SequenceLabel|;
      assert s[|t| - i] == '"';
      if i + n > |t| {
        assert SequenceLabel[|t| - i] != '"';
      } else {
        var rest := s[n..];
        assert rest[|t| - i - n] == '"';
        var w := SpaceLen(rest);
        assert w <= |t| - i - n;
        assert forall j :: 0 <= j < w ==> rest[..w][j] == t[i + n + j];
        assert '\n' !in rest[..w];
      }
    }
  }

  /** `t` ends with `key` followed by nothing but white space. */
  predicate EndsWithKey(t: string, key: string)
  {
    exists i :: 0 <= i <= |t| - |key| && StartsWith(t[i..], key) && AllSpace(t[i + |key|..])
  }

  /** A quoted field cannot start inside a quote-free piece that a `"` follows, unless the piece ends with the key. */
  lemma QuotedTextClearOfField(t: string, r: string, key: string)
    requires '"' !in t && '"' !in key
    requires |r| > 0 && r[0] == '"'
    requires !EndsWithKey(t, key)
    ensures Clear(Field(key), t, r)
  {
    forall i | 0 <= i < |t| ensures QuotedFieldAt((t + r)[i..], key).None? {
      var s := (t + r)[i..];
      var n := |key|;
      assert s[|t| - i] == '"';
      if i + n > |t| {
        assert key[|t| - i] != '"';
      } else if StartsWith(s, key) {
        var rest := s[n..];
        assert t[i..][..n] == s[..n];
        assert !AllSpace(t[i + n..]);
        var j :| 0 <= j < |t| - i - n && !IsSpace(t[i + n..][j]);
        assert rest[j] == t[i + n + j];
        var w := SpaceLen(rest);
        assert rest[w] == t[i + n + w];
      }
    }
  }

  // ------------------------------------------ line breaks inside the body

  predicate GoodBeforeBreak(c: char)
  {
    c == '\n' || (!IsSpace(c) && c != ':')
  }

  /**
   * Every line break is preceded by a line break or by a character that is
   * neither white space nor a colon; such a text holds no `sequence:` marker.
   */
  predicate Guarded(s: string)
  {
    forall i :: 0 < i < |s| && s[i] == '\n' ==> GoodBeforeBreak(s[i - 1])
  }

  predicate EndsGood(s: string)
  {
    |s| > 0 && GoodBeforeBreak(s[|s| - 1])
  }

  lemma GuardedConcat(a: string, b: string)
    requires Guarded(a) && Guarded(b)
    requires |b| > 0 && b[0] == '\n' ==> EndsGood(a)
    ensures Guarded(a + b)
  {
    var s := a + b;
    forall i | 0 < i < |s| && s[i] == '\n' ensures GoodBeforeBreak(s[i - 1]) {
      if i < |a| {
        assert s[i] == a[i] && s[i - 1] == a[i - 1];
      } else if i == |a| {
        assert s[i] == b[0] && s[i - 1] == a[|a| - 1];
      } else {
        assert s[i] == b[i - |a|] && s[i - 1] == b[i - 1 - |a|];
      }
    }
  }

  lemma {:induction false} ColonRunHasNoBreak(s: string, j: nat, k: nat)
    requires Guarded(s)
    requires j + 1 + k < |s| && s[j] == ':'
    requires forall m :: j < m <= j + k ==> IsSpace(s[m])
    ensures s[j + 1 + k] != '\n'
  {
    if k > 0 {
      ColonRunHasNoBreak(s, j, k - 1);
    }
  }

  lemma GuardedClearOfSequence(s: string)
    requires Guarded(s)
    ensures Clear(Separating(SequenceMarker), s, "")
  {
    forall i | 0 <= i < |s| ensures SeparatorAt(SequenceMarker, (s + "")[i..]).None? {
      assert s + "" == s;
      var u := s[i..];
      var n := |SequenceLabel|;
      if StartsWith(u, SequenceLabel) {
        var rest := u[n..];
        var w := SpaceLen(rest);
        assert s[i + n - 1] == ':';
        forall m | 0 <= m < w ensures rest[..w][m] != '\n' {
          assert forall q :: i + n - 1 < q <= i + n - 1 + m ==> s[q] == rest[q - i - n];
          ColonRunHasNoBreak(s, i + n - 1, m);
          assert rest[m] == s[i + n + m];
        }
        assert '\n' !in rest[..w];
      }
    }
  }
}
