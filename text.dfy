/**
 * Character classes and string operations with the meaning JavaScript gives
 * them: the `\s`, `\w` and `.` regular-expression classes, `String.prototype.trim`,
 * `replace(/c/g, "")` and `replace(/\s+/g, "_")`.
 */
module Text {

  /**
   * `\s`: the WhiteSpace and LineTerminator code points; also what `trim`
   * removes. Tab through carriage return and the space, then the wider
   * Unicode spaces.
   */
  predicate IsSpace(c: char)
  {
    if c <= ' ' then c == ' ' || ('\t' <= c <= '\r') else '\U{A0}' <= c && IsWideSpace(c)
  }

  /** The `\s` code points above U+00A0. */
  predicate IsWideSpace(c: char)
  {
    c == '\U{A0}' || c == '\U{1680}' || ('\U{2000}' <= c <= '\U{200A}')
    || c == '\U{2028}' || c == '\U{2029}' || c == '\U{202F}' || c == '\U{205F}'
    || c == '\U{3000}' || c == '\U{FEFF}'
  }

  /** The LineTerminator code points: what `.` refuses to match. */
  predicate IsLineTerminator(c: char)
  {
    c == '\n' || c == '\r' || c == '\U{2028}' || c == '\U{2029}'
  }

  /** `\w`: ASCII letters, digits and the underscore. */
  predicate IsWordChar(c: char)
  {
    ('a' <= c <= 'z') || ('A' <= c <= 'Z') || ('0' <= c <= '9') || c == '_'
  }

  /** A non-empty run of `\w` characters: what `\w+` matches as a whole. */
  predicate IsWord(s: string)
  {
    |s| > 0 && forall i :: 0 <= i < |s| ==> IsWordChar(s[i])
  }

  predicate StartsWith(s: string, prefix: string)
  {
    |prefix| <= |s| && s[..|prefix|] == prefix
  }

  predicate AllSpace(s: string)
  {
    forall i :: 0 <= i < |s| ==> IsSpace(s[i])
  }

  /** Length of the longest prefix of `s` made of `\s` characters (what a greedy `\s*` consumes). */
  function SpaceLen(s: string): (n: nat)
    ensures n <= |s|
    ensures forall i :: 0 <= i < n ==> IsSpace(s[i])
    ensures n < |s| ==> !IsSpace(s[n])
  {
    if |s| == 0 || !IsSpace(s[0]) then 0 else 1 + SpaceLen(s[1..])
  }

  /** Length of the longest suffix of `s` made of `\s` characters. */
  function TrailingSpaceLen(s: string): (n: nat)
    ensures n <= |s|
    ensures forall i :: |s| - n <= i < |s| ==> IsSpace(s[i])
    ensures n < |s| ==> !IsSpace(s[|s| - 1 - n])
  {
    if |s| == 0 || !IsSpace(s[|s| - 1]) then 0 else 1 + TrailingSpaceLen(s[..|s| - 1])
  }

  /** `trimStart`: drops the leading white space and nothing else. */
  function TrimStart(s: string): (r: string)
    ensures |r| <= |s| && r == s[|s| - |r|..]
    ensures forall i :: 0 <= i < |s| - |r| ==> IsSpace(s[i])
    ensures |r| > 0 ==> !IsSpace(r[0])
  {
    s[SpaceLen(s)..]
  }

  /** `trimEnd`: drops the trailing white space and nothing else. */
  function TrimEnd(s: string): (r: string)
    ensures |r| <= |s| && r == s[..|r|]
    ensures forall i :: |r| <= i < |s| ==> IsSpace(s[i])
    ensures |r| > 0 ==> !IsSpace(r[|r| - 1])
  {
    s[..|s| - TrailingSpaceLen(s)]
  }

  /**
   * `trim`: `s` with a white-space prefix and a white-space suffix cut off,
   * such that what is left neither starts nor ends with white space; it is
   * empty exactly when `s` is all white space.
   */
  function Trim(s: string): (r: string)
    ensures |r| <= |s|
    ensures |r| > 0 ==> !IsSpace(r[0]) && !IsSpace(r[|r| - 1])
    ensures r == [] <==> AllSpace(s)
    ensures exists k :: 0 <= k <= |s| - |r| && r == s[k..k + |r|] && AllSpace(s[..k]) && AllSpace(s[k + |r|..])
  {
    var t := TrimStart(s);
    var r := TrimEnd(t);
    assert r == [] ==> t == [];
    var k := |s| - |t|;
    assert r == s[k..k + |r|] && AllSpace(s[..k]) && AllSpace(s[k + |r|..]);
    r
  }

  lemma TrimKeepsTrimmed(s: string)
    requires |s| > 0 ==> !IsSpace(s[0]) && !IsSpace(s[|s| - 1])
    ensures Trim(s) == s
  {
    assert SpaceLen(s) == 0;
    assert TrailingSpaceLen(s) == 0;
  }

  /** `replace(/c/g, "")`: every `c` removed, every other character kept in order. */
  function Without(s: string, c: char): (r: string)
    ensures |r| <= |s|
    ensures c !in r
    ensures forall x :: x != c ==> (x in r <==> x in s)
    ensures c !in s ==> r == s
  {
    if |s| == 0 then ""
    else if s[0] == c then Without(s[1..], c)
    else [s[0]] + Without(s[1..], c)
  }

  /** `replace(/\s+/g, "_")`: each maximal run of white space becomes one underscore. */
  function UnderscoreSpaceRuns(s: string): (r: string)
    ensures |r| <= |s|
    ensures forall i :: 0 <= i < |r| ==> !IsSpace(r[i])
    ensures (forall i :: 0 <= i < |s| ==> !IsSpace(s[i])) ==> r == s
    decreases |s|
  {
    if |s| == 0 then ""
    else if IsSpace(s[0]) then "_" + UnderscoreSpaceRuns(s[SpaceLen(s)..])
    else [s[0]] + UnderscoreSpaceRuns(s[1..])
  }

  /** Removing a character piece by piece: the pieces' results joined, so every other character stays in order. */
  lemma {:induction false} WithoutAppend(a: string, b: string, c: char)
    ensures Without(a + b, c) == Without(a, c) + Without(b, c)
    ensures |a| == 1 ==> Without(a, c) == if a[0] == c then "" else a
    decreases |a|
  {
    if |a| == 0 {
      assert a + b == b;
    } else {
      assert (a + b)[0] == a[0] && (a + b)[1..] == a[1..] + b;
      WithoutAppend(a[1..], b, c);
      assert |a| == 1 ==> a[1..] == "";
    }
  }

  /** A white-space run that reaches the end of `a` stops where `a` stops unless `b` goes on with white space. */
  lemma {:induction false} SpaceLenAppend(a: string, b: string)
    ensures SpaceLen(a) < |a| ==> SpaceLen(a + b) == SpaceLen(a)
    ensures SpaceLen(a) == |a| ==> SpaceLen(a + b) == |a| + SpaceLen(b)
    decreases |a|
  {
    if |a| == 0 {
      assert a + b == b;
    } else if IsSpace(a[0]) {
      assert (a + b)[0] == a[0] && (a + b)[1..] == a[1..] + b;
      SpaceLenAppend(a[1..], b);
    } else {
      assert (a + b)[0] == a[0];
    }
  }

  /** A non-empty white-space run becomes a single underscore. */
  lemma UnderscoreRun(w: string)
    requires |w| > 0 && AllSpace(w)
    ensures UnderscoreSpaceRuns(w) == "_"
  {
    SpaceLenAppend(w, "");
    assert w + "" == w;
    assert w[SpaceLen(w)..] == "";
  }

  /**
   * Texts that do not meet inside a white-space run are rewritten
   * separately: with `UnderscoreRun`, each maximal run becomes one `_` and
   * every other character stays, in order.
   */
  lemma {:induction false} UnderscoreJoin(a: string, b: string)
    requires |a| > 0 && |b| > 0 ==> !(IsSpace(a[|a| - 1]) && IsSpace(b[0]))
    ensures UnderscoreSpaceRuns(a + b) == UnderscoreSpaceRuns(a) + UnderscoreSpaceRuns(b)
    decreases |a|
  {
    if |a| == 0 {
      assert a + b == b;
    } else if !IsSpace(a[0]) {
      UnderscoreJoin(a[1..], b);
      JoinAfterChar(a, b);
    } else {
      SpaceLenAppend(a, b);
      if SpaceLen(a) < |a| {
        UnderscoreJoin(a[SpaceLen(a)..], b);
        JoinAfterRun(a, b);
      } else {
        JoinSpaceTail(a, b);
      }
    }
  }

  /** `UnderscoreJoin`'s step when `a` starts with a character that stays. */
  lemma JoinAfterChar(a: string, b: string)
    requires |a| > 0 && !IsSpace(a[0])
    requires UnderscoreSpaceRuns(a[1..] + b) == UnderscoreSpaceRuns(a[1..]) + UnderscoreSpaceRuns(b)
    ensures UnderscoreSpaceRuns(a + b) == UnderscoreSpaceRuns(a) + UnderscoreSpaceRuns(b)
  {
    HeadAndRest(a, b);
    KeptHead(a);
    KeptHead(a + b);
    Associative([a[0]], UnderscoreSpaceRuns(a[1..]), UnderscoreSpaceRuns(b));
  }

  /** `UnderscoreJoin`'s step when `a` starts with a run that ends inside `a`. */
  lemma JoinAfterRun(a: string, b: string)
    requires |a| > 0 && IsSpace(a[0]) && SpaceLen(a) < |a| && SpaceLen(a + b) == SpaceLen(a)
    requires UnderscoreSpaceRuns(a[SpaceLen(a)..] + b) == UnderscoreSpaceRuns(a[SpaceLen(a)..]) + UnderscoreSpaceRuns(b)
    ensures UnderscoreSpaceRuns(a + b) == UnderscoreSpaceRuns(a) + UnderscoreSpaceRuns(b)
  {
    HeadAndRest(a, b);
    RunHead(a);
    RunHead(a + b);
    Associative("_", UnderscoreSpaceRuns(a[SpaceLen(a)..]), UnderscoreSpaceRuns(b));
  }

  /** `a + b` starts as `a` does, and dropping a proper prefix of `a` leaves that part of `a` then `b`. */
  lemma HeadAndRest(a: string, b: string)
    requires |a| > 0
    ensures (a + b)[0] == a[0]
    ensures forall k :: 0 <= k <= |a| ==> (a + b)[k..] == a[k..] + b
  {
  }

  lemma Associative(x: string, y: string, z: string)
    ensures x + (y + z) == (x + y) + z
  {
  }

  /** A leading character other than white space is kept. */
  lemma KeptHead(s: string)
    requires |s| > 0 && !IsSpace(s[0])
    ensures UnderscoreSpaceRuns(s) == [s[0]] + UnderscoreSpaceRuns(s[1..])
  {
  }

  /** A leading white-space run becomes `_`. */
  lemma RunHead(s: string)
    requires |s| > 0 && IsSpace(s[0])
    ensures UnderscoreSpaceRuns(s) == "_" + UnderscoreSpaceRuns(s[SpaceLen(s)..])
  {
  }

  /** `UnderscoreJoin`'s step when `a` is one white-space run and `b` does not go on with one. */
  lemma JoinSpaceTail(a: string, b: string)
    requires |a| > 0 && IsSpace(a[0]) && SpaceLen(a) == |a|
    requires |b| > 0 ==> !IsSpace(b[0])
    ensures UnderscoreSpaceRuns(a + b) == UnderscoreSpaceRuns(a) + UnderscoreSpaceRuns(b)
  {
    SpaceLenAppend(a, b);
    var ab := a + b;
    assert ab[0] == a[0] && ab[|a|..] == b && a[|a|..] == "";
  }

  /** `str.replace(c, d)` for single characters: every `c` becomes `d`, everything else stays in place. */
  function Replace(s: string, c: char, d: char): (r: string)
    ensures |r| == |s|
    ensures forall i :: 0 <= i < |s| ==> r[i] == if s[i] == c then d else s[i]
  {
    if |s| == 0 then ""
    else [if s[0] == c then d else s[0]] + Replace(s[1..], c, d)
  }
}
