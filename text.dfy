/**
 * The parts of Rust's `str` that the editor relies on, on Dafny strings
 * (sequences of Unicode scalar values): the UTF-8 byte length that `len()`
 * reports, and `trim()`, which strips Unicode White_Space at both ends.
 */
module Text {

  /** Number of bytes the UTF-8 encoding of `c` takes. */
  function Utf8Width(c: char): (w: nat)
    ensures 1 <= w <= 4
    ensures w == 1 <==> (c as int) < 0x80
  {
    if (c as int) < 0x80 then 1
    else if (c as int) < 0x800 then 2
    else if (c as int) < 0x1_0000 then 3
    else 4
  }

  /** `s.len()` in Rust: the length of `s` in UTF-8 bytes. */
  function Utf8Len(s: string): nat
  {
    if s == [] then 0 else Utf8Width(s[0]) + Utf8Len(s[1..])
  }

  lemma {:induction false} Utf8LenConcat(a: string, b: string)
    ensures Utf8Len(a + b) == Utf8Len(a) + Utf8Len(b)
  {
    if a == [] {
      assert a + b == b;
    } else {
      assert (a + b)[0] == a[0];
      assert (a + b)[1..] == a[1..] + b;
      Utf8LenConcat(a[1..], b);
    }
  }

  /** Every string takes at least one byte per character. */
  lemma {:induction false} Utf8LenAtLeastLength(s: string)
    ensures Utf8Len(s) >= |s|
    ensures Utf8Len(s) == |s| <==> forall i :: 0 <= i < |s| ==> (s[i] as int) < 0x80
  {
    if s != [] {
      Utf8LenAtLeastLength(s[1..]);
      assert forall i :: 1 <= i < |s| ==> s[i] == s[1..][i - 1];
    }
  }

  /** `char::is_whitespace`: the Unicode White_Space property. */
  predicate IsWhitespace(c: char)
  {
    || ('\t' <= c <= '\r')
    || c == ' '
    || c == '\U{85}'
    || c == '\U{A0}'
    || c == '\U{1680}'
    || ('\U{2000}' <= c <= '\U{200A}')
    || c == '\U{2028}'
    || c == '\U{2029}'
    || c == '\U{202F}'
    || c == '\U{205F}'
    || c == '\U{3000}'
  }

  predicate AllWhitespace(s: string)
  {
    forall i :: 0 <= i < |s| ==> IsWhitespace(s[i])
  }

  /** `trim_start`: drops leading white space. */
  function TrimStart(s: string): string
  {
    if s != [] && IsWhitespace(s[0]) then TrimStart(s[1..]) else s
  }

  /** `trim_end`: drops trailing white space. */
  function TrimEnd(s: string): string
  {
    if s != [] && IsWhitespace(s[|s| - 1]) then TrimEnd(s[..|s| - 1]) else s
  }

  /** `trim_start` removes a prefix of white space and stops at the first other character. */
  lemma {:induction false} TrimStartShape(s: string)
    ensures var r := TrimStart(s);
      && |r| <= |s| && r == s[|s| - |r|..]
      && AllWhitespace(s[..|s| - |r|])
      && (r == [] || !IsWhitespace(r[0]))
  {
    if s != [] && IsWhitespace(s[0]) {
      TrimStartShape(s[1..]);
      var r := TrimStart(s[1..]);
      assert s[..|s| - |r|] == [s[0]] + s[1..][..|s| - 1 - |r|];
    }
  }

  /** `trim_end` removes a suffix of white space and stops at the last other character. */
  lemma {:induction false} TrimEndShape(s: string)
    ensures var r := TrimEnd(s);
      && |r| <= |s| && r == s[..|r|]
      && AllWhitespace(s[|r|..])
      && (r == [] || !IsWhitespace(r[|r| - 1]))
  {
    if s != [] && IsWhitespace(s[|s| - 1]) {
      TrimEndShape(s[..|s| - 1]);
      var r := TrimEnd(s[..|s| - 1]);
      assert s[|r|..] == s[..|s| - 1][|r|..] + [s[|s| - 1]];
    }
  }

  /** `str::trim`. */
  function Trim(s: string): string
  {
    TrimEnd(TrimStart(s))
  }

  /** `s` is `t` with white space before it (up to `i`) and after it. */
  predicate Surrounds(s: string, t: string, i: int)
  {
    && 0 <= i <= |s| - |t|
    && s[i..i + |t|] == t
    && AllWhitespace(s[..i])
    && AllWhitespace(s[i + |t|..])
  }

  /**
   * A string trims to `t` exactly when it is `t` surrounded by white space,
   * given that `t` neither starts nor ends with white space.
   */
  lemma TrimIsSurroundedText(s: string, t: string)
    requires t != [] && !IsWhitespace(t[0]) && !IsWhitespace(t[|t| - 1])
    ensures Trim(s) == t <==> exists i :: Surrounds(s, t, i)
  {
    if Trim(s) == t {
      TrimmedTextIsSurrounded(s);
    }
    if exists i :: Surrounds(s, t, i) {
      var i :| Surrounds(s, t, i);
      SurroundedTextTrims(s, t, i);
    }
  }

  lemma TrimmedTextIsSurrounded(s: string)
    ensures Surrounds(s, Trim(s), |s| - |TrimStart(s)|)
  {
    TrimStartShape(s);
    TrimEndShape(TrimStart(s));
    var st := TrimStart(s);
    var k := |s| - |st|;
    var t := TrimEnd(st);
    assert s[k..k + |t|] == st[..|t|];
    assert s[k + |t|..] == st[|t|..];
  }

  lemma SurroundedTextTrims(s: string, t: string, i: int)
    requires t != [] && !IsWhitespace(t[0]) && !IsWhitespace(t[|t| - 1])
    requires Surrounds(s, t, i)
    ensures Trim(s) == t
  {
    assert s[i] == t[0];
    LeadingWhitespaceSkipped(s, i);
    var st := s[i..];
    assert st[..|t|] == t;
    assert st[|t|..] == s[i + |t|..];
    TrailingWhitespaceSkipped(st, |t|);
  }

  /** Trimming the front of `w + x`, where `w` is white space and `x` does not start with it. */
  lemma {:induction false} LeadingWhitespaceSkipped(s: string, i: nat)
    requires i <= |s| && AllWhitespace(s[..i])
    requires i == |s| || !IsWhitespace(s[i])
    ensures TrimStart(s) == s[i..]
  {
    if i > 0 {
      assert IsWhitespace(s[..i][0]);
      assert s[1..][..i - 1] == s[1..i];
      assert forall j :: 0 <= j < i - 1 ==> s[1..i][j] == s[..i][j + 1];
      LeadingWhitespaceSkipped(s[1..], i - 1);
      assert s[1..][i - 1..] == s[i..];
    }
  }

  /** Trimming the end of `x + w`, where `w` is white space and `x` does not end with it. */
  lemma {:induction false} TrailingWhitespaceSkipped(s: string, n: nat)
    requires n <= |s| && AllWhitespace(s[n..])
    requires n == 0 || !IsWhitespace(s[n - 1])
    decreases |s| - n
    ensures TrimEnd(s) == s[..n]
  {
    if n < |s| {
      var p := s[..|s| - 1];
      assert IsWhitespace(s[n..][|s| - 1 - n]);
      assert forall j :: 0 <= j < |p| - n ==> p[n..][j] == s[n..][j];
      TrailingWhitespaceSkipped(p, n);
      assert p[..n] == s[..n];
    }
  }
}
