/** JavaScript string helpers the chat client relies on: `String.prototype.trim`.
    Strings are sequences of Unicode scalar values; the whitespace set is the
    ECMAScript WhiteSpace and LineTerminator productions. */
module JsText {

  /** The characters `trim` removes: TAB, LF, VT, FF and CR (U+0009 to U+000D),
      SPACE, NO-BREAK SPACE, OGHAM SPACE MARK, EN QUAD through HAIR SPACE
      (U+2000 to U+200A), LINE SEPARATOR, PARAGRAPH SEPARATOR, NARROW NO-BREAK
      SPACE, MEDIUM MATHEMATICAL SPACE, IDEOGRAPHIC SPACE and ZERO WIDTH
      NO-BREAK SPACE. */
  predicate IsWhitespace(c: char) {
    || '\t' <= c <= '\r'
    || c == ' ' || c == '\U{00A0}' || c == '\U{1680}'
    || '\U{2000}' <= c <= '\U{200A}'
    || c == '\U{2028}' || c == '\U{2029}' || c == '\U{202F}' || c == '\U{205F}'
    || c == '\U{3000}' || c == '\U{FEFF}'
  }

  /** True when every character of `s` is whitespace (vacuously for ""). */
  predicate AllWhitespace(s: string) {
    forall i :: 0 <= i < |s| ==> IsWhitespace(s[i])
  }

  /** `s` with its leading whitespace removed. */
  function TrimStart(s: string): string {
    if s != [] && IsWhitespace(s[0]) then TrimStart(s[1..]) else s
  }

  /** `s` with its trailing whitespace removed. */
  function TrimEnd(s: string): string {
    if s != [] && IsWhitespace(s[|s| - 1]) then TrimEnd(s[..|s| - 1]) else s
  }

  /** `TrimStart` removes exactly the leading whitespace: it keeps a suffix of
      `s`, what it drops is whitespace and what it keeps does not start with
      whitespace. */
  lemma {:induction false} TrimStartSpec(s: string)
    ensures var r := TrimStart(s);
      && |r| <= |s| && r == s[|s| - |r|..]
      && (r == [] || !IsWhitespace(r[0]))
      && forall k :: 0 <= k < |s| - |r| ==> IsWhitespace(s[k])
  {
    if s != [] && IsWhitespace(s[0]) {
      TrimStartSpec(s[1..]);
      assert forall k :: 1 <= k < |s| ==> s[k] == s[1..][k - 1];
    }
  }

  /** `TrimEnd` removes exactly the trailing whitespace: it keeps a prefix of
      `s`, what it drops is whitespace and what it keeps does not end with
      whitespace. */
  lemma {:induction false} TrimEndSpec(s: string)
    ensures var r := TrimEnd(s);
      && |r| <= |s| && r == s[..|r|]
      && (r == [] || !IsWhitespace(r[|r| - 1]))
      && forall k :: |r| <= k < |s| ==> IsWhitespace(s[k])
  {
    if s != [] && IsWhitespace(s[|s| - 1]) {
      TrimEndSpec(s[..|s| - 1]);
      assert forall k :: 0 <= k < |s| - 1 ==> s[k] == s[..|s| - 1][k];
    }
  }

  /** `String.prototype.trim`. */
  function Trim(s: string): string {
    TrimEnd(TrimStart(s))
  }

  /** The result of `Trim` is a contiguous piece of the input, and everything
      cut away on either side is whitespace. */
  lemma TrimIsSlice(s: string)
    ensures exists i, j ::
              && 0 <= i <= j <= |s| && Trim(s) == s[i..j]
              && (forall k :: 0 <= k < i ==> IsWhitespace(s[k]))
              && (forall k :: j <= k < |s| ==> IsWhitespace(s[k]))
  {
    var t := TrimStart(s);
    TrimStartSpec(s);
    var u := TrimEnd(t);
    TrimEndSpec(t);
    var i := |s| - |t|;
    var j := i + |u|;
    assert u == s[i..j] by {
      assert t == s[i..];
      assert u == t[..|u|];
    }
    forall k | j <= k < |s| ensures IsWhitespace(s[k]) {
      assert s[k] == t[k - i];
    }
  }

  /** The result of `Trim` neither starts nor ends with whitespace. */
  lemma TrimHasNoMargins(s: string)
    ensures Trim(s) == [] || (!IsWhitespace(Trim(s)[0]) && !IsWhitespace(Trim(s)[|Trim(s)| - 1]))
  {
    var t := TrimStart(s);
    TrimStartSpec(s);
    var u := TrimEnd(t);
    TrimEndSpec(t);
    if u != [] {
      assert u[0] == t[0];
    }
  }

  /** `input.trim()` is non-empty exactly when the input holds a non-whitespace character. */
  lemma TrimEmptyIff(s: string)
    ensures Trim(s) == [] <==> AllWhitespace(s)
  {
    var t := TrimStart(s);
    TrimStartSpec(s);
    var u := TrimEnd(t);
    TrimEndSpec(t);
    var i := |s| - |t|;
    if u == [] {
      assert t == [];
    } else {
      assert t[0] == s[i];
    }
  }
}
