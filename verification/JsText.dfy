/** The few pieces of JavaScript string semantics the handlers and the gallery
    rely on: truthiness of an optional string, `x || fallback`, `String.prototype.trim`
    and the upper-casing of a first character. */
module JsText {
  import opened Wrappers

  /** `!!v` for a field read from a JSON body: an absent field and `""` are
      both falsy, every other string is truthy. */
  predicate Truthy(v: Option<string>) {
    v.Some? && v.value != ""
  }

  /** `v || fallback`: the field itself when it is truthy, otherwise the fallback. */
  function OrElse(v: Option<string>, fallback: string): (r: string)
    ensures Truthy(v) ==> Some(r) == v
    ensures !Truthy(v) ==> r == fallback
  {
    if Truthy(v) then v.value else fallback
  }

  /** The characters `trim` removes: ECMAScript WhiteSpace and LineTerminator. */
  predicate IsWhitespace(c: char) {
    || c == '\t' || c == '\n' || c == '\U{000B}' || c == '\U{000C}' || c == '\r' || c == ' '
    || c == '\U{00A0}' || c == '\U{1680}' || ('\U{2000}' <= c <= '\U{200A}')
    || c == '\U{2028}' || c == '\U{2029}' || c == '\U{202F}' || c == '\U{205F}'
    || c == '\U{3000}' || c == '\U{FEFF}'
  }

  predicate AllWhitespace(s: string) {
    forall i :: 0 <= i < |s| ==> IsWhitespace(s[i])
  }

  /** Drops leading whitespace: the result is a suffix of `s`, what was dropped
      is all whitespace, and the result does not itself start with whitespace. */
  function TrimStart(s: string): (r: string)
    ensures |r| <= |s| && r == s[|s| - |r|..]
    ensures AllWhitespace(s[..|s| - |r|])
    ensures |r| > 0 ==> !IsWhitespace(r[0])
  {
    if |s| > 0 && IsWhitespace(s[0]) then
      var rest := TrimStart(s[1..]);
      assert s[1..][..|s[1..]| - |rest|] == s[1..|s| - |rest|];
      rest
    else s
  }

  /** Drops trailing whitespace: the result is a prefix of `s`, what was
      dropped is all whitespace, and the result does not end with whitespace. */
  function TrimEnd(s: string): (r: string)
    ensures |r| <= |s| && r == s[..|r|]
    ensures AllWhitespace(s[|r|..])
    ensures |r| > 0 ==> !IsWhitespace(r[|r| - 1])
  {
    if |s| > 0 && IsWhitespace(s[|s| - 1]) then
      var rest := TrimEnd(s[..|s| - 1]);
      assert s[..|s| - 1][|rest|..] == s[|rest|..|s| - 1];
      rest
    else s
  }

  /** `s.trim()`: the piece of `s` left once the whitespace on both sides is
      dropped; it neither starts nor ends with whitespace. */
  function Trim(s: string): (r: string)
    ensures exists i: nat | i <= |s| :: PieceAt(s, r, i) && AllWhitespace(s[..i]) && AllWhitespace(s[i + |r|..])
    ensures |r| > 0 ==> !IsWhitespace(r[0]) && !IsWhitespace(r[|r| - 1])
  {
    var t := TrimStart(s);
    var r := TrimEnd(t);
    TrimmedPiece(s, t, r);
    r
  }

  /** A prefix `r` of a suffix `t` of `s`, each cut off only whitespace, is a
      piece of `s` with only whitespace on either side. */
  lemma TrimmedPiece(s: string, t: string, r: string)
    requires |t| <= |s| && t == s[|s| - |t|..] && AllWhitespace(s[..|s| - |t|])
    requires |r| <= |t| && r == t[..|r|] && AllWhitespace(t[|r|..])
    ensures PieceAt(s, r, |s| - |t|)
    ensures AllWhitespace(s[..|s| - |t|]) && AllWhitespace(s[|s| - |t| + |r|..])
  {
    var i := |s| - |t|;
    assert s[i..i + |r|] == r;
    assert s[i + |r|..] == t[|r|..];
  }

  /** `s.trim() !== ""` exactly when `s` holds a character that is not whitespace. */
  lemma TrimEmptyIff(s: string)
    ensures Trim(s) == "" <==> AllWhitespace(s)
  {
    var t := TrimStart(s);
    assert AllWhitespace(s) ==> |t| == 0 by {
      if |t| > 0 {
        assert t[0] == s[|s| - |t|];
      }
    }
    if Trim(s) == "" {
      assert AllWhitespace(t[0..]);
      assert s == s[..|s| - |t|] + t;
    }
  }

  /** `c.toUpperCase()` for one character, restricted to the ASCII letters. */
  function UpperChar(c: char): char {
    if 'a' <= c <= 'z' then (c as int - 32) as char else c
  }

  /** `s.charAt(0).toUpperCase() + s.slice(1)`; `charAt(0)` of `""` is `""`. */
  function Capitalize(s: string): (r: string)
    ensures |r| == |s|
    ensures |s| > 0 ==> r[0] == UpperChar(s[0])
    ensures forall k :: 0 < k < |s| ==> r[k] == s[k]
  {
    if s == "" then "" else [UpperChar(s[0])] + s[1..]
  }

  /** `part` occurs in `s` starting at position `i`. */
  predicate PieceAt(s: string, part: string, i: nat) {
    i + |part| <= |s| && s[i..i + |part|] == part
  }

  /** `s` has `part` as a contiguous piece (`s.includes(part)`). */
  predicate Contains(s: string, part: string) {
    exists i: nat | i <= |s| :: PieceAt(s, part, i)
  }

  lemma ContainsSelf(part: string)
    ensures Contains(part, part)
  {
    assert PieceAt(part, part, 0);
  }

  lemma ContainsInFront(front: string, back: string, part: string)
    requires Contains(front, part)
    ensures Contains(front + back, part)
  {
    var i: nat :| i <= |front| && PieceAt(front, part, i);
    assert (front + back)[i..i + |part|] == front[i..i + |part|];
    assert PieceAt(front + back, part, i);
  }

  lemma ContainsInBack(front: string, back: string, part: string)
    requires Contains(back, part)
    ensures Contains(front + back, part)
  {
    var i: nat :| i <= |back| && PieceAt(back, part, i);
    assert (front + back)[|front| + i..|front| + i + |part|] == back[i..i + |part|];
    assert PieceAt(front + back, part, |front| + i);
  }

  lemma ContainsMiddle(front: string, part: string, back: string)
    ensures Contains(front + part + back, part)
  {
    var s := front + part + back;
    assert PieceAt(s, part, |front|);
  }
}
