/** JavaScript strings: sequences of UTF-16 code units, and the whitespace operations on them. */
module Texts {

  type CodeUnit = u: int | 0 <= u < 0x1_0000

  type Text = seq<CodeUnit>

  const NEWLINE: CodeUnit := 0x0A
  const SPACE: CodeUnit := 0x20

  /** What `trim` removes: the WhiteSpace and LineTerminator code points of ECMAScript. */
  predicate IsSpace(u: CodeUnit) {
    || 0x09 <= u <= 0x0D
    || u == SPACE || u == 0xA0 || u == 0x1680
    || 0x2000 <= u <= 0x200A
    || u == 0x2028 || u == 0x2029 || u == 0x202F || u == 0x205F || u == 0x3000 || u == 0xFEFF
  }

  predicate Blank(s: Text) {
    forall i :: 0 <= i < |s| ==> IsSpace(s[i])
  }

  /** The first visible position from i on, or the end. */
  function SkipSpace(s: Text, i: nat): (r: nat)
    requires i <= |s|
    ensures i <= r <= |s|
    ensures forall k :: i <= k < r ==> IsSpace(s[k])
    ensures r < |s| ==> !IsSpace(s[r])
    decreases |s| - i
  {
    if i < |s| && IsSpace(s[i]) then SkipSpace(s, i + 1) else i
  }

  /** The position after the last visible one before i, or 0. */
  function DropSpace(s: Text, i: nat): (r: nat)
    requires i <= |s|
    ensures r <= i
    ensures forall k :: r <= k < i ==> IsSpace(s[k])
    ensures r > 0 ==> !IsSpace(s[r - 1])
  {
    if i > 0 && IsSpace(s[i - 1]) then DropSpace(s, i - 1) else i
  }

  function TrimStart(s: Text): Text {
    s[SkipSpace(s, 0)..]
  }

  function TrimEnd(s: Text): Text {
    s[..DropSpace(s, |s|)]
  }

  function Trim(s: Text): Text {
    TrimEnd(TrimStart(s))
  }

  predicate Trimmed(s: Text) {
    s == [] || (!IsSpace(s[0]) && !IsSpace(s[|s| - 1]))
  }

  /** Trimming yields a trimmed text, leaves exactly the trimmed texts alone, and leaves
      nothing of exactly the blank ones. */
  lemma TrimTrims(s: Text)
    ensures Trimmed(Trim(s))
    ensures Trim(s) == s <==> Trimmed(s)
    ensures Trim(s) == [] <==> Blank(s)
  {
    var start := SkipSpace(s, 0);
    var end := DropSpace(s[start..], |s| - start);
    assert start < |s| ==> s[start..][0] == s[start] && !IsSpace(s[start..][0]);
    if end > 0 {
      assert Trim(s)[0] == s[start] && Trim(s)[end - 1] == s[start + end - 1];
    }
    if Trim(s) == s {
      assert |Trim(s)| == end;
    }
    if Trimmed(s) && s != [] {
      assert s[start..] == s;
    }
  }

  /** r is s without the whitespace around it. */
  ghost predicate Core(s: Text, r: Text) {
    exists i, j :: 0 <= i <= j <= |s| && r == s[i..j] && Trimmed(r) && Blank(s[..i]) && Blank(s[j..])
  }

  /** Trimming takes whitespace from both ends and nothing else. */
  lemma TrimCore(s: Text)
    ensures Core(s, Trim(s))
  {
    var i := SkipSpace(s, 0);
    var n := DropSpace(s[i..], |s| - i);
    TrimTrims(s);
    assert Trim(s) == s[i..i + n];
    forall k | i + n <= k < |s| ensures IsSpace(s[k]) {
      assert s[k] == s[i..][k - i];
    }
  }

  /** All whitespace: these 25 code units. */
  lemma WhitespaceListed(u: CodeUnit)
    ensures IsSpace(u) <==>
      u in {0x09, 0x0A, 0x0B, 0x0C, 0x0D, 0x20, 0xA0, 0x1680, 0x2000, 0x2001, 0x2002, 0x2003, 0x2004, 0x2005, 0x2006,
            0x2007, 0x2008, 0x2009, 0x200A, 0x2028, 0x2029, 0x202F, 0x205F, 0x3000, 0xFEFF}
  {
  }

  /** Position of the last u in s, or -1. */
  function LastIndexOf(s: Text, u: CodeUnit): (i: int)
    ensures -1 <= i < |s|
    ensures 0 <= i ==> s[i] == u
    ensures forall j :: i < j < |s| ==> s[j] != u
  {
    if s == [] then -1
    else if s[|s| - 1] == u then |s| - 1
    else LastIndexOf(s[..|s| - 1], u)
  }

  /** The code units of an ASCII string. */
  function Ascii(s: string): (r: Text)
    requires forall i :: 0 <= i < |s| ==> s[i] < 128 as char
    ensures |r| == |s| && forall i :: 0 <= i < |r| ==> r[i] == s[i] as int
  {
    seq(|s|, i requires 0 <= i < |s| => s[i] as int)
  }

  /** `Math.trunc`: towards zero. */
  function Trunc(r: real): int {
    if r >= 0.0 then r.Floor else -((-r).Floor)
  }

  /** The whole part: of the same sign, no larger, and less than one away. */
  lemma TruncWhole(r: real)
    ensures r >= 0.0 ==> r - 1.0 < Trunc(r) as real <= r
    ensures r <= 0.0 ==> r <= Trunc(r) as real < r + 1.0
  {
  }

  /** What `slice` makes of a bound: a negative one counts from the end. */
  function Clamp(p: int, len: nat): (r: nat)
    ensures r <= len
  {
    if p < 0 then (if len + p > 0 then len + p else 0) else if p < len then p else len
  }
}
