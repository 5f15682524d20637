/** Slicing a string of UTF-16 code units without cutting a surrogate pair (section 2.2 of
    RFC 2781 says which units form one). */
module Utf16 {
  import opened Options
  import opened Texts

  predicate IsHighSurrogate(u: CodeUnit) {
    0xD800 <= u <= 0xDBFF
  }

  predicate IsLowSurrogate(u: CodeUnit) {
    0xDC00 <= u <= 0xDFFF
  }

  /** A surrogate pair straddles position p. */
  predicate Inside(s: Text, p: int) {
    0 < p < |s| && IsHighSurrogate(s[p - 1]) && IsLowSurrogate(s[p])
  }

  type CodePoint = c: int | 0 <= c <= 0x10_FFFF

  /** The code points of a string as iteration yields them: pairs are joined, a lone surrogate
      stands for itself. */
  function Decode(s: Text): seq<CodePoint> {
    if s == [] then []
    else if Inside(s, 1) then
      [(s[0] - 0xD800) * 0x400 + (s[1] - 0xDC00) + 0x1_0000] + Decode(s[2..])
    else [s[0]] + Decode(s[1..])
  }

  /** A code point beyond the first plane as its pair, section 2.1 of RFC 2781: a high surrogate with
      its upper ten bits and a low one with its lower ten. */
  function Pair(c: CodePoint): Text
    requires c >= 0x1_0000
  {
    [0xD800 + (c - 0x1_0000) / 0x400, 0xDC00 + (c - 0x1_0000) % 0x400]
  }

  /** Decoding undoes encoding, and two units decode to one code point only as its pair. */
  lemma PairDecodes(c: CodePoint, u: CodeUnit, v: CodeUnit)
    requires c >= 0x1_0000
    ensures Decode([u, v]) == [c] <==> [u, v] == Pair(c)
  {
    var s := [u, v];
    assert s[2..] == [];
    if Inside(s, 1) {
      assert Decode(s) == [(u - 0xD800) * 0x400 + (v - 0xDC00) + 0x1_0000];
    } else {
      assert Decode(s) == [u] + Decode(s[1..]);
    }
    assert s == Pair(c) <==> u == Pair(c)[0] && v == Pair(c)[1];
  }

  /** Well-formed UTF-16: no lone surrogate. */
  predicate WellFormed(s: Text) {
    s == []
    || (if Inside(s, 1) then WellFormed(s[2..])
        else !IsHighSurrogate(s[0]) && !IsLowSurrogate(s[0]) && WellFormed(s[1..]))
  }

  /** The bounds asked for, in order. */
  function Bounds(len: nat, start: int, end: Option<int>): (r: (nat, nat))
    ensures r.0 <= r.1 <= len
  {
    var a, b := Clamp(start, len), if end.None? then len else Clamp(end.value, len);
    if b < a then (b, a) else (a, b)
  }

  /** A start in the middle of a pair moves behind it, an end in the middle in front of it. */
  function SafeFrom(s: Text, p: nat): nat {
    if Inside(s, p) then p + 1 else p
  }

  function SafeTo(s: Text, p: nat): nat {
    if Inside(s, p) then p - 1 else p
  }

  function SafeSlice(s: Text, lo: nat, hi: nat): Text
    requires lo <= hi <= |s|
  {
    if SafeFrom(s, lo) <= SafeTo(s, hi) then s[SafeFrom(s, lo)..SafeTo(s, hi)] else []
  }

  /** A position as the string methods read it: without its fraction. */
  function ToInteger(p: real): int {
    if p < 0.0 then -(-p).Floor else p.Floor
  }

  function ClampReal(p: real, len: nat): real {
    if p < 0.0 then (if len as real + p > 0.0 then len as real + p else 0.0)
    else if p < len as real then p else len as real
  }

  lemma ClampFloors(p: real, len: nat)
    ensures 0.0 <= ClampReal(p, len) <= len as real && ClampReal(p, len).Floor == Clamp(p.Floor, len)
  {
  }

  /** Next to a position lies what lies next to its floor. */
  lemma NextToFloor(s: Text, p: real)
    requires 0.0 < p < |s| as real
    ensures 0 <= ToInteger(p) < |s| && 0 <= ToInteger(p - 1.0) < |s|
    ensures IsHighSurrogate(s[ToInteger(p - 1.0)]) && IsLowSurrogate(s[ToInteger(p)]) <==> Inside(s, p.Floor)
    ensures Inside(s, p.Floor) ==> (p + 1.0).Floor == p.Floor + 1 && (p - 1.0).Floor == p.Floor - 1
  {
    if p < 1.0 {
      assert p.Floor == 0 && ToInteger(p - 1.0) == 0;
    } else {
      assert (p - 1.0).Floor == p.Floor - 1;
    }
  }

  /** What the source returns for real bounds. */
  function Slice(s: Text, start: real, end: Option<real>): Text {
    var (lo, hi) := Bounds(|s|, start.Floor, if end.Some? then Some(end.value.Floor) else None);
    SafeSlice(s, lo, hi)
  }

  method SliceUtf16Safe(input: Text, start: real, end: Option<real>) returns (r: Text)
    ensures r == Slice(input, start, end)
  {
    var len := |input|;
    ClampFloors(start, len);
    var from := ClampReal(start, len);
    var to := len as real;
    if end.Some? {
      ClampFloors(end.value, len);
      to := ClampReal(end.value, len);
    }
    if to < from {
      from, to := to, from;
    }
    ghost var (lo, hi) := Bounds(len, start.Floor, if end.Some? then Some(end.value.Floor) else None);
    assert from.Floor == lo && to.Floor == hi;
    if from > 0.0 && from < len as real {
      NextToFloor(input, from);
      var codeUnit := input[ToInteger(from)];
      if IsLowSurrogate(codeUnit) && IsHighSurrogate(input[ToInteger(from - 1.0)]) {
        from := from + 1.0;
      }
    }
    assert from.Floor == SafeFrom(input, lo);
    if to > 0.0 && to < len as real {
      NextToFloor(input, to);
      var codeUnit := input[ToInteger(to - 1.0)];
      if IsHighSurrogate(codeUnit) && IsLowSurrogate(input[ToInteger(to)]) {
        to := to - 1.0;
      }
    }
    assert to.Floor == SafeTo(input, hi);
    // String.prototype.slice yields the empty string when its bounds cross.
    r := if from.Floor <= to.Floor then input[from.Floor..to.Floor] else [];
  }

  method TruncateUtf16Safe(input: Text, maxLen: real) returns (r: Text)
    ensures r == Truncate(input, maxLen)
  {
    var limit := if maxLen.Floor > 0 then maxLen.Floor else 0;
    if |input| <= limit {
      return input;
    }
    r := SliceUtf16Safe(input, 0.0, Some(limit as real));
  }

  function Truncate(s: Text, maxLen: real): Text {
    var limit := if maxLen.Floor > 0 then maxLen.Floor else 0;
    if |s| <= limit then s else SafeSlice(s, 0, limit)
  }

  // ---- which bounds count ----

  /** The bounds of a slice: their order does not matter, a missing end is the length, what lies
      beyond the length counts as the length, and a negative bound counts from the end. */
  lemma BoundsMean(s: Text, a: real, b: real)
    ensures Slice(s, a, Some(b)) == Slice(s, b, Some(a))
    ensures Slice(s, a, None) == Slice(s, a, Some(|s| as real))
    ensures a >= |s| as real ==> Slice(s, a, Some(b)) == Slice(s, |s| as real, Some(b))
    ensures a < 0.0 ==> Slice(s, a, Some(b)) == Slice(s, if |s| as real + a > 0.0 then |s| as real + a else 0.0, Some(b))
  {
    if a < 0.0 {
      assert (|s| as real + a).Floor == |s| + a.Floor;
    }
  }

  /** Between whole bounds in order that cut no pair lies exactly the text between them; a bound
      inside a pair gives up the half of the pair that would be left. */
  lemma SliceExactly(s: Text, lo: nat, hi: nat)
    requires lo <= hi <= |s|
    ensures var from, to := if Inside(s, lo) then lo + 1 else lo, if Inside(s, hi) then hi - 1 else hi;
      Slice(s, lo as real, Some(hi as real)) == if from <= to then s[from..to] else []
  {
  }

  /** A fractional bound counts as the whole one below it. */
  lemma FractionsDropped(s: Text, a: real, b: real)
    ensures Slice(s, a, Some(b)) == Slice(s, a.Floor as real, Some(b.Floor as real))
  {
  }

  // ---- a slice off the pairs is a run of whole code points ----

  /** How many units the first code point has. */
  function Width(s: Text): nat {
    if Inside(s, 1) then 2 else 1
  }

  lemma CutBehindFirst(s: Text, p: nat)
    requires 0 < p <= |s| && !Inside(s, p)
    ensures var k, rest := Width(s), s[Width(s)..];
      && k <= p && !Inside(rest, p - k) && Width(s[..p]) == k
      && rest[..p - k] == s[..p][k..] && rest[p - k..] == s[p..]
  {
    assert p != 1 || Width(s) == 1;
    assert Inside(s[..p], 1) <==> Width(s) == 2;
  }

  lemma {:induction false} PointsSplit(s: Text, p: nat)
    requires p <= |s| && !Inside(s, p)
    ensures Decode(s) == Decode(s[..p]) + Decode(s[p..])
  {
    if p == 0 {
      assert s[..p] == [] && s[p..] == s;
    } else {
      CutBehindFirst(s, p);
      PointsSplit(s[Width(s)..], p - Width(s));
    }
  }

  lemma {:induction false} FormSplits(s: Text, p: nat)
    requires p <= |s| && !Inside(s, p)
    ensures WellFormed(s) <==> WellFormed(s[..p]) && WellFormed(s[p..])
  {
    if p == 0 {
      assert s[..p] == [] && s[p..] == s;
    } else {
      CutBehindFirst(s, p);
      FormSplits(s[Width(s)..], p - Width(s));
    }
  }

  /** Cutting where no pair is open splits the code points and nothing else. */
  lemma DecodeSplits(s: Text, p: nat)
    requires p <= |s| && !Inside(s, p)
    ensures Decode(s) == Decode(s[..p]) + Decode(s[p..])
    ensures WellFormed(s) <==> WellFormed(s[..p]) && WellFormed(s[p..])
  {
    PointsSplit(s, p);
    FormSplits(s, p);
  }

  ghost predicate ContiguousRun<T>(run: seq<T>, whole: seq<T>) {
    exists i, j :: 0 <= i <= j <= |whole| && run == whole[i..j]
  }

  /** Surrogate safety for all bounds: the code points of the slice are a contiguous run of the
      input's, and a well-formed input gives a well-formed slice. */
  lemma SafeSliceWhole(s: Text, lo: nat, hi: nat)
    requires lo <= hi <= |s|
    ensures ContiguousRun(Decode(SafeSlice(s, lo, hi)), Decode(s))
    ensures WellFormed(s) ==> WellFormed(SafeSlice(s, lo, hi))
  {
    if SafeFrom(s, lo) <= SafeTo(s, hi) {
      MiddleWhole(s, SafeFrom(s, lo), SafeTo(s, hi));
    } else {
      assert Decode(s)[0..0] == [];
    }
  }

  /** The bounds used cut no pair, and no such bounds lie closer to the ones asked for. */
  lemma SafeBoundsClosest(s: Text, p: nat, q: int)
    requires p <= |s| && !Inside(s, q)
    ensures !Inside(s, SafeFrom(s, p)) && !Inside(s, SafeTo(s, p))
    ensures (p <= q ==> SafeFrom(s, p) <= q) && (q <= p ==> q <= SafeTo(s, p))
  {
  }

  lemma MiddleWhole(s: Text, from: nat, to: nat)
    requires from <= to <= |s| && !Inside(s, from) && !Inside(s, to)
    ensures ContiguousRun(Decode(s[from..to]), Decode(s))
    ensures WellFormed(s) ==> WellFormed(s[from..to])
  {
    DecodeSplits(s, to);
    assert s[..to][..from] == s[..from] && s[..to][from..] == s[from..to];
    DecodeSplits(s[..to], from);
    var a, b, c := Decode(s[..from]), Decode(s[from..to]), Decode(s[to..]);
    assert Decode(s) == (a + b) + c;
    assert Decode(s)[|a|..|a| + |b|] == b;
  }

  /** The truncated form is the longest prefix of at most the limit that opens no pair; it
      falls short of the limit by at most one. */
  lemma TruncateLongest(s: Text, maxLen: real)
    ensures var r, limit := Truncate(s, maxLen), if maxLen.Floor > 0 then maxLen.Floor else 0;
      && |r| <= |s| && |r| <= limit && r == s[..|r|] && !Inside(s, |r|)
      && (forall n :: 0 <= n <= |s| && n <= limit && !Inside(s, n) ==> n <= |r|)
      && (|s| > limit ==> limit - 1 <= |r|)
  {
  }
}
