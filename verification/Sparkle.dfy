/** Sparkle build numbers: the floors a calendar version puts under its build. */
module Sparkle {
  import opened Options
  import opened Texts
  import opened Decimals

  const DOT: CodeUnit := 0x2E
  const HYPHEN: CodeUnit := 0x2D

  const LANE_UNSUFFIXED := 90
  const LANE_UNNUMBERED := 1
  const LANE_MAX_SUFFIXED := 89
  const LANE_BUILD_MIN := 1_000_000_000

  // ---- the version pattern ----

  /** The capture groups of the version pattern. */
  datatype CalVer = CalVer(year: Text, month: Text, day: Text, suffix: Text)

  datatype Split = Split(head: Text, rest: Text)

  predicate IsLineTerminator(u: CodeUnit) {
    u == NEWLINE || u == 0x0D || u == 0x2028 || u == 0x2029
  }

  predicate IsSuffix(s: Text) {
    s == [] || ((s[0] == DOT || s[0] == HYPHEN) && forall i :: 1 <= i < |s| ==> !IsLineTerminator(s[i]))
  }

  predicate IsNumber(s: Text, min: nat, max: nat) {
    min <= |s| <= max && AllDigits(s)
  }

  function Written(v: CalVer): Text {
    v.year + ([DOT] + (v.month + ([DOT] + (v.day + v.suffix))))
  }

  /** What the pattern accepts, and with which groups. */
  ghost predicate Matches(t: Text, v: CalVer) {
    && IsNumber(v.year, 4, 4) && IsNumber(v.month, 1, 2) && IsNumber(v.day, 1, 2) && IsSuffix(v.suffix)
    && t == Written(v)
  }

  /** The number of digits at the start, at most max of them. */
  function LeadingDigits(t: Text, max: nat): (n: nat)
    ensures n <= max && n <= |t| && AllDigits(t[..n])
    ensures n < max && n < |t| ==> !IsDigit(t[n])
  {
    if max == 0 || t == [] || !IsDigit(t[0]) then 0
    else
      var n := LeadingDigits(t[1..], max - 1);
      assert t[..n + 1] == [t[0]] + t[1..][..n];
      n + 1
  }

  function TakeNumber(t: Text, min: nat, max: nat): (r: Option<Split>)
    ensures r.Some? ==> t == r.value.head + r.value.rest && IsNumber(r.value.head, min, max)
  {
    var n := LeadingDigits(t, max);
    if n < min then None else Some(Split(t[..n], t[n..]))
  }

  function TakeDot(t: Text): (r: Option<Text>)
    ensures r.Some? ==> t == [DOT] + r.value
  {
    if t == [] || t[0] != DOT then None else Some(t[1..])
  }

  function Exec(t: Text): (r: Option<CalVer>)
    ensures r.Some? ==> Matches(t, r.value)
  {
    var year := TakeNumber(t, 4, 4);
    if year.None? then None else
    var afterYear := TakeDot(year.value.rest);
    if afterYear.None? then None else
    var month := TakeNumber(afterYear.value, 1, 2);
    if month.None? then None else
    var afterMonth := TakeDot(month.value.rest);
    if afterMonth.None? then None else
    var day := TakeNumber(afterMonth.value, 1, 2);
    if day.None? || !IsSuffix(day.value.rest) then None
    else Some(CalVer(year.value.head, month.value.head, day.value.head, day.value.rest))
  }

  lemma {:induction false} LeadingExactly(digits: Text, rest: Text, max: nat)
    requires AllDigits(digits) && |digits| <= max
    requires |digits| == max || rest == [] || !IsDigit(rest[0])
    ensures LeadingDigits(digits + rest, max) == |digits|
  {
    if digits != [] {
      assert (digits + rest)[1..] == digits[1..] + rest;
      LeadingExactly(digits[1..], rest, max - 1);
    } else {
      assert digits + rest == rest;
    }
  }

  lemma TakesExactly(digits: Text, rest: Text, min: nat, max: nat)
    requires IsNumber(digits, min, max) && (|digits| == max || rest == [] || !IsDigit(rest[0]))
    ensures TakeNumber(digits + rest, min, max) == Some(Split(digits, rest))
  {
    LeadingExactly(digits, rest, max);
  }

  /** The matcher finds the groups exactly when the pattern accepts, and they are unique. */
  lemma ExecMatches(t: Text, v: CalVer)
    ensures Exec(t) == Some(v) <==> Matches(t, v)
  {
    if Matches(t, v) {
      var t2 := v.day + v.suffix;
      var t1 := v.month + ([DOT] + t2);
      TakesExactly(v.year, [DOT] + t1, 4, 4);
      TakesExactly(v.month, [DOT] + t2, 1, 2);
      TakesExactly(v.day, v.suffix, 1, 2);
      assert TakeDot([DOT] + t1) == Some(t1) && TakeDot([DOT] + t2) == Some(t2);
    }
  }

  // ---- the numbers in a version ----

  datatype Stamp = Stamp(year: nat, month: nat, day: nat, lane: nat)

  /** The number of digits the suffix ends in. */
  function TrailingCount(s: Text): (n: nat)
    ensures n <= |s| && forall i :: |s| - n <= i < |s| ==> IsDigit(s[i])
    ensures n < |s| ==> !IsDigit(s[|s| - n - 1])
  {
    if s == [] || !IsDigit(s[|s| - 1]) then 0 else TrailingCount(s[..|s| - 1]) + 1
  }

  function TrailingDigits(s: Text): (r: Text)
    ensures AllDigits(r)
  {
    s[|s| - TrailingCount(s)..]
  }

  function Lane(suffix: Text): (lane: nat)
    ensures lane <= LANE_UNSUFFIXED && (lane == LANE_UNSUFFIXED <==> suffix == [])
  {
    if suffix == [] then LANE_UNSUFFIXED
    else if TrailingDigits(suffix) == [] then LANE_UNNUMBERED
    else if Value(TrailingDigits(suffix)) < LANE_MAX_SUFFIXED then Value(TrailingDigits(suffix))
    else LANE_MAX_SUFFIXED
  }

  function StampOf(v: CalVer): Stamp
    requires AllDigits(v.year) && AllDigits(v.month) && AllDigits(v.day)
  {
    Stamp(Value(v.year), Value(v.month), Value(v.day), Lane(v.suffix))
  }

  /** The date and lane of a version. */
  function Read(shortVersion: Text): Option<Stamp> {
    var v := Exec(Trim(shortVersion));
    if v.None? || !InRange(StampOf(v.value)) then None else Some(StampOf(v.value))
  }

  predicate InRange(p: Stamp) {
    1 <= p.month <= 12 && 1 <= p.day <= 31
  }

  /** The groups are those of the version, and this is its date and lane. */
  ghost predicate Dates(s: Text, v: CalVer, p: Stamp) {
    Matches(Trim(s), v) && StampOf(v) == p
  }

  lemma DatedRead(s: Text, v: CalVer, p: Stamp)
    requires Dates(s, v, p) && 1 <= p.month <= 12 && 1 <= p.day <= 31
    ensures Read(s) == Some(p)
  {
    ExecMatches(Trim(s), v);
  }

  lemma ReadDated(s: Text, p: Stamp) returns (v: CalVer)
    requires Read(s) == Some(p)
    ensures Dates(s, v, p) && 1 <= p.month <= 12 && 1 <= p.day <= 31 && IsNumber(v.year, 4, 4)
  {
    v := Exec(Trim(s)).value;
  }

  /** A version has a date exactly when it matches with a month and a day in range. */
  lemma ReadExactly(s: Text, p: Stamp)
    ensures Read(s) == Some(p) <==> 1 <= p.month <= 12 && 1 <= p.day <= 31 && exists v :: Dates(s, v, p)
    ensures Read(s) == Some(p) ==> p.year < 10000 && p.lane <= 90
  {
    if Read(s) == Some(p) {
      var v := ReadDated(s, p);
      ValueBound(v.year);
      assert Pow10(4) == 10 * Pow10(3) == 10000;
    }
    if v :| Dates(s, v, p) {
      if 1 <= p.month <= 12 && 1 <= p.day <= 31 {
        DatedRead(s, v, p);
      }
    }
  }

  // ---- the floors ----

  datatype Floors = Floors(dateKey: nat, legacyFloor: nat, laneFloor: nat, lane: nat)

  function Pad2(n: nat): (s: Text)
    ensures AllDigits(s)
  {
    if |Digits(n)| < 2 then [ZERO] + Digits(n) else Digits(n)
  }

  /** `Number` of a number's digits followed by more digits. */
  function Join(n: nat, more: Text): nat
    requires AllDigits(more)
  {
    Value(Digits(n) + more)
  }

  function FloorsOf(p: Stamp): Floors {
    var dateKey := Join(p.year, Pad2(p.month) + Pad2(p.day));
    Floors(dateKey, Join(dateKey, [ZERO]), Join(dateKey, Pad2(p.lane)), p.lane)
  }

  function FloorsFromShortVersion(shortVersion: Text): Option<Floors> {
    var p := Read(shortVersion);
    if p.None? then None else Some(FloorsOf(p.value))
  }

  lemma JoinValue(n: nat, more: Text)
    requires AllDigits(more)
    ensures Join(n, more) == n * Pow10(|more|) + Value(more)
  {
    ValueDigits(n);
    ValueConcat(Digits(n), more);
  }

  lemma Pad2Value(n: nat)
    requires n < 100
    ensures |Pad2(n)| == 2 && Value(Pad2(n)) == n
  {
    ValueDigits(n);
    if n < 10 {
      ValueConcat([ZERO], Digits(n));
      assert [ZERO][..0] == [];
    }
  }

  /** Joining the digit strings is positional arithmetic. */
  lemma FloorsArithmetic(p: Stamp)
    requires InRange(p) && p.lane <= LANE_UNSUFFIXED
    ensures var f := FloorsOf(p);
      && f.dateKey == p.year * 10000 + p.month * 100 + p.day
      && f.legacyFloor == f.dateKey * 10
      && f.laneFloor == f.dateKey * 100 + p.lane
  {
    var f := FloorsOf(p);
    Pad2Value(p.month);
    Pad2Value(p.day);
    Pad2Value(p.lane);
    ValueConcat(Pad2(p.month), Pad2(p.day));
    JoinValue(p.year, Pad2(p.month) + Pad2(p.day));
    JoinValue(f.dateKey, Pad2(p.lane));
    JoinValue(f.dateKey, [ZERO]);
    assert Value([ZERO]) == 0 by { assert [ZERO][..0] == []; }
    assert Pow10(1) == 10 && Pow10(2) == 100 && Pow10(4) == 100 * Pow10(2);
  }

  ghost predicate SameDate(p: Stamp, q: Stamp) {
    p.year == q.year && p.month == q.month && p.day == q.day
  }

  ghost predicate Before(p: Stamp, q: Stamp) {
    p.year < q.year || (p.year == q.year && (p.month < q.month || (p.month == q.month && p.day < q.day)))
  }

  lemma PositionsOrder(p: Stamp, q: Stamp, dateKey: nat, otherKey: nat)
    requires InRange(p) && p.lane <= LANE_UNSUFFIXED && dateKey == p.year * 10000 + p.month * 100 + p.day
    requires InRange(q) && q.lane <= LANE_UNSUFFIXED && otherKey == q.year * 10000 + q.month * 100 + q.day
    ensures dateKey < otherKey <==> Before(p, q)
    ensures dateKey == otherKey <==> SameDate(p, q)
    ensures dateKey * 100 + p.lane < otherKey * 100 + q.lane
            <==> dateKey < otherKey || (dateKey == otherKey && p.lane < q.lane)
  {
  }

  /** Lane floors order versions by date first and by lane within a date; date keys by date. */
  lemma FloorOrder(s: Text, p: Stamp, t: Text, q: Stamp)
    requires Read(s) == Some(p) && Read(t) == Some(q)
    ensures var f, g := FloorsFromShortVersion(s).value, FloorsFromShortVersion(t).value;
      && (f.laneFloor < g.laneFloor <==> Before(p, q) || (SameDate(p, q) && p.lane < q.lane))
      && (f.laneFloor == g.laneFloor <==> SameDate(p, q) && p.lane == q.lane)
      && (f.dateKey < g.dateKey <==> Before(p, q))
  {
    ReadExactly(s, p);
    ReadExactly(t, q);
    FloorsArithmetic(p);
    FloorsArithmetic(q);
    PositionsOrder(p, q, FloorsOf(p).dateKey, FloorsOf(q).dateKey);
  }

  lemma SameDateOrder(s: Text, p: Stamp, t: Text, q: Stamp)
    requires Read(s) == Some(p) && Read(t) == Some(q) && SameDate(p, q)
    ensures var f, g := FloorsFromShortVersion(s).value.laneFloor, FloorsFromShortVersion(t).value.laneFloor;
      (f < g <==> p.lane < q.lane) && (f <= g <==> p.lane <= q.lane)
  {
    FloorOrder(s, p, t, q);
  }

  /** s reads as the groups v, with month and day in range. */
  ghost predicate ReadsAs(s: Text, v: CalVer) {
    Matches(Trim(s), v) && InRange(StampOf(v))
  }

  lemma ReadStamp(s: Text, v: CalVer)
    requires ReadsAs(s, v)
    ensures Read(s) == Some(StampOf(v))
  {
    ExecMatches(Trim(s), v);
  }

  /** On one date an unsuffixed version beats every suffixed one. */
  lemma ReleaseBeatsPrerelease(s: Text, v: CalVer, t: Text, w: CalVer)
    requires ReadsAs(s, v) && ReadsAs(t, w) && SameDate(StampOf(v), StampOf(w))
    requires v.suffix == [] && w.suffix != []
    ensures FloorsFromShortVersion(s).Some? && FloorsFromShortVersion(t).Some?
    ensures FloorsFromShortVersion(t).value.laneFloor < FloorsFromShortVersion(s).value.laneFloor
  {
    ReadStamp(s, v);
    ReadStamp(t, w);
    SameDateOrder(t, StampOf(w), s, StampOf(v));
  }

  lemma {:induction false} TrailingExactly(front: Text, digits: Text)
    requires AllDigits(digits) && (front == [] || !IsDigit(front[|front| - 1]))
    ensures TrailingDigits(front + digits) == digits
  {
    var s := front + digits;
    assert front != [] ==> s[|front| - 1] == front[|front| - 1];
    assert TrailingCount(s) == |digits|;
  }

  /** The floors in numbers: year, month and day in decimal positions, then 0, or the lane in two
      digits: 90 without a suffix, 1 for one that does not end in digits, and the number of those
      digits up to 89. */
  lemma FloorsInNumbers(s: Text, v: CalVer, front: Text, digits: Text)
    requires ReadsAs(s, v) && v.suffix == front + digits
    requires AllDigits(digits) && (front == [] || !IsDigit(front[|front| - 1]))
    ensures FloorsFromShortVersion(s).Some?
    ensures var f, date := FloorsFromShortVersion(s).value, Value(v.year) * 10000 + Value(v.month) * 100 + Value(v.day);
      var lane := if v.suffix == [] then 90 else if digits == [] then 1 else if Value(digits) < 89 then Value(digits) else 89;
      f.dateKey == date && f.legacyFloor == date * 10 && f.laneFloor == date * 100 + lane && f.lane == lane
  {
    ReadStamp(s, v);
    LaneInNumbers(front, digits);
    ReadFloors(s, StampOf(v));
  }

  lemma LaneInNumbers(front: Text, digits: Text)
    requires AllDigits(digits) && (front == [] || !IsDigit(front[|front| - 1]))
    ensures Lane(front + digits) == if front + digits == [] then 90 else if digits == [] then 1
                                    else if Value(digits) < 89 then Value(digits) else 89
  {
    TrailingExactly(front, digits);
  }

  lemma ReadFloors(s: Text, p: Stamp)
    requires Read(s) == Some(p)
    ensures FloorsFromShortVersion(s).Some?
    ensures var f, date := FloorsFromShortVersion(s).value, p.year * 10000 + p.month * 100 + p.day;
      f.dateKey == date && f.legacyFloor == date * 10 && f.laneFloor == date * 100 + p.lane && f.lane == p.lane
  {
    ReadExactly(s, p);
    FloorsArithmetic(p);
  }

  lemma LaneOrder(a: Text, b: Text)
    requires TrailingDigits(a) != [] && TrailingDigits(b) != []
    requires Value(TrailingDigits(a)) < Value(TrailingDigits(b))
    ensures Lane(a) <= Lane(b) && (Lane(a) < Lane(b) <==> Value(TrailingDigits(a)) < 89)
  {
  }

  /** Numbered suffixes of one date are told apart exactly up to 89: from there on they share a
      lane. */
  lemma PrereleaseOrder(s: Text, v: CalVer, t: Text, w: CalVer)
    requires ReadsAs(s, v) && ReadsAs(t, w) && SameDate(StampOf(v), StampOf(w))
    requires TrailingDigits(v.suffix) != [] && TrailingDigits(w.suffix) != []
    requires Value(TrailingDigits(v.suffix)) < Value(TrailingDigits(w.suffix))
    ensures FloorsFromShortVersion(s).Some? && FloorsFromShortVersion(t).Some?
    ensures FloorsFromShortVersion(s).value.laneFloor <= FloorsFromShortVersion(t).value.laneFloor
    ensures FloorsFromShortVersion(s).value.laneFloor < FloorsFromShortVersion(t).value.laneFloor
            <==> Value(TrailingDigits(v.suffix)) < 89
  {
    ReadStamp(s, v);
    ReadStamp(t, w);
    LaneOrder(v.suffix, w.suffix);
    SameDateOrder(s, StampOf(v), t, StampOf(w));
  }

  /** The two numbering schemes do not overlap: legacy floors lie below 1000000000, and lane
      floors reach it exactly from the year 1000 on. */
  lemma LanesSeparate(s: Text, p: Stamp)
    requires Read(s) == Some(p)
    ensures var f := FloorsFromShortVersion(s).value;
      f.legacyFloor < 1000000000 && (1000000000 <= f.laneFloor <==> p.year >= 1000)
  {
    ReadExactly(s, p);
    FloorsArithmetic(p);
  }

  // ---- where the numbering fails ----

  lemma ValueLast(front: Text, last: CodeUnit)
    requires AllDigits(front) && IsDigit(last)
    ensures AllDigits(front + [last]) && Value(front + [last]) == Value(front) * 10 + (last - ZERO)
  {
    assert (front + [last])[..|front|] == front;
  }

  lemma ValueOne(a: CodeUnit)
    requires IsDigit(a)
    ensures AllDigits([a]) && Value([a]) == a - ZERO
  {
    ValueLast([], a);
    assert [] + [a] == [a];
  }

  lemma ValueTwo(a: CodeUnit, b: CodeUnit)
    requires IsDigit(a) && IsDigit(b)
    ensures AllDigits([a, b]) && Value([a, b]) == (a - ZERO) * 10 + (b - ZERO)
  {
    ValueOne(a);
    ValueLast([a], b);
    assert [a] + [b] == [a, b];
  }

  /** A version as it is written reads as itself. */
  lemma ReadsWritten(v: CalVer)
    requires IsNumber(v.year, 4, 4) && IsNumber(v.month, 1, 2) && IsNumber(v.day, 1, 2) && IsSuffix(v.suffix)
    requires InRange(StampOf(v)) && (v.suffix == [] || IsDigit(v.suffix[|v.suffix| - 1]))
    ensures ReadsAs(Written(v), v)
  {
    var t := Written(v);
    assert t[0] == v.year[0];
    assert t[|t| - 1] == if v.suffix == [] then v.day[|v.day| - 1] else v.suffix[|v.suffix| - 1];
    TrimTrims(t);
  }

  /** 2026.3.1-ab, with two digits. */
  function Numbered(a: CodeUnit, b: CodeUnit): CalVer {
    CalVer([0x32, 0x30, 0x32, 0x36], [0x33], [0x31], [HYPHEN, a, b])
  }

  lemma NumberedReads(a: CodeUnit, b: CodeUnit)
    requires IsDigit(a) && IsDigit(b)
    ensures ReadsAs(Written(Numbered(a, b)), Numbered(a, b))
    ensures TrailingDigits([HYPHEN, a, b]) == [a, b]
    ensures Value([a, b]) == (a - ZERO) * 10 + (b - ZERO)
  {
    ValueTwo(a, b);
    ValueOne(0x33);
    ValueOne(0x31);
    ReadsWritten(Numbered(a, b));
    TrailingTwo(a, b);
  }

  lemma TrailingTwo(a: CodeUnit, b: CodeUnit)
    requires IsDigit(a) && IsDigit(b)
    ensures TrailingDigits([HYPHEN, a, b]) == [a, b]
  {
    var s := [HYPHEN, a, b];
    assert !IsDigit(s[0]) && IsDigit(s[1]) && IsDigit(s[2]);
    assert TrailingCount(s) == 2;
    assert s[1..] == [a, b];
  }

  /** 2026.3.1-90 follows 2026.3.1-89 but gets the same lane floor. */
  lemma SharedLane()
    ensures var s, t := Written(Numbered(0x38, 0x39)), Written(Numbered(0x39, 0x30));
      && FloorsFromShortVersion(s).Some? && FloorsFromShortVersion(t).Some?
      && Value(TrailingDigits(Numbered(0x38, 0x39).suffix)) < Value(TrailingDigits(Numbered(0x39, 0x30).suffix))
      && FloorsFromShortVersion(s).value.laneFloor == FloorsFromShortVersion(t).value.laneFloor
  {
    var v, w := Numbered(0x38, 0x39), Numbered(0x39, 0x30);
    NumberedReads(0x38, 0x39);
    NumberedReads(0x39, 0x30);
    PrereleaseOrder(Written(v), v, Written(w), w);
  }

  /** The lane floor of 0999.1.1 stays below the lane range. */
  lemma EarlyYear()
    ensures var f := FloorsFromShortVersion(Written(CalVer([0x30, 0x39, 0x39, 0x39], [0x31], [0x31], [])));
      f.Some? && f.value.laneFloor < 1000000000
  {
    var v := CalVer([0x30, 0x39, 0x39, 0x39], [0x31], [0x31], []);
    ValueOne(0x31);
    ValueTwo(0x30, 0x39);
    ValueLast([0x30, 0x39], 0x39);
    ValueLast([0x30, 0x39, 0x39], 0x39);
    assert [0x30 as CodeUnit, 0x39] + [0x39] == [0x30, 0x39, 0x39];
    assert [0x30 as CodeUnit, 0x39, 0x39] + [0x39] == v.year;
    ReadsWritten(v);
    ReadStamp(Written(v), v);
    LanesSeparate(Written(v), StampOf(v));
  }
}
