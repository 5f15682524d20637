/** Decimal notation, as `String(n)` writes it and `Number(s)` reads it. */
module Decimals {
  import opened Texts

  const ZERO: CodeUnit := 0x30
  const MINUS: CodeUnit := 0x2D

  predicate IsDigit(u: CodeUnit) {
    ZERO <= u <= ZERO + 9
  }

  predicate AllDigits(s: Text) {
    forall i :: 0 <= i < |s| ==> IsDigit(s[i])
  }

  function Pow10(n: nat): (r: nat)
    ensures 0 < r
  {
    if n == 0 then 1 else 10 * Pow10(n - 1)
  }

  function Digits(n: nat): (s: Text)
    ensures s != [] && AllDigits(s)
  {
    if n < 10 then [ZERO + n] else Digits(n / 10) + [ZERO + n % 10]
  }

  function Render(n: int): Text {
    if n < 0 then [MINUS] + Digits(-n) else Digits(n)
  }

  /** The number a string of digits stands for. */
  function Value(s: Text): nat
    requires AllDigits(s)
  {
    if s == [] then 0 else Value(s[..|s| - 1]) * 10 + (s[|s| - 1] - ZERO)
  }

  lemma {:induction false} ValueDigits(n: nat)
    ensures Value(Digits(n)) == n
  {
    if n >= 10 {
      var s := Digits(n);
      assert s[..|s| - 1] == Digits(n / 10);
      ValueDigits(n / 10);
    } else {
      assert Digits(n)[..0] == [];
    }
  }

  /** Writing two numbers side by side shifts the first by the length of the second. */
  lemma {:induction false} ValueConcat(a: Text, b: Text)
    requires AllDigits(a) && AllDigits(b)
    ensures AllDigits(a + b) && Value(a + b) == Value(a) * Pow10(|b|) + Value(b)
  {
    if b == [] {
      assert a + b == a;
    } else {
      var front := b[..|b| - 1];
      ValueConcat(a, front);
      assert (a + b)[..|a + b| - 1] == a + front;
      assert Value(a) * Pow10(|b|) == Value(a) * Pow10(|front|) * 10;
    }
  }

  lemma {:induction false} ValueBound(s: Text)
    requires AllDigits(s)
    ensures Value(s) < Pow10(|s|)
  {
    if s != [] {
      ValueBound(s[..|s| - 1]);
    }
  }

  /** s is n in decimal notation: a minus sign for negative numbers, then digits without leading
      zeros. */
  predicate Reads(s: Text, n: int) {
    if n < 0 then s != [] && s[0] == 0x2D && ReadsNat(s[1..], -n) else ReadsNat(s, n)
  }

  predicate ReadsNat(s: Text, n: nat) {
    s != [] && AllDigits(s) && Value(s) == n && (s[0] == 0x30 ==> |s| == 1)
  }

  lemma {:induction false} DigitsRead(n: nat)
    ensures ReadsNat(Digits(n), n) && (n > 0 ==> Digits(n)[0] != 0x30)
  {
    ValueDigits(n);
    if n >= 10 {
      DigitsRead(n / 10);
    }
  }

  lemma {:induction false} OneNotation(a: Text, n: nat)
    requires ReadsNat(a, n)
    ensures a == Digits(n)
  {
    var front, last := a[..|a| - 1], a[|a| - 1];
    if front == [] {
      assert Value(front) == 0 && a == [last];
    } else {
      assert front[0] == a[0];
      FrontPositive(front);
      assert n == Value(front) * 10 + (last - ZERO);
      assert n / 10 == Value(front) && n % 10 == last - ZERO;
      OneNotation(front, n / 10);
      assert a == front + [last];
    }
  }

  lemma {:induction false} FrontPositive(s: Text)
    requires s != [] && AllDigits(s) && s[0] != 0x30
    ensures Value(s) > 0
  {
    var front := s[..|s| - 1];
    if front != [] {
      assert front[0] == s[0];
      FrontPositive(front);
    } else {
      assert Value(front) == 0;
    }
  }

  /** Rendering a number gives its one decimal notation. */
  lemma RenderReads(s: Text, n: int)
    ensures s == Render(n) <==> Reads(s, n)
  {
    if n < 0 {
      DigitsRead(-n);
      if Reads(s, n) {
        OneNotation(s[1..], -n);
        assert s == [MINUS] + s[1..];
      }
    } else {
      DigitsRead(n);
      if Reads(s, n) {
        OneNotation(s, n);
      }
    }
  }
}
