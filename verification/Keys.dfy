/**
 The key layout: versions and timestamps are written as 16 decimal digits, so that the order of the keys is the
 order of the numbers.
 */
module Keys {
  import opened KeyOrder

  const WIDTH: nat := 16

  function Pow10(n: nat): (r: nat)
    ensures r >= 1
  {
    if n == 0 then 1 else 10 * Pow10(n - 1)
  }

  function Digit(d: nat): char
    requires d < 10
  {
    '0' + d as char
  }

  predicate IsDigit(c: char) { '0' <= c <= '9' }

  function DigitValue(c: char): (d: nat)
    requires IsDigit(c)
    ensures d < 10
  {
    (c - '0') as nat
  }

  /** `n` with exactly `w` digits, most significant first. */
  function Pad(n: nat, w: nat): (s: string)
    requires n < Pow10(w)
    ensures |s| == w
  {
    if w == 0 then "" else Pad(n / 10, w - 1) + [Digit(n % 10)]
  }

  predicate AllDigits(s: string) {
    forall i :: 0 <= i < |s| ==> IsDigit(s[i])
  }

  /** The number a digit string denotes. */
  function Parse(s: string): nat
    requires AllDigits(s)
  {
    if s == "" then 0 else Parse(s[..|s| - 1]) * 10 + DigitValue(s[|s| - 1])
  }

  lemma {:induction false} PadParses(n: nat, w: nat)
    requires n < Pow10(w)
    ensures AllDigits(Pad(n, w)) && Parse(Pad(n, w)) == n
  {
    if w > 0 {
      PadParses(n / 10, w - 1);
      var s := Pad(n, w);
      assert s[..w - 1] == Pad(n / 10, w - 1);
      assert forall i :: 0 <= i < w - 1 ==> s[i] == Pad(n / 10, w - 1)[i];
    }
  }

  lemma DivTwice(n: nat, m: nat)
    requires m > 0
    ensures n / 10 / m == n / (10 * m)
  {
    var s, t, r := n / 10 / m, n / 10 % m, n % 10;
    assert n / 10 == m * s + t && n == 10 * (n / 10) + r;
    assert n == (10 * m) * s + (10 * t + r) && 0 <= 10 * t + r < 10 * m;
    QuotientIs(n, 10 * m, s, 10 * t + r);
  }

  lemma QuotientIs(n: nat, m: nat, s: nat, r: nat)
    requires m > 0 && n == m * s + r && r < m
    ensures n / m == s
  {
    var q := n / m;
    assert n == m * q + n % m;
    assert q < s ==> m * (q + 1) <= m * s;
    assert q > s ==> m * (s + 1) <= m * q;
  }

  /** Each character is the decimal digit of its place. */
  lemma {:induction false} PadDigit(n: nat, w: nat, i: nat)
    requires n < Pow10(w) && i < w
    ensures var d := n / Pow10(w - 1 - i) % 10;
            Pad(n, w)[i] as int == '0' as int + d
  {
    if i == w - 1 {
      assert Pow10(0) == 1;
    } else {
      PadDigit(n / 10, w - 1, i);
      DivTwice(n, Pow10(w - 2 - i));
    }
  }

  /** Strings that first differ in their last character compare by it; otherwise by what comes before. */
  lemma {:induction false} LeSnoc(a: string, b: string, x: char, y: char)
    requires |a| == |b|
    ensures Le(a + [x], b + [y]) <==> (if a == b then x <= y else Le(a, b))
  {
    if a != [] {
      LeSnoc(a[1..], b[1..], x, y);
      assert (a + [x])[1..] == a[1..] + [x] && (b + [y])[1..] == b[1..] + [y];
      assert a == [a[0]] + a[1..] && b == [b[0]] + b[1..];
    }
  }

  /** Key order is numeric order. */
  lemma {:induction false} PadOrder(m: nat, n: nat, w: nat)
    requires m < Pow10(w) && n < Pow10(w)
    ensures Le(Pad(m, w), Pad(n, w)) <==> m <= n
    ensures Pad(m, w) == Pad(n, w) <==> m == n
  {
    PadParses(m, w);
    PadParses(n, w);
    if w > 0 {
      PadOrder(m / 10, n / 10, w - 1);
      LeSnoc(Pad(m / 10, w - 1), Pad(n / 10, w - 1), Digit(m % 10), Digit(n % 10));
    }
  }

  /** Rust's `{n:016}`: at least 16 digits, more when the number needs them. */
  function Digits(n: nat): (w: nat)
    ensures n < Pow10(w)
  {
    if n == 0 then 0 else Digits(n / 10) + 1
  }

  function Key16(n: nat): string {
    if n < Pow10(WIDTH) then Pad(n, WIDTH) else Pad(n, Digits(n))
  }

  lemma {:induction false} DigitsOfPow10(w: nat)
    ensures Digits(Pow10(w)) == w + 1
  {
    if w > 0 {
      DigitsOfPow10(w - 1);
      assert Pow10(w) / 10 == Pow10(w - 1);
    } else {
      assert Pow10(0) == 1 && Digits(1) == Digits(0) + 1;
    }
  }

  lemma {:induction false} FirstDigitOfPow10(w: nat)
    ensures Pow10(w) < Pow10(w + 1) && Pad(Pow10(w), w + 1)[0] == '1'
  {
    if w > 0 {
      FirstDigitOfPow10(w - 1);
      assert Pow10(w) / 10 == Pow10(w - 1);
      assert Pad(Pow10(w), w + 1) == Pad(Pow10(w - 1), w) + [Digit(Pow10(w) % 10)];
    } else {
      assert Pad(1, 1) == Pad(0, 0) + [Digit(1)];
    }
  }

  lemma {:induction false} FirstDigitOfNines(w: nat)
    requires w > 0
    ensures Pad(Pow10(w) - 1, w)[0] == '9'
  {
    var n := Pow10(w) - 1;
    assert n / 10 == Pow10(w - 1) - 1 && n % 10 == 9;
    assert Pad(n, w) == Pad(n / 10, w - 1) + [Digit(9)];
    if w > 1 {
      FirstDigitOfNines(w - 1);
    }
  }

  ghost predicate OrderedBelow(bound: nat) {
    forall m: nat, n: nat :: m < bound && n < bound ==> (Le(Key16(m), Key16(n)) <==> m <= n)
  }

  lemma TenToThe16()
    ensures Pow10(WIDTH) == 10_000_000_000_000_000
  {
    assert Pow10(4) == 10_000;
    assert Pow10(8) == 100_000_000;
    assert Pow10(12) == 1_000_000_000_000;
  }

  /** The keys of the numbers below a bound are in numeric order if and only if the bound is at most 10^16. */
  lemma OrderedBelowIff(bound: nat)
    ensures OrderedBelow(bound) <==> bound <= 10_000_000_000_000_000
  {
    TenToThe16();
    OrderedBelowPower(bound);
  }

  lemma OrderedBelowPower(bound: nat)
    ensures OrderedBelow(bound) <==> bound <= Pow10(WIDTH)
  {
    var top := Pow10(WIDTH);
    if bound <= top {
      forall m: nat, n: nat | m < bound && n < bound ensures Le(Key16(m), Key16(n)) <==> m <= n {
        PadOrder(m, n, WIDTH);
      }
    } else {
      DigitsOfPow10(WIDTH);
      FirstDigitOfPow10(WIDTH);
      FirstDigitOfNines(WIDTH);
      var last: nat := top - 1;
      assert Key16(top)[0] == '1' && Key16(last)[0] == '9';
      assert !Le(Key16(last), Key16(top));
    }
  }
}
