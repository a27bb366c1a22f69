/**
 Powers, and decimal strings of natural numbers, with an independent reader
 for them.  Both the number formatter and the date printer are judged by what
 their digits read back as.
 */
module Decimal {

  function Pow(b: nat, n: nat): (r: nat)
    ensures b > 0 ==> r > 0
  {
    if n == 0 then 1 else b * Pow(b, n - 1)
  }

  lemma {:induction false} PowAdd(b: nat, m: nat, n: nat)
    ensures Pow(b, m + n) == Pow(b, m) * Pow(b, n)
  {
    if m == 0 {
    } else {
      PowAdd(b, m - 1, n);
      MulAssociate(b, Pow(b, m - 1), Pow(b, n));
    }
  }

  lemma {:induction false} MulAssociate(a: int, b: int, c: int)
    ensures a * (b * c) == (a * b) * c
  {
  }

  lemma {:induction false} PowMonotone(b: nat, m: nat, n: nat)
    requires b > 0 && m <= n
    ensures Pow(b, m) <= Pow(b, n)
    decreases n - m
  {
    if m < n {
      PowMonotone(b, m + 1, n);
      assert Pow(b, m + 1) == b * Pow(b, m);
    }
  }

  lemma {:induction false} MulLe(a: int, b: int, c: int)
    requires a <= b && 0 <= c
    ensures a * c <= b * c
  {
  }

  lemma {:induction false} QuotientUnique(a: int, m: int, q: int, r: int)
    requires 0 <= r < m && a == q * m + r
    ensures a / m == q && a % m == r
  {
    var d := a / m - q;
    assert d * m == r - a % m;
    if d >= 1 {
      MulLe(1, d, m);
    } else if d <= -1 {
      MulLe(d, -1, m);
    }
  }

  predicate IsDigit(c: char) {
    '0' <= c <= '9'
  }

  predicate AllDigits(s: string) {
    forall i | 0 <= i < |s| :: IsDigit(s[i])
  }

  function DigitChar(d: nat): (c: char)
    requires d < 10
    ensures IsDigit(c) && DigitValue(c) == d
  {
    '0' + d as char
  }

  function DigitValue(c: char): (d: nat)
    requires IsDigit(c)
    ensures d < 10 && '0' + d as char == c
  {
    (c - '0') as nat
  }

  /** The number that a string of digits denotes. */
  function Read(s: string): nat
    requires AllDigits(s)
  {
    if s == [] then 0 else 10 * Read(s[..|s| - 1]) + DigitValue(s[|s| - 1])
  }

  /** A nonempty numeral without superfluous leading zeros. */
  predicate Canonical(s: string) {
    s != [] && AllDigits(s) && (s[0] == '0' ==> |s| == 1)
  }

  /** What the language's own number-to-string conversion gives for a natural number. */
  function Show(n: nat): (s: string)
    ensures Canonical(s) && Read(s) == n
    ensures n > 0 ==> s[0] != '0'
  {
    if n < 10 then [DigitChar(n)] else Show(n / 10) + [DigitChar(n % 10)]
  }

  lemma {:induction false} ShowRead(s: string)
    requires Canonical(s)
    ensures Show(Read(s)) == s
  {
    var last := |s| - 1;
    if last > 0 {
      var front := s[..last];
      ShowRead(front);
      CanonicalPositive(front);
      assert s == front + [s[last]];
      ShowSnoc(Read(front), DigitValue(s[last]));
    } else {
      assert s[..0] == [] && s == [s[0]];
    }
  }

  lemma {:induction false} ShowSnoc(n: nat, d: nat)
    requires n > 0 && d < 10
    ensures Show(10 * n + d) == Show(n) + [DigitChar(d)]
  {
    assert (10 * n + d) / 10 == n && (10 * n + d) % 10 == d;
  }

  lemma {:induction false} CanonicalPositive(s: string)
    requires s != [] && AllDigits(s) && s[0] != '0'
    ensures Read(s) > 0
  {
    if |s| > 1 {
      CanonicalPositive(s[..|s| - 1]);
    }
  }

  lemma {:induction false} ReadConcat(a: string, b: string)
    requires AllDigits(a) && AllDigits(b)
    ensures AllDigits(a + b)
    ensures Read(a + b) == Read(a) * Pow(10, |b|) + Read(b)
  {
    if b == [] {
      assert a + b == a;
    } else {
      var front := b[..|b| - 1];
      ReadConcat(a, front);
      assert (a + b)[..|a + b| - 1] == a + front;
      var p, last := Pow(10, |front|), DigitValue(b[|b| - 1]);
      assert Pow(10, |b|) == 10 * p;
      ShiftSum(Read(a), p, Read(front), last);
    }
  }

  lemma {:induction false} ShiftSum(a: int, p: int, b: int, d: int)
    ensures 10 * (a * p + b) + d == a * (10 * p) + (10 * b + d)
  {
    assert a * (10 * p) == 10 * (a * p);
  }

  lemma {:induction false} ReadBound(s: string)
    requires AllDigits(s)
    ensures Read(s) < Pow(10, |s|)
  {
    if s != [] {
      ReadBound(s[..|s| - 1]);
    }
  }

  /** A number of d digits at most prints in at most d characters. */
  lemma {:induction false} ShowLength(n: nat, d: nat)
    requires d > 0 && n < Pow(10, d)
    ensures |Show(n)| <= d
  {
    if n >= 10 {
      assert Pow(10, d) == 10 * Pow(10, d - 1);
      ShowLength(n / 10, d - 1);
    }
  }

  /** Numerals of one length are determined by what they read as. */
  lemma {:induction false} ReadInjective(s: string, t: string)
    requires AllDigits(s) && AllDigits(t) && |s| == |t| && Read(s) == Read(t)
    ensures s == t
  {
    if s != [] {
      var last := |s| - 1;
      SameDigits(Read(s[..last]), DigitValue(s[last]), Read(t[..last]), DigitValue(t[last]));
      ReadInjective(s[..last], t[..last]);
      assert s == s[..last] + [s[last]] && t == t[..last] + [t[last]];
    }
  }

  lemma {:induction false} SameDigits(a: nat, d: nat, b: nat, e: nat)
    requires 10 * a + d == 10 * b + e && d < 10 && e < 10
    ensures a == b && d == e
  {
  }

  function Zeros(k: nat): (s: string)
    ensures |s| == k && AllDigits(s)
    ensures forall i | 0 <= i < k :: s[i] == '0'
  {
    seq(k, _ => '0')
  }

  lemma {:induction false} ZerosPrefix(n: nat, k: nat)
    requires k <= n
    ensures Zeros(n)[..k] == Zeros(k)
  {
  }

  lemma {:induction false} ReadZeros(k: nat)
    ensures Read(Zeros(k)) == 0
  {
    if k > 0 {
      ReadZeros(k - 1);
      assert Zeros(k)[..k - 1] == Zeros(k - 1);
    }
  }

  /** Left padding with zeros does not change what a numeral reads as. */
  lemma {:induction false} ReadPadded(k: nat, s: string)
    requires AllDigits(s)
    ensures AllDigits(Zeros(k) + s) && Read(Zeros(k) + s) == Read(s)
  {
    ReadZeros(k);
    ReadConcat(Zeros(k), s);
  }
}
