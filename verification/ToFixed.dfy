/**
 Number.prototype.toFixed of doc/swagger/lib/es5-shim.js: a six-limb base-10^7
 accumulator, scaled by powers of ten and of two, and printed in decimal.

 Every number the accumulator ever holds is a multiple of one half (the lowest
 limb has a half when the argument lies between 10^-21 and 2^-69), so inside
 the accumulator a number is represented by its double, an int: "halves".
 Arithmetic on it goes through the partial operations Sum, Product,
 FloorQuotient and Remainder, which are defined only where the exact result is
 itself a double.  Verifying the methods therefore also shows that floating
 point never rounds.
 */
module ToFixed {
  import opened Decimal
  import opened Numbers

  const CAPACITY: nat := 1_000_000_000_000_000_000_000_000_000_000_000_000_000_000

  // ----- exact arithmetic on halves -----

  /** The numbers h/2 that are doubles: integers below 2^53, halves below 2^52. */
  predicate Exact(h: int) {
    0 <= h < 0x20_0000_0000_0000 || (0 <= h < 0x40_0000_0000_0000 && h % 2 == 0)
  }

  function Sum(a: int, b: int): (r: int)
    requires Exact(a + b)
  {
    a + b
  }

  function Product(n: nat, h: int): (r: int)
    requires Exact(n * h)
  {
    n * h
  }

  /** Math.floor(a / n), in halves: the division may round, but see RoundedQuotient. */
  function FloorQuotient(h: int, n: nat): (r: int)
    requires Exact(h) && n > 0
  {
    2 * (h / (2 * n))
  }

  /** a % n, which is always exact. */
  function Remainder(h: int, n: nat): (r: int)
    requires Exact(h) && n > 0
  {
    h % (2 * n)
  }

  /**
   Let e be the exact quotient of h/2 by n and q what a correctly rounded
   division gives for it (relative error at most 2^-53, and no error on
   integers).  Then the floor of q is the exact floor, so FloorQuotient may stand
   for Math.floor(a / n).
   */
  lemma {:induction false} RoundedQuotient(h: int, n: nat, e: real, q: real)
    requires Exact(h) && n > 0 && e * (2 * n) as real == h as real
    requires e.Floor as real == e ==> q == e
    requires e - e / 9007199254740992.0 <= q <= e + e / 9007199254740992.0
    ensures 2 * q.Floor == FloorQuotient(h, n)
  {
    RoundedFloor(h, n, h / (2 * n), e, q);
  }

  lemma {:induction false} RoundedFloor(h: int, n: nat, lo: int, e: real, q: real)
    requires Exact(h) && n > 0 && e * (2 * n) as real == h as real
    requires lo == h / (2 * n)
    requires e.Floor as real == e ==> q == e
    requires e - e / 9007199254740992.0 <= q <= e + e / 9007199254740992.0
    ensures q.Floor == lo
  {
    if h == lo * (2 * n) {
      CastProduct(lo, 2 * n);
      MulCancel(e, lo as real, (2 * n) as real);
      assert q == lo as real;
    } else {
      RoundedInside(h, n, lo, e, q);
    }
  }

  /** Off the multiples of n, the rounding error is smaller than the gap to the next. */
  lemma {:induction false} RoundedInside(h: int, n: nat, lo: int, e: real, q: real)
    requires Exact(h) && n > 0 && e * (2 * n) as real == h as real
    requires lo == h / (2 * n) && h != lo * (2 * n)
    requires e - e / 9007199254740992.0 <= q <= e + e / 9007199254740992.0
    ensures q.Floor == lo
  {
    var gap := if h < 0x20_0000_0000_0000 then 1 else 2;
    GapToMultiple(h, n, lo, gap);
    CastProduct(lo, 2 * n);
    CastProduct(lo + 1, 2 * n);
    SmallError(h as real, (2 * n) as real, gap as real, e, lo as real, q);
  }

  lemma {:induction false} GapToMultiple(h: int, n: nat, lo: int, gap: int)
    requires n > 0 && lo == h / (2 * n) && h != lo * (2 * n)
    requires gap == 1 || (gap == 2 && h % 2 == 0)
    ensures lo * (2 * n) + gap <= h && h + gap <= (lo + 1) * (2 * n)
  {
    DivBracket(h, 2 * n);
    EvenProduct(lo, n);
    EvenProduct(lo + 1, n);
  }

  lemma {:induction false} DivBracket(n: int, d: int)
    requires d > 0
    ensures n / d * d <= n < (n / d + 1) * d
  {
  }

  lemma {:induction false} EvenProduct(a: int, n: int)
    ensures (a * (2 * n)) % 2 == 0
  {
    assert a * (2 * n) == 2 * (a * n);
  }

  lemma {:induction false} SmallError(a: real, d: real, gap: real, e: real, lo: real, q: real)
    requires 0.0 < d && e * d == a && a / 9007199254740992.0 < gap
    requires lo * d + gap <= a && a + gap <= (lo + 1.0) * d
    requires e - e / 9007199254740992.0 <= q <= e + e / 9007199254740992.0
    ensures lo <= q < lo + 1.0
  {
    var err := e / 9007199254740992.0;
    assert err * d == a / 9007199254740992.0;
    assert (e + err) * d == a + err * d;
    assert (e - err) * d == a - err * d;
    if q >= lo + 1.0 {
      MulMonotone(lo + 1.0, e + err, d);
    }
    if q < lo {
      MulStrict(e - err, lo, d);
    }
  }

  lemma {:induction false} CastProduct(a: int, b: int)
    ensures a as real * b as real == (a * b) as real
  {
  }

  lemma {:induction false} MulMonotone(a: real, b: real, c: real)
    requires a <= b && 0.0 <= c
    ensures a * c <= b * c
  {
    assert 0.0 <= (b - a) * c;
  }

  lemma {:induction false} MulStrict(a: real, b: real, c: real)
    requires a < b && 0.0 < c
    ensures a * c < b * c
  {
    assert 0.0 < (b - a) * c;
  }

  lemma {:induction false} MulCancel(a: real, b: real, c: real)
    requires 0.0 < c && a * c == b * c
    ensures a == b
  {
    if a < b {
      MulStrict(a, b, c);
    } else if b < a {
      MulStrict(b, a, c);
    }
  }

  // ----- limbs -----

  /** The number (in halves) that little-endian base-10^7 limbs denote. */
  function Value(s: seq<int>): int {
    if s == [] then 0 else s[0] + 10_000_000 * Value(s[1..])
  }

  /** All limbs are digits of the base; only the lowest may carry a half. */
  predicate Limbs(s: seq<int>) {
    && (forall i | 0 <= i < |s| :: 0 <= s[i] < 20_000_000)
    && (forall i | 0 < i < |s| :: s[i] % 2 == 0)
  }

  predicate IntLimbs(s: seq<int>) {
    forall i | 0 <= i < |s| :: 0 <= s[i] < 20_000_000 && s[i] % 2 == 0
  }

  /** The factors and carries for which a multiplication pass stays exact. */
  predicate CarryOk(n: nat, c: int) {
    Exact(c) && (n == 0 || (n <= 10_000_000 && c <= 20_000_000))
  }

  lemma {:induction false} StepExact(n: nat, c: int, d: int)
    requires CarryOk(n, c) && 0 <= d < 20_000_000
    ensures Exact(n * d) && Exact(c + n * d)
    ensures CarryOk(n, FloorQuotient(c + n * d, 10_000_000))
  {
    if n != 0 {
      MulBound(n, d);
    }
  }

  lemma {:induction false} StepEven(n: nat, c: int, d: int)
    requires CarryOk(n, c) && 0 <= d < 20_000_000 && c % 2 == 0 && (n == 0 || d % 2 == 0)
    requires Exact(c + n * d)
    ensures Remainder(c + n * d, 10_000_000) % 2 == 0
  {
    if n != 0 {
      assert n * d == 2 * (n * (d / 2));
    }
  }

  lemma {:induction false} MulBound(n: nat, d: int)
    requires n <= 10_000_000 && 0 <= d < 20_000_000
    ensures 0 <= n * d <= 10_000_000 * 19_999_999
  {
    assert n * d <= 10_000_000 * d;
  }

  /** One pass of the multiply loop: the new limbs, and the carry out of the last. */
  function MulLimbs(s: seq<int>, n: nat, c: int): (r: (seq<int>, int))
    requires Limbs(s) && CarryOk(n, c)
    ensures |r.0| == |s|
  {
    if s == [] then ([], c)
    else
      StepExact(n, c, s[0]);
      var t := Sum(c, Product(n, s[0]));
      var rest := MulLimbs(s[1..], n, FloorQuotient(t, 10_000_000));
      ([Remainder(t, 10_000_000)] + rest.0, rest.1)
  }

  lemma {:induction false} MulLimbsUnfold(s: seq<int>, n: nat, c: int)
    requires Limbs(s) && CarryOk(n, c) && s != []
    ensures var t := c + n * s[0];
            Exact(n * s[0]) && Exact(t) && CarryOk(n, FloorQuotient(t, 10_000_000))
            && MulLimbs(s, n, c).0 == [Remainder(t, 10_000_000)] + MulLimbs(s[1..], n, FloorQuotient(t, 10_000_000)).0
            && MulLimbs(s, n, c).1 == MulLimbs(s[1..], n, FloorQuotient(t, 10_000_000)).1
  {
    StepExact(n, c, s[0]);
  }

  /** One iteration of the multiply loop. */
  lemma {:induction false} MulAdvance(s: seq<int>, i: nat, n: nat, c: int, before: seq<int>, result: seq<int>)
    requires i < |s| && Limbs(s) && CarryOk(n, c) && before + MulLimbs(s[i..], n, c).0 == result
    ensures var t := c + n * s[i];
            Exact(n * s[i]) && Exact(t) && CarryOk(n, FloorQuotient(t, 10_000_000))
            && before + [Remainder(t, 10_000_000)]
               + MulLimbs(s[i + 1..], n, FloorQuotient(t, 10_000_000)).0 == result
  {
    MulLimbsUnfold(s[i..], n, c);
    assert s[i..][1..] == s[i + 1..];
  }

  /** The lowest limb of a product, and the carry into the next. */
  lemma {:induction false} MulHead(s: seq<int>, n: nat, c: int) returns (d: int, carry: int)
    requires Limbs(s) && CarryOk(n, c) && s != []
    ensures CarryOk(n, carry) && carry % 2 == 0 && 0 <= d < 20_000_000
    ensures MulLimbs(s, n, c).0 == [d] + MulLimbs(s[1..], n, carry).0
    ensures c % 2 == 0 && (n == 0 || s[0] % 2 == 0) ==> d % 2 == 0
  {
    MulLimbsUnfold(s, n, c);
    var t := c + n * s[0];
    d, carry := Remainder(t, 10_000_000), FloorQuotient(t, 10_000_000);
    if c % 2 == 0 && (n == 0 || s[0] % 2 == 0) {
      StepEven(n, c, s[0]);
    }
  }

  lemma {:induction false} MulLimbsInt(s: seq<int>, n: nat, c: int)
    requires Limbs(s) && (n == 0 || IntLimbs(s)) && CarryOk(n, c) && c % 2 == 0
    ensures IntLimbs(MulLimbs(s, n, c).0)
  {
    if s != [] {
      var d, carry := MulHead(s, n, c);
      MulLimbsInt(s[1..], n, carry);
      IntLimbsCons(d, MulLimbs(s[1..], n, carry).0);
    }
  }

  lemma {:induction false} IntLimbsCons(d: int, s: seq<int>)
    requires 0 <= d < 20_000_000 && IntLimbs(s)
    ensures Limbs([d] + s) && (d % 2 == 0 ==> IntLimbs([d] + s))
  {
  }

  lemma {:induction false} MulLimbsAreLimbs(s: seq<int>, n: nat, c: int)
    requires Limbs(s) && CarryOk(n, c) && s != []
    ensures Limbs(MulLimbs(s, n, c).0)
  {
    var d, carry := MulHead(s, n, c);
    MulLimbsInt(s[1..], n, carry);
    IntLimbsCons(d, MulLimbs(s[1..], n, carry).0);
  }

  lemma {:induction false} MulLimbsValid(s: seq<int>, n: nat, c: int)
    requires Limbs(s) && CarryOk(n, c) && s != []
    ensures Limbs(MulLimbs(s, n, c).0)
    ensures IntLimbs(s) && c % 2 == 0 ==> IntLimbs(MulLimbs(s, n, c).0)
  {
    MulLimbsAreLimbs(s, n, c);
    if IntLimbs(s) && c % 2 == 0 {
      MulLimbsInt(s, n, c);
    }
  }

  /** Multiplication by n and addition of c, up to the carry that leaves the top limb. */
  lemma {:induction false} MulLimbsValue(s: seq<int>, n: nat, c: int)
    requires Limbs(s) && CarryOk(n, c)
    ensures var (t, carry) := MulLimbs(s, n, c);
            Value(t) + carry * Pow(10_000_000, |s|) == n * Value(s) + c && 0 <= carry
  {
    if s != [] {
      MulLimbsUnfold(s, n, c);
      var c' := FloorQuotient(c + n * s[0], 10_000_000);
      MulLimbsValue(s[1..], n, c');
      var (u, carry) := MulLimbs(s[1..], n, c');
      assert MulLimbs(s, n, c).0[1..] == u;
      MulStep(n, c, s[0], Value(s[1..]), Value(u), carry, Pow(10_000_000, |s| - 1));
    }
  }

  lemma {:induction false} MulStep(n: int, c: int, d: int, v: int, u: int, carry: int, p: int)
    requires u + carry * p == n * v + 2 * ((c + n * d) / 20_000_000)
    ensures (c + n * d) % 20_000_000 + 10_000_000 * u + carry * (10_000_000 * p)
         == n * (d + 10_000_000 * v) + c
  {
    assert carry * (10_000_000 * p) == 10_000_000 * (carry * p);
    assert n * (d + 10_000_000 * v) == n * d + 10_000_000 * (n * v);
  }

  // ----- division -----

  /** Limbs s to be divided by n, with a remainder r brought down from above. */
  predicate DivOk(s: seq<int>, n: nat, r: int) {
    Limbs(s) && 0 < n <= 0x80_0000 && 0 <= r < 2 * n && (s != [] ==> r % 2 == 0)
  }

  lemma {:induction false} DivStepExact(n: nat, r: int, d: int)
    requires 0 < n <= 0x80_0000 && 0 <= r < 2 * n && r % 2 == 0 && 0 <= d < 20_000_000
    ensures Exact(10_000_000 * r) && Exact(10_000_000 * r + d)
    ensures 0 <= FloorQuotient(10_000_000 * r + d, n) < 20_000_000
    ensures 0 <= Remainder(10_000_000 * r + d, n) < 2 * n
    ensures d % 2 == 0 ==> Remainder(10_000_000 * r + d, n) % 2 == 0
  {
    var t := 10_000_000 * r + d;
    assert t < 10_000_000 * (2 * n);
    DivBound(t, 2 * n, 10_000_000);
    if d % 2 == 0 {
      EvenRemainder(t, n);
    }
  }

  lemma {:induction false} DivBound(t: int, m: int, b: int)
    requires 0 <= t < b * m && m > 0
    ensures 0 <= t / m < b
  {
    var q := t / m;
    assert q * m <= t;
    if b <= q {
      MulLe(b, q, m);
    }
  }

  lemma {:induction false} EvenRemainder(t: int, n: nat)
    requires n > 0 && t % 2 == 0
    ensures (t % (2 * n)) % 2 == 0
  {
    var q := t / (2 * n);
    assert t == q * (2 * n) + t % (2 * n);
    assert q * (2 * n) == 2 * (q * n);
  }

  /** One pass of the divide loop, from the top limb down. */
  function DivLimbs(s: seq<int>, n: nat, r: int): (q: seq<int>)
    requires DivOk(s, n, r)
    ensures |q| == |s|
  {
    if s == [] then []
    else
      var last := |s| - 1;
      DivStepExact(n, r, s[last]);
      var t := Sum(Product(10_000_000, r), s[last]);
      DivLimbs(s[..last], n, Remainder(t, n)) + [FloorQuotient(t, n)]
  }

  lemma {:induction false} DivAdvance(s: seq<int>, i: nat, n: nat, r: int, after: seq<int>, result: seq<int>)
    requires i < |s| && Limbs(s) && DivOk(s[..i + 1], n, r) && DivLimbs(s[..i + 1], n, r) + after == result
    ensures Exact(10_000_000 * r) && Exact(10_000_000 * r + s[i])
    ensures var t := 10_000_000 * r + s[i];
            && DivOk(s[..i], n, Remainder(t, n)) && Exact(10_000_000 * Remainder(t, n))
            && DivLimbs(s[..i], n, Remainder(t, n)) + ([FloorQuotient(t, n)] + after) == result
  {
    var t := 10_000_000 * r + s[i];
    assert s[..i + 1][i] == s[i] && s[..i + 1][..i] == s[..i];
    DivStepExact(n, r, s[i]);
    DivLimbsUnfold(s[..i + 1], n, r);
    assert DivLimbs(s[..i], n, Remainder(t, n)) + [FloorQuotient(t, n)] + after
        == DivLimbs(s[..i], n, Remainder(t, n)) + ([FloorQuotient(t, n)] + after);
  }

  lemma {:induction false} DivLimbsUnfold(s: seq<int>, n: nat, r: int)
    requires DivOk(s, n, r) && s != []
    ensures var last := |s| - 1;
            var t := 10_000_000 * r + s[last];
            Exact(t) && DivOk(s[..last], n, Remainder(t, n))
            && DivLimbs(s, n, r) == DivLimbs(s[..last], n, Remainder(t, n)) + [FloorQuotient(t, n)]
  {
    DivStepExact(n, r, s[|s| - 1]);
  }

  lemma {:induction false} DivLimbsInt(s: seq<int>, n: nat, r: int)
    requires DivOk(s, n, r)
    ensures IntLimbs(DivLimbs(s, n, r))
  {
    if s != [] {
      var last := |s| - 1;
      var t := 10_000_000 * r + s[last];
      DivStepExact(n, r, s[last]);
      DivLimbsUnfold(s, n, r);
      DivLimbsInt(s[..last], n, Remainder(t, n));
      IntLimbsSnoc(DivLimbs(s[..last], n, Remainder(t, n)), FloorQuotient(t, n));
    }
  }

  lemma {:induction false} IntLimbsSnoc(s: seq<int>, d: int)
    requires IntLimbs(s) && 0 <= d < 20_000_000 && d % 2 == 0
    ensures IntLimbs(s + [d])
  {
  }

  lemma {:induction false} ValueSnoc(s: seq<int>, d: int)
    ensures Value(s + [d]) == Value(s) + d * Pow(10_000_000, |s|)
  {
    if s != [] {
      ValueSnoc(s[1..], d);
      assert (s + [d])[1..] == s[1..] + [d];
      assert 10_000_000 * (d * Pow(10_000_000, |s| - 1)) == d * Pow(10_000_000, |s|);
    }
  }

  /** The quotient limbs, with the remainder that is dropped at the end. */
  lemma {:induction false} DivLimbsValue(s: seq<int>, n: nat, r: int) returns (rem: int)
    requires DivOk(s, n, r)
    ensures Value(s) + r * Pow(10_000_000, |s|) == n * Value(DivLimbs(s, n, r)) + rem
    ensures 0 <= rem < 2 * n
  {
    if s == [] {
      rem := r;
    } else {
      var last := |s| - 1;
      var d, init := s[last], s[..last];
      DivStepExact(n, r, d);
      var t := 10_000_000 * r + d;
      var u := DivLimbs(init, n, Remainder(t, n));
      rem := DivLimbsValue(init, n, Remainder(t, n));
      assert s == init + [d];
      ValueSnoc(init, d);
      DivLimbsUnfold(s, n, r);
      ValueSnoc(u, FloorQuotient(t, n));
      DivStep(n, r, d, t, Pow(10_000_000, last), Value(init), Value(u), rem);
    }
  }

  lemma {:induction false} DivStep(n: nat, r: int, d: int, t: int, p: int, v: int, u: int, rem: int)
    requires n > 0 && t == 10_000_000 * r + d
    requires v + (t % (2 * n)) * p == n * u + rem
    ensures (v + d * p) + r * (10_000_000 * p) == n * (u + 2 * (t / (2 * n)) * p) + rem
  {
    var q, m := t / (2 * n), t % (2 * n);
    assert t == n * (2 * q) + m;
    calc {
      d * p + r * (10_000_000 * p);
      t * p;
      { Distribute(n, 2 * q, m, p); }
      n * (2 * q * p) + m * p;
    }
    assert n * (u + 2 * q * p) == n * u + n * (2 * q * p);
  }

  lemma {:induction false} Distribute(n: int, q: int, m: int, p: int)
    ensures (n * q + m) * p == n * (q * p) + m * p
  {
  }

  lemma {:induction false} DivLimbsExact(s: seq<int>, n: nat)
    requires Limbs(s) && 0 < n <= 0x80_0000
    ensures Value(DivLimbs(s, n, 0)) == 2 * (Value(s) / (2 * n))
  {
    var u := DivLimbs(s, n, 0);
    var rem := DivLimbsValue(s, n, 0);
    DivLimbsInt(s, n, 0);
    ValueEven(u);
    HalveQuotient(Value(s), n, Value(u), rem);
  }

  lemma {:induction false} HalveQuotient(a: int, n: int, u: int, rem: int)
    requires u % 2 == 0 && a == n * u + rem && 0 <= rem < 2 * n
    ensures u == 2 * (a / (2 * n))
  {
    assert n * u == (u / 2) * (2 * n);
    QuotientUnique(a, 2 * n, u / 2, rem);
  }

  lemma {:induction false} ValueEven(s: seq<int>)
    requires IntLimbs(s)
    ensures Value(s) % 2 == 0
  {
    if s != [] {
      ValueEven(s[1..]);
    }
  }

  // ----- powers and logarithm -----

  /** toFixedHelpers.pow: repeated squaring with an accumulator. */
  function FastPow(x: nat, n: nat, acc: nat): (r: nat)
    ensures r == acc * Pow(x, n)
    decreases n
  {
    if n == 0 then acc
    else if n % 2 == 1 then
      assert acc * x * Pow(x, n - 1) == acc * (x * Pow(x, n - 1));
      FastPow(x, n - 1, acc * x)
    else
      PowSquare(x, n / 2);
      FastPow(x * x, n / 2, acc)
  }

  lemma {:induction false} PowSquare(x: nat, k: nat)
    ensures Pow(x * x, k) == Pow(x, 2 * k)
  {
    if k > 0 {
      PowSquare(x, k - 1);
      assert Pow(x, 2 * k) == x * (x * Pow(x, 2 * k - 2));
      assert x * (x * Pow(x, 2 * k - 2)) == (x * x) * Pow(x, 2 * k - 2);
    }
  }

  /** y * 2^k, for any integer k, by repeated doubling or halving. */
  function Scaled(y: real, k: int): real
    decreases if k >= 0 then k else -k
  {
    if k > 0 then 2.0 * Scaled(y, k - 1)
    else if k < 0 then Scaled(y, k + 1) / 2.0
    else y
  }

  lemma {:induction false} ScaledStep(y: real, k: int)
    ensures Scaled(y, k + 1) == 2.0 * Scaled(y, k)
  {
  }

  lemma {:induction false} ScaledAdd(y: real, j: int, k: int)
    ensures Scaled(Scaled(y, j), k) == Scaled(y, j + k)
    decreases if k >= 0 then k else -k
  {
    if k > 0 {
      ScaledAdd(y, j, k - 1);
      ScaledStep(y, j + k - 1);
    } else if k < 0 {
      ScaledAdd(y, j, k + 1);
      ScaledStep(y, j + k);
    }
  }

  lemma {:induction false} ScaledMonotone(y: real, z: real, k: int)
    ensures y < z <==> Scaled(y, k) < Scaled(z, k)
    ensures y == z <==> Scaled(y, k) == Scaled(z, k)
    decreases if k >= 0 then k else -k
  {
    if k > 0 {
      ScaledMonotone(y, z, k - 1);
    } else if k < 0 {
      ScaledMonotone(y, z, k + 1);
    }
  }

  /** Multiplying and dividing by 2^n, as the source does it, is scaling. */
  lemma {:induction false} ScaledPow(y: real, n: int)
    requires 0 <= n
    ensures y * Pow(2, n) as real == Scaled(y, n)
    ensures y / Pow(2, n) as real == Scaled(y, -n)
  {
    if n > 0 {
      ScaledPow(y, n - 1);
      DoubleFactor(y, Pow(2, n - 1) as real);
    }
  }

  lemma {:induction false} DoubleFactor(y: real, p: real)
    requires p > 0.0
    ensures y * (2.0 * p) == 2.0 * (y * p)
    ensures y / (2.0 * p) == (y / p) / 2.0
  {
    var q := y / p;
    assert q * p == y;
    MulCancel(y / (2.0 * p), q / 2.0, 2.0 * p);
  }

  /** toFixedHelpers.log: the binary logarithm rounded down, and 0 below 2. */
  method Log(x: real) returns (n: nat)
    requires 0.0 <= x
    ensures x < 2.0 ==> n == 0
    ensures 1.0 <= x ==> Scaled(1.0, n) <= x
    ensures x < Scaled(2.0, n)
  {
    n := 0;
    var x2 := x;
    while x2 >= 4096.0
      invariant 0.0 <= x2 && x == Scaled(x2, n)
      invariant n == 0 || (x2 >= 1.0 && x >= 2.0)
      decreases x2.Floor
    {
      ScaledAdd(x2, -12, n + 12);
      assert Scaled(x2, -12) == x2 / 4096.0 by { HalvedTwelve(x2); }
      n := n + 12;
      x2 := x2 / 4096.0;
    }
    while x2 >= 2.0
      invariant 0.0 <= x2 && x == Scaled(x2, n)
      invariant n == 0 || (x2 >= 1.0 && x >= 2.0)
      decreases x2.Floor
    {
      ScaledAdd(x2, -1, n + 1);
      n := n + 1;
      x2 := x2 / 2.0;
    }
    ScaledMonotone(x2, 2.0, n);
    ScaledMonotone(x2, 1.0, n);
  }

  lemma {:induction false} HalvedTwelve(y: real)
    ensures Scaled(y, -12) == y / 4096.0
  {
    assert Scaled(y, -6) == y / 64.0;
    ScaledAdd(y, -6, -6);
    assert Scaled(y / 64.0, -6) == y / 64.0 / 64.0;
  }

  lemma {:induction false} PowerTable()
    ensures Pow(2, 17) == 131072 && Pow(2, 23) == 0x80_0000
    ensures Pow(10, 6) == 1_000_000 && Pow(10, 7) == 10_000_000
    ensures Pow(10, 20) == 100_000_000_000_000_000_000
    ensures Pow(10_000_000, 6) == CAPACITY
  {
    BinaryTable();
    DecimalTable();
    LimbTable();
  }

  lemma {:induction false} TenToSeven()
    ensures Pow(10, 7) == 10_000_000
  {
    DecimalTable();
  }

  lemma {:induction false} TwoTo23()
    ensures Pow(2, 23) == 0x80_0000
  {
    BinaryTable();
  }

  lemma {:induction false} PowNext(b: nat, n: nat, v: nat, w: nat)
    requires Pow(b, n) == v && w == b * v
    ensures Pow(b, n + 1) == w
  {
  }

  lemma {:induction false} DecimalTable()
    ensures Pow(10, 6) == 1_000_000 && Pow(10, 7) == 10_000_000
    ensures Pow(10, 20) == 100_000_000_000_000_000_000
  {
    PowNext(10, 0, 1, 10);
    PowNext(10, 1, 10, 100);
    PowNext(10, 2, 100, 1000);
    PowNext(10, 3, 1000, 10_000);
    PowNext(10, 4, 10_000, 100_000);
    PowNext(10, 5, 100_000, 1_000_000);
    PowNext(10, 6, 1_000_000, 10_000_000);
    PowAdd(10, 5, 5);
    PowAdd(10, 10, 10);
  }

  lemma {:induction false} LimbTable()
    ensures Pow(10_000_000, 6) == CAPACITY
  {
    PowNext(10_000_000, 0, 1, 10_000_000);
    PowNext(10_000_000, 1, 10_000_000, 100_000_000_000_000);
    PowNext(10_000_000, 2, 100_000_000_000_000, 1_000_000_000_000_000_000_000);
    PowAdd(10_000_000, 3, 3);
  }

  lemma {:induction false} BinaryTable()
    ensures Pow(2, 17) == 131072 && Pow(2, 23) == 0x80_0000
    ensures Pow(2, 52) == 4503599627370496
    ensures Pow(2, 69) == 590295810358705651712 && Pow(2, 70) == 1180591620717411303424
  {
    PowNext(2, 0, 1, 2);
    PowNext(2, 1, 2, 4);
    PowNext(2, 2, 4, 8);
    PowAdd(2, 3, 3);
    PowNext(2, 6, 64, 128);
    PowAdd(2, 7, 3);
    PowAdd(2, 10, 10);
    PowAdd(2, 17, 6);
    PowAdd(2, 26, 26);
    PowAdd(2, 20, 6);
    PowAdd(2, 52, 17);
    assert Pow(2, 20) == 2 * (2 * (2 * Pow(2, 17)));
  }

  // ----- the accumulator -----

  class Accumulator {
    const data: array<int>

    ghost predicate Valid()
      reads this, data
    {
      data.Length == 6 && Limbs(data[..])
    }

    constructor ()
      ensures Valid() && fresh(data)
    {
      data := new int[6](_ => 0);
    }

    /** multiply(n, c) */
    method Multiply(n: nat, c: int)
      requires Valid() && CarryOk(n, c)
      modifies data
      ensures Valid()
      ensures IntLimbs(old(data[..])) && c % 2 == 0 ==> IntLimbs(data[..])
      ensures data[..] == MulLimbs(old(data[..]), n, c).0
    {
      ghost var was := data[..];
      ghost var result := MulLimbs(was, n, c).0;
      assert was[0..] == was && data[0..] == was && [] + result == result;
      var i, c2 := 0, c;
      while i < 6
        invariant 0 <= i <= 6 && Multiplying(i, n, c2, was, result)
      {
        c2 := NextProduct(i, n, c2, was, result);
        i := i + 1;
      }
      Multiplied(n, c2, was, result);
      MulLimbsValid(was, n, c);
    }

    /** The limbs below i are done, and c is carried into the next. */
    ghost predicate Multiplying(i: nat, n: nat, c: int, was: seq<int>, result: seq<int>)
      reads data
    {
      && data.Length == 6 && i <= 6 == |was| && Limbs(was) && CarryOk(n, c)
      && data[i..] == was[i..] && data[..i] + MulLimbs(was[i..], n, c).0 == result
    }

    lemma {:induction false} Multiplied(n: nat, c: int, was: seq<int>, result: seq<int>)
      requires Multiplying(6, n, c, was, result)
      ensures data[..] == result
    {
      assert was[6..] == [];
      assert data[..6] + [] == data[..];
    }

    method NextProduct(i: nat, n: nat, c: int, ghost was: seq<int>, ghost result: seq<int>) returns (carry: int)
      requires i < 6 && Multiplying(i, n, c, was, result)
      modifies data
      ensures Multiplying(i + 1, n, carry, was, result)
    {
      ghost var before := data[..i];
      assert data[i] == data[i..][0] == was[i..][0] == was[i];
      MulAdvance(was, i, n, c, before, result);
      carry := MultiplyLimb(i, n, c);
      assert data[..i + 1] == before + [data[i]];
      assert data[i + 1..] == was[i..][1..] == was[i + 1..];
    }

    /** The body of the loop in multiply. */
    method MultiplyLimb(i: nat, n: nat, c: int) returns (carry: int)
      requires i < data.Length && CarryOk(n, c) && 0 <= data[i] < 20_000_000
      requires Exact(n * data[i]) && Exact(c + n * data[i])
      modifies data
      ensures data[i] == Remainder(c + n * old(data[i]), 10_000_000)
      ensures forall j | 0 <= j < data.Length && j != i :: data[j] == old(data[j])
      ensures carry == FloorQuotient(c + n * old(data[i]), 10_000_000)
    {
      var c2 := Sum(c, Product(n, data[i]));
      data[i] := Remainder(c2, 10_000_000);
      carry := FloorQuotient(c2, 10_000_000);
    }

    /** divide(n) */
    method Divide(n: nat)
      requires Valid() && 0 < n <= 0x80_0000
      modifies data
      ensures Valid() && IntLimbs(data[..])
      ensures Value(data[..]) == 2 * (old(Value(data[..])) / (2 * n))
    {
      ghost var was := data[..];
      assert was[..6] == was && data[..6] == was && data[6..] == [];
      ghost var result := DivLimbs(was, n, 0);
      assert result + [] == result;
      var i, c := 6, 0;
      while i > 0
        invariant 0 <= i <= 6 && Dividing(i, n, c, was, result)
      {
        i := i - 1;
        c := NextLimb(i, n, c, was, result);
      }
      Divided(n, c, was, result);
      DivLimbsInt(was, n, 0);
      DivLimbsExact(was, n);
    }

    lemma {:induction false} Divided(n: nat, c: int, was: seq<int>, result: seq<int>)
      requires Dividing(0, n, c, was, result)
      ensures data[..] == result
    {
      assert was[..0] == [];
      assert [] + data[0..] == data[..];
    }

    /** The limbs from i on are done, and c is the remainder carried into those below. */
    ghost predicate Dividing(i: nat, n: nat, c: int, was: seq<int>, result: seq<int>)
      reads data
    {
      && data.Length == 6 && i <= 6 == |was| && Limbs(was) && data[..i] == was[..i]
      && exists r: int :: c == 10_000_000 * r && DivOk(was[..i], n, r) && DivLimbs(was[..i], n, r) + data[i..] == result
    }

    method NextLimb(i: nat, n: nat, c: int, ghost was: seq<int>, ghost result: seq<int>) returns (carry: int)
      requires i < 6 && Dividing(i + 1, n, c, was, result)
      modifies data
      ensures Dividing(i, n, carry, was, result)
    {
      ghost var r: int :| c == 10_000_000 * r && DivOk(was[..i + 1], n, r)
                          && DivLimbs(was[..i + 1], n, r) + data[i + 1..] == result;
      ghost var after := data[i + 1..];
      assert data[i] == data[..i + 1][i] == was[..i + 1][i] == was[i];
      DivAdvance(was, i, n, r, after, result);
      var rest := DivideLimb(i, n, c);
      carry := Product(10_000_000, rest);
      LimbAndRest(i, after);
      DividingIs(i, n, carry, rest, was, result);
    }

    lemma {:induction false} LimbAndRest(i: nat, after: seq<int>)
      requires i < data.Length && after == data[i + 1..]
      ensures data[i..] == [data[i]] + after
    {
    }

    lemma {:induction false} DividingIs(i: nat, n: nat, c: int, r: int, was: seq<int>, result: seq<int>)
      requires data.Length == 6 && i <= 6 == |was| && Limbs(was) && data[..i] == was[..i]
      requires c == 10_000_000 * r && DivOk(was[..i], n, r) && DivLimbs(was[..i], n, r) + data[i..] == result
      ensures Dividing(i, n, c, was, result)
    {
    }

    /** The body of the loop in divide: the remainder is the carry into the limb below. */
    method DivideLimb(i: nat, n: nat, c: int) returns (r: int)
      requires i < data.Length && n > 0 && Exact(c + data[i])
      modifies data
      ensures data[i] == FloorQuotient(c + old(data[i]), n)
      ensures forall j | 0 <= j < data.Length && j != i :: data[j] == old(data[j])
      ensures r == Remainder(c + old(data[i]), n)
    {
      var c2 := Sum(c, data[i]);
      data[i] := FloorQuotient(c2, n);
      r := Remainder(c2, n);
    }

    /** numToString(): seven digits a limb, without leading zeros. */
    method NumToString() returns (s: string)
      requires Valid() && IntLimbs(data[..])
      ensures 0 <= Value(data[..]) && s == Show(Value(data[..]) / 2)
    {
      ghost var limbs := data[..];
      var i := 6;
      s := "";
      assert limbs[6..] == [];
      while i > 0
        invariant 0 <= i <= 6
        invariant HighDigits(s, limbs[i..], i > 0)
      {
        i := i - 1;
        assert limbs[i..] == [limbs[i]] + limbs[i + 1..];
        assert data[i] == limbs[i];
        s := AppendLimb(s, data[i], i == 0, limbs[i + 1..]);
      }
      assert limbs[0..] == limbs;
      Spells(s, limbs);
    }

    /** Lines 1696-1703: scales the accumulator by 10^f, seven digits at a time. */
    method ScaleTen(f: nat)
      requires Valid() && f <= 20
      requires Value(data[..]) * Pow(10, f) < CAPACITY
      modifies data
      ensures Valid() && Value(data[..]) == old(Value(data[..])) * Pow(10, f)
    {
      ghost var n := Value(data[..]) * Pow(10, f);
      var j := f;
      while j >= 7
        invariant 0 <= j <= f && Valid()
        invariant Value(data[..]) * Pow(10, j) == n
      {
        TenToSeven();
        MultiplyTens(10_000_000, 7, j, n);
        j := j - 7;
      }
      var p := FastPow(10, j, 1);
      MultiplyTens(p, j, j, n);
    }

    method MultiplyTens(p: nat, ghost k: nat, ghost j: nat, ghost n: int)
      requires Valid() && k <= j && k <= 7 && p == Pow(10, k)
      requires Value(data[..]) * Pow(10, j) == n < CAPACITY
      modifies data
      ensures Valid() && Value(data[..]) * Pow(10, j - k) == n
    {
      TimesPower(data[..], j, k, p, n);
      Multiply(p, 0);
    }

    /** Lines 1704-1711: divides by 2^k, 23 bits at a time, rounding down. */
    method ShiftRight(k: nat)
      requires Valid()
      modifies data
      ensures Valid() && IntLimbs(data[..])
      ensures Value(data[..]) == 2 * (old(Value(data[..])) / (2 * Pow(2, k)))
    {
      ghost var n := Value(data[..]);
      var j := k;
      while j >= 23
        invariant 0 <= j <= k && Valid()
        invariant Shifted(n, Value(data[..]), Pow(2, k - j))
      {
        TwoTo23();
        ShiftMore(n, Value(data[..]), k - j, 23);
        Divide(0x80_0000);
        j := j - 23;
      }
      PowMonotone(2, j, 23);
      TwoTo23();
      ShiftMore(n, Value(data[..]), k - j, j);
      Divide(Pow(2, j));
    }

    /** Lines 1694-1714: the digits of (zh / 2) / 2^e scaled by 10^f and rounded. */
    method RoundedDigits(zh: int, e: nat, f: nat) returns (m: string)
      requires Valid() && Exact(zh) && 0 < e && f <= 20
      modifies data
      ensures Valid()
      ensures 0 <= zh * Pow(10, f) && m == Show(HalfUp(zh * Pow(10, f), Pow(2, e)))
    {
      Loaded(data[..], zh);
      Multiply(0, zh);
      ScaledBound(zh, f);
      ScaleTen(f);
      ShiftRight(e - 1);
      assert Pow(2, e) == 2 * Pow(2, e - 1);
      ghost var h := HalfUp(zh * Pow(10, f), Pow(2, e));
      RoundLastBit(zh * Pow(10, f), Pow(2, e), data[..]);
      Multiply(1, 2);
      Divide(2);
      assert Value(data[..]) / 2 == h;
      m := NumToString();
    }

    /** Lines 1715-1719: the digits of an integer zh / 2 * 2^k, and f zeros. */
    method ExactDigits(zh: int, k: nat, f: nat) returns (m: string)
      requires Valid() && Exact(zh) && zh % 2 == 0 && k <= 17 && f <= 20
      modifies data
      ensures Valid()
      ensures 0 <= zh && m == Show(zh / 2 * Pow(2, k)) + Zeros(f)
    {
      Loaded(data[..], zh);
      Multiply(0, zh);
      PowMonotone(2, k, 17);
      PowerTable();
      ProductBound(zh, Pow(2, k));
      MulLimbsFits(data[..], Pow(2, k), 0);
      Multiply(Pow(2, k), 0);
      HalfProduct(zh, Pow(2, k));
      assert Value(data[..]) / 2 == zh / 2 * Pow(2, k);
      m := NumToString();
      m := m + Zeros(20)[..f];
      ZerosPrefix(20, f);
    }
  }

  /** The body of the loop in numToString: the digits of one more limb, unless there are only zeros yet. */
  method AppendLimb(s: string, limb: int, last: bool, ghost high: seq<int>) returns (r: string)
    requires HighDigits(s, high, true) && 0 <= limb < 20_000_000 && limb % 2 == 0
    ensures HighDigits(r, [limb] + high, !last)
  {
    PrependLimb(limb, high);
    r := s;
    if s != "" || last || limb != 0 {
      r := Show(limb / 2);
      if s != "" {
        TenToSeven();
        ShowLength(limb / 2, 7);
        AppendSeven(s, PadSeven(r));
        r := s + PadSeven(r);
      }
    }
  }

  /** s spells the high limbs, and may be empty only while they are all zero. */
  predicate HighDigits(s: string, limbs: seq<int>, more: bool) {
    if s == "" then more && Value(limbs) == 0
    else Canonical(s) && (more ==> s[0] != '0') && 2 * Read(s) == Value(limbs)
  }

  lemma {:induction false} Spells(s: string, limbs: seq<int>)
    requires HighDigits(s, limbs, false)
    ensures 0 <= Value(limbs) && s == Show(Value(limbs) / 2)
  {
    ShowRead(s);
  }

  /** strSlice('0000000', 0, 7 - t.length) + t */
  function PadSeven(t: string): (pad: string)
    requires AllDigits(t) && |t| <= 7
    ensures |pad| == 7 && AllDigits(pad) && Read(pad) == Read(t)
  {
    ZerosPrefix(7, 7 - |t|);
    ReadPadded(7 - |t|, t);
    Zeros(7)[..7 - |t|] + t
  }

  lemma {:induction false} PrependLimb(limb: int, high: seq<int>)
    ensures Value([limb] + high) == limb + 10_000_000 * Value(high)
  {
    assert ([limb] + high)[1..] == high;
  }

  lemma {:induction false} AppendSeven(s: string, pad: string)
    requires Canonical(s) && s[0] != '0' && AllDigits(pad) && |pad| == 7
    ensures Canonical(s + pad) && (s + pad)[0] != '0'
    ensures Read(s + pad) == 10_000_000 * Read(s) + Read(pad)
  {
    TenToSeven();
    ReadConcat(s, pad);
    assert Read(s) * Pow(10, 7) == 10_000_000 * Read(s);
  }

  /** multiply(0, z) forgets the old limbs and loads z. */
  lemma {:induction false} Loaded(s: seq<int>, zh: int)
    requires Limbs(s) && |s| == 6 && Exact(zh)
    ensures Value(MulLimbs(s, 0, zh).0) == zh
    ensures zh % 2 == 0 ==> IntLimbs(MulLimbs(s, 0, zh).0)
  {
    PowerTable();
    MulLimbsFits(s, 0, zh);
    if zh % 2 == 0 {
      MulLimbsInt(s, 0, zh);
    }
  }

  /** Below 10^42 nothing is carried out of the top limb. */
  lemma {:induction false} MulLimbsFits(s: seq<int>, n: nat, c: int)
    requires Limbs(s) && CarryOk(n, c) && |s| == 6
    requires n * Value(s) + c < CAPACITY
    ensures Value(MulLimbs(s, n, c).0) == n * Value(s) + c
  {
    PowerTable();
    var (t, carry) := MulLimbs(s, n, c);
    MulLimbsValue(s, n, c);
    MulLimbsAreLimbs(s, n, c);
    ValueNonnegative(t);
    NoCarry(Value(t), carry, Pow(10_000_000, 6), n * Value(s) + c);
  }

  lemma {:induction false} NoCarry(v: int, carry: int, p: int, total: int)
    requires v + carry * p == total < p && 0 <= v && 0 <= carry && 0 <= p
    ensures v == total
  {
    if carry >= 1 {
      MulLe(1, carry, p);
    }
  }

  lemma {:induction false} ValueNonnegative(s: seq<int>)
    requires Limbs(s)
    ensures 0 <= Value(s)
  {
    if s != [] {
      ValueNonnegative(s[1..]);
    }
  }

  /** z * 10^f is far below the capacity of the limbs. */
  lemma {:induction false} ScaledBound(zh: int, f: nat)
    requires Exact(zh) && f <= 20
    ensures 0 <= zh * Pow(10, f) < CAPACITY / 2 - 2
  {
    PowMonotone(10, f, 20);
    PowerTable();
    MulBetween(zh, Pow(10, f), 100_000_000_000_000_000_000);
  }

  lemma {:induction false} MulBetween(a: int, b: int, c: int)
    requires 0 <= a && 0 <= b <= c
    ensures 0 <= a * b <= a * c
  {
  }

  lemma {:induction false} ProductBound(zh: int, p: nat)
    requires Exact(zh) && p <= 131072
    ensures 0 <= p * zh < CAPACITY
  {
    MulLe(p, 131072, zh);
  }

  lemma {:induction false} HalfProduct(zh: int, p: int)
    requires zh % 2 == 0
    ensures zh / 2 * p == p * zh / 2
  {
    assert p * zh == 2 * (zh / 2 * p);
  }

  /** Multiplying by p = 10^k takes k of the j outstanding powers of ten. */
  lemma {:induction false} TimesPower(s: seq<int>, j: nat, k: nat, p: nat, n: int)
    requires Limbs(s) && |s| == 6 && k <= j && k <= 7 && p == Pow(10, k)
    requires Value(s) * Pow(10, j) == n < CAPACITY
    ensures CarryOk(p, 0)
    ensures Value(MulLimbs(s, p, 0).0) * Pow(10, j - k) == n
  {
    PowMonotone(10, k, 7);
    PowerTable();
    PowAdd(10, k, j - k);
    ValueNonnegative(s);
    MovePower(Value(s), p, Pow(10, j - k), n);
    MulLimbsFits(s, p, 0);
  }

  lemma {:induction false} MovePower(v: int, p: int, r: int, n: int)
    requires v * (p * r) == n && 0 <= v && 0 < p && 0 < r
    ensures 0 <= p * v <= n && (p * v) * r == n
  {
    assert v * (p * r) == (p * v) * r;
    MulLe(1, r, p * v);
  }

  /** v is n, or n shifted right by the factor p, in halves. */
  predicate Shifted(n: int, v: int, p: nat)
  {
    p > 0 && ((p == 1 && v == n) || v == 2 * (n / (2 * p)))
  }

  lemma {:induction false} ShiftMore(n: int, v: int, d: nat, k: nat)
    requires Shifted(n, v, Pow(2, d))
    ensures 2 * (v / (2 * Pow(2, k))) == 2 * (n / (2 * Pow(2, d + k)))
  {
    PowAdd(2, d, k);
    ShiftTwice(n, v, Pow(2, d), Pow(2, k));
  }

  lemma {:induction false} ShiftTwice(n: int, v: int, p: nat, r: nat)
    requires Shifted(n, v, p) && r > 0
    ensures 2 * (p * r) > 0 && v / (2 * r) == n / (2 * (p * r))
  {
    if p == 1 && v == n {
    } else {
      var q := n / (2 * p);
      DivDiv(n, 2 * p, r);
      DivDiv(2 * q, 2, r);
      assert (2 * p) * r == 2 * (p * r);
    }
  }

  lemma {:induction false} DivDiv(n: int, a: nat, b: nat)
    requires a > 0 && b > 0
    ensures a * b > 0 && n / a / b == n / (a * b)
  {
    var q, r := n / a, n % a;
    var q', r' := q / b, q % b;
    assert n == (q' * b + r') * a + r;
    assert (q' * b + r') * a == q' * (a * b) + r' * a;
    MulLe(r', b - 1, a);
    assert (b - 1) * a == a * b - a;
    QuotientUnique(n, a * b, q', r' * a + r);
  }

  /** n / d, rounded half up, from the quotient by d / 2 rounded down. */
  function HalfUp(n: int, d: nat): (r: nat)
    requires 0 <= n && 0 < d
  {
    QuotientBound(n, d);
    (n / d + 1) / 2
  }

  /** Adding one to the doubled quotient and halving it rounds half up. */
  lemma {:induction false} RoundLastBit(n: int, d: nat, s: seq<int>)
    requires 0 <= n < CAPACITY / 2 - 2 && 0 < d && IntLimbs(s) && |s| == 6 && Value(s) == 2 * (n / d)
    ensures 2 * (Value(MulLimbs(s, 1, 2).0) / 4) == 2 * HalfUp(n, d)
  {
    QuotientBound(n, d);
    MulLimbsFits(s, 1, 2);
    HalveAgain(Value(MulLimbs(s, 1, 2).0), n / d);
  }

  lemma {:induction false} HalveAgain(v: int, q: int)
    requires v == 2 * q + 2
    ensures 2 * (v / 4) == 2 * ((q + 1) / 2)
  {
  }

  lemma {:induction false} QuotientBound(n: int, d: nat)
    requires 0 <= n && d > 0
    ensures 0 <= n / d <= n
  {
    DivDiv(n, 1, d);
    MulLe(1, d, n / d);
  }

  // ----- toFixed -----

  /** A finite nonnegative double. */
  ghost predicate IsDouble(x: real) {
    exists m: nat, k: int :: IsDyadic(x, m, k)
  }

  predicate IsDyadic(x: real, m: nat, k: int) {
    m < 0x20_0000_0000_0000 && x == Scaled(m as real, k)
  }

  function Abs(x: real): real {
    if x < 0.0 then -x else x
  }

  /** The JavaScript numbers. */
  ghost predicate IsNumber(x: Number) {
    x.Finite? ==> IsDouble(Abs(x.value))
  }

  datatype Result = RangeError | Text(s: string)

  /** f = Number(fractionDigits), with NaN taken as 0, rounded down. */
  function FractionDigits(d: Number): (f: int)
    ensures d.PosInfinity? || d.NegInfinity? ==> f < 0 || f > 20
  {
    match d
    case NaN => 0
    case PosInfinity => 21
    case NegInfinity => -1
    case Finite(v) => v.Floor
  }

  /** The digit count that section 15.7.4.5 of ECMA-262 5.1 asks for. */
  predicate AllowedDigits(n: Integer) {
    n.Integer? && 0 <= n.i <= 20
  }

  /**
   Rounding down instead of towards zero makes no difference, except that a
   count strictly between -1 and 0 is refused.
   */
  lemma {:induction false} FloorOfDigits(d: Number)
    ensures (0 <= FractionDigits(d) <= 20 <==> AllowedDigits(ToInteger(d)))
       <==> !(d.Finite? && -1.0 < d.value < 0.0)
    ensures 0 <= FractionDigits(d) <= 20 ==> ToInteger(d) == Integer(FractionDigits(d))
  {
    if d.Finite? {
      var v := d.value;
      if -1.0 < v < 0.0 {
        assert v.Floor == -1 && Truncate(v) == 0;
      } else if v <= -1.0 {
        assert v.Floor <= -1 && Truncate(v) <= -1;
      }
    }
  }

  /** Minus one half is refused, although it is 0 digits. */
  lemma {:induction false} HalfRefused()
    ensures FractionDigits(Finite(-0.5)) == -1 && ToInteger(Finite(-0.5)) == Integer(0)
  {
    FloorOfDigits(Finite(-0.5));
  }

  /** The integer that toFixed prints: x * 10^f rounded half up. */
  function Rounded(x: real, f: nat): (n: nat)
    requires 0.0 <= x
  {
    MulMonotone(0.0, x, Pow(10, f) as real);
    (x * Pow(10, f) as real + 0.5).Floor
  }

  /** The decimal point goes f digits from the right, after leading zeros if need be. */
  function PlacePoint(m: string, f: nat): (s: string)
    requires f <= 20 && |m| > 0
  {
    var k := |m|;
    if f == 0 then m
    else if k <= f then ("0." + Zeros(19))[..f - k + 2] + m
    else m[..k - f] + "." + m[k - f..]
  }

  /**
   s is n / 10^f in fixed notation: an integer part without superfluous zeros
   and, if f > 0, a point and exactly f digits.
   */
  predicate FixedNotation(s: string, n: nat, f: nat) {
    if f == 0 then
      Canonical(s) && Read(s) == n
    else
      var k := |s| - f - 1;
      && k > 0 && s[k] == '.'
      && Canonical(s[..k]) && AllDigits(s[k + 1..])
      && Read(s[..k] + s[k + 1..]) == n
  }

  /** The notation determines the string. */
  lemma {:induction false} FixedNotationUnique(s: string, t: string, n: nat, f: nat)
    requires FixedNotation(s, n, f) && FixedNotation(t, n, f)
    ensures s == t
  {
    if f == 0 {
      ShowRead(s);
      ShowRead(t);
    } else {
      var i, j := |s| - f - 1, |t| - f - 1;
      SplitUnique(s[..i], s[i + 1..], t[..j], t[j + 1..]);
      assert s == s[..i] + "." + s[i + 1..];
      assert t == t[..j] + "." + t[j + 1..];
    }
  }

  lemma {:induction false} SplitUnique(a: string, b: string, c: string, d: string)
    requires Canonical(a) && Canonical(c) && AllDigits(b) && AllDigits(d) && |b| == |d|
    requires Read(a + b) == Read(c + d)
    ensures a == c && b == d
  {
    var p := Pow(10, |b|);
    ReadConcat(a, b);
    ReadConcat(c, d);
    ReadBound(b);
    ReadBound(d);
    QuotientUnique(Read(a + b), p, Read(a), Read(b));
    QuotientUnique(Read(c + d), p, Read(c), Read(d));
    ShowRead(a);
    ShowRead(c);
    ReadInjective(b, d);
  }

  lemma {:induction false} PlacePointNotation(m: string, f: nat)
    requires f <= 20 && AllDigits(m) && m != []
    requires Canonical(m) || (|m| > f && Canonical(m[..|m| - f]))
    ensures FixedNotation(PlacePoint(m, f), Read(m), f)
  {
    if f == 0 {
      NoPoint(m);
    } else if |m| <= f {
      LeadingZeros(m, f);
    } else {
      InnerPoint(m, f);
    }
  }

  lemma {:induction false} NoPoint(m: string)
    requires m != [] && (Canonical(m) || Canonical(m[..|m|]))
    ensures FixedNotation(PlacePoint(m, 0), Read(m), 0)
  {
    assert m[..|m|] == m;
  }

  lemma {:induction false} LeadingZeros(m: string, f: nat)
    requires 0 < |m| <= f <= 20 && AllDigits(m)
    ensures FixedNotation(PlacePoint(m, f), Read(m), f)
  {
    var frac := Zeros(f - |m|) + m;
    LeadString(m, f - |m|);
    ReadPadded(f - |m|, m);
    ReadPadded(1, frac);
    assert Zeros(1) == "0";
    JoinPoint("0", frac, Read(m), PlacePoint(m, f));
  }

  lemma {:induction false} InnerPoint(m: string, f: nat)
    requires 0 < f < |m| && f <= 20 && AllDigits(m)
    requires Canonical(m) || Canonical(m[..|m| - f])
    ensures FixedNotation(PlacePoint(m, f), Read(m), f)
  {
    var a, b := m[..|m| - f], m[|m| - f..];
    assert a + b == m;
    assert a[0] == m[0];
    assert Read(a + b) == Read(m);
    JoinPoint(a, b, Read(m), a + "." + b);
  }

  lemma {:induction false} LeadString(m: string, lead: nat)
    requires lead <= 19
    ensures ("0." + Zeros(19))[..lead + 2] + m == "0" + "." + (Zeros(lead) + m)
  {
    ZerosPrefix(19, lead);
    assert ("0." + Zeros(19))[..lead + 2] == "0." + Zeros(lead);
  }

  lemma {:induction false} JoinPoint(a: string, b: string, n: nat, s: string)
    requires Canonical(a) && AllDigits(b) && b != [] && Read(a + b) == n && s == a + "." + b
    ensures FixedNotation(s, n, |b|)
  {
    assert s[..|a|] == a && s[|a| + 1..] == b;
  }

  // ----- the mantissa -----

  lemma {:induction false} ScaledGrows(y: real, j: int, k: int)
    requires 0.0 <= y && j <= k
    ensures 0.0 <= Scaled(y, j) <= Scaled(y, k)
    decreases k - j
  {
    if j == k {
      ScaledNonnegative(y, j);
    } else {
      ScaledGrows(y, j + 1, k);
      ScaledStep(y, j);
    }
  }

  lemma {:induction false} ScaledNonnegative(y: real, k: int)
    requires 0.0 <= y
    ensures 0.0 <= Scaled(y, k)
    decreases if k >= 0 then k else -k
  {
    if k > 0 {
      ScaledNonnegative(y, k - 1);
    } else if k < 0 {
      ScaledNonnegative(y, k + 1);
    }
  }

  /** z is an exact number of halves and, from 2^52 on, an integer. */
  predicate IsMantissa(z: real) {
    var zh := (2.0 * z).Floor;
    Exact(zh) && zh as real == 2.0 * z && (z >= 4503599627370496.0 ==> zh % 2 == 0)
  }

  /** A double scaled into (2^51, 2^53). */
  lemma {:induction false} MantissaExact(x: real, k: int)
    requires IsDouble(x)
    requires 2251799813685248.0 < Scaled(x, k) < 9007199254740992.0
    ensures IsMantissa(Scaled(x, k))
  {
    var m: nat, i :| IsDyadic(x, m, i);
    ScaledAdd(m as real, i, k);
    DyadicMantissa(m, i + k);
  }

  lemma {:induction false} DyadicMantissa(m: nat, j: int)
    requires m < 0x20_0000_0000_0000
    requires 2251799813685248.0 < Scaled(m as real, j) < 9007199254740992.0
    ensures IsMantissa(Scaled(m as real, j))
  {
    assert Scaled(m as real, -2) == m as real / 2.0 / 2.0;
    if j >= 0 {
      ScaledPow(m as real, j);
      CastProduct(m, Pow(2, j));
      var i := m * Pow(2, j);
      assert Scaled(m as real, j) == i as real;
      IntMantissa(i);
    } else if j == -1 {
      HalfMantissa(m);
    } else {
      ScaledGrows(m as real, j, -2);
    }
  }

  lemma {:induction false} IntMantissa(i: int)
    requires 0 <= i < 0x20_0000_0000_0000
    ensures IsMantissa(i as real)
  {
    assert (2.0 * i as real).Floor == 2 * i;
  }

  lemma {:induction false} HalfMantissa(m: nat)
    requires m < 0x20_0000_0000_0000
    ensures IsMantissa(m as real / 2.0)
  {
    assert (2.0 * (m as real / 2.0)).Floor == m;
  }

  /** With n = log(x * 2^69), scaling x by 2^(121 - n) yields 52 or 53 bits. */
  lemma {:induction false} MantissaRange(x: real, n: nat)
    requires x > 0.000000000000000000001
    requires Scaled(x, 69) < 2.0 ==> n == 0
    requires 1.0 <= Scaled(x, 69) ==> Scaled(1.0, n) <= Scaled(x, 69)
    requires Scaled(x, 69) < Scaled(2.0, n)
    ensures 2251799813685248.0 < Scaled(x, 121 - n) < 9007199254740992.0
    ensures n > 0 ==> Scaled(x, 121 - n) >= 4503599627370496.0
  {
    var y := Scaled(x, 69);
    ScaledAdd(x, 69, 52 - n);
    ScaledMonotone(y, Scaled(2.0, n), 52 - n);
    ScaledAdd(2.0, n, 52 - n);
    TwoTable();
    if 1.0 <= y {
      ScaledMonotone(Scaled(1.0, n), y, 52 - n);
      ScaledAdd(1.0, n, 52 - n);
    } else {
      TinyMantissa(x);
    }
  }

  lemma {:induction false} TinyMantissa(x: real)
    requires x > 0.000000000000000000001
    ensures Scaled(Scaled(x, 69), 52) > 2251799813685248.0
  {
    TwoTable();
    TinyTimesTwo69();
    ScaledMonotone(0.000000000000000000001, x, 69);
    ScaledMonotone(0.5, Scaled(x, 69), 52);
  }

  lemma {:induction false} TwoTable()
    ensures Scaled(1.0, 52) == 4503599627370496.0
    ensures Scaled(2.0, 52) == 9007199254740992.0
    ensures Scaled(0.5, 52) == 2251799813685248.0
  {
    BinaryTable();
    ScaledPow(1.0, 52);
    ScaledPow(2.0, 52);
    ScaledPow(0.5, 52);
  }

  lemma {:induction false} TinyTimesTwo69()
    ensures Scaled(0.000000000000000000001, 69) > 0.5
  {
    BinaryTable();
    ScaledPow(0.000000000000000000001, 69);
  }

  /** Below 10^21 the exponent n stays below 139. */
  lemma {:induction false} ExponentBound(x: real, n: nat)
    requires x < 1000000000000000000000.0
    requires n > 0 ==> Scaled(1.0, n) <= Scaled(x, 69)
    ensures n <= 138
  {
    if n >= 139 {
      BelowTwoTo70(x, 1.0, 70, 69, n);
    }
  }

  lemma {:induction false} BelowTwoTo70(x: real, one: real, a: nat, b: nat, n: nat)
    requires x < 1000000000000000000000.0 && one == 1.0 && a == 70 && a + b <= n
    ensures Scaled(x, b) < Scaled(one, n)
  {
    BinaryTable();
    ScaledPow(one, a);
    ScaledAdd(one, a, b);
    ScaledMonotone(x, Scaled(one, a), b);
    ScaledGrows(one, a + b, n);
  }

  // ----- the result -----

  /** zh * 10^f / 2^e, rounded half up, is x * 10^f rounded half up when zh / 2 = x * 2^e. */
  lemma {:induction false} HalfUpIsRounded(x: real, zh: int, e: nat, f: nat)
    requires 0.0 <= x && zh as real == 2.0 * Scaled(x, e)
    ensures 0 <= zh * Pow(10, f) && HalfUp(zh * Pow(10, f), Pow(2, e)) == Rounded(x, f)
  {
    ScaledNonnegative(x, e);
    MulLe(0, zh, Pow(10, f));
    TenfoldInt(zh, f);
    TenfoldScaled(x, e, f);
    FloorScaled(2.0 * Tenfold(x, f), zh * Pow(10, f), e);
    HalfUpFloor(zh * Pow(10, f), Pow(2, e), Tenfold(x, f));
    RoundedTenfold(x, f);
  }

  lemma {:induction false} HalfUpFloor(n: int, d: nat, y: real)
    requires 0 <= n && d > 0 && n / d == (2.0 * y).Floor
    ensures HalfUp(n, d) == (y + 0.5).Floor
  {
    FloorHalf(y);
  }

  lemma {:induction false} RoundedTenfold(x: real, f: nat)
    requires 0.0 <= x
    ensures Rounded(x, f) == (Tenfold(x, f) + 0.5).Floor
  {
    TenfoldPow(x, f);
  }

  /** x * 10^f by repeated multiplication. */
  function Tenfold(x: real, f: nat): real {
    if f == 0 then x else 10.0 * Tenfold(x, f - 1)
  }

  lemma {:induction false} TenfoldPow(x: real, f: nat)
    ensures Tenfold(x, f) == x * Pow(10, f) as real
  {
    if f > 0 {
      TenfoldPow(x, f - 1);
      TenFactor(x, Pow(10, f - 1) as real);
    }
  }

  lemma {:induction false} TenFactor(x: real, p: real)
    ensures 10.0 * (x * p) == x * (10.0 * p)
  {
  }

  lemma {:induction false} TenfoldInt(n: int, f: nat)
    ensures Tenfold(n as real, f) == (n * Pow(10, f)) as real
  {
    TenfoldPow(n as real, f);
    CastProduct(n, Pow(10, f));
  }

  lemma {:induction false} TenfoldScaled(x: real, e: nat, f: nat)
    ensures Tenfold(2.0 * Scaled(x, e), f) == Scaled(2.0 * Tenfold(x, f), e)
  {
    if f > 0 {
      TenfoldScaled(x, e, f - 1);
      ScaledTimes(10.0, 2.0 * Tenfold(x, f - 1), 2.0 * Tenfold(x, f), e);
    } else {
      ScaledTimes(2.0, x, 2.0 * Tenfold(x, f), e);
    }
  }

  lemma {:induction false} ScaledTimes(c: real, y: real, z: real, e: nat)
    requires (c == 10.0 || c == 2.0) && z == c * y
    ensures c * Scaled(y, e) == Scaled(z, e)
  {
    ScaledLinear(c, y, e);
  }

  lemma {:induction false} ScaledLinear(c: real, y: real, e: nat)
    requires c == 10.0 || c == 2.0
    ensures Scaled(c * y, e) == c * Scaled(y, e)
  {
    if e > 0 {
      ScaledLinear(c, y, e - 1);
    }
  }

  /** The integer part of n / 2^e. */
  lemma {:induction false} FloorScaled(w: real, n: int, e: int)
    requires 0 <= e && n as real == Scaled(w, e)
    ensures w.Floor == n / Pow(2, e)
  {
    var q, p := w.Floor, Pow(2, e);
    ScaledMonotone(q as real, w, e);
    ScaledMonotone(w, (q + 1) as real, e);
    ScaledInt(q, e);
    ScaledInt(q + 1, e);
    QuotientUnique(n, p, q, n - q * p);
  }

  lemma {:induction false} ScaledInt(q: int, e: int)
    requires 0 <= e
    ensures Scaled(q as real, e) == (q * Pow(2, e)) as real
  {
    ScaledPow(q as real, e);
    CastProduct(q, Pow(2, e));
  }

  lemma {:induction false} FloorHalf(y: real)
    ensures (y + 0.5).Floor == ((2.0 * y).Floor + 1) / 2
  {
  }

  /** An integer x = zh / 2 * 2^k needs no rounding. */
  lemma {:induction false} ExactIsRounded(x: real, zh: int, k: int, f: nat)
    requires 0 <= zh && zh % 2 == 0 && 0 <= k && zh as real == 2.0 * Scaled(x, -k) && 0.0 <= x
    ensures zh / 2 * Pow(2, k) * Pow(10, f) == Rounded(x, f)
  {
    var i := zh / 2 * Pow(2, k);
    ScaledAdd(x, -k, k);
    ScaledInt(zh / 2, k);
    TenfoldInt(i, f);
    RoundedTenfold(x, f);
    IntegerPlusHalf(i * Pow(10, f), Tenfold(x, f));
  }

  lemma {:induction false} IntegerPlusHalf(i: int, r: real)
    requires r == i as real
    ensures (r + 0.5).Floor == i
  {
  }

  /** Number.prototype.toFixed */
  method ToFixed(acc: Accumulator, fractionDigits: Number, this_: Number, nativeString: Number -> string)
    returns (r: Result)
    requires acc.Valid() && IsNumber(this_)
    modifies acc.data
    ensures acc.Valid()
    ensures r.RangeError? <==> FractionDigits(fractionDigits) < 0 || FractionDigits(fractionDigits) > 20
    ensures r.Text? && this_.NaN? ==> r.s == "NaN"
    ensures r.Text? && (this_.PosInfinity? || this_.NegInfinity?) ==> r.s == nativeString(this_)
    ensures r.Text? && this_.Finite? && Abs(this_.value) >= 1000000000000000000000.0
            ==> r.s == nativeString(this_)
    ensures r.Text? && this_.Finite? && Abs(this_.value) < 1000000000000000000000.0 ==>
              var f := FractionDigits(fractionDigits);
              var n := Rounded(Abs(this_.value), f);
              if this_.value < 0.0
              then r.s != [] && r.s[0] == '-' && FixedNotation(r.s[1..], n, f)
              else FixedNotation(r.s, n, f)
  {
    var f := FractionDigits(fractionDigits);
    if f < 0 || f > 20 {
      return RangeError;
    }
    if this_.NaN? {
      return Text("NaN");
    }
    if this_.PosInfinity? || this_.NegInfinity?
       || this_.value <= -1000000000000000000000.0 || this_.value >= 1000000000000000000000.0 {
      return Text(nativeString(this_));
    }
    var sign, x := "", this_.value;
    if x < 0.0 {
      sign, x := "-", -x;
    }
    var m := MagnitudeDigits(acc, x, f);
    PlacePointNotation(m, f);
    m := PlacePoint(m, f);
    assert (sign + m)[|sign|..] == m;
    return Text(sign + m);
  }

  /** Lines 1682-1720: the digits of x * 10^f, rounded. */
  method MagnitudeDigits(acc: Accumulator, x: real, f: nat) returns (m: string)
    requires acc.Valid() && IsDouble(x) && 0.0 <= x < 1000000000000000000000.0 && f <= 20
    modifies acc.data
    ensures acc.Valid()
    ensures AllDigits(m) && m != [] && Read(m) == Rounded(x, f)
    ensures Canonical(m) || (|m| > f && Canonical(m[..|m| - f]))
  {
    m := "0";
    if x > 0.000000000000000000001 {
      var z, e := Mantissa(x);
      var zh := (2.0 * z).Floor;
      if e > 0 {
        m := acc.RoundedDigits(zh, e, f);
        HalfUpIsRounded(x, zh, e, f);
      } else {
        m := acc.ExactDigits(zh, -e, f);
        ExactIsRounded(x, zh, -e, f);
        TrailingZeros(Show(zh / 2 * Pow(2, -e)), f);
      }
    } else {
      TinyRoundsToZero(x, f);
      assert Read("0") == 0;
    }
  }

  lemma {:induction false} TrailingZeros(s: string, f: nat)
    requires Canonical(s)
    ensures var m := s + Zeros(f);
            AllDigits(m) && Read(m) == Read(s) * Pow(10, f) && m[..|m| - f] == s
  {
    ReadZeros(f);
    ReadConcat(s, Zeros(f));
    assert (s + Zeros(f))[..|s|] == s;
  }

  /** Lines 1687-1690: x = z / 2^e with z a 53-bit integer (or, near 10^-21, a half of one). */
  method Mantissa(x: real) returns (z: real, e: int)
    requires IsDouble(x) && 0.000000000000000000001 < x < 1000000000000000000000.0
    ensures -17 <= e && z == Scaled(x, e) && IsMantissa(z)
    ensures e <= 0 ==> z >= 4503599627370496.0
  {
    ScaledNonnegative(x, 69);
    var n: int := Log(ScaleDown(x, -69));
    e := n - 69;
    z := ScaleDown(x, e);
    ScaledAdd(x, -e, 52);
    z := Up52(z);
    e := 52 - e;
    MantissaOf(x, n);
  }

  lemma {:induction false} MantissaOf(x: real, n: nat)
    requires IsDouble(x) && 0.000000000000000000001 < x < 1000000000000000000000.0
    requires Scaled(x, 69) < 2.0 ==> n == 0
    requires 1.0 <= Scaled(x, 69) ==> Scaled(1.0, n) <= Scaled(x, 69)
    requires Scaled(x, 69) < Scaled(2.0, n)
    ensures n <= 138 && IsMantissa(Scaled(x, 121 - n))
    ensures n > 0 ==> Scaled(x, 121 - n) >= 4503599627370496.0
  {
    MantissaRange(x, n);
    MantissaExact(x, 121 - n);
    ExponentBound(x, n);
  }

  /** e < 0 ? x * pow(2, -e, 1) : x / pow(2, e, 1) */
  function ScaleDown(x: real, e: int): (z: real)
    ensures z == Scaled(x, -e)
  {
    ScaledPow(x, if e < 0 then -e else e);
    if e < 0 then x * FastPow(2, -e, 1) as real else x / FastPow(2, e, 1) as real
  }

  /** z * 0x10000000000000 */
  function Up52(z: real): (y: real)
    ensures y == Scaled(z, 52)
  {
    ScaledPow(z, 52);
    BinaryTable();
    z * 4503599627370496.0
  }

  lemma {:induction false} TinyRoundsToZero(x: real, f: nat)
    requires 0.0 <= x <= 0.000000000000000000001 && f <= 20
    ensures Rounded(x, f) == 0
  {
    PowMonotone(10, f, 20);
    PowerTable();
    var t := Pow(10, f) as real;
    MulMonotone(x, 0.000000000000000000001, t);
    MulMonotone(0.0, x, t);
  }

  // ----- what rounding means -----

  /** How far k / 10^f is from x. */
  function Distance(k: int, x: real, f: nat): real {
    Abs(k as real / Pow(10, f) as real - x)
  }

  /**
   Section 15.7.4.5 of ECMA-262 5.1: n is an integer for which n / 10^f - x is as
   close to zero as possible and, of two such, the larger.
   */
  ghost predicate IsNearest(n: int, x: real, f: nat) {
    forall k: int :: Distance(n, x, f) < Distance(k, x, f)
                     || (Distance(n, x, f) == Distance(k, x, f) && k <= n)
  }

  lemma {:induction false} RoundedIsNearest(x: real, f: nat, n: int)
    requires 0.0 <= x
    ensures IsNearest(n, x, f) <==> n == Rounded(x, f)
  {
    var r := Rounded(x, f);
    forall k: int
      ensures Distance(r, x, f) < Distance(k, x, f)
              || (Distance(r, x, f) == Distance(k, x, f) && k <= r)
    {
      RoundedBeats(x, f, k);
    }
  }

  lemma {:induction false} RoundedBeats(x: real, f: nat, k: int)
    requires 0.0 <= x
    ensures var r := Rounded(x, f);
            Distance(r, x, f) < Distance(k, x, f)
            || (Distance(r, x, f) == Distance(k, x, f) && k <= r)
  {
    NearestFraction(Rounded(x, f), k, x, Pow(10, f) as real);
  }

  lemma {:induction false} NearestFraction(r: int, k: int, x: real, t: real)
    requires t > 0.0 && r == (x * t + 0.5).Floor
    ensures var a, b := Abs(r as real / t - x), Abs(k as real / t - x);
            a < b || (a == b && k <= r)
  {
    ScaledDistance(r as real, x, t);
    ScaledDistance(k as real, x, t);
    NearestInteger(r, k, x * t);
    Unscale(Abs(r as real / t - x), Abs(k as real / t - x), t, Abs(r as real - x * t), Abs(k as real - x * t), k <= r);
  }

  lemma {:induction false} Unscale(a: real, b: real, t: real, at: real, bt: real, tie: bool)
    requires t > 0.0 && a * t == at && b * t == bt && (at < bt || (at == bt && tie))
    ensures a < b || (a == b && tie)
  {
    CompareScaled(a, b, t);
  }

  lemma {:induction false} NearestInteger(r: int, k: int, y: real)
    requires r == (y + 0.5).Floor
    ensures Abs(r as real - y) < Abs(k as real - y)
            || (Abs(r as real - y) == Abs(k as real - y) && k <= r)
  {
  }

  lemma {:induction false} CompareScaled(a: real, b: real, t: real)
    requires t > 0.0
    ensures a < b <==> a * t < b * t
    ensures a == b <==> a * t == b * t
  {
    if a < b {
      MulStrict(a, b, t);
    } else if b < a {
      MulStrict(b, a, t);
    }
  }

  lemma {:induction false} ScaledDistance(k: real, x: real, t: real)
    requires t > 0.0
    ensures Abs(k / t - x) * t == Abs(k - x * t)
  {
    Quotient(k, t);
    AbsTimes(k / t, x, t, k, x * t);
  }

  lemma {:induction false} Quotient(k: real, t: real)
    requires t > 0.0
    ensures k / t * t == k
  {
  }

  lemma {:induction false} AbsTimes(q: real, x: real, t: real, k: real, y: real)
    requires t > 0.0 && q * t == k && x * t == y
    ensures Abs(q - x) * t == Abs(k - y)
  {
    if q < x {
      MulStrict(q, x, t);
      DifferenceTimes(x, q, t);
    } else {
      MulMonotone(x, q, t);
      DifferenceTimes(q, x, t);
    }
  }

  lemma {:induction false} DifferenceTimes(a: real, b: real, t: real)
    ensures (a - b) * t == a * t - b * t
  {
  }
}
