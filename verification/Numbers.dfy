/** JavaScript numbers and their conversion to integers, from doc/swagger/lib/es5-shim.js. */
module Numbers {

  datatype Number = NaN | PosInfinity | NegInfinity | Finite(value: real)

  /** What ToInteger returns: infinities are kept. */
  datatype Integer = MinusInfinity | Integer(i: int) | PlusInfinity

  /** Rounding towards zero. */
  function Truncate(v: real): (i: int)
    ensures v >= 0.0 ==> i as real <= v < i as real + 1.0
    ensures v <= 0.0 ==> i as real - 1.0 < v <= i as real
  {
    if v >= 0.0 then v.Floor else -(-v).Floor
  }

  /** ToInteger of section 9.4 of ECMA-262 5.1 */
  function ToInteger(n: Number): (r: Integer)
    ensures n.NaN? ==> r == Integer(0)
    ensures n.PosInfinity? ==> r == PlusInfinity
    ensures n.NegInfinity? ==> r == MinusInfinity
    ensures n.Finite? ==> r.Integer? && (n.value >= 0.0 ==> r.i as real <= n.value < r.i as real + 1.0)
                          && (n.value <= 0.0 ==> r.i as real - 1.0 < n.value <= r.i as real)
  {
    match n
    case NaN => Integer(0)
    case PosInfinity => PlusInfinity
    case NegInfinity => MinusInfinity
    case Finite(v) => Integer(Truncate(v))
  }

  /** ToUint32 of section 9.6, on an integer */
  function ToUint32(x: int): (u: nat)
    ensures 0 <= x < 0x1_0000_0000 ==> u == x
    ensures u < 0x1_0000_0000 && exists k: int :: x == u + k * 0x1_0000_0000
  {
    assert x == x % 0x1_0000_0000 + x / 0x1_0000_0000 * 0x1_0000_0000;
    x % 0x1_0000_0000
  }
}
