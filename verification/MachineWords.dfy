// Unsigned machine words: their arithmetic wraps around.
module MachineWords {
  const TWO32: nat := 0x1_0000_0000
  const TWO64: nat := 0x1_0000_0000_0000_0000

  type Uint32 = n: nat | n < TWO32
  type Uint64 = n: nat | n < TWO64

  function Sub64(a: Uint64, b: Uint64): (r: Uint64) { if a >= b then a - b else a + TWO64 - b }
  function Add64(a: Uint64, b: Uint64): (r: Uint64) { if a + b < TWO64 then a + b else a + b - TWO64 }
  function Mul64(a: Uint64, b: Uint64): (r: Uint64) { (a * b) % TWO64 }
  function Div64(a: Uint64, b: Uint64): (r: Uint64)
    requires b > 0
    ensures r * b <= a
  {
    DivideBack(a, b);
    Grows(a / b, b);
    a / b
  }
  function Next32(a: Uint32): (r: Uint32) { if a + 1 < TWO32 then a + 1 else 0 }
  function Prev32(a: Uint32): (r: Uint32) { if a == 0 then TWO32 - 1 else a - 1 }

  lemma Grows(q: nat, b: nat)
    requires b > 0
    ensures q <= q * b
  {
    assert q * (b - 1) >= 0;
  }

  lemma DivideBack(a: nat, b: nat)
    requires b > 0
    ensures (a / b) * b <= a
  {
  }

  // The quotient is the number whose multiple x reaches and whose next multiple it does not.
  lemma QuotientIs(x: nat, d: nat, q: nat)
    requires d > 0
    ensures x / d == q <==> q * d <= x < (q + 1) * d
  {
    var r := x / d;
    assert x == r * d + x % d;
    if q < r {
      assert (q + 1) * d <= r * d by { Scaled(q + 1, r, d); }
    } else if r < q {
      assert (r + 1) * d <= q * d by { Scaled(r + 1, q, d); }
    }
  }

  lemma Scaled(a: nat, b: nat, c: nat)
    requires a <= b
    ensures a * c <= b * c
  {
  }

  lemma MulAtMost(a: Uint64, b: Uint64)
    ensures Mul64(a, b) <= a * b
  {
    Remains(a * b, TWO64);
  }

  lemma Remains(x: nat, m: nat)
    requires m > 0
    ensures x % m <= x
  {
    DivideBack(x, m);
  }
}
