/** Machine-level arithmetic of the 8-bit controller: `byte` and 32-bit
    `unsigned long` values with their wrap-around, C's truncating division,
    powers of ten and the bit operations used on 8-bit digit masks. */
module Machine {

  type byte = x: int | 0 <= x < 256
  type u32 = x: int | 0 <= x < 0x1_0000_0000

  const TwoTo32: nat := 0x1_0000_0000

  /** An `unsigned long` store: the value modulo 2^32. */
  function Wrap32(x: int): u32 {
    x % TwoTo32
  }

  /** A `byte` store: the value modulo 256. */
  function ToByte(x: int): byte {
    x % 256
  }

  /** C's `/` on signed operands: the quotient truncated toward zero. */
  function TruncDiv(a: int, b: int): int
    requires b > 0
  {
    if a >= 0 then a / b else -((-a) / b)
  }

  function Min(a: int, b: int): int {
    if a <= b then a else b
  }

  function Pow10(k: nat): (r: nat)
    ensures r >= 1
  {
    if k == 0 then 1 else 10 * Pow10(k - 1)
  }

  /** Bit `i` of a mask is set (a set bit lights that digit position). */
  predicate Bit(m: bv8, i: nat)
    requires i < 8
  {
    Shr(m, i) & 1 == 1
  }

  /** `m >> k` on a byte, which leaves nothing once k reaches the width. */
  function Shr(m: bv8, k: nat): bv8 {
    if k == 0 then m else if k == 1 then m >> 1 else if k == 2 then m >> 2
    else if k == 3 then m >> 3 else if k == 4 then m >> 4 else if k == 5 then m >> 5
    else if k == 6 then m >> 6 else if k == 7 then m >> 7 else 0
  }

  /** `m << k` stored back into a byte: the high bits are lost. */
  function Shl(m: bv8, k: nat): bv8 {
    if k == 0 then m else if k == 1 then m << 1 else if k == 2 then m << 2
    else if k == 3 then m << 3 else if k == 4 then m << 4 else if k == 5 then m << 5
    else if k == 6 then m << 6 else if k == 7 then m << 7 else 0
  }

  /** The k lowest bits set. */
  function LowOnes(k: nat): bv8 {
    if k == 0 then 0 else if k == 1 then 1 else if k == 2 then 3 else if k == 3 then 7
    else if k == 4 then 0xF else if k == 5 then 0x1F else if k == 6 then 0x3F
    else if k == 7 then 0x7F else 0xFF
  }

  lemma Pow10Add(a: nat, b: nat)
    ensures Pow10(a + b) == Pow10(a) * Pow10(b)
  {
    if b > 0 {
      Pow10Add(a, b - 1);
    }
  }

  lemma Pow10Monotone(a: nat, b: nat)
    requires a <= b
    ensures Pow10(a) <= Pow10(b)
  {
    if a < b {
      Pow10Monotone(a, b - 1);
    }
  }

  /** Dividing by 10 k times is dividing by 10^k. */
  lemma DivPow10Step(v: nat, k: nat)
    ensures v / Pow10(k) / 10 == v / Pow10(k + 1)
  {
    DivDiv(v, Pow10(k));
  }

  lemma DivDiv(v: nat, p: nat)
    requires p > 0
    ensures v / p / 10 == v / (10 * p)
  {
    var q, r := v / p, v % p;
    var q2, r2 := q / 10, q % 10;
    DivDivCore(v, p, q, r, q2, r2);
    DivUnique(v, 10 * p, q2, r2 * p + r);
  }

  lemma DivDivCore(v: nat, p: nat, q: nat, r: nat, q2: nat, r2: nat)
    requires v == q * p + r && r < p && q == q2 * 10 + r2 && r2 < 10
    ensures v == q2 * (10 * p) + (r2 * p + r) && r2 * p + r < 10 * p
  {
    MulDistrib(q2 * 10, r2, p);
    MulAssoc(q2, 10, p);
    MulMono(r2, 9, p);
  }

  lemma MulDistrib(a: int, b: int, c: int)
    ensures (a + b) * c == a * c + b * c
  {
  }

  lemma MulAssoc(a: int, b: int, c: int)
    ensures (a * b) * c == a * (b * c)
  {
  }

  lemma MulMono(a: nat, b: nat, c: nat)
    requires a <= b
    ensures a * c <= b * c
  {
  }

  lemma DivUnique(v: nat, d: nat, q: nat, r: nat)
    requires d > 0 && v == q * d + r && r < d
    ensures v / d == q
  {
    var q0, r0 := v / d, v % d;
    assert v == q0 * d + r0 && 0 <= r0 < d;
    assert (q0 - q) * d == r - r0 by {
      MulSub(q0, q, d);
    }
    if q0 > q {
      MulAtLeast(q0 - q, d);
    } else if q0 < q {
      MulAtLeast(q - q0, d);
      MulSub(q, q0, d);
    }
  }

  lemma MulSub(a: int, b: int, d: int)
    ensures (a - b) * d == a * d - b * d
  {
  }

  lemma MulAtLeast(a: int, d: nat)
    requires a >= 1
    ensures a * d >= d
  {
  }

  /** Multiplying by 10 under `unsigned long` wrap-around k times is one
      multiplication by 10^k under wrap-around. */
  lemma Wrap32TimesTen(v: nat, k: nat)
    ensures Wrap32(Wrap32(v * Pow10(k)) * 10) == Wrap32(v * Pow10(k + 1))
  {
    var x := v * Pow10(k);
    var q := x / TwoTo32;
    assert x == q * TwoTo32 + Wrap32(x);
    assert x * 10 == (q * 10) * TwoTo32 + Wrap32(x) * 10;
    assert v * Pow10(k + 1) == x * 10;
    ModShift(Wrap32(x) * 10, q * 10);
  }

  lemma ModShift(a: nat, q: nat)
    ensures (q * TwoTo32 + a) % TwoTo32 == a % TwoTo32
  {
  }

  /** A store that fits is the value itself. */
  lemma Wrap32Small(x: nat)
    requires x < TwoTo32
    ensures Wrap32(x) == x
  {
  }

  /** 10^32 is a multiple of 2^32. */
  lemma Pow10At32()
    ensures Pow10(32) == 23283064365386962890625 * TwoTo32
  {
    assert Pow10(4) == 10000;
    Pow10Add(4, 4);
    Pow10Add(8, 8);
    Pow10Add(16, 16);
  }

  /** Multiplying by 10^k for k >= 32 leaves nothing in an `unsigned long`. */
  lemma Wrap32HighPower(v: nat, k: nat)
    requires k >= 32
    ensures Wrap32(v * Pow10(k)) == 0
  {
    Pow10At32();
    Pow10Add(k - 32, 32);
    var q := v * Pow10(k - 32) * 23283064365386962890625;
    assert v * Pow10(k) == q * TwoTo32 by {
      MulAssoc(v, Pow10(k - 32), Pow10(32));
      MulAssoc(v * Pow10(k - 32), 23283064365386962890625, TwoTo32);
    }
    ModShift(0, q);
  }

  /** The remainder is fixed by any decomposition with a small enough rest. */
  lemma ModUnique(v: nat, d: nat, q: nat, r: nat)
    requires d > 0 && v == q * d + r && r < d
    ensures v % d == r
  {
    DivUnique(v, d, q, r);
  }

  /** A multiple of p stays one modulo a multiple e * p of p. */
  lemma ModKeepsFactor(a: nat, p: nat, e: nat)
    requires p >= 1 && e >= 1
    ensures (a * p) % (e * p) == (a % e) * p
  {
    var q, r := a / e, a % e;
    assert a == q * e + r;
    assert a * p == q * (e * p) + r * p by {
      MulDistrib(q * e, r, p);
      MulAssoc(q, e, p);
    }
    assert r * p < e * p by {
      MulMono(r + 1, e, p);
      MulDistrib(r, 1, p);
    }
    ModUnique(a * p, e * p, q, r * p);
  }

  lemma DivInRange(v: nat, p: nat, lo: nat, hi: nat)
    requires p >= 1 && lo * p <= v < hi * p
    ensures lo <= v / p < hi
  {
    var q, r := v / p, v % p;
    assert v == q * p + r;
    if q < lo {
      MulMono(q + 1, lo, p);
      MulDistrib(q, 1, p);
    }
    if q >= hi {
      MulMono(hi, q, p);
    }
  }

  /** Storing a partial sum before adding the rest changes nothing. */
  lemma Wrap32Sum(a: nat, b: nat)
    ensures Wrap32(Wrap32(a) + b) == Wrap32(a + b)
  {
    var q := a / TwoTo32;
    assert a + b == q * TwoTo32 + (Wrap32(a) + b);
    ModShift(Wrap32(a) + b, q);
  }
}
