/** Digit counts and digit-position masks of a score display
    (DisplayHandler.cpp, Display_MagnitudeOfScore and GetDisplayMask), and the
    paired slide of a value and its mask by whole digit positions.

    A display has D digit positions (D is 6 or 7, fixed when the firmware is
    built). Bit b of a mask stands for the position that shows the decimal
    weight 10^(D-1-b): bit D-1 is the ones digit at the right edge, bit 0 the
    leftmost digit. A set bit lights its position. */
module DigitMasks {
  import opened Machine

  predicate ValidDigits(D: nat) {
    D == 6 || D == 7
  }

  /** Number of decimal digits of s; 0 has none. */
  function Magnitude(s: nat): nat {
    if s == 0 then 0 else 1 + Magnitude(s / 10)
  }

  /** The digit count r of a positive s is the one with 10^(r-1) <= s < 10^r. */
  lemma {:induction false} MagnitudeBounds(s: nat)
    requires s > 0
    ensures Magnitude(s) >= 1
    ensures Pow10(Magnitude(s) - 1) <= s < Pow10(Magnitude(s))
  {
    if s >= 10 {
      MagnitudeBounds(s / 10);
    }
  }

  /** Conversely, those bounds fix the digit count. */
  lemma {:induction false} MagnitudeExact(s: nat, r: nat)
    requires r >= 1 && Pow10(r - 1) <= s < Pow10(r)
    ensures Magnitude(s) == r
  {
    if r > 1 {
      DivPow10Step(s, 0);
      assert Pow10(r - 2) <= s / 10 < Pow10(r - 1) by {
        DivBounds(s, Pow10(r - 2));
      }
      MagnitudeExact(s / 10, r - 1);
    }
  }

  lemma DivBounds(s: nat, p: nat)
    requires p >= 1 && 10 * p <= s < 100 * p
    ensures p <= s / 10 < 10 * p
  {
  }

  /** A number below 10^r has at most r digits. */
  lemma {:induction false} MagnitudeAtMost(s: nat, r: nat)
    requires s < Pow10(r)
    ensures Magnitude(s) <= r
  {
    if s > 0 {
      DivInRange(s, 10, 0, Pow10(r - 1));
      MagnitudeAtMost(s / 10, r - 1);
    }
  }

  /** An `unsigned long` has at most ten decimal digits. */
  lemma MagnitudeOfU32(s: u32)
    ensures Magnitude(s) <= 10
  {
    assert Pow10(10) == 10000000000;
    MagnitudeAtMost(s, 10);
  }

  /** Display_MagnitudeOfScore (DisplayHandler.cpp:58-67): counts the
      divisions by ten that bring the score to zero. */
  method MagnitudeOfScore(score: u32) returns (r: byte)
    ensures r == Magnitude(score)
  {
    if score == 0 {
      return 0;
    }
    MagnitudeOfU32(score);
    var s: nat := score;
    var count: nat := 0;
    while s > 0
      invariant count + Magnitude(s) == Magnitude(score)
      decreases s
    {
      s := s / 10;
      count := count + 1;
    }
    r := count;
  }

  /** The first lit position of a mask: 0x40 on 7-digit hardware, 0x20 on
      6-digit hardware. */
  function TopBit(D: nat): bv8
    requires ValidDigits(D)
  {
    if D == 7 then 0x40 else 0x20
  }

  /** The positions occupied by a right-justified n-digit number: the
      min(n, D) rightmost positions. */
  function DisplayMask(D: nat, n: nat): bv8
    requires ValidDigits(D)
  {
    var k := Min(n, D);
    Shl(LowOnes(k), D - k)
  }

  /** RPU_OS_ALL_DIGITS_MASK: every position of the display. */
  function AllDigitsMask(D: nat): bv8
    requires ValidDigits(D)
  {
    DisplayMask(D, D)
  }

  lemma LowOnesBit(k: nat, i: nat)
    requires k <= 7 && i < 8
    ensures Bit(LowOnes(k), i) <==> i < k
  {
  }

  lemma AndNotBit(x: bv8, y: bv8, i: nat)
    requires i < 8
    ensures Bit(x & !y, i) <==> Bit(x, i) && !Bit(y, i)
  {
    if i == 0 {} else if i == 1 {} else if i == 2 {} else if i == 3 {}
    else if i == 4 {} else if i == 5 {} else if i == 6 {} else {}
  }

  /** `m & (0x01 << i)` tests bit i. */
  lemma BitTest(m: bv8, i: nat)
    requires i < 8
    ensures Bit(m, i) <==> m & Shl(1, i) != 0
  {
    if i == 0 {} else if i == 1 {} else if i == 2 {} else if i == 3 {}
    else if i == 4 {} else if i == 5 {} else if i == 6 {} else {}
  }

  lemma ShlBit(m: bv8, s: nat, i: nat)
    requires s < 8 && i < 8
    ensures Bit(Shl(m, s), i) <==> s <= i && Bit(m, i - s)
  {
  }

  lemma ShrBit(m: bv8, s: nat, i: nat)
    requires i < 8
    ensures Bit(Shr(m, s), i) <==> i + s < 8 && Bit(m, i + s)
  {
  }

  /** GetDisplayMask(n) lights exactly min(n, D) contiguous positions running
      down from bit D-1, and nothing at or above bit D. */
  lemma DisplayMaskBits(D: nat, n: nat, i: nat)
    requires ValidDigits(D) && i < 8
    ensures Bit(DisplayMask(D, n), i) <==> D - Min(n, D) <= i < D
  {
    var k := Min(n, D);
    ShlBit(LowOnes(k), D - k, i);
    if D - k <= i {
      LowOnesBit(k, i - (D - k));
    }
  }

  lemma DisplayMaskStep(D: nat, c: nat)
    requires ValidDigits(D)
    ensures DisplayMask(D, c + 1) == DisplayMask(D, c) | Shr(TopBit(D), c)
  {
    if c >= D {
      assert Shr(TopBit(D), c) == 0;
    } else if c == 0 {
    } else if c == 1 {
    } else if c == 2 {
    } else if c == 3 {
    } else if c == 4 {
    } else if c == 5 {
    } else {
    }
  }

  /** GetDisplayMask (DisplayHandler.cpp:107-117): ors in one position per
      digit, starting from the top bit. `0x40 >> c` is taken on an int, so it
      is 0 from c = 8 on. */
  method GetDisplayMask(D: nat, numDigits: byte) returns (m: bv8)
    requires ValidDigits(D)
    ensures m == DisplayMask(D, numDigits)
  {
    m := 0;
    var c := 0;
    while c < numDigits
      invariant c <= numDigits
      invariant m == DisplayMask(D, c)
    {
      DisplayMaskStep(D, c);
      m := m | Shr(TopBit(D), c);
      c := c + 1;
    }
  }

  /** A value multiplied by 10^k under `unsigned long` wrap-around. */
  function ScaleUp(v: u32, k: nat): u32 {
    Wrap32(v * Pow10(k))
  }

  /** The shift loops of ShowAnimatedValue (DisplayHandler.cpp:147-150,
      194-197, 214-217, 243-246, 251-254): k times, the value is multiplied by
      10 and the mask shifted one position toward the left edge. */
  method SlideLeft(v: u32, m: bv8, k: nat) returns (v': u32, m': bv8)
    ensures v' == ScaleUp(v, k) && m' == Shr(m, k)
  {
    v', m' := v, m;
    var c := 0;
    while c < k
      invariant c <= k
      invariant v' == ScaleUp(v, c) && m' == Shr(m, c)
    {
      Wrap32TimesTen(v, c);
      v', m' := Wrap32(v' * 10), m' >> 1;
      c := c + 1;
    }
  }

  /** A value divided by 10^k: its k lowest digits dropped. */
  function ScaleDown(v: u32, k: nat): u32 {
    Quotient(v, Pow10(k))
  }

  /** `v / p` of an `unsigned long` by a positive divisor. */
  function Quotient(v: u32, p: nat): (q: u32)
    requires p >= 1
    ensures q == v / p
  {
    DivAtMost(v, p);
    v / p
  }

  lemma DivAtMost(v: nat, p: nat)
    requires p >= 1
    ensures v / p <= v
  {
    var q := v / p;
    assert q * p + v % p == v;
    MulMono(1, p, q);
  }

  /** The shift loop of the flyby effect (DisplayHandler.cpp:188-191): k
      times, the value is divided by 10 and the byte mask shifted one position
      toward the right edge. */
  method SlideRight(v: u32, m: bv8, k: nat) returns (v': u32, m': bv8)
    ensures v' == ScaleDown(v, k) && m' == Shl(m, k)
  {
    v', m' := v, m;
    var c := 0;
    while c < k
      invariant c <= k
      invariant v' == ScaleDown(v, c) && m' == Shl(m, c)
    {
      DivPow10Step(v, c);
      v', m' := v' / 10, m' << 1;
      c := c + 1;
    }
  }

  /** Sliding an n-digit value s positions to the left (times 10^s) keeps
      its n digits and adds s zero digits below them. */
  lemma SlideValue(v: nat, s: nat)
    requires Magnitude(v) >= 1
    ensures Magnitude(v * Pow10(s)) == Magnitude(v) + s
    ensures (v * Pow10(s)) % Pow10(s) == 0
  {
    var n, p := Magnitude(v), Pow10(s);
    MagnitudeBounds(v);
    ScaledBelow(v, n, s);
    ScaledAbove(v, n, s);
    MagnitudeExact(v * p, n + s);
    ModMultiple(v, p);
  }

  lemma ScaledBelow(v: nat, n: nat, s: nat)
    requires n >= 1 && Pow10(n - 1) <= v
    ensures Pow10(n + s - 1) <= v * Pow10(s)
  {
    Pow10Add(n - 1, s);
    MulMono(Pow10(n - 1), v, Pow10(s));
  }

  lemma ScaledAbove(v: nat, n: nat, s: nat)
    requires v < Pow10(n)
    ensures v * Pow10(s) < Pow10(n + s)
  {
    Pow10Add(n, s);
    MulMono(v + 1, Pow10(n), Pow10(s));
    MulDistrib(v, 1, Pow10(s));
  }

  lemma ModMultiple(v: nat, p: nat)
    requires p > 0
    ensures (v * p) % p == 0
  {
    DivUnique(v * p, p, v, 0);
    assert v * p == ((v * p) / p) * p + (v * p) % p;
  }

  /** ... and sliding its mask s bits toward bit 0 keeps the pair matched:
      the mask then lights exactly the positions of weights s .. s+n-1. */
  lemma SlideMask(D: nat, n: nat, s: nat, b: nat)
    requires ValidDigits(D) && n + s <= D && b < D
    ensures Bit(Shr(DisplayMask(D, n), s), b) <==> s <= D - 1 - b < s + n
  {
    ShrBit(DisplayMask(D, n), s, b);
    if b + s < 8 {
      DisplayMaskBits(D, n, b + s);
    }
  }

  /** Dropping k of a value's digits leaves the others. */
  lemma MagnitudeOfDiv(v: nat, k: nat)
    requires k < Magnitude(v)
    ensures Magnitude(v / Pow10(k)) == Magnitude(v) - k
  {
    var n := Magnitude(v);
    MagnitudeBounds(v);
    var w := n - k;
    assert Pow10(w - 1) <= v / Pow10(k) < Pow10(w) by {
      Pow10Add(w - 1, k);
      Pow10Add(w, k);
      DivInRange(v, Pow10(k), Pow10(w - 1), Pow10(w));
    }
    MagnitudeExact(v / Pow10(k), w);
  }
}
