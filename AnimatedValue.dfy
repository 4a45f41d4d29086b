/** The override effects of ShowAnimatedValue (DisplayHandler.cpp:131-269), as
    pure frame functions of one display: from the current time, the value, the
    effect and the display's tracking bytes they compute the new tracking
    bytes and the writes made to the display. */
module AnimatedValue {
  import opened Machine
  import opened DigitMasks
  import opened Primitives

  const NONE: byte := 0
  const BOUNCE: byte := 1
  const FLUTTER: byte := 2
  const FLYBY: byte := 3
  const CENTER: byte := 4
  const SYMMETRIC_BOUNCE: byte := 5
  const CENTER_FLASH_SLOW: byte := 6
  const CENTER_FLASH_FAST: byte := 7

  /** A flyby has run its course once this many frames have passed. */
  const FLYBY_LAST_FRAME: byte := 34

  /** What one call does to a display: its last drawn frame number, the frame
      number a flyby started from, whether the override ends, and the writes. */
  datatype Frame = Frame(lastSeed: byte, startSeed: byte, clearOverride: bool, writes: seq<Write>)

  /** The digit count an override value is laid out with: a zero still takes
      one position. */
  function DigitsShown(v: u32): (n: nat)
    ensures 1 <= n <= 10
  {
    MagnitudeOfU32(v);
    if Magnitude(v) == 0 then 1 else Magnitude(v)
  }

  /** The value at its right edge is the value itself, whose lit positions are
      exactly its n digits. */
  lemma DigitsShownFits(v: u32)
    ensures v < Pow10(DigitsShown(v))
  {
    if v > 0 {
      MagnitudeBounds(v);
    }
  }

  // ---------------------------------------------------------------- bounce

  function BouncePeriod(D: nat, n: nat): (p: nat)
    requires ValidDigits(D) && n < D - 1
    ensures p >= 4
  {
    2 * D - 2 * n
  }

  function BounceSeed(D: nat, n: nat, t: u32): byte
    requires ValidDigits(D) && n < D - 1
  {
    ToByte(t / 250 % BouncePeriod(D, n))
  }

  /** The number of positions the value is slid left at frame `seed`. */
  function BounceShift(D: nat, n: nat, seed: nat): nat
    requires ValidDigits(D) && n < D - 1 && seed < BouncePeriod(D, n)
  {
    if seed >= D + 1 - n then (D - n) * 2 - seed else seed
  }

  /** The bounce is a triangle wave: the slide is the distance of the frame
      from the nearer end of its period, so it runs 0, 1, ..., D-n and back. */
  lemma BounceIsTriangle(D: nat, n: nat, seed: nat)
    requires ValidDigits(D) && n < D - 1 && seed < BouncePeriod(D, n)
    ensures BounceShift(D, n, seed) == Min(seed, BouncePeriod(D, n) - seed)
    ensures BounceShift(D, n, seed) <= D - n
    ensures BounceShift(D, n, seed) == D - n <==> seed == D - n
  {
  }

  /** Each new frame moves the value by exactly one position, also across the
      end of the period. */
  lemma BounceMovesOneStep(D: nat, n: nat, seed: nat)
    requires ValidDigits(D) && n < D - 1 && seed < BouncePeriod(D, n)
    ensures var next := (seed + 1) % BouncePeriod(D, n);
            BounceShift(D, n, next) == BounceShift(D, n, seed) + 1 ||
            BounceShift(D, n, next) + 1 == BounceShift(D, n, seed)
  {
    NextInPeriod(seed, BouncePeriod(D, n));
  }

  lemma NextInPeriod(x: nat, p: nat)
    requires x < p
    ensures (x + 1) % p == if x + 1 < p then x + 1 else 0
  {
    if x + 1 == p {
      assert (x + 1) % p == p % p == 0;
    }
  }

  function BounceFrame(D: nat, d: nat, v: u32, last: byte, start: byte, t: u32): Frame
    requires ValidDigits(D) && DigitsShown(v) < D - 1
  {
    var n := DigitsShown(v);
    var seed := BounceSeed(D, n, t);
    if seed == last then Frame(last, start, false, [])
    else
      var shift := BounceShift(D, n, seed);
      Frame(seed, start, false,
            [Digits(d, ScaleUp(v, shift), false), SetBlank(d, Shr(DisplayMask(D, n), shift))])
  }

  /** A bounced value is never cut off: the slid value is exact (no
      wrap-around), its digits sit at the positions of weights
      shift .. shift+n-1, and the mask lights exactly those positions. */
  lemma BounceKeepsDigitsAndMaskTogether(D: nat, v: u32, shift: nat, b: nat)
    requires ValidDigits(D) && v > 0 && DigitsShown(v) < D - 1
    requires shift <= D - DigitsShown(v) && b < D
    ensures ScaleUp(v, shift) == v * Pow10(shift)
    ensures Magnitude(ScaleUp(v, shift)) == DigitsShown(v) + shift
    ensures Bit(Shr(DisplayMask(D, DigitsShown(v)), shift), b) <==>
            shift <= D - 1 - b < shift + DigitsShown(v)
  {
    ExactSlide(v, shift, D);
    SlideMask(D, DigitsShown(v), shift, b);
  }

  /** Sliding a value by at most the free positions of a display never
      overflows. */
  lemma ExactSlide(v: u32, shift: nat, D: nat)
    requires ValidDigits(D) && v > 0 && Magnitude(v) + shift <= D
    ensures ScaleUp(v, shift) == v * Pow10(shift)
    ensures Magnitude(ScaleUp(v, shift)) == Magnitude(v) + shift
  {
    var x := v * Pow10(shift);
    SlideValue(v, shift);
    FewDigitsFit(x);
    Wrap32Small(x);
  }

  /** A value of at most seven digits fits in 32 bits. */
  lemma FewDigitsFit(x: nat)
    requires Magnitude(x) <= 7
    ensures x < 10000000
  {
    if x > 0 {
      MagnitudeBounds(x);
      Pow10Monotone(Magnitude(x), 7);
      assert Pow10(7) == 10000000;
    }
  }

  // --------------------------------------------------------------- flutter

  function FlutterMask(D: nat, n: nat, seed: byte): bv8
    requires ValidDigits(D)
  {
    DisplayMask(D, n) & (if seed % 2 == 1 then 0x55 else 0xAA)
  }

  /** Consecutive flutter frames light complementary halves of the value's
      positions: together they cover it, and no position is lit in both. */
  lemma FlutterAlternates(D: nat, n: nat, seed: byte)
    requires ValidDigits(D) && seed < 255
    ensures FlutterMask(D, n, seed) | FlutterMask(D, n, seed + 1) == DisplayMask(D, n)
    ensures FlutterMask(D, n, seed) & FlutterMask(D, n, seed + 1) == 0
  {
  }

  function FlutterFrame(D: nat, d: nat, v: u32, last: byte, start: byte, t: u32): Frame
    requires ValidDigits(D)
  {
    var seed := ToByte(t / 50);
    if seed == last then Frame(last, start, false, [])
    else Frame(seed, start, false,
               [Digits(d, v, false), SetBlank(d, FlutterMask(D, DigitsShown(v), seed))])
  }

  // ----------------------------------------------------------------- flyby

  /** Frames elapsed since the flyby started, as the code computes them: a
      byte difference, replaced by (255 - start) + seed once the frame
      counter has wrapped past 255. */
  function FlybyElapsed(seed: byte, start: byte): byte {
    if seed < start then (255 - start) + seed else ToByte(seed - start)
  }

  /** Before the frame counter wraps, the elapsed count is the plain
      difference; after it wraps it is one less than the frames that really
      passed, so the frame at the wrap is shown twice. */
  lemma FlybyElapsedAcrossWrap(seed: byte, start: byte)
    ensures seed >= start ==> FlybyElapsed(seed, start) == seed - start
    ensures seed < start ==> FlybyElapsed(seed, start) == (seed + 256 - start) - 1
    ensures start > 0 ==> FlybyElapsed(0, start) == FlybyElapsed(255, start)
  {
  }

  /** The signed slide of the flyby at `elapsed` frames: the value starts
      6 * (order + 1) positions off the right edge and moves one position left
      per frame. */
  function FlybyShift(order: byte, elapsed: byte): int {
    -6 * (order + 1) + elapsed
  }

  function FlybyFrame(D: nat, d: nat, v: u32, last: byte, start: byte, order: byte, t: u32): Frame
    requires ValidDigits(D)
  {
    var seed := ToByte(t / 75 % 256);
    if seed == last then Frame(last, start, false, [])
    else
      var start' := if last == 255 then seed else start;
      var elapsed := FlybyElapsed(seed, start');
      if elapsed > FLYBY_LAST_FRAME then Frame(seed, start', true, [SetBlank(d, 0)])
      else Frame(seed, start', false, FlybyWrites(D, d, v, order, elapsed))
  }

  /** A running flyby's frame: the value and its positions slid by the
      signed offset, toward the right edge while it is negative. */
  function FlybyWrites(D: nat, d: nat, v: u32, order: byte, elapsed: byte): seq<Write>
    requires ValidDigits(D)
  {
    var shift := FlybyShift(order, elapsed);
    var m := DisplayMask(D, DigitsShown(v));
    if shift < 0 then [Digits(d, ScaleDown(v, -shift), false), SetBlank(d, Shl(m, -shift))]
    else if shift > 0 then [Digits(d, ScaleUp(v, shift), false), SetBlank(d, Shr(m, shift))]
    else [Digits(d, v, false), SetBlank(d, m)]
  }

  /** The first frame after an override was set starts the flyby: that frame
      counts as frame 0, so the value is drawn 6 * (order + 1) positions to
      the right of its resting place, which for a value of up to D - 2 digits
      leaves the display dark. */
  lemma FlybyStartsOffDisplay(D: nat, d: nat, v: u32, start: byte, order: byte, t: u32)
    requires ValidDigits(D) && ToByte(t / 75 % 256) != 255 && DigitsShown(v) + 2 <= D
    ensures var f := FlybyFrame(D, d, v, 255, start, order, t);
            f.startSeed == f.lastSeed && !f.clearOverride &&
            f.writes == [Digits(d, 0, false), SetBlank(d, 0)]
  {
    var n := DigitsShown(v);
    var k: nat := 6 * (order + 1);
    assert FlybyElapsed(ToByte(t / 75 % 256), ToByte(t / 75 % 256)) == 0;
    assert FlybyShift(order, 0) + k == 0;
    DigitsShownFits(v);
    Pow10Monotone(n, k);
    DivUnique(v, Pow10(k), 0, v);
    assert ScaleDown(v, k) == 0;
    if order == 0 {
      FlybyEntryMask(D, n);
    }
    assert Shl(DisplayMask(D, n), k) == 0;
  }

  /** A full-width value on seven-digit hardware does not start off the
      display: with flyby order 0 the first frame slides it six positions
      right, so its leading digit shows in the ones position. */
  lemma FlybyFullWidthShowsLeadingDigit(d: nat, v: u32, start: byte, t: u32)
    requires ToByte(t / 75 % 256) != 255 && DigitsShown(v) == 7
    ensures 1 <= v / 1000000 <= 9
    ensures var f := FlybyFrame(7, d, v, 255, start, 0, t);
            f.startSeed == f.lastSeed && !f.clearOverride &&
            f.writes == [Digits(d, v / 1000000, false), SetBlank(d, 0xC0)]
    ensures Bit(0xC0, 6) && !Bit(0xC0, 5)
  {
    assert FlybyElapsed(ToByte(t / 75 % 256), ToByte(t / 75 % 256)) == 0;
    assert FlybyShift(0, 0) == -6;
    MagnitudeBounds(v);
    assert Pow10(6) == 1000000 && Pow10(7) == 10000000;
    assert DisplayMask(7, 7) == 0x7F;
  }

  lemma FlybyEntryMask(D: nat, n: nat)
    requires ValidDigits(D) && 1 <= n && n + 2 <= D
    ensures Shl(DisplayMask(D, n), 6) == 0
  {
    if D == 6 {
      if n == 1 {} else if n == 2 {} else if n == 3 {} else {}
    } else {
      if n == 1 {} else if n == 2 {} else if n == 3 {} else if n == 4 {} else {}
    }
  }

  /** A flyby ends by itself: the first new frame more than 34 frames after
      its start blanks the display and clears the override. */
  lemma FlybyEnds(D: nat, d: nat, v: u32, last: byte, start: byte, order: byte, t: u32)
    requires ValidDigits(D) && last != 255
    requires ToByte(t / 75 % 256) != last
    requires FlybyElapsed(ToByte(t / 75 % 256), start) > FLYBY_LAST_FRAME
    ensures FlybyFrame(D, d, v, last, start, order, t) ==
            Frame(ToByte(t / 75 % 256), start, true, [SetBlank(d, 0)])
  {
  }

  /** While it runs, the flyby shows the value at its resting place exactly at
      frame 6 * (order + 1), so displays with a higher order arrive later. */
  lemma FlybyRests(D: nat, d: nat, v: u32, last: byte, start: byte, order: byte, t: u32)
    requires ValidDigits(D) && last != 255 && order <= 4
    requires ToByte(t / 75 % 256) != last
    requires FlybyElapsed(ToByte(t / 75 % 256), start) == 6 * (order + 1)
    ensures FlybyFrame(D, d, v, last, start, order, t).writes ==
            [Digits(d, v, false), SetBlank(d, DisplayMask(D, DigitsShown(v)))]
  {
  }

  // ---------------------------------------------------------------- center

  function CenterSeed(kind: byte, t: u32): byte {
    if kind == CENTER_FLASH_FAST then ToByte(t / 75) else ToByte(t / 175)
  }

  /** `(DISPLAY_NUM_DIGITS - numDigits) / 2` computed on an int and stored in
      a byte. */
  function CenterShift(D: nat, n: nat): byte
    requires ValidDigits(D)
  {
    ToByte(TruncDiv(D - n, 2))
  }

  /** A value that fits is centred: the free positions left and right of it
      differ by at most one, with the extra one on the left. */
  lemma CenterIsCentred(D: nat, n: nat)
    requires ValidDigits(D) && n <= D
    ensures var s := CenterShift(D, n);
            s == (D - n) / 2 && s <= D - n - s <= s + 1
  {
  }

  /** A value of D + 2 digits or more has a negative slide, which the byte
      turns into 254 or 255 positions: the centred effects then write 0 with
      every position dark. */
  lemma CenterTooWideIsDark(D: nat, v: u32)
    requires ValidDigits(D) && DigitsShown(v) >= D + 2
    ensures CenterShift(D, DigitsShown(v)) >= 254
    ensures ScaleUp(v, CenterShift(D, DigitsShown(v))) == 0
    ensures Shr(DisplayMask(D, DigitsShown(v)), CenterShift(D, DigitsShown(v))) == 0
  {
    var s := CenterShift(D, DigitsShown(v));
    assert s == 254 || s == 255;
    Wrap32HighPower(v, s);
  }

  function CenterFrame(D: nat, d: nat, v: u32, kind: byte, last: byte, start: byte, t: u32): Frame
    requires ValidDigits(D)
  {
    var seed := CenterSeed(kind, t);
    if seed == last then Frame(last, start, false, [])
    else
      var n := DigitsShown(v);
      var shift := CenterShift(D, n);
      var m := Shr(DisplayMask(D, n), shift);
      var shown := if kind == CENTER || seed % 2 == 1 then m else 0;
      Frame(seed, start, false, [Digits(d, ScaleUp(v, shift), false), SetBlank(d, shown)])
  }

  // ------------------------------------------------------ symmetric bounce

  /** Displays run the symmetric bounce at different speeds. */
  function SymmetricPeriod(d: nat): (p: nat)
    ensures p >= 100
  {
    100 + (d % 2) * 38 + (d / 2) * 20
  }

  function SymmetricSteps(D: nat): (k: nat)
    requires ValidDigits(D)
    ensures k >= 4
  {
    D - 2 + D % 2
  }

  function SymmetricShift(D: nat, seed: byte): nat
    requires ValidDigits(D)
  {
    var s := seed % SymmetricSteps(D);
    if s > SymmetricSteps(D) / 2 then SymmetricSteps(D) - s else s
  }

  /** The digit and its mirror image: the value at `shift` positions from the
      right edge plus, unless that is the centre, a copy as far from the left
      edge. */
  function SymmetricValue(D: nat, v: u32, shift: nat): u32
    requires ValidDigits(D)
  {
    var v1 := ScaleUp(v, shift);
    if shift < D / 2 then Wrap32(v1 + ScaleUp(v1, D - 1 - shift * 2)) else v1
  }

  /** ... and the positions it lights. */
  function SymmetricMask(D: nat, shift: nat): bv8
    requires ValidDigits(D)
  {
    var m1 := Shr(DisplayMask(D, 1), shift);
    if shift < D / 2 then m1 | Shr(m1, D - 1 - shift * 2) else m1
  }

  /** The slide of the symmetric bounce never passes the centre. */
  lemma SymmetricShiftBound(D: nat, seed: byte)
    requires ValidDigits(D)
    ensures SymmetricShift(D, seed) <= SymmetricSteps(D) / 2 <= D / 2
    ensures SymmetricShift(D, seed) < D / 2 || D == 7
  {
  }

  /** The symmetric bounce lights the position `shift` from the left edge and
      its mirror position `shift` from the right edge, and no other. */
  lemma SymmetricMaskIsMirrored(D: nat, s: nat, b: nat)
    requires ValidDigits(D) && s <= SymmetricSteps(D) / 2 && b < 8
    ensures Bit(SymmetricMask(D, s), b) <==> b == s || b == D - 1 - s
  {
    if D == 6 {
      if s == 0 {
      } else if s == 1 {
      } else {
        assert s == 2;
      }
    } else {
      if s == 0 {
      } else if s == 1 {
      } else if s == 2 {
      } else {
      }
    }
  }

  /** ... and its value holds the digit in both of those places: at weight
      10^(D-1-shift) (position `shift`) and at weight 10^shift. */
  lemma SymmetricValueIsMirrored(D: nat, v: u32, s: nat)
    requires ValidDigits(D) && v < 10 && s <= SymmetricSteps(D) / 2
    ensures SymmetricValue(D, v, s) ==
            v * Pow10(s) + (if s < D / 2 then v * Pow10(D - 1 - s) else 0)
  {
    DigitScaled(v, s);
    if s < D / 2 {
      var k, v1 := D - 1 - 2 * s, v * Pow10(s);
      Pow10Add(s, k);
      MulAssoc(v, Pow10(s), Pow10(k));
      DigitScaled(v, D - 1 - s);
      assert ScaleUp(v1, k) == v * Pow10(D - 1 - s);
      Wrap32Small(v1 + v * Pow10(D - 1 - s));
    }
  }

  /** A digit moved to one of the seven places fits in 32 bits. */
  lemma DigitScaled(v: nat, s: nat)
    requires v < 10 && s <= 6
    ensures v * Pow10(s) < 10000000 && Wrap32(v * Pow10(s)) == v * Pow10(s)
  {
    Pow10Monotone(s, 6);
    assert Pow10(6) == 1000000;
    MulMono(v, 9, Pow10(s));
    Wrap32Small(v * Pow10(s));
  }

  function SymmetricFrame(D: nat, d: nat, v: u32, last: byte, start: byte, t: u32): Frame
    requires ValidDigits(D)
  {
    var seed := ToByte(t / SymmetricPeriod(d));
    if seed == last then Frame(last, start, false, [])
    else
      var shift := SymmetricShift(D, seed);
      Frame(seed, start, false, [Digits(d, SymmetricValue(D, v, shift), false), SetBlank(d, SymmetricMask(D, shift))])
  }

  // ------------------------------------------------------- the dispatcher

  /** An override with no (or no applicable) effect: the value as the
      override mask allows, redrawn on every call. */
  function PlainWrites(d: nat, v: u32, overrideMask: bv8): seq<Write> {
    if overrideMask == 0xFF then [DigitsMin(d, v, true, 1)]
    else [SetBlank(d, overrideMask), DigitsMin(d, v, false, 1)]
  }

  /** Which branch of ShowAnimatedValue serves an override. */
  predicate IsBounce(D: nat, v: u32, kind: byte) {
    DigitsShown(v) + 1 < D && kind == BOUNCE
  }

  predicate IsCentred(kind: byte) {
    kind == CENTER || kind == CENTER_FLASH_SLOW || kind == CENTER_FLASH_FAST
  }

  /** The override is drawn by a frame-gated effect. */
  predicate IsAnimated(D: nat, v: u32, kind: byte) {
    IsBounce(D, v, kind) || kind == FLUTTER || kind == FLYBY || IsCentred(kind) ||
    (DigitsShown(v) == 1 && kind == SYMMETRIC_BOUNCE)
  }

  /** ShowAnimatedValue (DisplayHandler.cpp:131-269). */
  function Animated(D: nat, d: nat, v: u32, kind: byte, overrideMask: bv8,
                    last: byte, start: byte, order: byte, t: u32): Frame
    requires ValidDigits(D)
  {
    if IsBounce(D, v, kind) then BounceFrame(D, d, v, last, start, t)
    else if kind == FLUTTER then FlutterFrame(D, d, v, last, start, t)
    else if kind == FLYBY then FlybyFrame(D, d, v, last, start, order, t)
    else if IsCentred(kind) then CenterFrame(D, d, v, kind, last, start, t)
    else if DigitsShown(v) == 1 && kind == SYMMETRIC_BOUNCE then SymmetricFrame(D, d, v, last, start, t)
    else Frame(last, start, false, PlainWrites(d, v, overrideMask))
  }

  /** The state a frame-gated effect leaves behind: nothing is drawn until
      the frame number changes, and every write goes to the display drawn. */
  predicate Gated(f: Frame, d: nat, last: byte) {
    AllTo(f.writes, d) && (f.writes != [] <==> f.lastSeed != last)
  }

  lemma BounceGated(D: nat, d: nat, v: u32, last: byte, start: byte, t: u32)
    requires ValidDigits(D) && DigitsShown(v) < D - 1
    ensures var f := BounceFrame(D, d, v, last, start, t);
            Gated(f, d, last) && !f.clearOverride && f.startSeed == start &&
            BounceFrame(D, d, v, f.lastSeed, f.startSeed, t).writes == []
  {
  }

  lemma FlutterGated(D: nat, d: nat, v: u32, last: byte, start: byte, t: u32)
    requires ValidDigits(D)
    ensures var f := FlutterFrame(D, d, v, last, start, t);
            Gated(f, d, last) && !f.clearOverride && f.startSeed == start &&
            FlutterFrame(D, d, v, f.lastSeed, f.startSeed, t).writes == []
  {
  }

  lemma FlybyGated(D: nat, d: nat, v: u32, last: byte, start: byte, order: byte, t: u32)
    requires ValidDigits(D)
    ensures var f := FlybyFrame(D, d, v, last, start, order, t);
            Gated(f, d, last) && (f.startSeed != start ==> last == 255) &&
            FlybyFrame(D, d, v, f.lastSeed, f.startSeed, order, t).writes == []
  {
  }

  lemma CenterGated(D: nat, d: nat, v: u32, kind: byte, last: byte, start: byte, t: u32)
    requires ValidDigits(D)
    ensures var f := CenterFrame(D, d, v, kind, last, start, t);
            Gated(f, d, last) && !f.clearOverride && f.startSeed == start &&
            CenterFrame(D, d, v, kind, f.lastSeed, f.startSeed, t).writes == []
  {
  }

  lemma SymmetricGated(D: nat, d: nat, v: u32, last: byte, start: byte, t: u32)
    requires ValidDigits(D)
    ensures var f := SymmetricFrame(D, d, v, last, start, t);
            Gated(f, d, last) && !f.clearOverride && f.startSeed == start &&
            SymmetricFrame(D, d, v, f.lastSeed, f.startSeed, t).writes == []
  {
  }

  /** Every write goes to the display being drawn; only a flyby ends its
      override or moves its start frame; a frame-gated effect draws at most
      once per frame number, so a second call at the same time draws nothing;
      an override without an applicable effect is redrawn on every call. */
  lemma AnimatedFacts(D: nat, d: nat, v: u32, kind: byte, overrideMask: bv8,
                      last: byte, start: byte, order: byte, t: u32)
    requires ValidDigits(D)
    ensures var f := Animated(D, d, v, kind, overrideMask, last, start, order, t);
            AllTo(f.writes, d) &&
            (f.clearOverride ==> kind == FLYBY) &&
            (f.startSeed != start ==> kind == FLYBY && last == 255) &&
            (IsAnimated(D, v, kind) ==>
               Gated(f, d, last) &&
               Animated(D, d, v, kind, overrideMask, f.lastSeed, f.startSeed, order, t).writes == []) &&
            (!IsAnimated(D, v, kind) ==> f.lastSeed == last && f.writes != [])
  {
    if IsBounce(D, v, kind) {
      BounceGated(D, d, v, last, start, t);
    } else if kind == FLUTTER {
      FlutterGated(D, d, v, last, start, t);
    } else if kind == FLYBY {
      FlybyGated(D, d, v, last, start, order, t);
    } else if IsCentred(kind) {
      CenterGated(D, d, v, kind, last, start, t);
    } else if DigitsShown(v) == 1 && kind == SYMMETRIC_BOUNCE {
      SymmetricGated(D, d, v, last, start, t);
    }
  }
}
