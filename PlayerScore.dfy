/** ShowPlayerScore (DisplayHandler.cpp:273-387) as a pure frame function of
    one display: the plain score with its blinking achievement digit, the
    scroll of a score too wide for the display, and the flash and dash
    effects that mark the current player. */
module PlayerScore {
  import opened Machine
  import opened DigitMasks
  import opened Primitives

  const DASH_NONE: byte := 0
  const DASH_ROLLING_BLANK: byte := 1
  const DASH_INTERMITTENT_FLASH: byte := 2

  /** What one call changes: the display's last scroll phase, the shared
      flash/dash frame number, and the writes. */
  datatype ScoreFrame = ScoreFrame(lastScrollPhase: byte, lastFlashOrDash: u32, writes: seq<Write>)

  /** RPU_OS_MAX_DISPLAY_SCORE: the largest value with D digits. */
  function MaxDisplayScore(D: nat): nat
    requires ValidDigits(D)
  {
    Pow10(D) - 1
  }

  /** The score is drawn with the current achievement's last digit added. */
  function ShownScore(score: u32, achievement: byte): u32 {
    Wrap32(score + achievement % 10)
  }

  /** 125 ms scroll steps since the score last changed, in a cycle of 16. */
  function ScrollPhase(t: u32, lastChange: u32): byte {
    Wrap32(t - lastChange) / 125 % 16
  }

  /** While an achievement is pending, the ones digit (bit D-1) is dark in
      every odd 200 ms slot. */
  function AchievementBlink(D: nat, mask: bv8, achievement: byte, t: u32): bv8
    requires ValidDigits(D)
  {
    if achievement != 0 && t / 200 % 2 == 1 then mask & !Shl(1, D - 1) else mask
  }

  /** The blink darkens the ones digit and never touches another position. */
  lemma BlinkOnlyTouchesOnesDigit(D: nat, mask: bv8, achievement: byte, t: u32, b: nat)
    requires ValidDigits(D) && b < 8
    ensures Bit(AchievementBlink(D, mask, achievement, t), b) <==>
            Bit(mask, b) && !(b == D - 1 && achievement != 0 && t / 200 % 2 == 1)
  {
  }

  // ---------------------------------------------------------------- scroll

  /** The upper part of a scrolled score: k times, the digits above the
      display are dropped and the rest moved one position left. */
  function ScrollTop(D: nat, v: u32, k: nat): (r: u32)
    requires ValidDigits(D)
    ensures k > 0 ==> r < Pow10(D + 1) && r % 10 == 0
  {
    if k == 0 then v
    else
      var x := ScrollTop(D, v, k - 1) % Pow10(D);
      Pow10Monotone(D, 7);
      assert Pow10(7) == 10000000;
      Wrap32Small(x * 10);
      x * 10
  }

  /** After k steps, the k lowest digits of the upper part are zero: they
      are left free for the lower part. */
  lemma {:induction false} ScrollTopLowDigitsFree(D: nat, v: u32, k: nat)
    requires ValidDigits(D) && k <= D
    ensures ScrollTop(D, v, k) % Pow10(k) == 0
  {
    if k > 0 {
      ScrollTopLowDigitsFree(D, v, k - 1);
      Pow10Add(D - (k - 1), k - 1);
      ScrollStep(ScrollTop(D, v, k - 1), Pow10(k - 1), Pow10(D - (k - 1)));
    }
  }

  /** One scroll step keeps a factor 10^(k-1) and gains a factor 10. */
  lemma ScrollStep(y: nat, p: nat, e: nat)
    requires p >= 1 && e >= 1 && y % p == 0
    ensures ((y % (e * p)) * 10) % (p * 10) == 0
  {
    var a := y / p;
    assert y == a * p;
    ModKeepsFactor(a, p, e);
    assert (a % e) * p * 10 == (a % e) * (p * 10) by {
      MulAssoc(a % e, p, 10);
    }
    ModMultiple(a % e, p * 10);
  }

  /** The lower part of a scrolled score: its top digits that scroll in
      behind the upper part. */
  function ScrollLow(v: u32, phase: nat): u32
    requires phase <= 10
  {
    ScaleDown(v, 10 - phase)
  }

  /** The lower part brings in exactly the digits still missing: as many as
      the phase reaches past the score's ten-digit window. */
  lemma ScrollLowWidth(v: u32, phase: nat)
    requires phase <= 10 && Magnitude(v) + phase > 10
    ensures Magnitude(ScrollLow(v, phase)) == Magnitude(v) + phase - 10
    ensures ScrollLow(v, phase) < Pow10(phase)
  {
    MagnitudeOfU32(v);
    MagnitudeOfDiv(v, 10 - phase);
    MagnitudeBounds(ScrollLow(v, phase));
    Pow10Monotone(Magnitude(v) + phase - 10, phase);
  }

  /** The value and mask of a scroll step at `phase`: the upper part slid
      `phase` positions left and, once the phase reaches past the ten-digit
      window, the lower part in the freed positions. */
  function ScrollImage(D: nat, v: u32, phase: nat): (u32, bv8)
    requires ValidDigits(D) && phase <= 10
  {
    var n := Magnitude(v);
    var top := if phase < D then ScrollTop(D, v, phase) else 0;
    var topMask := if phase < D then Shr(AllDigitsMask(D), phase) else 0;
    if n + phase > 10 then
      var low := ScrollLow(v, phase);
      (Wrap32(top + low), topMask | DisplayMask(D, Magnitude(low)))
    else (top, topMask)
  }

  /** The scroll branch's loops (DisplayHandler.cpp:303-327): the upper part
      by `phase` passes of keep-D-digits-and-multiply-by-ten, the lower part
      by dividing a copy by ten until only its missing digits are left. */
  method ScrollFrame(D: nat, shown: u32, phase: byte) returns (value: u32, mask: bv8)
    requires ValidDigits(D) && phase < 11
    ensures (value, mask) == ScrollImage(D, shown, phase)
  {
    var numDigits := MagnitudeOfScore(shown);
    var temp := shown;
    value, mask := ScrollUpper(D, shown, phase);
    if numDigits + phase > 10 {
      var needed := numDigits + phase - 10;
      var c := 0;
      while c < numDigits - needed
        invariant c <= numDigits - needed
        invariant temp == ScaleDown(shown, c)
      {
        DivPow10Step(shown, c);
        temp := temp / 10;
        c := c + 1;
      }
      assert temp == ScrollLow(shown, phase);
      var tempDigits := MagnitudeOfScore(temp);
      var lowMask := GetDisplayMask(D, tempDigits);
      mask := mask | lowMask;
      value := Wrap32(value + temp);
      assert ScrollImage(D, shown, phase) == (value, mask) by {
        ScrollImageLate(D, shown, phase);
      }
    } else {
      assert ScrollImage(D, shown, phase) == (value, mask) by {
        ScrollImageEarly(D, shown, phase);
      }
    }
  }

  lemma ScrollImageLate(D: nat, v: u32, phase: nat)
    requires ValidDigits(D) && phase <= 10 && Magnitude(v) + phase > 10
    ensures ScrollImage(D, v, phase).0 ==
            Wrap32((if phase < D then ScrollTop(D, v, phase) else 0) + ScrollLow(v, phase))
    ensures ScrollImage(D, v, phase).1 ==
            (if phase < D then Shr(AllDigitsMask(D), phase) else 0) | DisplayMask(D, Magnitude(ScrollLow(v, phase)))
  {
  }

  lemma ScrollImageEarly(D: nat, v: u32, phase: nat)
    requires ValidDigits(D) && phase <= 10 && Magnitude(v) + phase <= 10
    ensures ScrollImage(D, v, phase) ==
            (if phase < D then ScrollTop(D, v, phase) else 0,
             if phase < D then Shr(AllDigitsMask(D), phase) else 0)
  {
  }

  /** The upper part: the score with its digits above the display dropped
      and moved left, `phase` times; nothing from phase D on. */
  method ScrollUpper(D: nat, shown: u32, phase: byte) returns (value: u32, mask: bv8)
    requires ValidDigits(D)
    ensures value == (if phase < D then ScrollTop(D, shown, phase) else 0)
    ensures mask == (if phase < D then Shr(AllDigitsMask(D), phase) else 0)
  {
    value := shown;
    if phase < D {
      var all := AllDigitsMask(D);
      mask := all;
      var c := 0;
      while c < phase
        invariant c <= phase
        invariant value == ScrollTop(D, shown, c) && mask == Shr(all, c)
      {
        ScrollTopFits(D, shown, c);
        ShrOnce(all, c);
        value := Wrap32((value % Pow10(D)) * 10);
        mask := mask >> 1;
        c := c + 1;
      }
    } else {
      value, mask := 0, 0;
    }
  }

  lemma ShrOnce(m: bv8, c: nat)
    ensures Shr(m, c) >> 1 == Shr(m, c + 1)
  {
    if c == 0 {} else if c == 1 {} else if c == 2 {} else if c == 3 {}
    else if c == 4 {} else if c == 5 {} else if c == 6 {} else {}
  }

  /** A scroll pass never overflows the `unsigned long`. */
  lemma ScrollTopFits(D: nat, v: u32, k: nat)
    requires ValidDigits(D)
    ensures Wrap32((ScrollTop(D, v, k) % Pow10(D)) * 10) == ScrollTop(D, v, k + 1)
  {
    Wrap32Small(ScrollTop(D, v, k + 1));
  }

  /** The two parts of a scroll step never overlap: the lower part fits in
      the `phase` low digits the upper part leaves free ... */
  lemma ScrollValuesDisjoint(D: nat, v: u32, phase: nat)
    requires ValidDigits(D) && phase < D && Magnitude(v) + phase > 10
    ensures var top := ScrollTop(D, v, phase);
            var low := ScrollLow(v, phase);
            Wrap32(top + low) == top + low && (top + low) % Pow10(phase) == low
  {
    var top, low := ScrollTop(D, v, phase), ScrollLow(v, phase);
    MagnitudeOfU32(v);
    ScrollTopLowDigitsFree(D, v, phase);
    ScrollLowWidth(v, phase);
    ScrollPowersSmall(D, phase);
    assert phase > 0;
    assert top < 100000000 && low < 10000000;
    SmallSumIntoFreeDigits(top, low, Pow10(phase));
  }

  lemma SmallSumIntoFreeDigits(top: nat, low: nat, p: nat)
    requires p >= 1 && top % p == 0 && low < p && top < 100000000 && low < 10000000
    ensures Wrap32(top + low) == top + low && (top + low) % p == low
  {
    AddIntoFreeDigits(top, low, p);
    Wrap32Small(top + low);
  }

  /** The powers of ten a scroll step works with fit an `unsigned long`. */
  lemma ScrollPowersSmall(D: nat, phase: nat)
    requires ValidDigits(D) && phase < D
    ensures Pow10(D + 1) <= 100000000 && Pow10(phase) <= 10000000
  {
    Pow10Monotone(D + 1, 8);
    assert Pow10(8) == 100000000;
    Pow10Monotone(phase, 7);
    assert Pow10(7) == 10000000;
  }

  lemma AddIntoFreeDigits(top: nat, low: nat, p: nat)
    requires p >= 1 && top % p == 0 && low < p
    ensures (top + low) % p == low
  {
    var c := top / p;
    assert top == c * p;
    ModUnique(top + low, p, c, low);
  }

  /** ... and the positions the lower part's mask lights are dark in the
      upper part's mask. */
  lemma ScrollMasksDisjoint(D: nat, v: u32, phase: nat, b: nat)
    requires ValidDigits(D) && phase < D && Magnitude(v) + phase > 10 && b < 8
    ensures !(Bit(Shr(AllDigitsMask(D), phase), b) &&
              Bit(DisplayMask(D, Magnitude(ScrollLow(v, phase))), b))
  {
    ScrollLowWidth(v, phase);
    MagnitudeOfU32(v);
    ShrBit(AllDigitsMask(D), phase, b);
    if b + phase < 8 {
      DisplayMaskBits(D, D, b + phase);
    }
    DisplayMaskBits(D, Magnitude(ScrollLow(v, phase)), b);
  }

  /** From phase D on, the upper part has scrolled off: only the lower part
      is drawn. */
  lemma ScrollLateShowsOnlyLowPart(D: nat, v: u32, phase: nat)
    requires ValidDigits(D) && D <= phase <= 10
    ensures ScrollImage(D, v, phase) ==
            if Magnitude(v) + phase > 10
            then (ScrollLow(v, phase), DisplayMask(D, Magnitude(ScrollLow(v, phase))))
            else (0, 0)
  {
    var low := ScrollLow(v, phase);
    Wrap32Small(low);
    assert (0 as bv8) | DisplayMask(D, Magnitude(low)) == DisplayMask(D, Magnitude(low));
  }

  // ------------------------------------------------------ flash and dash

  /** The rolling dash: over 2D phases a blank sweeps in from the left edge
      until the display is dark, then the value returns from the left edge.
      `m` is the value's mask; positions at or above D are never lit. */
  function DashMask(D: nat, m: bv8, phase: nat): bv8
    requires ValidDigits(D) && phase < 2 * D
  {
    if phase < D + 1 then m & !LowOnes(phase)
    else m & !(LowOnes(D) & !LowOnes(phase - D))
  }

  /** The dash only ever darkens positions: in the first D+1 phases it
      darkens the `phase` leftmost positions ... */
  lemma DashSweepsIn(D: nat, m: bv8, phase: nat, b: nat)
    requires ValidDigits(D) && phase <= D && b < 8
    ensures Bit(DashMask(D, m, phase), b) <==> Bit(m, b) && b >= phase
  {
    SweepInBits(m, phase, b);
  }

  /** ... and afterwards all but the phase-D leftmost, for a mask that
      lights no position at or above D. */
  lemma DashSweepsOut(D: nat, m: bv8, phase: nat, b: nat)
    requires ValidDigits(D) && D < phase < 2 * D && b < 8 && (Bit(m, b) ==> b < D)
    ensures Bit(DashMask(D, m, phase), b) <==> Bit(m, b) && b < phase - D
  {
    SweepOutBits(D, m, phase - D, b);
  }

  lemma SweepInBits(m: bv8, k: nat, b: nat)
    requires k <= 7 && b < 8
    ensures Bit(m & !LowOnes(k), b) <==> Bit(m, b) && b >= k
  {
    LowOnesBit(k, b);
    AndNotBit(m, LowOnes(k), b);
  }

  lemma SweepOutBits(D: nat, m: bv8, k: nat, b: nat)
    requires ValidDigits(D) && k < D && b < 8
    ensures Bit(m & !(LowOnes(D) & !LowOnes(k)), b) <==> Bit(m, b) && (b < k || b >= D)
  {
    SweptBits(D, k, b);
    AndNotBit(m, LowOnes(D) & !LowOnes(k), b);
  }

  lemma SweptBits(D: nat, k: nat, b: nat)
    requires ValidDigits(D) && k < D && b < 8
    ensures Bit(LowOnes(D) & !LowOnes(k), b) <==> k <= b < D
  {
    LowOnesBit(D, b);
    LowOnesBit(k, b);
    AndNotBit(LowOnes(D), LowOnes(k), b);
  }

  /** At phase D the rolling dash has darkened the whole display. */
  lemma DashGoesDark(D: nat, n: nat)
    requires ValidDigits(D)
    ensures DashMask(D, DisplayMask(D, n), D) == 0
  {
    if D == 6 {
      if n == 0 {} else if n == 1 {} else if n == 2 {} else if n == 3 {} else if n == 4 {} else if n == 5 {} else {}
    } else {
      if n == 0 {} else if n == 1 {} else if n == 2 {} else if n == 3 {} else if n == 4 {} else if n == 5 {} else if n == 6 {} else {}
    }
  }

  /** The rolling dash's mask loops (DisplayHandler.cpp:347-359): while the
      blank sweeps in, one left position per pass is darkened; once it sweeps
      out, the passes from 2D down to phase+1 darken the positions from
      phase-D up to the ones digit. */
  method RollingDashMask(D: nat, m: bv8, phase: nat) returns (r: bv8)
    requires ValidDigits(D) && phase < 2 * D
    ensures r == DashMask(D, m, phase)
  {
    if phase < D + 1 {
      r := SweepIn(m, phase);
    } else {
      r := SweepOut(D, m, phase);
    }
  }

  method SweepIn(m: bv8, phase: nat) returns (r: bv8)
    requires phase < 8
    ensures r == m & !LowOnes(phase)
  {
    r := m;
    var c := 0;
    while c < phase
      invariant c <= phase
      invariant r == m & !LowBand(c)
    {
      var c' := c + 1;
      SweepInPass(m, r, c, c');
      r := r & !Shl(1, c);
      c := c';
    }
    LowBandIsLowOnes(phase);
  }

  /** One pass of the first dash loop widens the cleared band by bit c. */
  lemma SweepInPass(m: bv8, r: bv8, c: nat, c': nat)
    requires c' == c + 1 && r == m & !LowBand(c)
    ensures r & !Shl(1, c) == m & !LowBand(c')
  {
    var band, bit := LowBand(c), Shl(1, c);
    assert LowBand(c + 1) == band | bit;
    SweepPass(m, r, band, bit);
  }

  method SweepOut(D: nat, m: bv8, phase: nat) returns (r: bv8)
    requires ValidDigits(D) && D < phase < 2 * D
    ensures r == m & !(LowOnes(D) & !LowOnes(phase - D))
  {
    r := m;
    var c := 2 * D;
    ghost var lo := phase - D;
    ghost var h := lo;
    while c > phase
      invariant phase <= c <= 2 * D && h == D + phase - c
      invariant r == m & !TopBand(D, lo, h)
    {
      var k := c - phase - 1;
      ghost var h' := h + 1;
      SweepOutPass(D, m, r, lo, h, k, h');
      r := r & !Shr(TopBit(D), k);
      c, h := c - 1, h';
    }
    TopBandIsLowOnes(D, phase - D);
  }

  /** The bits the first dash loop has cleared after c passes. */
  function LowBand(c: nat): bv8
  {
    if c == 0 then 0 else LowBand(c - 1) | Shl(1, c - 1)
  }

  /** The bits the second dash loop has cleared: positions lo..h-1, each
      reached from the top bit. */
  function TopBand(D: nat, lo: nat, h: nat): bv8
    requires ValidDigits(D) && h <= D
  {
    if h <= lo then 0 else TopBand(D, lo, h - 1) | Shr(TopBit(D), D - h)
  }

  lemma LowBandIsLowOnes(c: nat)
    requires c < 8
    ensures LowBand(c) == LowOnes(c)
  {
    if c == 0 {} else if c == 1 {} else if c == 2 {} else if c == 3 {}
    else if c == 4 {} else if c == 5 {} else if c == 6 {} else {}
  }

  lemma TopBandIsLowOnes(D: nat, lo: nat)
    requires ValidDigits(D) && 0 < lo < D
    ensures TopBand(D, lo, D) == LowOnes(D) & !LowOnes(lo)
  {
    if D == 6 {
      if lo == 1 {} else if lo == 2 {} else if lo == 3 {} else if lo == 4 {} else {}
    } else {
      if lo == 1 {} else if lo == 2 {} else if lo == 3 {} else if lo == 4 {} else if lo == 5 {} else {}
    }
  }

  /** A pass of the second dash loop darkens one more position. */
  lemma SweepOutPass(D: nat, m: bv8, r: bv8, lo: nat, h: nat, k: nat, h': nat)
    requires ValidDigits(D) && lo <= h < D && k == D - h - 1 && h' == h + 1 && r == m & !TopBand(D, lo, h)
    ensures r & !Shr(TopBit(D), k) == m & !TopBand(D, lo, h')
  {
    var band, bit := TopBand(D, lo, h), Shr(TopBit(D), k);
    assert TopBand(D, lo, h + 1) == band | bit;
    SweepPass(m, r, band, bit);
  }

  /** A pass that darkens one more position. */
  lemma SweepPass(m: bv8, r: bv8, band: bv8, b: bv8)
    requires r == m & !band
    ensures r & !b == m & !(band | b)
  {
  }

  function FlashFrame(d: nat, shown: u32, t: u32, lastScroll: byte, lastFlashOrDash: u32): ScoreFrame {
    var seed := t / 250;
    if seed == lastFlashOrDash then ScoreFrame(lastScroll, lastFlashOrDash, [])
    else if t / 250 % 2 == 0 then ScoreFrame(lastScroll, seed, [SetBlank(d, 0)])
    else ScoreFrame(lastScroll, seed, [DigitsFull(d, shown, true, 2, true)])
  }

  function RollingDashFrame(D: nat, d: nat, shown: u32, t: u32, lastScroll: byte, lastFlashOrDash: u32): ScoreFrame
    requires ValidDigits(D)
  {
    var seed := t / 50;
    if seed == lastFlashOrDash then ScoreFrame(lastScroll, lastFlashOrDash, [])
    else
      var phase := t / 60 % (2 * D * 3);
      if phase < 2 * D then
        var n := Magnitude(shown);
        var m := DisplayMask(D, if n == 0 then 2 else n);
        ScoreFrame(lastScroll, seed, [DigitsDefault(d, shown), SetBlank(d, DashMask(D, m, phase))])
      else ScoreFrame(lastScroll, seed, [DigitsFull(d, shown, true, 2, true)])
  }

  function IntermittentDashFrame(d: nat, shown: u32, t: u32, lastScroll: byte, lastFlashOrDash: u32): ScoreFrame {
    var seed := t / 250 % 4;
    if seed == lastFlashOrDash then ScoreFrame(lastScroll, lastFlashOrDash, [])
    else if seed != 0 then ScoreFrame(lastScroll, seed, [DigitsFull(d, shown, true, 2, true)])
    else ScoreFrame(lastScroll, seed, [SetBlank(d, 0)])
  }

  // ------------------------------------------------------- the whole call

  /** A score too wide for the display (DisplayHandler.cpp:291-331): for two
      seconds after a change its D lowest digits, then one scroll step per
      new phase, up to phase 10. */
  function WideFrame(D: nat, d: nat, shown: u32, achievement: byte, t: u32, lastChange: u32,
                     lastScroll: byte, lastFlashOrDash: u32): ScoreFrame
    requires ValidDigits(D)
  {
    var phase := ScrollPhase(t, lastChange);
    if Wrap32(t - lastChange) < 2000 then
      var blank := AchievementBlink(D, AllDigitsMask(D), achievement, t);
      ScoreFrame(phase, lastFlashOrDash, [Digits(d, shown % Pow10(D), false), SetBlank(d, blank)])
    else if phase < 11 && phase != lastScroll then
      var (value, mask) := ScrollImage(D, shown, phase);
      ScoreFrame(phase, lastFlashOrDash, [SetBlank(d, mask), DigitsDefault(d, value)])
    else ScoreFrame(phase, lastFlashOrDash, [])
  }

  /** A score that fits, without flash or dash (DisplayHandler.cpp:378-383):
      drawn with the library's blank mask, the achievement blink on top. */
  function PlainFrame(D: nat, d: nat, shown: u32, achievement: byte, t: u32, phase: byte,
                      lastFlashOrDash: u32, lib: u32 -> bv8): ScoreFrame
    requires ValidDigits(D)
  {
    ScoreFrame(phase, lastFlashOrDash,
               [DigitsFull(d, shown, false, 2, true), SetBlank(d, AchievementBlink(D, lib(shown), achievement, t))])
  }

  /** ShowPlayerScore (DisplayHandler.cpp:273-387). `lib` is the blank mask
      RPU_SetDisplay returns for a value. */
  function Show(D: nat, d: nat, score: u32, achievement: byte, flash: bool, dash: byte,
                t: u32, lastChange: u32, lastScroll: byte, lastFlashOrDash: u32,
                lib: u32 -> bv8): ScoreFrame
    requires ValidDigits(D)
  {
    var phase := ScrollPhase(t, lastChange);
    var shown := ShownScore(score, achievement);
    if shown > MaxDisplayScore(D) then WideFrame(D, d, shown, achievement, t, lastChange, lastScroll, lastFlashOrDash)
    else if flash then FlashFrame(d, shown, t, phase, lastFlashOrDash)
    else if dash == DASH_ROLLING_BLANK then RollingDashFrame(D, d, shown, t, phase, lastFlashOrDash)
    else if dash == DASH_INTERMITTENT_FLASH then IntermittentDashFrame(d, shown, t, phase, lastFlashOrDash)
    else if dash != DASH_NONE then ScoreFrame(phase, lastFlashOrDash, [])
    else PlainFrame(D, d, shown, achievement, t, phase, lastFlashOrDash, lib)
  }

  /** A score that fits is drawn in full, right-justified with at least two
      digits, under the library's own blank mask; only a pending
      achievement's blink can darken its ones digit. */
  lemma ShowPlainScore(D: nat, d: nat, score: u32, achievement: byte, t: u32, lastChange: u32,
                       lastScroll: byte, lastFlashOrDash: u32, lib: u32 -> bv8)
    requires ValidDigits(D) && ShownScore(score, achievement) <= MaxDisplayScore(D)
    ensures var f := Show(D, d, score, achievement, false, DASH_NONE, t, lastChange, lastScroll, lastFlashOrDash, lib);
            |f.writes| == 2 &&
            f.writes[0] == DigitsFull(d, ShownScore(score, achievement), false, 2, true) &&
            f.writes[1].SetBlank? &&
            (achievement == 0 ==> f.writes[1].mask == lib(ShownScore(score, achievement)))
  {
  }

  /** Within two seconds of a score change, a score too wide for the display
      shows its D lowest digits. */
  lemma ShowRecentWideScore(D: nat, d: nat, score: u32, achievement: byte, flash: bool, dash: byte,
                            t: u32, lastChange: u32, lastScroll: byte, lastFlashOrDash: u32,
                            lib: u32 -> bv8)
    requires ValidDigits(D) && ShownScore(score, achievement) > MaxDisplayScore(D)
    requires Wrap32(t - lastChange) < 2000
    ensures var f := Show(D, d, score, achievement, flash, dash, t, lastChange, lastScroll, lastFlashOrDash, lib);
            |f.writes| == 2 && f.writes[0].SetDigits? &&
            f.writes[0].value < Pow10(D) &&
            f.writes[0].value == ShownScore(score, achievement) % Pow10(D)
  {
  }

  /** The scroll advances once per phase: a call at a phase already drawn
      writes nothing, and no phase past 10 is ever drawn. */
  lemma ScrollIsGated(D: nat, d: nat, score: u32, achievement: byte, flash: bool, dash: byte,
                      t: u32, lastChange: u32, lastScroll: byte, lastFlashOrDash: u32,
                      lib: u32 -> bv8)
    requires ValidDigits(D) && ShownScore(score, achievement) > MaxDisplayScore(D)
    requires Wrap32(t - lastChange) >= 2000
    ensures var f := Show(D, d, score, achievement, flash, dash, t, lastChange, lastScroll, lastFlashOrDash, lib);
            f.lastScrollPhase == ScrollPhase(t, lastChange) &&
            (f.writes != [] <==> ScrollPhase(t, lastChange) < 11 && ScrollPhase(t, lastChange) != lastScroll) &&
            Show(D, d, score, achievement, flash, dash, t, lastChange, f.lastScrollPhase, f.lastFlashOrDash, lib).writes == []
  {
  }

  /** Flash and dash redraw once per frame number: a second call with the
      same time writes nothing. The flash alternates blank and score. */
  lemma FlashAndDashAreGated(D: nat, d: nat, score: u32, achievement: byte, flash: bool, dash: byte,
                             t: u32, lastChange: u32, lastScroll: byte, lastFlashOrDash: u32,
                             lib: u32 -> bv8)
    requires ValidDigits(D) && ShownScore(score, achievement) <= MaxDisplayScore(D)
    requires flash || dash != DASH_NONE
    ensures var f := Show(D, d, score, achievement, flash, dash, t, lastChange, lastScroll, lastFlashOrDash, lib);
            Show(D, d, score, achievement, flash, dash, t, lastChange, f.lastScrollPhase, f.lastFlashOrDash, lib).writes == [] &&
            (flash && f.writes != [] ==>
               f.writes == if t / 250 % 2 == 0 then [SetBlank(d, 0)]
                           else [DigitsFull(d, ShownScore(score, achievement), true, 2, true)])
  {
  }

  /** Every write goes to the display being drawn. */
  lemma ShowTargetsDisplay(D: nat, d: nat, score: u32, achievement: byte, flash: bool, dash: byte,
                           t: u32, lastChange: u32, lastScroll: byte, lastFlashOrDash: u32,
                           lib: u32 -> bv8)
    requires ValidDigits(D)
    ensures AllTo(Show(D, d, score, achievement, flash, dash, t, lastChange, lastScroll, lastFlashOrDash, lib).writes, d)
  {
  }
}
