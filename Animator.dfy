/** The display handler's tracking state, and the score-increment animator:
    Display_StartScoreAnimation (DisplayHandler.cpp:391-431) and the
    arithmetic of the jackpot branch of Display_UpdateDisplays
    (DisplayHandler.cpp:780-848), which moves a pending amount into a
    player's score at once, rolling, or in major ticks. */
module Animator {
  import opened Machine
  import opened DigitMasks

  const JACKPOT_OFF: byte := 0
  const JACKPOT_ROLLING: byte := 1
  const JACKPOT_MAJOR_TICKS: byte := 2

  /** The display handler's globals (DisplayHandler.cpp:33-51, 436), one per
      field; the per-display ones as sequences of four. */
  datatype Engine = Engine(
    pending: u32,           // ScoreAdditionAnimation
    animStart: u32,         // ScoreAdditionAnimationStartTime; 0 when idle
    lastRemaining: u32,     // LastRemainingAnimatedScoreShown
    tick: u32,              // PlayScoreAnimationTick
    jackpotKind: byte,      // JackpotScoreAnimationType
    tickLevel: byte,        // PlayTickLevel
    lastPhase: byte,        // ScoreAdditionLastPhase
    lastChange: u32,        // LastTimeScoreChanged
    lastFlashOrDash: u32,   // LastFlashOrDash
    overrideValue: seq<u32>,
    lastSeed: seq<byte>,    // LastAnimationSeed
    startSeed: seq<byte>,   // AnimationStartSeed
    overrideStatus: bv8,    // ScoreOverrideStatus, one bit per display
    animation: seq<byte>,   // ScoreAnimation
    order: seq<byte>,       // AnimationDisplayOrder
    overrideMask: seq<bv8>, // OverrideMask
    lastScroll: seq<byte>,  // LastScrollPhase
    lastOther: byte)        // LastOtherScoresPhaseShown
  {
    predicate Valid() {
      |overrideValue| == 4 && |lastSeed| == 4 && |startSeed| == 4 && |animation| == 4 &&
      |order| == 4 && |overrideMask| == 4 && |lastScroll| == 4
    }
  }

  /** The globals as the firmware starts (DisplayHandler.cpp:33-51, 436):
      nothing pending, no override, every override mask showing all digits,
      the flyby order 0 to 3, and the carousel's frame number at 255. The
      globals without an initialiser start at 0. */
  function Initial(): (e: Engine)
    ensures e.Valid() && e.pending == 0 && e.animStart == 0 && e.overrideStatus == 0
    ensures e.order == [0, 1, 2, 3] && e.overrideMask == [0xFF, 0xFF, 0xFF, 0xFF]
  {
    Engine(0, 0, 0, 2500, JACKPOT_OFF, 0, 0, 0, 0, [0, 0, 0, 0], [0, 0, 0, 0], [0, 0, 0, 0], 0,
           [0, 0, 0, 0], [0, 1, 2, 3], [0xFF, 0xFF, 0xFF, 0xFF], [0, 0, 0, 0], 0xFF)
  }

  /** The tick size and tick level for an animated amount. */
  function TickFor(amount: u32, playTick: bool, kind: byte): (u32, byte) {
    if playTick then
      if amount <= 10000 then (1000, 1)
      else if amount <= 25000 then (5000, 2)
      else if amount <= 50000 then (10000, 3)
      else if amount <= 100000 then (10000, 4)
      else if amount <= 250000 then (25000, 5)
      else (amount / 9, 6)
    else if kind == JACKPOT_MAJOR_TICKS then (amount / 9, 0)
    else (1, 0)
  }

  /** With ticks, larger amounts never get smaller ticks or a lower level;
      the level is 1 to 6 and the tick positive, and any amount takes at most
      ten ticks. */
  lemma TickTable(a1: u32, a2: u32, kind: byte)
    requires a1 <= a2
    ensures TickFor(a1, true, kind).0 <= TickFor(a2, true, kind).0
    ensures TickFor(a1, true, kind).1 <= TickFor(a2, true, kind).1
    ensures 1 <= TickFor(a1, true, kind).1 <= 6 && TickFor(a1, true, kind).0 > 0
    ensures a1 <= 10 * TickFor(a1, true, kind).0
  {
  }

  /** Without ticks, major ticks of an amount below 9 have size 0. */
  lemma NoTickSmallAmount(amount: u32)
    requires amount < 9
    ensures TickFor(amount, false, JACKPOT_MAJOR_TICKS) == (0, 0)
  {
  }

  /** Display_StartScoreAnimation: commits what is still pending into the
      current player's score, then starts animating `amount`. */
  function Start(e: Engine, scores: seq<u32>, cp: nat, t: u32, amount: u32, playTick: bool, kind: byte): (Engine, seq<u32>)
    requires cp < |scores|
  {
    var scores' := if e.pending != 0 then scores[cp := Wrap32(scores[cp] + e.pending)] else scores;
    var (tick, level) := TickFor(amount, playTick, kind);
    (e.(pending := amount, animStart := t, lastRemaining := 0, lastPhase := 0xFF,
        jackpotKind := kind, tick := tick, tickLevel := level),
     scores')
  }

  /** Nothing is lost: the current player's score plus the pending amount
      grows by exactly the new amount, and every other score is unchanged. */
  lemma StartConserves(e: Engine, scores: seq<u32>, cp: nat, t: u32, amount: u32, playTick: bool, kind: byte)
    requires cp < |scores|
    ensures var (e', scores') := Start(e, scores, cp, t, amount, playTick, kind);
            |scores'| == |scores| &&
            Wrap32(scores'[cp] + e'.pending) == Wrap32(scores[cp] + e.pending + amount) &&
            (forall i :: 0 <= i < |scores| && i != cp ==> scores'[i] == scores[i]) &&
            e'.pending == amount && e'.lastPhase == 0xFF && e'.lastRemaining == 0
  {
    var (e', scores') := Start(e, scores, cp, t, amount, playTick, kind);
    if e.pending != 0 {
      WrapAdd(scores[cp] + e.pending, amount);
    }
  }

  lemma WrapAdd(x: nat, y: nat)
    ensures Wrap32(Wrap32(x) + y) == Wrap32(x + y)
  {
    ModShift(Wrap32(x) + y, x / TwoTo32);
  }

  // ---------------------------------------------------------- major ticks

  /** One major tick: `tick` moves from pending to the score while more than
      a tick is pending; otherwise the rest is committed. */
  function TickStep(score: u32, pending: u32, tick: u32): (u32, u32) {
    if pending > tick then (Wrap32(score + tick), pending - tick)
    else (Wrap32(score + pending), 0)
  }

  function TickSteps(score: u32, pending: u32, tick: u32, k: nat): (u32, u32)
    decreases k
  {
    if k == 0 then (score, pending)
    else
      var (s, p) := TickStep(score, pending, tick);
      TickSteps(s, p, tick, k - 1)
  }

  /** Every tick keeps score + pending. */
  lemma TickStepConserves(score: u32, pending: u32, tick: u32)
    ensures var (s, p) := TickStep(score, pending, tick);
            Wrap32(s + p) == Wrap32(score + pending) && p <= pending
  {
    if pending > tick {
      WrapAdd(score + tick, pending - tick);
    } else {
      WrapAdd(score + pending, 0);
    }
  }

  /** With a positive tick, ceil(pending / tick) ticks commit the whole
      amount. */
  lemma {:induction false} TicksFinish(score: u32, pending: u32, tick: u32, k: nat)
    requires tick > 0 && k * tick >= pending
    ensures TickSteps(score, pending, tick, k) == (Wrap32(score + pending), 0)
    decreases k
  {
    if k == 0 {
      WrapAdd(score, 0);
    } else {
      var (s, p) := TickStep(score, pending, tick);
      TickStepConserves(score, pending, tick);
      if pending > tick {
        assert (k - 1) * tick >= p by {
          MulDistrib(k - 1, 1, tick);
        }
        TicksFinish(s, p, tick, k - 1);
        WrapAdd(score + tick, p);
      } else {
        TicksZero(s, tick, k - 1);
      }
    }
  }

  lemma {:induction false} TicksZero(score: u32, tick: u32, k: nat)
    ensures TickSteps(score, 0, tick, k) == (Wrap32(score + 0), 0)
  {
    if k > 0 {
      TicksZero(Wrap32(score + 0), tick, k - 1);
    }
  }

  /** With a zero tick a positive pending amount never moves. */
  lemma {:induction false} ZeroTickStalls(score: u32, pending: u32, k: nat)
    requires pending > 0
    ensures TickSteps(score, pending, 0, k) == (score, pending)
  {
    if k > 0 {
      assert TickStep(score, pending, 0) == (score, pending);
      ZeroTickStalls(score, pending, k - 1);
    }
  }

  // --------------------------------------------------------------- rolling

  /** The first 1.5 s of a rolling animation: in phase `phase` (100 ms each)
      the odd phases show the pending amount's top digits, one more every
      second phase; then the whole amount. */
  function RollingReveal(pending: u32, phase: byte): u32 {
    if pending == 0 then 0
    else
      MagnitudeOfU32(pending);
      var nd := Magnitude(pending);
      if phase < (nd - 1) * 2 then ScaleDown(pending, nd - 1 - phase / 2)
      else pending
  }

  /** The reveal shows phase/2 + 1 of the top digits, and never more than
      the amount. */
  lemma RollingRevealDigits(pending: u32, phase: byte)
    requires pending > 0
    ensures Magnitude(RollingReveal(pending, phase)) ==
            Min(phase / 2 + 1, Magnitude(pending))
    ensures RollingReveal(pending, phase) <= pending
  {
    MagnitudeOfU32(pending);
    var nd := Magnitude(pending);
    MagnitudeBounds(pending);
    if phase < (nd - 1) * 2 {
      var k := nd - 1 - phase / 2;
      MagnitudeOfDiv(pending, k);
      DivAtMost(pending, Pow10(k));
      assert RollingReveal(pending, phase) == pending / Pow10(k);
    } else {
      assert RollingReveal(pending, phase) == pending;
    }
  }

  /** The rolling amount shown between 1.5 s and 3 s. */
  function RollingPart(elapsed: u32, pending: u32): u32 {
    Wrap32(Wrap32(elapsed - 1500) * pending) / 3000
  }

  /** Unless the product wraps, the rolling amount grows with time but only
      reaches half of the pending amount before the commit at 3 s. */
  lemma RollingPartBounds(e1: u32, e2: u32, pending: u32)
    requires 1500 <= e1 <= e2 < 3000 && pending < 0x1_0000_0000 / 1500
    ensures RollingPart(e1, pending) <= RollingPart(e2, pending)
    ensures 2 * RollingPart(e2, pending) <= pending
  {
    RollingProduct(e1, pending);
    RollingProduct(e2, pending);
    MulMono(e1 - 1500, e2 - 1500, pending);
    DivMono((e1 - 1500) * pending, (e2 - 1500) * pending, 3000);
    DivHalf((e2 - 1500) * pending, pending);
  }

  /** Before the product wraps, the rolling amount is the exact share
      (elapsed - 1500) * pending / 3000, with the product at most 1500 times
      the pending amount. */
  lemma RollingProduct(e: u32, pending: u32)
    requires 1500 <= e < 3000 && pending < 0x1_0000_0000 / 1500
    ensures (e - 1500) * pending <= 1500 * pending
    ensures RollingPart(e, pending) == (e - 1500) * pending / 3000
  {
    var x := (e - 1500) * pending;
    MulMono(e - 1500, 1500, pending);
    Wrap32Small(e - 1500);
    Wrap32Small(x);
  }

  lemma DivMono(a: nat, b: nat, d: nat)
    requires a <= b && d > 0
    ensures a / d <= b / d
  {
    if a / d > b / d {
      MulMono(b / d + 1, a / d, d);
      MulDistrib(b / d, 1, d);
    }
  }

  lemma DivHalf(x: nat, p: nat)
    requires x <= 1500 * p
    ensures 2 * (x / 3000) <= p
  {
    var q := x / 3000;
    assert q * 3000 <= x;
  }
}
