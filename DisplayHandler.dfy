/** The display handler as the firmware runs it (DisplayHandler.cpp): its
    globals are the fields of one object, updated in place by the Display_*
    entry points and their static helpers. Each method is proved against the
    pure step function of the other modules, whose lemmas state what the
    code promises; the calls to RPU_SetDisplay and RPU_SetDisplayBlank are
    recorded in the ghost display log `log`. */
module Handler {
  import opened Machine
  import opened DigitMasks
  import opened Primitives
  import opened AnimatedValue
  import opened PlayerScore
  import opened Carousel
  import opened Animator
  import OverrideTable
  import opened Scoreboard

  class DisplayHandler {
    /** DISPLAY_NUM_DIGITS of the build. */
    const D: nat

    var pending: u32          // ScoreAdditionAnimation
    var animStart: u32        // ScoreAdditionAnimationStartTime
    var lastRemaining: u32    // LastRemainingAnimatedScoreShown
    var tick: u32             // PlayScoreAnimationTick
    var jackpotKind: byte     // JackpotScoreAnimationType
    var tickLevel: byte       // PlayTickLevel
    var lastPhase: byte       // ScoreAdditionLastPhase
    var lastChange: u32       // LastTimeScoreChanged
    var lastFlashOrDash: u32  // LastFlashOrDash
    var overrideStatus: bv8   // ScoreOverrideStatus
    var lastOther: byte       // LastOtherScoresPhaseShown
    const overrideValue: array<u32>  // ScoreOverrideValue
    const lastSeed: array<byte>      // LastAnimationSeed
    const startSeed: array<byte>     // AnimationStartSeed
    const animation: array<byte>     // ScoreAnimation
    const order: array<byte>         // AnimationDisplayOrder
    const overrideMask: array<bv8>   // OverrideMask
    const lastScroll: array<byte>    // LastScrollPhase

    /** Every RPU_SetDisplay and RPU_SetDisplayBlank call so far. */
    ghost var log: seq<Write>

    ghost predicate Valid()
    {
      ValidDigits(D) &&
      overrideValue.Length == DISPLAYS && lastSeed.Length == DISPLAYS &&
      startSeed.Length == DISPLAYS && animation.Length == DISPLAYS && order.Length == DISPLAYS &&
      overrideMask.Length == DISPLAYS && lastScroll.Length == DISPLAYS &&
      Distinct()
    }

    /** The seven tables are seven separate arrays. */
    ghost predicate Distinct()
    {
      overrideValue as object != lastSeed && overrideValue as object != startSeed &&
      overrideValue as object != animation && overrideValue as object != order &&
      overrideValue as object != overrideMask && overrideValue as object != lastScroll &&
      lastSeed as object != startSeed && lastSeed as object != animation &&
      lastSeed as object != order && lastSeed as object != overrideMask &&
      lastSeed as object != lastScroll && startSeed as object != animation &&
      startSeed as object != order && startSeed as object != overrideMask &&
      startSeed as object != lastScroll && animation as object != order &&
      animation as object != overrideMask && animation as object != lastScroll &&
      order as object != overrideMask && order as object != lastScroll &&
      overrideMask as object != lastScroll
    }

    /** A score table that is none of the handler's own arrays. */
    ghost predicate Apart(scores: array<u32>)
    {
      scores != overrideValue && scores as object != lastSeed && scores as object != startSeed &&
      scores as object != animation && scores as object != order &&
      scores as object != overrideMask && scores as object != lastScroll
    }

    /** The handler's globals as one value. */
    ghost function State(): Engine
      reads this`pending, this`animStart, this`lastRemaining, this`tick, this`jackpotKind,
            this`tickLevel, this`lastPhase, this`lastChange, this`lastFlashOrDash,
            this`overrideStatus, this`lastOther, overrideValue, lastSeed, startSeed, animation, order, overrideMask, lastScroll
    {
      Engine(pending, animStart, lastRemaining, tick, jackpotKind, tickLevel, lastPhase, lastChange,
             lastFlashOrDash, overrideValue[..], lastSeed[..], startSeed[..], overrideStatus,
             animation[..], order[..], overrideMask[..], lastScroll[..], lastOther)
    }

    /** The state a Display_UpdateDisplays pass threads: the globals, the
        score table, the display log and the tick to return. */
    ghost function At(scores: array<u32>, playTick: byte): World
      reads this, overrideValue, lastSeed, startSeed, animation, order, overrideMask, lastScroll, scores
    {
      World(State(), scores[..], log, playTick)
    }

    /** The handler fits the call's inputs and the score table is not one of
        its own arrays. */
    ghost predicate Ready(i: Inputs, scores: array<u32>)
      reads this, overrideValue, lastSeed, startSeed, animation, order, overrideMask, lastScroll, scores
    {
      Valid() && i.D == D && Apart(scores) && Fits(i, At(scores, 0))
    }

    /** The globals with their initial values. */
    constructor (digits: nat)
      requires ValidDigits(digits)
      ensures Valid() && D == digits && State() == Initial() && log == []
      ensures fresh(overrideValue) && fresh(lastSeed) && fresh(startSeed) && fresh(animation) &&
              fresh(order) && fresh(overrideMask) && fresh(lastScroll)
    {
      var values := Table(0, 0, 0, 0);
      var seeds := Table(0, 0, 0, 0);
      var starts := Table(0, 0, 0, 0);
      var kinds := Table(0, 0, 0, 0);
      var places := Table(0, 1, 2, 3);
      var masks := Table(0xFF, 0xFF, 0xFF, 0xFF);
      var phases := Table(0, 0, 0, 0);
      D := digits;
      pending, animStart, lastRemaining, tick := 0, 0, 0, 2500;
      jackpotKind, tickLevel, lastPhase := JACKPOT_OFF, 0, 0;
      lastChange, lastFlashOrDash, overrideStatus, lastOther := 0, 0, 0, 0xFF;
      overrideValue, lastSeed, startSeed, animation := values, seeds, starts, kinds;
      order, overrideMask, lastScroll := places, masks, phases;
      log := [];
    }

    /** A new per-display table with the given initial entries. */
    static method Table<T>(a: T, b: T, c: T, d: T) returns (r: array<T>)
      ensures fresh(r) && r[..] == [a, b, c, d]
    {
      r := new T[DISPLAYS][a, b, c, d];
    }

    // ------------------------------------------------- tracking and table

    /** Display_SetLastTimeScoreChanged (DisplayHandler.cpp:79-81). */
    method SetLastTimeScoreChanged(t: u32)
      modifies this
      ensures State() == old(State()).(lastChange := t) && log == old(log)
    {
      lastChange := t;
    }

    /** Display_GetLastTimeScoreChanged (DisplayHandler.cpp:83-85). */
    method GetLastTimeScoreChanged() returns (t: u32)
      ensures t == State().lastChange
    {
      t := lastChange;
    }

    /** Display_OverrideScoreDisplay (DisplayHandler.cpp:88-96). */
    method OverrideScoreDisplay(d: byte, value: u32, kind: byte, mask: bv8)
      requires Valid()
      modifies this, overrideValue, lastSeed, animation, overrideMask
      ensures Valid() && State() == OverrideTable.Override(old(State()), d, value, kind, mask)
      ensures log == old(log)
    {
      if d > DISPLAYS - 1 {
        return;
      }
      overrideStatus := overrideStatus | Shl(1, d);
      animation[d] := kind;
      overrideValue[d] := value;
      lastSeed[d] := 255;
      overrideMask[d] := mask;
      assert overrideValue[..] == old(overrideValue[..])[d := value];
    }

    /** Display_ClearOverride (DisplayHandler.cpp:99-105). */
    method ClearOverride(d: byte)
      modifies this
      ensures State() == OverrideTable.ClearOverride(old(State()), d) && log == old(log)
    {
      if d == 0xFF {
        overrideStatus := 0;
      } else {
        overrideStatus := overrideStatus & !Shl(1, d);
      }
    }

    /** Display_SetAnimationDisplayOrder (DisplayHandler.cpp:120-125). */
    method SetAnimationDisplayOrder(d0: byte, d1: byte, d2: byte, d3: byte)
      requires Valid()
      modifies order
      ensures State() == OverrideTable.SetAnimationDisplayOrder(old(State()), d0, d1, d2, d3)
    {
      order[0] := d0;
      order[1] := d1;
      order[2] := d2;
      order[3] := d3;
      assert order[..] == [d0, d1, d2, d3];
    }

    /** Display_ResetDisplayTrackingVariables (DisplayHandler.cpp:70-76). */
    method ResetDisplayTrackingVariables()
      modifies this`pending, this`animStart, this`lastRemaining, this`lastPhase, this`tickLevel
      ensures State() == OverrideTable.ResetTracking(old(State())) && log == old(log)
    {
      pending, animStart, lastRemaining, lastPhase, tickLevel := 0, 0, 0, 0xFF, 0;
    }

    /** Display_StartScoreAnimation (DisplayHandler.cpp:391-429), with
        CurrentScores, CurrentPlayer and CurrentTime passed in. */
    method StartScoreAnimation(scores: array<u32>, cp: nat, t: u32, amount: u32, playTick: bool, kind: byte)
      requires Valid() && cp < scores.Length && Apart(scores)
      modifies this, scores
      ensures State() == Start(old(State()), old(scores[..]), cp, t, amount, playTick, kind).0
      ensures scores[..] == Start(old(State()), old(scores[..]), cp, t, amount, playTick, kind).1
      ensures log == old(log)
    {
      if pending != 0 {
        AddPending(scores, cp);
      }
      Begin(t, amount, playTick, kind);
    }

    /** Adds the pending amount to score slot `slot` and clears it. */
    method AddPending(scores: array<u32>, slot: nat)
      requires Valid() && slot < scores.Length && Apart(scores)
      modifies this`pending, scores
      ensures scores[..] == old(scores[..])[slot := Wrap32(old(scores[slot]) + old(pending))]
      ensures State() == old(State()).(pending := 0)
    {
      scores[slot] := Wrap32(scores[slot] + pending);
      pending := 0;
    }

    /** The animation's start: the amount pending, the clock and phase
        reset, and the tick for `amount` (DisplayHandler.cpp:395-428). */
    method Begin(t: u32, amount: u32, playTick: bool, kind: byte)
      requires pending == 0
      modifies this
      ensures var (tick, level) := TickFor(amount, playTick, kind);
              State() == old(State()).(pending := amount, animStart := t, lastRemaining := 0, lastPhase := 0xFF,
                                       jackpotKind := kind, tick := tick, tickLevel := level)
      ensures log == old(log)
    {
      ghost var e0 := State();
      pending := Wrap32(pending + amount);
      animStart := t;
      lastRemaining := 0;
      lastPhase := 0xFF;
      jackpotKind := kind;
      assert State() == e0.(pending := amount, animStart := t, lastRemaining := 0, lastPhase := 0xFF, jackpotKind := kind);
      SetTick(amount, playTick);
    }

    /** The tick size and level for `amount` (DisplayHandler.cpp:401-428). */
    method SetTick(amount: u32, playTick: bool)
      modifies this
      ensures (tick, tickLevel) == TickFor(amount, playTick, jackpotKind)
      ensures State() == old(State()).(tick := tick, tickLevel := tickLevel) && log == old(log)
    {
      if playTick {
        tick := 10000;
        if amount <= 10000 {
          tick, tickLevel := 1000, 1;
        } else if amount <= 25000 {
          tick, tickLevel := 5000, 2;
        } else if amount <= 50000 {
          tick, tickLevel := 10000, 3;
        } else if amount <= 100000 {
          tick, tickLevel := 10000, 4;
        } else if amount <= 250000 {
          tick, tickLevel := 25000, 5;
        } else {
          tick, tickLevel := amount / 9, 6;
        }
      } else {
        tick := 1;
        tickLevel := 0;
        if jackpotKind == JACKPOT_MAJOR_TICKS {
          tick := amount / 9;
        }
      }
    }

    // ------------------------------------------------- ShowAnimatedValue

    /** ShowAnimatedValue (DisplayHandler.cpp:131-270) on display dc, with
        CurrentTime passed in. */
    method ShowAnimatedValue(dc: nat, v: u32, kind: byte, t: u32)
      requires Valid() && dc < DISPLAYS
      modifies this`overrideStatus, this`log, lastSeed, startSeed
      ensures Valid()
      ensures var f := Animated(D, dc, v, kind, old(overrideMask[dc]), old(lastSeed[dc]),
                                old(startSeed[dc]), old(order[dc]), t);
              State() == AfterFrame(old(State()), dc, f) && log == old(log) + f.writes
    {
      var n := MagnitudeOfScore(v);
      if n == 0 {
        n := 1;
      }
      assert n == DigitsShown(v);
      if n < D - 1 && kind == BOUNCE {
        Bounce(dc, v, n, t);
      } else if kind == FLUTTER {
        Flutter(dc, v, n, t);
      } else if kind == FLYBY {
        Flyby(dc, v, n, t);
      } else if kind == CENTER || kind == CENTER_FLASH_SLOW || kind == CENTER_FLASH_FAST {
        Center(dc, v, n, kind, t);
      } else if n == 1 && kind == SYMMETRIC_BOUNCE {
        Symmetric(dc, v, n, t);
      } else {
        Plain(dc, v);
      }
    }

    /** No effect (DisplayHandler.cpp:261-268): the value drawn plainly,
        within the override's mask unless that lights every position. */
    method Plain(dc: nat, v: u32)
      requires Valid() && dc < DISPLAYS
      modifies this`log
      ensures var f := Frame(lastSeed[dc], startSeed[dc], false, PlainWrites(dc, v, overrideMask[dc]));
              State() == AfterFrame(State(), dc, f) && log == old(log) + f.writes
    {
      ghost var e := State();
      if overrideMask[dc] == 0xFF {
        Emit([DigitsMin(dc, v, true, 1)]);
      } else {
        Emit([SetBlank(dc, overrideMask[dc]), DigitsMin(dc, v, false, 1)]);
      }
      assert e.lastSeed[dc := e.lastSeed[dc]] == e.lastSeed;
      assert e.startSeed[dc := e.startSeed[dc]] == e.startSeed;
    }

    /** Calls to RPU_SetDisplay and RPU_SetDisplayBlank. */
    method Emit(ws: seq<Write>)
      modifies this`log
      ensures log == old(log) + ws
    {
      log := log + ws;
    }

    /** Records a frame on display dc: its frame number in LastAnimationSeed,
        the flyby's first frame in AnimationStartSeed, the end of the
        override in ScoreOverrideStatus, and its writes to the display. */
    method Store(dc: nat, f: Frame)
      requires Valid() && dc < DISPLAYS
      modifies this`overrideStatus, this`log, lastSeed, startSeed
      ensures Valid() && State() == AfterFrame(old(State()), dc, f) && log == old(log) + f.writes
    {
      lastSeed[dc] := f.lastSeed;
      startSeed[dc] := f.startSeed;
      if f.clearOverride {
        overrideStatus := overrideStatus & !Shl(1, dc);
      }
      log := log + f.writes;
    }

    /** The bounce (DisplayHandler.cpp:137-154). */
    method Bounce(dc: nat, v: u32, n: byte, t: u32)
      requires Valid() && dc < DISPLAYS && n == DigitsShown(v) && n < D - 1
      modifies this`overrideStatus, this`log, lastSeed, startSeed
      ensures Valid()
      ensures var f := BounceFrame(D, dc, v, old(lastSeed[dc]), old(startSeed[dc]), t);
              State() == AfterFrame(old(State()), dc, f) && log == old(log) + f.writes
    {
      var seed := ToByte(t / 250 % (2 * D - 2 * n));
      assert seed == BounceSeed(D, n, t);
      if seed != lastSeed[dc] {
        var shift: byte := seed;
        if shift >= D + 1 - n {
          shift := (D - n) * 2 - shift;
        }
        assert shift == BounceShift(D, n, seed);
        var m := GetDisplayMask(D, n);
        var value, mask := SlideLeft(v, m, shift);
        Store(dc, Frame(seed, startSeed[dc], false, [Digits(dc, value, false), SetBlank(dc, mask)]));
      }
    }

    /** The flutter (DisplayHandler.cpp:155-167). */
    method Flutter(dc: nat, v: u32, n: byte, t: u32)
      requires Valid() && dc < DISPLAYS && n == DigitsShown(v)
      modifies this`overrideStatus, this`log, lastSeed, startSeed
      ensures Valid()
      ensures var f := FlutterFrame(D, dc, v, old(lastSeed[dc]), old(startSeed[dc]), t);
              State() == AfterFrame(old(State()), dc, f) && log == old(log) + f.writes
    {
      var seed := ToByte(t / 50);
      if seed != lastSeed[dc] {
        var m := GetDisplayMask(D, n);
        if seed % 2 == 1 {
          m := m & 0x55;
        } else {
          m := m & 0xAA;
        }
        assert m == FlutterMask(D, n, seed);
        Store(dc, Frame(seed, startSeed[dc], false, [Digits(dc, v, false), SetBlank(dc, m)]));
      }
    }

    /** The flyby (DisplayHandler.cpp:168-202): the first frame after an
        override was set (LastAnimationSeed 255) becomes the start frame. */
    method Flyby(dc: nat, v: u32, n: byte, t: u32)
      requires Valid() && dc < DISPLAYS && n == DigitsShown(v)
      modifies this`overrideStatus, this`log, lastSeed, startSeed
      ensures Valid()
      ensures var f := FlybyFrame(D, dc, v, old(lastSeed[dc]), old(startSeed[dc]), old(order[dc]), t);
              State() == AfterFrame(old(State()), dc, f) && log == old(log) + f.writes
    {
      var seed := ToByte(t / 75 % 256);
      if seed != lastSeed[dc] {
        var start := startSeed[dc];
        if lastSeed[dc] == 255 {
          start := seed;
        }
        var elapsed := ToByte(seed as int - start);
        if seed < start {
          elapsed := (255 - start) + seed;
        }
        assert elapsed == FlybyElapsed(seed, start);
        if elapsed > FLYBY_LAST_FRAME {
          Store(dc, Frame(seed, start, true, [SetBlank(dc, 0)]));
        } else {
          var ws := FlybyDraw(dc, v, n, order[dc], elapsed);
          Store(dc, Frame(seed, start, false, ws));
        }
      }
    }

    /** The drawing part of the flyby (DisplayHandler.cpp:183-200): the
        value slid by its signed offset, right or left. */
    method FlybyDraw(dc: nat, v: u32, n: byte, ord: byte, elapsed: byte) returns (ws: seq<Write>)
      requires ValidDigits(D) && n == DigitsShown(v)
      ensures ws == FlybyWrites(D, dc, v, ord, elapsed)
    {
      var shift := -6 * (ord + 1) + elapsed;
      var mask := GetDisplayMask(D, n);
      var value := v;
      if shift < 0 {
        value, mask := SlideRight(value, mask, -shift);
      } else if shift > 0 {
        value, mask := SlideLeft(value, mask, shift);
      }
      ws := [Digits(dc, value, false), SetBlank(dc, mask)];
    }

    /** The centred effects (DisplayHandler.cpp:203-228). */
    method Center(dc: nat, v: u32, n: byte, kind: byte, t: u32)
      requires Valid() && dc < DISPLAYS && n == DigitsShown(v)
      modifies this`overrideStatus, this`log, lastSeed, startSeed
      ensures Valid()
      ensures var f := CenterFrame(D, dc, v, kind, old(lastSeed[dc]), old(startSeed[dc]), t);
              State() == AfterFrame(old(State()), dc, f) && log == old(log) + f.writes
    {
      var seed := ToByte(t / 175);
      if kind == CENTER_FLASH_FAST {
        seed := ToByte(t / 75);
      }
      assert seed == CenterSeed(kind, t);
      if seed != lastSeed[dc] {
        var shift := ToByte(TruncDiv(D - n, 2));
        assert shift == CenterShift(D, n);
        var m := GetDisplayMask(D, n);
        var value, mask := SlideLeft(v, m, shift);
        if kind == CENTER || seed % 2 == 1 {
          Store(dc, Frame(seed, startSeed[dc], false, [Digits(dc, value, false), SetBlank(dc, mask)]));
        } else {
          Store(dc, Frame(seed, startSeed[dc], false, [Digits(dc, value, false), SetBlank(dc, 0)]));
        }
      }
    }

    /** The symmetric bounce of a single digit (DisplayHandler.cpp:229-260). */
    method Symmetric(dc: nat, v: u32, n: byte, t: u32)
      requires Valid() && dc < DISPLAYS && n == DigitsShown(v) && n == 1
      modifies this`overrideStatus, this`log, lastSeed, startSeed
      ensures Valid()
      ensures var f := SymmetricFrame(D, dc, v, old(lastSeed[dc]), old(startSeed[dc]), t);
              State() == AfterFrame(old(State()), dc, f) && log == old(log) + f.writes
    {
      var seed := ToByte(t / (100 + (dc % 2) * 38 + (dc / 2) * 20));
      assert seed == ToByte(t / SymmetricPeriod(dc));
      if seed != lastSeed[dc] {
        var numSteps: byte := D - 2 + D % 2;
        assert numSteps == SymmetricSteps(D);
        var shift: byte := seed % numSteps;
        if shift > numSteps / 2 {
          shift := numSteps - shift;
        }
        assert shift == SymmetricShift(D, seed);
        var newScore, newMask := SymmetricDraw(v, shift);
        Store(dc, Frame(seed, startSeed[dc], false, [Digits(dc, newScore, false), SetBlank(dc, newMask)]));
      }
    }

    /** The drawing part of the symmetric bounce (DisplayHandler.cpp:237-259):
        the digit slid `shift` places, then a copy slid on to the mirror
        position unless the digit sits at the centre. */
    method SymmetricDraw(v: u32, shift: nat) returns (value: u32, mask: bv8)
      requires ValidDigits(D) && shift <= SymmetricSteps(D) / 2
      ensures value == SymmetricValue(D, v, shift) && mask == SymmetricMask(D, shift)
    {
      var m := GetDisplayMask(D, 1);
      var displayScore, displayMask := SlideLeft(v, m, shift);
      value, mask := displayScore, displayMask;
      if shift < D / 2 {
        displayScore, displayMask := SlideLeft(displayScore, displayMask, D - 1 - shift * 2);
        value := Wrap32(value + displayScore);
        mask := mask | displayMask;
        assert value == SymmetricValue(D, v, shift);
        assert mask == SymmetricMask(D, shift);
      } else {
        assert value == SymmetricValue(D, v, shift);
        assert mask == SymmetricMask(D, shift);
      }
    }

    // --------------------------------------------------- ShowPlayerScore

    /** ShowPlayerScore (DisplayHandler.cpp:273-387) on display dc, with
        CurrentTime and the display's CurrentAchievements entry passed in;
        `lib` is the blank mask RPU_SetDisplay returns for a value. */
    method ShowPlayerScore(dc: nat, score: u32, flash: bool, dash: byte, achievement: byte, t: u32,
                           lib: u32 -> bv8)
      requires Valid() && dc < DISPLAYS
      modifies this`lastFlashOrDash, this`log, lastScroll
      ensures var f := Show(D, dc, score, achievement, flash, dash, t, old(lastChange), old(lastScroll[dc]),
                            old(lastFlashOrDash), lib);
              State() == AfterShow(old(State()), dc, f) && log == old(log) + f.writes
    {
      var phase: byte := Wrap32(t - lastChange) / 125 % 16;
      var changed := phase != lastScroll[dc];
      var shown := Wrap32(score + achievement % 10);
      var f: ScoreFrame;
      if shown > Pow10(D) - 1 {
        f := WideScore(dc, shown, achievement, t, phase, changed);
      } else if flash {
        f := FlashScore(dc, shown, t, phase);
      } else if dash == DASH_ROLLING_BLANK {
        f := RollingDash(dc, shown, t, phase);
      } else if dash == DASH_INTERMITTENT_FLASH {
        f := IntermittentDash(dc, shown, t, phase);
      } else if dash != DASH_NONE {
        f := ScoreFrame(phase, lastFlashOrDash, []);
      } else {
        f := PlainScore(dc, shown, achievement, t, phase, lib);
      }
      StoreShow(dc, f);
    }

    /** ShowPlayerScore within a Display_UpdateDisplays pass, with the
        display's achievement, the time and the library's mask taken from
        the call's inputs. */
    method ShowScore(i: Inputs, dc: nat, scores: array<u32>, v: u32, flash: bool, dash: byte,
                     ghost playTick: byte)
      requires Ready(i, scores) && dc < DISPLAYS
      modifies this`lastFlashOrDash, this`log, lastScroll
      ensures At(scores, playTick) == ShowScoreOn(i, old(At(scores, playTick)), dc, v, flash, dash)
    {
      ghost var w0 := At(scores, playTick);
      ghost var f := Show(D, dc, v, i.achievements[dc], flash, dash, i.t, lastChange, lastScroll[dc],
                          lastFlashOrDash, i.lib);
      ShowPlayerScore(dc, v, flash, dash, i.achievements[dc], i.t, i.lib);
      ShowScoreOnIs(i, w0, dc, v, flash, dash, f);
      assert scores[..] == w0.scores;
    }

    /** Records what ShowPlayerScore drew: the display's scroll phase in
        LastScrollPhase, the shared frame number in LastFlashOrDash, and the
        writes to the display. */
    method StoreShow(dc: nat, f: ScoreFrame)
      requires Valid() && dc < DISPLAYS
      modifies this`lastFlashOrDash, this`log, lastScroll
      ensures State() == AfterShow(old(State()), dc, f) && log == old(log) + f.writes
    {
      lastScroll[dc] := f.lastScrollPhase;
      lastFlashOrDash := f.lastFlashOrDash;
      log := log + f.writes;
    }

    /** A score too wide for the display (DisplayHandler.cpp:291-331). */
    method WideScore(dc: nat, shown: u32, achievement: byte, t: u32, phase: byte, changed: bool)
      returns (f: ScoreFrame)
      requires Valid() && dc < DISPLAYS && phase == ScrollPhase(t, lastChange)
      requires changed == (phase != lastScroll[dc])
      ensures f == WideFrame(D, dc, shown, achievement, t, lastChange, lastScroll[dc], lastFlashOrDash)
    {
      f := ScoreFrame(phase, lastFlashOrDash, []);
      if Wrap32(t - lastChange) < 2000 {
        var blank := Blink(AllDigitsMask(D), achievement, t);
        f := f.(writes := [Digits(dc, shown % Pow10(D), false), SetBlank(dc, blank)]);
      } else if phase < 11 && changed {
        var value, mask := ScrollFrame(D, shown, phase);
        f := f.(writes := [SetBlank(dc, mask), DigitsDefault(dc, value)]);
      }
    }

    /** Flashing the current player's score (DisplayHandler.cpp:333-339). */
    method FlashScore(dc: nat, shown: u32, t: u32, phase: byte) returns (f: ScoreFrame)
      ensures f == FlashFrame(dc, shown, t, phase, lastFlashOrDash)
    {
      var seed := t / 250;
      f := ScoreFrame(phase, lastFlashOrDash, []);
      if seed != lastFlashOrDash {
        if t / 250 % 2 == 0 {
          f := ScoreFrame(phase, seed, [SetBlank(dc, 0)]);
        } else {
          f := ScoreFrame(phase, seed, [DigitsFull(dc, shown, true, 2, true)]);
        }
      }
    }

    /** The rolling dash (DisplayHandler.cpp:341-365). */
    method RollingDash(dc: nat, shown: u32, t: u32, phase: byte) returns (f: ScoreFrame)
      requires ValidDigits(D)
      ensures f == RollingDashFrame(D, dc, shown, t, phase, lastFlashOrDash)
    {
      var seed := t / 50;
      f := ScoreFrame(phase, lastFlashOrDash, []);
      if seed != lastFlashOrDash {
        var dashPhase: byte := t / 60 % (2 * D * 3);
        var n := MagnitudeOfScore(shown);
        if dashPhase < 2 * D {
          var m := GetDisplayMask(D, if n == 0 then 2 else n);
          m := RollingDashMask(D, m, dashPhase);
          f := ScoreFrame(phase, seed, [DigitsDefault(dc, shown), SetBlank(dc, m)]);
        } else {
          f := ScoreFrame(phase, seed, [DigitsFull(dc, shown, true, 2, true)]);
        }
      }
    }

    /** The intermittent flash (DisplayHandler.cpp:366-375). */
    method IntermittentDash(dc: nat, shown: u32, t: u32, phase: byte) returns (f: ScoreFrame)
      ensures f == IntermittentDashFrame(dc, shown, t, phase, lastFlashOrDash)
    {
      var seed := t / 250 % 4;
      f := ScoreFrame(phase, lastFlashOrDash, []);
      if seed != lastFlashOrDash {
        if seed != 0 {
          f := ScoreFrame(phase, seed, [DigitsFull(dc, shown, true, 2, true)]);
        } else {
          f := ScoreFrame(phase, seed, [SetBlank(dc, 0)]);
        }
      }
    }

    /** The plain score (DisplayHandler.cpp:378-383). */
    method PlainScore(dc: nat, shown: u32, achievement: byte, t: u32, phase: byte, lib: u32 -> bv8)
      returns (f: ScoreFrame)
      requires ValidDigits(D)
      ensures f == PlainFrame(D, dc, shown, achievement, t, phase, lastFlashOrDash, lib)
    {
      var blank := Blink(lib(shown), achievement, t);
      f := ScoreFrame(phase, lastFlashOrDash, [DigitsFull(dc, shown, false, 2, true), SetBlank(dc, blank)]);
    }

    /** A pending achievement's ones digit goes dark every other 200 ms
        (DisplayHandler.cpp:296-300 and 380-382). */
    method Blink(mask: bv8, achievement: byte, t: u32) returns (r: bv8)
      requires ValidDigits(D)
      ensures r == AchievementBlink(D, mask, achievement, t)
    {
      r := mask;
      if achievement != 0 && t / 200 % 2 == 1 {
        r := r & !Shl(1, D - 1);
      }
    }

    // ---------------------------------------------------- ShowOtherScores

    /** ShowOtherScores (DisplayHandler.cpp:438-513) on display dc, with
        CurrentScores, CurrentNumPlayers, CurrentPlayer and CurrentTime
        passed in. */
    method ShowOtherScores(dc: nat, scores: array<u32>, numPlayers: nat, cp: nat, t: u32)
      requires ValidDigits(D) && numPlayers <= scores.Length && numPlayers <= 8
      requires 3 <= numPlayers ==> cp < numPlayers
      modifies this`lastOther, this`log
      ensures var (last', ws) := OtherScores(D, dc, scores[..], numPlayers, cp, t, old(lastOther));
              State() == old(State()).(lastOther := last') && log == old(log) + ws
    {
      if numPlayers < 3 {
        return;
      }
      var frame: byte := ToByte(t / FRAME_MS);
      if frame != lastOther {
        lastOther := frame;
        var ws := CarouselFrame(D, dc, scores, numPlayers, cp, t);
        Emit(ws);
      }
    }

    // --------------------------------------------- the increment animation

    /** Moves the pending amount into score slot `slot` and ends the
        animation (DisplayHandler.cpp:782-785 and 817-820). */
    method CommitPending(slot: nat, scores: array<u32>, ghost playTick: byte)
      requires Valid() && slot < scores.Length && Apart(scores)
      modifies this`lastRemaining, this`animStart, this`pending, scores
      ensures At(scores, playTick) == Commit(old(At(scores, playTick)), slot)
    {
      lastRemaining := 0;
      scores[slot] := Wrap32(scores[slot] + pending);
      animStart := 0;
      pending := 0;
    }

    /** The first 1.5 s of the rolling animation (DisplayHandler.cpp:788-806). */
    method Reveal(dc: nat, t: u32, scores: array<u32>, playTick: byte) returns (tick': byte)
      requires Valid() && Apart(scores)
      modifies this`lastPhase, this`log
      ensures At(scores, tick') == RevealOn(old(At(scores, playTick)), dc, t)
    {
      tick' := playTick;
      var phase := ToByte(Wrap32(t - animStart) / 100);
      if phase != lastPhase {
        if phase % 2 == 0 {
          Emit([SetBlank(dc, 0)]);
        } else {
          tick' := 1;
          var v := RevealValue(pending, phase);
          Emit([DigitsMin(dc, v, true, 1)]);
        }
        lastPhase := phase;
      }
    }

    /** The part of the amount an odd reveal phase shows
        (DisplayHandler.cpp:795-801): its leading phase/2 + 1 digits. */
    static method RevealValue(pending: u32, phase: byte) returns (v: u32)
      ensures v == RollingReveal(pending, phase)
    {
      v := pending;
      if v != 0 {
        var n := MagnitudeOfScore(v);
        if phase < (n - 1) * 2 {
          v := Quotient(v, Pow10(n - 1 - phase / 2));
        }
      }
    }

    /** From 1.5 s to 3 s of the rolling animation (DisplayHandler.cpp:808-815). */
    method Roll(i: Inputs, dc: nat, scores: array<u32>, playTick: byte) returns (tick': byte)
      requires Ready(i, scores) && dc < DISPLAYS
      modifies this`lastRemaining, this`lastFlashOrDash, this`log, lastScroll
      ensures At(scores, tick') == RollOn(i, old(At(scores, playTick)), dc)
    {
      ghost var w0 := At(scores, playTick);
      var rem := RollRedraw(i, dc, scores, playTick);
      ghost var w1 := At(scores, playTick);
      tick' := NoteRemaining(rem, playTick);
      assert At(scores, tick') == Crossing(w0.e, rem, w1);
    }

    /** The score plus the rolling part, drawn (DisplayHandler.cpp:809-810). */
    method RollRedraw(i: Inputs, dc: nat, scores: array<u32>, ghost playTick: byte) returns (rem: u32)
      requires Ready(i, scores) && dc < DISPLAYS
      modifies this`lastFlashOrDash, this`log, lastScroll
      ensures rem == RollingPart(Wrap32(i.t - old(animStart)), old(pending))
      ensures RollOn(i, old(At(scores, playTick)), dc) == Crossing(old(State()), rem, At(scores, playTick))
    {
      ghost var w0 := At(scores, playTick);
      rem := RollingPart(Wrap32(i.t - animStart), pending);
      var v := Wrap32(scores[i.cp] as int + rem);
      assert v == Wrap32(w0.scores[i.cp] as int + rem);
      ShowScore(i, dc, scores, v, false, DASH_NONE, playTick);
      assert RollOn(i, w0, dc) == RollBy(i, w0, dc, rem);
    }

    /** A rolling tick each time the rolling part crosses a multiple of the
        tick size (DisplayHandler.cpp:811-814). */
    method NoteRemaining(rem: u32, playTick: byte) returns (tick': byte)
      modifies this`lastRemaining
      ensures if old(tick) > 1 && rem / old(tick) != old(lastRemaining) / old(tick)
              then State() == old(State()).(lastRemaining := rem) && tick' == ToByte(tickLevel + 1)
              else State() == old(State()) && tick' == playTick
    {
      tick' := playTick;
      if tick > 1 && rem / tick != lastRemaining / tick {
        lastRemaining := rem;
        tick' := ToByte(tickLevel + 1);
      }
    }

    /** Major ticks (DisplayHandler.cpp:822-836): on each new 250 ms phase one
        tick moves into the current player's score, or the rest when no more
        than a tick is left, and the score is redrawn. */
    method MajorTick(i: Inputs, dc: nat, scores: array<u32>, playTick: byte) returns (tick': byte)
      requires Ready(i, scores) && dc < DISPLAYS
      modifies this`lastPhase, this`lastRemaining, this`animStart, this`pending, this`lastFlashOrDash, this`log
      modifies lastScroll, scores
      ensures At(scores, tick') == TickOn(i, old(At(scores, playTick)), dc)
    {
      ghost var w0 := At(scores, playTick);
      tick' := playTick;
      var phase := ToByte(Wrap32(i.t - animStart) / 250);
      if phase != lastPhase {
        tick' := ApplyTick(i, dc, scores, phase, playTick);
        ghost var w1 := At(scores, tick');
        assert TickOn(i, w0, dc) == ShowScoreOn(i, w1, dc, w1.scores[i.cp], false, DASH_NONE);
        ShowScore(i, dc, scores, scores[i.cp], false, DASH_NONE, tick');
      }
    }

    /** The score and pending amount of one major tick. */
    method ApplyTick(i: Inputs, dc: nat, scores: array<u32>, phase: byte, ghost playTick: byte)
      returns (tick': byte)
      requires Ready(i, scores) && dc < DISPLAYS
      modifies this`lastPhase, this`lastRemaining, this`animStart, this`pending, scores
      ensures At(scores, tick') == TickApplied(i, old(At(scores, playTick)), dc, phase)
    {
      var (s, p) := TickStep(scores[i.cp], pending, tick);
      lastPhase := phase;
      tick' := tickLevel;
      scores[i.cp] := s;
      if pending > tick {
        pending := p;
      } else {
        lastRemaining := 0;
        animStart := 0;
        pending := 0;
      }
    }

    /** The rolling animation (DisplayHandler.cpp:786-821): the reveal for
        1.5 s, the roll until 3 s, then the commit. */
    method RollingAnimation(i: Inputs, dc: nat, scores: array<u32>, playTick: byte) returns (tick': byte)
      requires Ready(i, scores) && dc < DISPLAYS
      modifies this`lastPhase, this`lastRemaining, this`animStart, this`pending, this`lastFlashOrDash, this`log
      modifies lastScroll, scores
      ensures At(scores, tick') == Rolling(i, old(At(scores, playTick)), dc)
    {
      ghost var w0 := At(scores, playTick);
      if i.t < Wrap32(animStart + 1500) {
        assert Rolling(i, w0, dc) == RevealOn(w0, dc, i.t);
        tick' := Reveal(dc, i.t, scores, playTick);
      } else if i.t < Wrap32(animStart + 3000) {
        assert Rolling(i, w0, dc) == RollOn(i, w0, dc);
        tick' := Roll(i, dc, scores, playTick);
      } else {
        assert Rolling(i, w0, dc) == Commit(w0, i.cp);
        CommitPending(i.cp, scores, playTick);
        tick' := playTick;
      }
    }

    /** The increment animation on the current player's display
        (DisplayHandler.cpp:780-837), by JackpotScoreAnimationType. */
    method Jackpot(i: Inputs, dc: nat, scores: array<u32>, playTick: byte) returns (tick': byte)
      requires Ready(i, scores) && dc < DISPLAYS
      modifies this`lastPhase, this`lastRemaining, this`animStart, this`pending, this`lastFlashOrDash, this`log
      modifies lastScroll, scores
      ensures At(scores, tick') == Scoreboard.Jackpot(i, old(At(scores, playTick)), dc)
    {
      tick' := playTick;
      if jackpotKind == JACKPOT_OFF {
        CommitPending(i.cp, scores, playTick);
      } else if jackpotKind == JACKPOT_ROLLING {
        tick' := RollingAnimation(i, dc, scores, playTick);
      } else if jackpotKind == JACKPOT_MAJOR_TICKS {
        tick' := MajorTick(i, dc, scores, playTick);
      }
    }

    // ------------------------------------------- overrides and plain scores

    /** The override branch (DisplayHandler.cpp:840-847): the override value
        with its effect, or a dark display for the blank value. */
    method ShowOverride(i: Inputs, dc: nat, scores: array<u32>, ghost playTick: byte)
      requires Ready(i, scores) && dc < DISPLAYS
      modifies this`overrideStatus, this`log, lastSeed, startSeed
      ensures At(scores, playTick) == OverrideOn(i, old(At(scores, playTick)), dc)
    {
      var v := overrideValue[dc];
      if v != BLANK_SCORE {
        ShowAnimatedValue(dc, v, animation[dc], i.t);
      } else {
        Emit([SetBlank(dc, 0)]);
      }
      assert scores[..] == old(scores[..]);
    }

    /** The plain-score branch (DisplayHandler.cpp:848-876). */
    method ShowScores(i: Inputs, dc: nat, adj: nat, scores: array<u32>, ghost playTick: byte)
      requires Ready(i, scores) && dc < DISPLAYS && adj == Adjusted(i, dc)
      modifies this`lastFlashOrDash, this`lastOther, this`log, lastScroll
      ensures At(scores, playTick) == PlainOn(i, old(At(scores, playTick)), dc)
    {
      if i.allScores != BLANK_SCORE {
        ShowScore(i, dc, scores, i.allScores, false, DASH_NONE, playTick);
      } else if i.numPlayers != 0 && dc > i.numPlayers - 1 {
        Emit([SetBlank(dc, 0)]);
      } else if i.numPlayers <= DISPLAYS {
        if i.cp == dc {
          ShowScore(i, dc, scores, scores[dc], i.flash, i.dash, playTick);
        } else {
          ShowScore(i, dc, scores, scores[dc], false, DASH_NONE, playTick);
        }
      } else if i.cp == adj {
        ShowScore(i, dc, scores, scores[i.cp], i.flash, i.dash, playTick);
      } else {
        ShowOtherScores(dc, scores, i.numPlayers, i.cp, i.t);
      }
    }

    // --------------------------------------------- Display_UpdateDisplays

    /** One pass of the display loop (DisplayHandler.cpp:766-878): an
        unselected display is skipped; otherwise the increment animation,
        the override or the plain score draws it. */
    method UpdateOne(i: Inputs, dc: nat, scores: array<u32>, playTick: byte) returns (tick': byte)
      requires Ready(i, scores) && dc < DISPLAYS
      modifies this`lastPhase, this`lastRemaining, this`animStart, this`pending, this`lastFlashOrDash
      modifies this`lastOther, this`overrideStatus, this`log, lastScroll, lastSeed, startSeed, scores
      ensures At(scores, tick') == Scoreboard.UpdateOne(i, old(At(scores, playTick)), dc)
    {
      tick' := playTick;
      var adj := dc;
      if i.cp >= DISPLAYS {
        adj := dc + DISPLAYS;
      }
      if i.displayNum != ALL_DISPLAYS && adj != i.displayNum {
        return;
      }
      BitTest(overrideStatus, dc);
      if animStart != 0 && i.cp == adj {
        tick' := Jackpot(i, dc, scores, playTick);
      } else if overrideStatus & Shl(1, dc) != 0 {
        ShowOverride(i, dc, scores, playTick);
      } else {
        ShowScores(i, dc, adj, scores, playTick);
      }
    }

    /** finishAnimation (DisplayHandler.cpp:759-763): the pending amount goes
        to the current player at once. */
    method FinishAnimation(i: Inputs, scores: array<u32>)
      requires Ready(i, scores) && i.finish
      modifies this`animStart, this`pending, scores
      ensures At(scores, 0) == Finish(i, old(At(scores, 0)))
    {
      scores[i.cp] := Wrap32(scores[i.cp] + pending);
      animStart := 0;
      pending := 0;
    }

    /** Display_UpdateDisplays (DisplayHandler.cpp:756-881), with
        CurrentScores, CurrentPlayer, CurrentNumPlayers, CurrentTime and
        CurrentAchievements passed in and `lib` the blank mask RPU_SetDisplay
        returns. It returns the tick level to play. */
    method UpdateDisplays(displayNum: byte, finish: bool, flash: bool, dash: byte, allScores: u32,
                          scores: array<u32>, cp: nat, numPlayers: nat, t: u32, achievements: seq<byte>,
                          lib: u32 -> bv8)
      returns (playTick: byte)
      requires Valid() && Apart(scores)
      requires Fits(Inputs(D, t, cp, numPlayers, achievements, lib, displayNum, finish, flash, dash, allScores),
                    At(scores, 0))
      modifies this`lastPhase, this`lastRemaining, this`animStart, this`pending, this`lastFlashOrDash
      modifies this`lastOther, this`overrideStatus, this`log, lastScroll, lastSeed, startSeed, scores
      ensures At(scores, playTick) ==
              Scoreboard.UpdateDisplays(Inputs(D, t, cp, numPlayers, achievements, lib, displayNum, finish, flash,
                                               dash, allScores),
                                        old(State()), old(scores[..]), old(log))
    {
      var i := Inputs(D, t, cp, numPlayers, achievements, lib, displayNum, finish, flash, dash, allScores);
      if finish {
        FinishAnimation(i, scores);
      }
      playTick := UpdateAll(i, scores);
    }

    /** The display loop (DisplayHandler.cpp:765-880): displays 0 to 3 in
        turn, each drawn by UpdateOne, the tick level threaded through. */
    method UpdateAll(i: Inputs, scores: array<u32>) returns (playTick: byte)
      requires Ready(i, scores)
      modifies this`lastPhase, this`lastRemaining, this`animStart, this`pending, this`lastFlashOrDash
      modifies this`lastOther, this`overrideStatus, this`log, lastScroll, lastSeed, startSeed, scores
      ensures At(scores, playTick) == UpdateUpTo(i, old(At(scores, 0)), DISPLAYS)
    {
      playTick := 0;
      ghost var w1 := At(scores, 0);
      var dc := 0;
      while dc < DISPLAYS
        invariant dc <= DISPLAYS && Ready(i, scores)
        invariant At(scores, playTick) == UpdateUpTo(i, w1, dc)
      {
        playTick := UpdateOne(i, dc, scores, playTick);
        dc := dc + 1;
      }
    }
  }
}
