/** Display_UpdateDisplays (DisplayHandler.cpp:756-881): the per-tick entry
    point. For each of the four displays it picks the one source that draws
    it, in a fixed precedence: the score-increment animation on the current
    player's display, then an override, then the plain score (or the
    carousel of the other players). */
module Scoreboard {
  import opened Machine
  import opened DigitMasks
  import opened Primitives
  import opened AnimatedValue
  import opened PlayerScore
  import opened Carousel
  import opened Animator

  const DISPLAYS: nat := 4
  const BLANK_SCORE: u32 := 0xFFFF_FFFF
  const ALL_DISPLAYS: byte := 0xFF

  /** What a call reads besides the display handler's own state: the build's
      digit count, CurrentTime, CurrentPlayer, CurrentNumPlayers,
      CurrentAchievements, the blank mask RPU_SetDisplay returns, and the
      call's arguments. */
  datatype Inputs = Inputs(D: nat, t: u32, cp: nat, numPlayers: nat, achievements: seq<byte>,
                           lib: u32 -> bv8, displayNum: byte, finish: bool, flash: bool,
                           dash: byte, allScores: u32)

  /** The state one call threads through the four displays: the tracking
      state, CurrentScores, the writes so far and the tick value to return. */
  datatype World = World(e: Engine, scores: seq<u32>, writes: seq<Write>, tick: byte)

  /** The player counts fit the score table, which has a slot per display at
      least; a game has at most eight players, and in a game of three or
      more the current player is one of them. */
  predicate Fits(i: Inputs, w: World) {
    ValidDigits(i.D) && |i.achievements| >= DISPLAYS && w.e.Valid() &&
    DISPLAYS <= |w.scores| && i.cp < |w.scores| && i.numPlayers <= |w.scores| && i.numPlayers <= 8 &&
    (3 <= i.numPlayers ==> i.cp < i.numPlayers)
  }

  /** The player number display dc stands for: with a player above the
      fourth current, the displays show players 4 to 7. */
  function Adjusted(i: Inputs, dc: nat): nat {
    if i.cp >= DISPLAYS then dc + DISPLAYS else dc
  }

  predicate Selected(i: Inputs, dc: nat) {
    i.displayNum == ALL_DISPLAYS || Adjusted(i, dc) == i.displayNum
  }

  /** A branch that draws display dc and nothing else: it changes no score,
      leaves the increment animation alone, may clear override bits but sets
      none, and only appends writes to display dc. */
  predicate Draws(w: World, r: World, dc: nat) {
    r.scores == w.scores && r.e.pending == w.e.pending && r.e.animStart == w.e.animStart &&
    r.e.overrideStatus & !w.e.overrideStatus == 0 && w.writes <= r.writes &&
    forall k :: |w.writes| <= k < |r.writes| ==> r.writes[k].Target() == dc
  }

  /** The branch leaves the override table's status and frame numbers. */
  predicate OverridesKept(w: World, r: World) {
    r.e.overrideStatus == w.e.overrideStatus && r.e.lastSeed == w.e.lastSeed
  }

  lemma AppendDraws(w: World, r: World, ws: seq<Write>, dc: nat)
    requires AllTo(ws, dc) && r.writes == w.writes + ws
    requires r.scores == w.scores && r.e.pending == w.e.pending && r.e.animStart == w.e.animStart
    requires r.e.overrideStatus & !w.e.overrideStatus == 0
    ensures Draws(w, r, dc)
  {
    forall k | |w.writes| <= k < |r.writes|
      ensures r.writes[k].Target() == dc
    {
      assert r.writes[k] == ws[k - |w.writes|];
    }
  }

  /** The tracking state after ShowPlayerScore drew frame f on display dc. */
  function AfterShow(e: Engine, dc: nat, f: ScoreFrame): (r: Engine)
    requires e.Valid() && dc < DISPLAYS
    ensures r.Valid()
  {
    e.(lastScroll := e.lastScroll[dc := f.lastScrollPhase], lastFlashOrDash := f.lastFlashOrDash)
  }

  /** The tracking state after ShowAnimatedValue drew frame f on display
      dc: its frame numbers, and its override bit cleared when a flyby ends. */
  function AfterFrame(e: Engine, dc: nat, f: Frame): (r: Engine)
    requires e.Valid() && dc < DISPLAYS
    ensures r.Valid()
  {
    var status := if f.clearOverride then e.overrideStatus & !Shl(1, dc) else e.overrideStatus;
    e.(lastSeed := e.lastSeed[dc := f.lastSeed], startSeed := e.startSeed[dc := f.startSeed],
       overrideStatus := status)
  }

  /** ShowPlayerScore on display dc, with its tracking bytes kept in the
      engine. */
  function ShowScoreOn(i: Inputs, w: World, dc: nat, value: u32, flash: bool, dash: byte): (r: World)
    requires Fits(i, w) && dc < DISPLAYS
    ensures Fits(i, r) && Draws(w, r, dc) && r.tick == w.tick && OverridesKept(w, r)
  {
    var f := Show(i.D, dc, value, i.achievements[dc], flash, dash, i.t, w.e.lastChange,
                  w.e.lastScroll[dc], w.e.lastFlashOrDash, i.lib);
    var r := w.(e := AfterShow(w.e, dc, f), writes := w.writes + f.writes);
    ShowTargetsDisplay(i.D, dc, value, i.achievements[dc], flash, dash, i.t, w.e.lastChange,
                       w.e.lastScroll[dc], w.e.lastFlashOrDash, i.lib);
    AppendDraws(w, r, f.writes, dc);
    r
  }

  /** ShowScoreOn is the frame Show draws, recorded. */
  lemma ShowScoreOnIs(i: Inputs, w: World, dc: nat, value: u32, flash: bool, dash: byte, f: ScoreFrame)
    requires Fits(i, w) && dc < DISPLAYS
    requires f == Show(i.D, dc, value, i.achievements[dc], flash, dash, i.t, w.e.lastChange,
                       w.e.lastScroll[dc], w.e.lastFlashOrDash, i.lib)
    ensures ShowScoreOn(i, w, dc, value, flash, dash) == w.(e := AfterShow(w.e, dc, f), writes := w.writes + f.writes)
  {
  }

  /** Moves all of the pending amount into score slot `slot` and ends the
      animation. */
  function Commit(w: World, slot: nat): (r: World)
    requires slot < |w.scores|
    ensures OverridesKept(w, r) && r.e.pending == 0 && r.e.animStart == 0
  {
    w.(e := w.e.(lastRemaining := 0, animStart := 0, pending := 0),
       scores := w.scores[slot := Wrap32(w.scores[slot] + w.e.pending)])
  }

  /** The first 1.5 s of a rolling animation (DisplayHandler.cpp:787-806):
      on a new 100 ms phase, the even phases blank the display and the odd
      ones show the leading digits of the pending amount and ask for a tick. */
  function RevealOn(w: World, dc: nat, t: u32): (r: World)
    ensures Draws(w, r, dc) && OverridesKept(w, r)
  {
    var phase := ToByte(Wrap32(t - w.e.animStart) / 100);
    if phase == w.e.lastPhase then w else RevealPhase(w, dc, phase, RollingReveal(w.e.pending, phase))
  }

  /** A new phase of the reveal: a blank display on an even phase, else the
      leading digits v of the pending amount and a tick. */
  function RevealPhase(w: World, dc: nat, phase: byte, v: u32): (r: World)
    ensures Draws(w, r, dc) && OverridesKept(w, r)
  {
    var even := phase % 2 == 0;
    var ws := if even then [SetBlank(dc, 0)] else [DigitsMin(dc, v, true, 1)];
    var r := w.(e := w.e.(lastPhase := phase), tick := if even then w.tick else 1, writes := w.writes + ws);
    AppendDraws(w, r, ws, dc);
    r
  }

  /** From 1.5 s to 3 s (DisplayHandler.cpp:808-815): the score plus the
      rolling part of the amount, with a tick each time the rolling part
      crosses a multiple of the tick size. */
  function RollOn(i: Inputs, w: World, dc: nat): (r: World)
    requires Fits(i, w) && dc < DISPLAYS
    ensures Fits(i, r) && Draws(w, r, dc) && OverridesKept(w, r)
  {
    RollBy(i, w, dc, RollingPart(Wrap32(i.t - w.e.animStart), w.e.pending))
  }

  /** The redraw of the current player's score plus the rolling part rem,
      followed by the crossing test. */
  function RollBy(i: Inputs, w: World, dc: nat, rem: u32): (r: World)
    requires Fits(i, w) && dc < DISPLAYS
    ensures Fits(i, r) && Draws(w, r, dc) && OverridesKept(w, r)
  {
    Crossing(w.e, rem, ShowScoreOn(i, w, dc, Wrap32(w.scores[i.cp] as int + rem), false, DASH_NONE))
  }

  /** After the redraw w1, a crossing of a multiple of the tick size by the
      rolling part rem records rem and raises the rolling tick. */
  function Crossing(e: Engine, rem: u32, w1: World): World {
    if e.tick > 1 && rem / e.tick != e.lastRemaining / e.tick then
      w1.(e := w1.e.(lastRemaining := rem), tick := ToByte(e.tickLevel + 1))
    else w1
  }

  /** One major tick moved into the current player's score: a tick while
      more than a tick is pending, else the rest, which ends the animation.
      The tick level becomes the value to return. */
  function TickApplied(i: Inputs, w: World, dc: nat, phase: byte): (r: World)
    requires Fits(i, w) && dc < DISPLAYS
    ensures Fits(i, r) && OverridesKept(w, r)
  {
    var e := w.e;
    var (s, p) := TickStep(w.scores[i.cp], e.pending, e.tick);
    var e1 := if e.pending > e.tick then e.(lastPhase := phase, pending := p)
              else e.(lastPhase := phase, pending := 0, animStart := 0, lastRemaining := 0);
    World(e1, w.scores[i.cp := s], w.writes, e.tickLevel)
  }

  /** Major ticks (DisplayHandler.cpp:822-836): a tick on each new 250 ms
      phase, and the score redrawn. */
  function TickOn(i: Inputs, w: World, dc: nat): (r: World)
    requires Fits(i, w) && dc < DISPLAYS
    ensures Fits(i, r) && OverridesKept(w, r)
  {
    var phase := ToByte(Wrap32(i.t - w.e.animStart) / 250);
    if phase == w.e.lastPhase then w
    else
      var w1 := TickApplied(i, w, dc, phase);
      ShowScoreOn(i, w1, dc, w1.scores[i.cp], false, DASH_NONE)
  }

  /** The rolling animation (DisplayHandler.cpp:786-821): the reveal, then
      the roll, then the commit at 3 s. */
  function Rolling(i: Inputs, w: World, dc: nat): (r: World)
    requires Fits(i, w) && dc < DISPLAYS
    ensures Fits(i, r) && OverridesKept(w, r)
  {
    if i.t < Wrap32(w.e.animStart + 1500) then RevealOn(w, dc, i.t)
    else if i.t < Wrap32(w.e.animStart + 3000) then RollOn(i, w, dc)
    else Commit(w, i.cp)
  }

  /** The jackpot branch (DisplayHandler.cpp:780-837) on display dc, which
      shows the current player. The amount goes into the current player's
      score; the source credits the display's own slot instead, which
      differs with the current player above the fourth (see
      JackpotCreditsDisplaySlot). */
  function Jackpot(i: Inputs, w: World, dc: nat): (r: World)
    requires Fits(i, w) && dc < DISPLAYS
    ensures Fits(i, r) && OverridesKept(w, r)
  {
    var e := w.e;
    if e.jackpotKind == JACKPOT_OFF then Commit(w, i.cp)
    else if e.jackpotKind == JACKPOT_ROLLING then Rolling(i, w, dc)
    else if e.jackpotKind == JACKPOT_MAJOR_TICKS then TickOn(i, w, dc)
    else w
  }

  /** The override branch (DisplayHandler.cpp:840-847) on display dc. */
  function OverrideOn(i: Inputs, w: World, dc: nat): (r: World)
    requires Fits(i, w) && dc < DISPLAYS
    ensures Fits(i, r) && Draws(w, r, dc) && r.tick == w.tick
  {
    var e := w.e;
    var v := e.overrideValue[dc];
    if v != BLANK_SCORE then
      var f := Animated(i.D, dc, v, e.animation[dc], e.overrideMask[dc], e.lastSeed[dc],
                        e.startSeed[dc], e.order[dc], i.t);
      var r := w.(e := AfterFrame(e, dc, f), writes := w.writes + f.writes);
      AnimatedFacts(i.D, dc, v, e.animation[dc], e.overrideMask[dc], e.lastSeed[dc],
                    e.startSeed[dc], e.order[dc], i.t);
      AppendDraws(w, r, f.writes, dc);
      r
    else
      var r := w.(writes := w.writes + [SetBlank(dc, 0)]);
      AppendDraws(w, r, [SetBlank(dc, 0)], dc);
      r
  }

  /** What the plain-score branch draws on a display. */
  datatype Plain = ShowValue(value: u32, flash: bool, dash: byte) | Blank | Others

  /** The plain-score branch's choice (DisplayHandler.cpp:848-876): the
      high-score value on every display, a blank past the last player, each
      player's own score when all fit, else the current player's score on
      its display and the carousel on the rest. Only the current player's
      display flashes or dashes. */
  function PlainChoice(i: Inputs, w: World, dc: nat): (c: Plain)
    requires Fits(i, w) && dc < DISPLAYS
  {
    if i.allScores != BLANK_SCORE then ShowValue(i.allScores, false, DASH_NONE)
    else if i.numPlayers != 0 && dc > i.numPlayers - 1 then Blank
    else if i.numPlayers <= DISPLAYS then
      if i.cp == dc then ShowValue(w.scores[dc], i.flash, i.dash)
      else ShowValue(w.scores[dc], false, DASH_NONE)
    else if i.cp == Adjusted(i, dc) then ShowValue(w.scores[i.cp], i.flash, i.dash)
    else Others
  }

  /** The carousel on display dc. */
  function CarouselOn(i: Inputs, w: World, dc: nat): (r: World)
    requires Fits(i, w) && dc < DISPLAYS
    ensures Fits(i, r) && Draws(w, r, dc) && r.tick == w.tick
  {
    var (last', ws) := OtherScores(i.D, dc, w.scores, i.numPlayers, i.cp, i.t, w.e.lastOther);
    var r := w.(e := w.e.(lastOther := last'), writes := w.writes + ws);
    OtherScoresFacts(i.D, dc, w.scores, i.numPlayers, i.cp, i.t, w.e.lastOther);
    AppendDraws(w, r, ws, dc);
    r
  }

  /** LastOtherScoresPhaseShown is one global for all displays: once a
      display has drawn the carousel frame of time t, the carousel on any
      other display in the same call draws nothing and changes nothing. */
  lemma CarouselFrameIsShared(i: Inputs, w: World, dc1: nat, dc2: nat)
    requires Fits(i, w) && dc1 < DISPLAYS && dc2 < DISPLAYS
    ensures CarouselOn(i, CarouselOn(i, w, dc1), dc2) == CarouselOn(i, w, dc1)
  {
    OtherScoresFacts(i.D, dc1, w.scores, i.numPlayers, i.cp, i.t, w.e.lastOther);
  }

  /** The plain-score branch on display dc. */
  function PlainOn(i: Inputs, w: World, dc: nat): (r: World)
    requires Fits(i, w) && dc < DISPLAYS
    ensures Fits(i, r) && Draws(w, r, dc) && r.tick == w.tick
  {
    match PlainChoice(i, w, dc)
    case ShowValue(v, flash, dash) => ShowScoreOn(i, w, dc, v, flash, dash)
    case Blank =>
      var r := w.(writes := w.writes + [SetBlank(dc, 0)]);
      AppendDraws(w, r, [SetBlank(dc, 0)], dc);
      r
    case Others => CarouselOn(i, w, dc)
  }

  /** One pass of the display loop. */
  function UpdateOne(i: Inputs, w: World, dc: nat): (r: World)
    requires Fits(i, w) && dc < DISPLAYS
    ensures Fits(i, r)
  {
    if !Selected(i, dc) then w
    else if w.e.animStart != 0 && i.cp == Adjusted(i, dc) then Jackpot(i, w, dc)
    else if Bit(w.e.overrideStatus, dc) then OverrideOn(i, w, dc)
    else PlainOn(i, w, dc)
  }

  /** The display loop over the first n displays. */
  function UpdateUpTo(i: Inputs, w: World, n: nat): (r: World)
    requires Fits(i, w) && n <= DISPLAYS
    ensures Fits(i, r)
  {
    if n == 0 then w else UpdateOne(i, UpdateUpTo(i, w, n - 1), n - 1)
  }

  /** finishAnimation: commits the pending amount to the current player. */
  function Finish(i: Inputs, w: World): (r: World)
    requires Fits(i, w)
    ensures Fits(i, r)
  {
    if i.finish then
      w.(e := w.e.(animStart := 0, pending := 0),
         scores := w.scores[i.cp := Wrap32(w.scores[i.cp] + w.e.pending)])
    else w
  }

  /** Display_UpdateDisplays: the new state, scores and display log (the
      writes so far, `log`, with this call's appended), and the tick to play. */
  function UpdateDisplays(i: Inputs, e: Engine, scores: seq<u32>, log: seq<Write>): (r: World)
    requires Fits(i, World(e, scores, log, 0))
    ensures Fits(i, r)
  {
    UpdateUpTo(i, Finish(i, World(e, scores, log, 0)), DISPLAYS)
  }

  // ------------------------------------------------------------- invariants

  /** Score plus pending amount for the current player. */
  function Held(i: Inputs, w: World): u32
    requires Fits(i, w)
  {
    Wrap32(w.scores[i.cp] + w.e.pending)
  }

  /** What the display loop keeps: the current player's score plus the
      pending amount, and every other score. It never sets an override bit,
      only appends writes, and only for a selected display below four.
      Without an increment animation it changes no score and nothing
      pending. */
  predicate Keeps(i: Inputs, w: World, r: World)
    requires Fits(i, w) && Fits(i, r)
  {
    |r.scores| == |w.scores| && Held(i, r) == Held(i, w) &&
    (forall k :: 0 <= k < |w.scores| && k != i.cp ==> r.scores[k] == w.scores[k]) &&
    r.e.overrideStatus & !w.e.overrideStatus == 0 &&
    w.writes <= r.writes &&
    (forall k :: |w.writes| <= k < |r.writes| ==>
       r.writes[k].Target() < DISPLAYS && Selected(i, r.writes[k].Target())) &&
    (w.e.animStart == 0 ==> r.e.animStart == 0 && r.e.pending == w.e.pending && r.scores == w.scores)
  }

  lemma KeepsTransitive(i: Inputs, w0: World, w1: World, w2: World)
    requires Fits(i, w0) && Fits(i, w1) && Fits(i, w2)
    requires Keeps(i, w0, w1) && Keeps(i, w1, w2)
    ensures Keeps(i, w0, w2)
  {
    var s0, s1, s2 := w0.e.overrideStatus, w1.e.overrideStatus, w2.e.overrideStatus;
    assert s2 & !s0 == 0 by {
      assert s1 & !s0 == 0 && s2 & !s1 == 0;
    }
    forall k | |w0.writes| <= k < |w2.writes|
      ensures w2.writes[k].Target() < DISPLAYS && Selected(i, w2.writes[k].Target())
    {
      if k < |w1.writes| {
        assert w2.writes[k] == w1.writes[k];
      }
    }
  }

  /** A branch that draws only a selected display keeps the facts. */
  lemma DrawsKeeps(i: Inputs, w: World, r: World, dc: nat)
    requires Fits(i, w) && Fits(i, r) && dc < DISPLAYS && Selected(i, dc) && Draws(w, r, dc)
    ensures Keeps(i, w, r)
  {
  }

  /** Committing the pending amount to the current player's slot. */
  lemma CommitKeeps(i: Inputs, w: World, dc: nat)
    requires Fits(i, w) && dc < DISPLAYS && Selected(i, dc) && i.cp == Adjusted(i, dc)
    requires w.e.animStart != 0
    ensures Fits(i, Commit(w, i.cp)) && Keeps(i, w, Commit(w, i.cp))
  {
    WrapAdd(w.scores[i.cp] + w.e.pending, 0);
  }

  lemma TickAppliedKeeps(i: Inputs, w: World, dc: nat, phase: byte)
    requires Fits(i, w) && dc < DISPLAYS && Selected(i, dc)
    requires w.e.animStart != 0 && i.cp == Adjusted(i, dc)
    ensures Keeps(i, w, TickApplied(i, w, dc, phase))
  {
    TickStepConserves(w.scores[i.cp], w.e.pending, w.e.tick);
  }

  lemma MajorTicksKeeps(i: Inputs, w: World, dc: nat)
    requires Fits(i, w) && dc < DISPLAYS && Selected(i, dc)
    requires w.e.animStart != 0 && i.cp == Adjusted(i, dc)
    ensures Keeps(i, w, TickOn(i, w, dc))
  {
    var phase := ToByte(Wrap32(i.t - w.e.animStart) / 250);
    if phase == w.e.lastPhase {
      DrawsKeeps(i, w, w, dc);
    } else {
      var w1 := TickApplied(i, w, dc, phase);
      var r := ShowScoreOn(i, w1, dc, w1.scores[i.cp], false, DASH_NONE);
      assert TickOn(i, w, dc) == r;
      TickShownKeeps(i, w, dc, phase);
    }
  }

  /** A new tick phase: the tick moved into the score, then the score drawn. */
  lemma TickShownKeeps(i: Inputs, w: World, dc: nat, phase: byte)
    requires Fits(i, w) && dc < DISPLAYS && Selected(i, dc)
    requires w.e.animStart != 0 && i.cp == Adjusted(i, dc)
    ensures var w1 := TickApplied(i, w, dc, phase);
            Keeps(i, w, ShowScoreOn(i, w1, dc, w1.scores[i.cp], false, DASH_NONE))
  {
    var w1 := TickApplied(i, w, dc, phase);
    var r := ShowScoreOn(i, w1, dc, w1.scores[i.cp], false, DASH_NONE);
    TickAppliedKeeps(i, w, dc, phase);
    DrawsKeeps(i, w1, r, dc);
    KeepsTransitive(i, w, w1, r);
  }

  lemma RollingKeeps(i: Inputs, w: World, dc: nat)
    requires Fits(i, w) && dc < DISPLAYS && Selected(i, dc)
    requires w.e.animStart != 0 && i.cp == Adjusted(i, dc)
    ensures Keeps(i, w, Rolling(i, w, dc))
  {
    if i.t < Wrap32(w.e.animStart + 1500) {
      DrawsKeeps(i, w, RevealOn(w, dc, i.t), dc);
    } else if i.t < Wrap32(w.e.animStart + 3000) {
      DrawsKeeps(i, w, RollOn(i, w, dc), dc);
    } else {
      CommitKeeps(i, w, dc);
    }
  }

  lemma JackpotKeeps(i: Inputs, w: World, dc: nat)
    requires Fits(i, w) && dc < DISPLAYS && Selected(i, dc)
    requires w.e.animStart != 0 && i.cp == Adjusted(i, dc)
    ensures Keeps(i, w, Jackpot(i, w, dc))
  {
    var e := w.e;
    if e.jackpotKind == JACKPOT_OFF {
      CommitKeeps(i, w, dc);
    } else if e.jackpotKind == JACKPOT_ROLLING {
      RollingKeeps(i, w, dc);
    } else if e.jackpotKind == JACKPOT_MAJOR_TICKS {
      MajorTicksKeeps(i, w, dc);
    } else {
      DrawsKeeps(i, w, w, dc);
    }
  }

  lemma UpdateOneKeeps(i: Inputs, w: World, dc: nat)
    requires Fits(i, w) && dc < DISPLAYS
    ensures Keeps(i, w, UpdateOne(i, w, dc))
  {
    if !Selected(i, dc) {
    } else if w.e.animStart != 0 && i.cp == Adjusted(i, dc) {
      JackpotKeeps(i, w, dc);
    } else if Bit(w.e.overrideStatus, dc) {
      DrawsKeeps(i, w, OverrideOn(i, w, dc), dc);
    } else {
      DrawsKeeps(i, w, PlainOn(i, w, dc), dc);
    }
  }

  lemma {:induction false} UpdateUpToKeeps(i: Inputs, w: World, n: nat)
    requires Fits(i, w) && n <= DISPLAYS
    ensures Keeps(i, w, UpdateUpTo(i, w, n))
  {
    if n > 0 {
      UpdateUpToKeeps(i, w, n - 1);
      KeepsStep(i, w, UpdateUpTo(i, w, n - 1), n - 1);
    }
  }

  /** One more display keeps what the displays before it kept. */
  lemma KeepsStep(i: Inputs, w: World, w1: World, dc: nat)
    requires Fits(i, w) && Fits(i, w1) && dc < DISPLAYS && Keeps(i, w, w1)
    ensures Keeps(i, w, UpdateOne(i, w1, dc))
  {
    UpdateOneKeeps(i, w1, dc);
    KeepsTransitive(i, w, w1, UpdateOne(i, w1, dc));
  }

  /** Display_UpdateDisplays loses no points: score plus pending amount of
      the current player is the same after the call and no other player's
      score changes. It never sets an override bit,
      writes only to selected displays below four, and after
      finishAnimation nothing is pending. */
  lemma UpdateDisplaysFacts(i: Inputs, e: Engine, scores: seq<u32>, log: seq<Write>)
    requires Fits(i, World(e, scores, log, 0))
    ensures var r := UpdateDisplays(i, e, scores, log);
            var w := World(e, scores, log, 0);
            |r.scores| == |scores| && Held(i, r) == Held(i, w) &&
            (forall k :: 0 <= k < |scores| && k != i.cp ==> r.scores[k] == scores[k]) &&
            r.e.overrideStatus & !e.overrideStatus == 0 &&
            log <= r.writes &&
            (forall k :: |log| <= k < |r.writes| ==>
               r.writes[k].Target() < DISPLAYS && Selected(i, r.writes[k].Target())) &&
            (i.finish ==> r.e.pending == 0 && r.e.animStart == 0)
  {
    var w := World(e, scores, log, 0);
    var w1 := Finish(i, w);
    if i.finish {
      WrapAdd(scores[i.cp] + e.pending, 0);
    }
    UpdateUpToKeeps(i, w1, DISPLAYS);
  }

  // ------------------------------------------------------------ observations

  /** Display_UpdateDisplays returns its tick through a variable declared
      `boolean`: any nonzero level arrives as 1. */
  function PlayTickAsWritten(r: World): (b: byte)
    ensures b <= 1 && (b == 0 <==> r.tick == 0)
  {
    if r.tick != 0 then 1 else 0
  }

  /** On a new major-tick phase the pass asks for the tick level set when the
      animation started; as written, every level above 1 comes back as 1. */
  lemma MajorTickLevelIsLost(i: Inputs, w: World, dc: nat)
    requires Fits(i, w) && dc < DISPLAYS && w.e.jackpotKind == JACKPOT_MAJOR_TICKS
    requires ToByte(Wrap32(i.t - w.e.animStart) / 250) != w.e.lastPhase
    ensures TickOn(i, w, dc).tick == w.e.tickLevel
    ensures w.e.tickLevel > 1 ==> PlayTickAsWritten(TickOn(i, w, dc)) != w.e.tickLevel
  {
  }

  /** The same for the rolling ticks, which ask for the level plus one. */
  lemma RollingTickLevelIsLost(i: Inputs, w: World, dc: nat)
    requires Fits(i, w) && dc < DISPLAYS && w.e.tickLevel < 255
    requires var rem := RollingPart(Wrap32(i.t - w.e.animStart), w.e.pending);
             w.e.tick > 1 && rem / w.e.tick != w.e.lastRemaining / w.e.tick
    ensures RollOn(i, w, dc).tick == w.e.tickLevel + 1
    ensures w.e.tickLevel > 0 ==> PlayTickAsWritten(RollOn(i, w, dc)) != RollOn(i, w, dc).tick
  {
    RollByRaisesTick(i, w, dc, RollingPart(Wrap32(i.t - w.e.animStart), w.e.pending));
  }

  lemma RollByRaisesTick(i: Inputs, w: World, dc: nat, rem: u32)
    requires Fits(i, w) && dc < DISPLAYS && w.e.tickLevel < 255
    requires w.e.tick > 1 && rem / w.e.tick != w.e.lastRemaining / w.e.tick
    ensures RollBy(i, w, dc, rem).tick == w.e.tickLevel + 1
  {
  }

  /** The carousel's two per-player tables are declared with four entries,
      while its loops index them with every player number below
      CurrentNumPlayers. */
  const CAROUSEL_TABLE_ENTRIES: nat := 4

  predicate CarouselTablesCover(numPlayers: nat) {
    numPlayers <= CAROUSEL_TABLE_ENTRIES
  }

  /** The carousel is only reached with more than four players, so as written
      it always indexes past the end of its tables; the model's carousel
      keeps one entry per player instead. */
  lemma CarouselOverrunsItsTables(i: Inputs, w: World, dc: nat)
    requires Fits(i, w) && dc < DISPLAYS && PlainChoice(i, w, dc) == Others
    ensures !CarouselTablesCover(i.numPlayers)
    ensures i.cp != Adjusted(i, dc) && dc < i.numPlayers
  {
  }

  /** As written, the jackpot branch credits CurrentScores[displayCount]
      (DisplayHandler.cpp:783, 818, 828-832), the display's own slot. With
      the current player above the fourth that is player cp - 4: a commit
      there moves the pending amount into another player's score and the
      current player loses it. The model's Jackpot credits the current
      player. */
  lemma JackpotCreditsDisplaySlot(i: Inputs, w: World, dc: nat)
    requires Fits(i, w) && dc < DISPLAYS && Selected(i, dc)
    requires w.e.animStart != 0 && i.cp >= DISPLAYS && i.cp == Adjusted(i, dc)
    ensures dc == i.cp - DISPLAYS
    ensures Commit(w, dc).scores[dc] == Wrap32(w.scores[dc] + w.e.pending)
    ensures w.e.pending != 0 ==> Held(i, Commit(w, dc)) != Held(i, w)
    ensures w.e.jackpotKind == JACKPOT_OFF ==>
              Held(i, Jackpot(i, w, dc)) == Held(i, w) && Jackpot(i, w, dc).scores[dc] == w.scores[dc]
  {
  }

  /** While the jackpot animation runs on the current player's display, it
      is drawn instead of any override there, and the override's state is
      kept for later. */
  lemma JackpotHidesOverride(i: Inputs, w: World, dc: nat)
    requires Fits(i, w) && dc < DISPLAYS && Selected(i, dc)
    requires w.e.animStart != 0 && i.cp == Adjusted(i, dc)
    ensures var r := UpdateOne(i, w, dc);
            r == Jackpot(i, w, dc) &&
            r.e.overrideStatus == w.e.overrideStatus && r.e.lastSeed == w.e.lastSeed
  {
  }

  /** Without an increment animation and without finishAnimation, a call
      changes no score; in particular after
      Display_ResetDisplayTrackingVariables, which drops the pending amount
      uncommitted. */
  lemma IdleCallKeepsScores(i: Inputs, e: Engine, scores: seq<u32>, log: seq<Write>)
    requires Fits(i, World(e, scores, log, 0)) && e.animStart == 0 && !i.finish
    ensures UpdateDisplays(i, e, scores, log).scores == scores
    ensures UpdateDisplays(i, e, scores, log).e.pending == e.pending
  {
    UpdateUpToKeeps(i, World(e, scores, log, 0), DISPLAYS);
  }

  /** A display the call does not select is left exactly as it was. */
  lemma UnselectedUntouched(i: Inputs, w: World, dc: nat)
    requires Fits(i, w) && dc < DISPLAYS && !Selected(i, dc)
    ensures UpdateOne(i, w, dc) == w
  {
  }
}
