# Score displays and operator menu of the LostWorld pinball firmware

This project models two parts of the LostWorld25 pinball firmware in Dafny:

- **The display handler** (`DisplayHandler.cpp`, the build without DMD displays). It drives the four player displays:
  - each player's score, scrolled when it is too wide for the display;
  - flashing and dashing of the current player's score;
  - blinking of a pending achievement;
  - the animation that counts a score increment into a player's score;
  - override values drawn with one of six effects (bounce, flutter, flyby, centred, centred flash, symmetric bounce);
  - the carousel that shows the other players' scores when there are more players than displays.
- **The operator menu** (`OperatorMenus.cpp`):
  - top-level and sub-level navigation and the read-and-clear change flags;
  - the table of allowed values a setting is adjusted within;
  - the press of the enter button that steps a byte, list or score setting or clears an audit;
  - the digit masks of the switch test;
  - the default lamp and solenoid lookups.

Both files keep their state in place, so the model has two classes:

- `Handler.DisplayHandler` holds the display handler's globals.
- `Menus.OperatorMenus` holds the operator menu's members.

Each method is proved against a pure function of the old state and the inputs. The lemmas about those functions state what the code promises:
- conservation of points through every path of the increment animation;
- frame gating, so each effect draws once per frame number;
- the geometry of every effect (triangle bounce, mirrored digit, centring, flyby entry and exit);
- the scroll's two non-overlapping halves;
- the rolling dash;
- the carousel's phase accounting;
- the menu's cycles, and its inverse up and down steps.

Machine arithmetic is explicit:

| firmware type | Dafny model |
|---|---|
| `byte` | `0..255`, with `ToByte` wrap-around |
| `unsigned long` | `0..2^32-1`, with `Wrap32` wrap-around |
| display masks | `bv8` |

Mask bit `b` stands for the display position of decimal weight `D-1-b`, where `D` is `DISPLAY_NUM_DIGITS`: 6 or 7, a constant of the build.

Calls into the RPU hardware library are modelled as follows:
- `RPU_SetDisplay` and `RPU_SetDisplayBlank` become `Write` values appended to a ghost display log.
- The blank mask that `RPU_SetDisplay` returns is a function parameter `lib`.
- `CurrentTime`, `CurrentScores`, `CurrentPlayer`, `CurrentNumPlayers` and `CurrentAchievements` are inputs.
- `RPU_GetUpDownSwitchState()` is the boolean `up`.
- The `OPERATOR_MENU_*` constants come from a header that is not part of this model, so they form a record (`MenuSteps.MenuConstants`) given to the menu when it is built.

Files and modules:

| file | module | models |
|---|---|---|
| Machine.dfy | Machine | byte and `unsigned long` arithmetic, powers of ten, bit helpers |
| DigitMasks.dfy | DigitMasks | `Display_MagnitudeOfScore`, `GetDisplayMask`, the shift loops |
| Primitives.dfy | Primitives | the display writes |
| AnimatedValue.dfy | AnimatedValue | `ShowAnimatedValue` |
| PlayerScore.dfy | PlayerScore | `ShowPlayerScore` |
| Carousel.dfy | Carousel | `ShowOtherScores` |
| Animator.dfy | Animator | the handler's globals, `Display_StartScoreAnimation`, the increment animation's arithmetic |
| OverrideTable.dfy | OverrideTable | the override table entry points |
| Scoreboard.dfy | Scoreboard | `Display_UpdateDisplays` |
| DisplayHandler.dfy | Handler | the display handler as a class |
| MenuSteps.dfy | MenuSteps | the operator menu's rules as functions |
| OperatorMenus.dfy | Menus | the `OperatorMenus` class |

Where the documented behaviour and the code differ, the model follows the code:
- Between 1.5 s and 3 s of a rolling increment, the shown share is `(elapsed - 1500) * amount / 3000` (DisplayHandler.cpp:810).
  - So it climbs to about half of the amount before the commit at 3 s, not to the whole amount.

Where the code is wrong (see Findings), the main model follows the corrected behaviour. A lemma states what the code does as written. "## Left out" names each member that differs from the source this way.

Behaviour the model keeps as written and states in lemmas:
- A wide score's scroll draws nothing in phases 11 to 15 (`PlayerScore.ScrollIsGated`).
- `Display_ResetDisplayTrackingVariables` drops the pending amount uncommitted (`Scoreboard.IdleCallKeepsScores`).
- A major-tick animation started without ticks for an amount below 9 has tick size 0 and never moves its amount (`Animator.NoTickSmallAmount`, `Animator.ZeroTickStalls`).
  - It ends only through `finishAnimation` or a new `Display_StartScoreAnimation`.
- `LastOtherScoresPhaseShown` is one global for all four displays (DisplayHandler.cpp:436-444). So in one `Display_UpdateDisplays` call, only the first display to reach the carousel draws a frame. Any later display on the carousel draws nothing (`Scoreboard.CarouselFrameIsShared`).
  - For example, with five players, the first player current and no overrides, display 1 shows the carousel, and displays 2 and 3 are never drawn.
  - `Carousel.OtherScoresFacts`' "once per 80 ms frame" therefore means once per frame across all displays, not once per display.
- A MIN_MAX_DEFAULT setting stepped down from its default 99 becomes 98. That is outside the range whenever the maximum is below 98 (`MenuSteps.DefaultStepDownFrom99`).

## Model

| member | source | states |
|---|---|---|
| DigitMasks.MagnitudeOfScore | DisplayHandler.cpp:58-67 | the loop returns the number of decimal digits of the score, 0 for a zero score |
| DigitMasks.MagnitudeBounds | DisplayHandler.cpp:58-67 | a positive score with r digits lies in [10^(r-1), 10^r) |
| DigitMasks.MagnitudeExact | DisplayHandler.cpp:58-67 | conversely those bounds fix the digit count |
| DigitMasks.MagnitudeAtMost | DisplayHandler.cpp:58-67 | a number below 10^r has at most r digits |
| DigitMasks.MagnitudeOfU32 | DisplayHandler.cpp:58-67 | an `unsigned long` has at most ten digits |
| DigitMasks.GetDisplayMask | DisplayHandler.cpp:107-117 | the loop returns the mask of a right-justified number of n digits |
| DigitMasks.DisplayMaskBits | DisplayHandler.cpp:107-117 | that mask lights exactly the min(n, D) rightmost positions and nothing at or above bit D |
| DigitMasks.SlideLeft | DisplayHandler.cpp:147-150 | k passes multiply the value by 10^k modulo 2^32 and shift the mask k positions toward the left edge |
| DigitMasks.SlideRight | DisplayHandler.cpp:188-191 | k passes divide the value by 10^k and shift the mask k positions toward the right edge |
| DigitMasks.SlideValue | DisplayHandler.cpp:147-150 | a value slid s places keeps its digits and gains s zero digits below them |
| DigitMasks.SlideMask | DisplayHandler.cpp:147-150 | the slid mask lights exactly the positions of weights s to s+n-1 |
| DigitMasks.MagnitudeOfDiv | DisplayHandler.cpp:188-191 | dividing by 10^k drops exactly k digits |
| OverrideTable.Override | DisplayHandler.cpp:88-96 | a display number of 4 or more changes nothing; otherwise only that display's status bit is set, its value, effect and mask are taken over, its frame number is reset to 255, and every other display is untouched |
| OverrideTable.ClearOverride | DisplayHandler.cpp:99-105 | 0xFF clears every override; any other number clears its own bit and no other, and nothing else changes |
| OverrideTable.ClearUndoesOverride | DisplayHandler.cpp:88-105 | clearing an override restores the status the display had before it was set |
| OverrideTable.SetAnimationDisplayOrder | DisplayHandler.cpp:120-125 | the four flyby orders are replaced, nothing else changes |
| OverrideTable.ResetTracking | DisplayHandler.cpp:70-76 | the increment animation ends with nothing pending, the phase at 255 and the tick level 0; every other global is kept |
| OverrideTable.SetBitOnly | DisplayHandler.cpp:94 | `status \| (0x01 << d)` sets bit d and no other |
| OverrideTable.ClearBitOnly | DisplayHandler.cpp:103 | `status & ~(0x01 << d)` clears bit d and no other |
| Animator.Initial | DisplayHandler.cpp:33-51 | the firmware starts with nothing pending, no override, every override mask 0xFF and the flyby order 0, 1, 2, 3 |
| Animator.TickFor | DisplayHandler.cpp:402-428 | the tick size and level for an amount: the table by amount when ticks are played, else amount / 9 at level 0 for a major-tick animation and 1 at level 0 otherwise; its properties are Animator.TickTable and Animator.NoTickSmallAmount |
| Animator.Start | DisplayHandler.cpp:391-429 | Display_StartScoreAnimation on values: commits a pending amount to the current player, then starts the new one with TickFor's tick; Animator.StartConserves states that no points are lost |
| Animator.TickStep | DisplayHandler.cpp:827-835 | one major tick moves min(tick, pending) from pending into the score; Animator.TickStepConserves, Animator.TicksFinish and Animator.ZeroTickStalls state its effect |
| Animator.RollingReveal | DisplayHandler.cpp:795-801 | the leading part of the pending amount a reveal phase shows; Animator.RollingRevealDigits states how many digits |
| Animator.RollingPart | DisplayHandler.cpp:808-810 | the rolling share with the source's unsigned long wrap; Animator.RollingPartBounds and Animator.RollingProduct state its range and value |
| Animator.TickTable | DisplayHandler.cpp:402-422 | with ticks, a larger amount never gets a smaller tick or a lower level; the level is 1 to 6, the tick positive, and an amount takes at most ten ticks |
| Animator.NoTickSmallAmount | DisplayHandler.cpp:423-428 | without ticks, a major-tick animation of an amount below 9 has tick size 0 |
| Animator.StartConserves | DisplayHandler.cpp:391-400 | starting an animation loses no points: the current player's score plus pending grows by exactly the new amount, and no other score changes |
| Animator.TickStepConserves | DisplayHandler.cpp:827-835 | one major tick keeps score plus pending and never raises what is pending |
| Animator.TicksFinish | DisplayHandler.cpp:822-836 | with a positive tick, ceil(pending / tick) ticks commit the whole amount |
| Animator.ZeroTickStalls | DisplayHandler.cpp:827-829 | with a zero tick a positive pending amount never moves |
| Animator.RollingRevealDigits | DisplayHandler.cpp:795-801 | reveal phase p shows the leading min(p/2 + 1, n) digits of the pending amount, never more than the amount |
| Animator.RollingPartBounds | DisplayHandler.cpp:808-810 | for a pending amount below 2^32 / 1500 = 2,863,311, the rolling share grows with time and stays at most half of the amount; larger amounts can make the source's `unsigned long` product wrap, and the lemma says nothing about them |
| Animator.RollingProduct | DisplayHandler.cpp:810 | below the wrap, the rolling share is exactly (elapsed - 1500) * pending / 3000 |
| AnimatedValue.DigitsShown | DisplayHandler.cpp:135-136 | an override value is laid out with 1 to 10 digits; zero takes one |
| AnimatedValue.DigitsShownFits | DisplayHandler.cpp:135-136 | the value is below 10 to the power of its digit count |
| AnimatedValue.BounceIsTriangle | DisplayHandler.cpp:139-144 | the bounce slide is a triangle wave 0, 1, ..., D-n and back, peaking only at frame D-n |
| AnimatedValue.BounceFrame | DisplayHandler.cpp:137-154 | the bounce branch: the value slid left by the folded seed, once per new seed; AnimatedValue.BounceIsTriangle, BounceMovesOneStep, BounceKeepsDigitsAndMaskTogether and BounceGated state its properties |
| AnimatedValue.FlutterFrame | DisplayHandler.cpp:155-167 | the flutter branch: alternate halves of the value's positions, once per new seed; AnimatedValue.FlutterAlternates and FlutterGated |
| AnimatedValue.FlybyFrame | DisplayHandler.cpp:168-202 | the flyby branch: start frame, elapsed count, end after 34 frames, and the signed slide; AnimatedValue.FlybyElapsedAcrossWrap, FlybyStartsOffDisplay, FlybyFullWidthShowsLeadingDigit, FlybyEnds, FlybyRests and FlybyGated |
| AnimatedValue.CenterFrame | DisplayHandler.cpp:203-228 | the centred and centred-flash branch; AnimatedValue.CenterIsCentred, CenterTooWideIsDark and CenterGated |
| AnimatedValue.SymmetricFrame | DisplayHandler.cpp:229-260 | the symmetric bounce of a one-digit value, the digit and its mirror; AnimatedValue.SymmetricShiftBound, SymmetricMaskIsMirrored, SymmetricValueIsMirrored and SymmetricGated |
| AnimatedValue.Animated | DisplayHandler.cpp:131-270 | ShowAnimatedValue's branch order: bounce, flutter, flyby, centred, symmetric, else the plain value under its mask; AnimatedValue.AnimatedFacts states what every branch keeps |
| AnimatedValue.BounceMovesOneStep | DisplayHandler.cpp:139-144 | each new frame moves the value by exactly one position, also across the end of the period |
| AnimatedValue.BounceKeepsDigitsAndMaskTogether | DisplayHandler.cpp:143-153 | the bounced value never wraps, and its mask lights exactly the positions its digits occupy |
| AnimatedValue.ExactSlide | DisplayHandler.cpp:147-150 | a slide by at most the free positions never overflows |
| AnimatedValue.FlutterAlternates | DisplayHandler.cpp:156-166 | consecutive flutter frames light complementary halves of the value's positions |
| AnimatedValue.FlybyElapsedAcrossWrap | DisplayHandler.cpp:176-177 | before the frame counter wraps the elapsed count is the difference; after it, one less, so frames 255 and 0 look the same |
| AnimatedValue.FlybyStartsOffDisplay | DisplayHandler.cpp:169-200 | for a value of at most D - 2 digits, the first frame after an override was set becomes the start frame and draws a dark display |
| AnimatedValue.FlybyFullWidthShowsLeadingDigit | DisplayHandler.cpp:169-200 | a full-width value on seven digits with flyby order 0 is not dark on its first frame: slid six positions right, its leading digit shows in the ones position (mask 0xC0) |
| AnimatedValue.FlybyEnds | DisplayHandler.cpp:179-181 | the first new frame more than 34 frames after the start blanks the display and clears the override |
| AnimatedValue.FlybyRests | DisplayHandler.cpp:183-200 | at frame 6 * (order + 1) the value is at its resting place, so displays of higher order arrive later |
| AnimatedValue.CenterIsCentred | DisplayHandler.cpp:210-217 | a value that fits is centred: the free positions left and right differ by at most one, the extra one on the left |
| AnimatedValue.CenterTooWideIsDark | DisplayHandler.cpp:210-217 | a value of D+2 digits or more gets a byte slide of 254 or 255 and is drawn as a dark 0 |
| AnimatedValue.SymmetricShiftBound | DisplayHandler.cpp:237-240 | the symmetric bounce never slides past the centre |
| AnimatedValue.SymmetricMaskIsMirrored | DisplayHandler.cpp:242-257 | the symmetric mask lights position s and its mirror D-1-s, and nothing else |
| AnimatedValue.SymmetricValueIsMirrored | DisplayHandler.cpp:243-255 | the digit is shown at weight 10^s and, unless that is the centre, at weight 10^(D-1-s) |
| AnimatedValue.BounceGated | DisplayHandler.cpp:139-142 | the bounce draws at most once per frame number and only to its display |
| AnimatedValue.FlutterGated | DisplayHandler.cpp:156-158 | the same for the flutter |
| AnimatedValue.FlybyGated | DisplayHandler.cpp:169-174 | the same for the flyby, which moves its start frame only on its first frame |
| AnimatedValue.CenterGated | DisplayHandler.cpp:206-209 | the same for the centred effects |
| AnimatedValue.SymmetricGated | DisplayHandler.cpp:231-235 | the same for the symmetric bounce |
| AnimatedValue.AnimatedFacts | DisplayHandler.cpp:131-269 | every write goes to the display drawn; only a flyby ends its override; effects are frame-gated; an override without an effect is redrawn on every call |
| PlayerScore.BlinkOnlyTouchesOnesDigit | DisplayHandler.cpp:296-299 | a pending achievement darkens the ones digit in odd 200 ms slots and no other position |
| PlayerScore.ScrollTop | DisplayHandler.cpp:310-313 | after a pass the upper part is below 10^(D+1) and ends in 0 |
| PlayerScore.ScrollTopLowDigitsFree | DisplayHandler.cpp:310-313 | after k passes the k lowest digits of the upper part are free |
| PlayerScore.ScrollTopFits | DisplayHandler.cpp:311 | a scroll pass never overflows |
| PlayerScore.ScrollLowWidth | DisplayHandler.cpp:320-326 | the lower part brings in exactly the digits that phase reaches past the ten-digit window |
| PlayerScore.ScrollFrame | DisplayHandler.cpp:303-327 | the scroll loops compute the value and mask of ScrollImage |
| PlayerScore.ScrollUpper | DisplayHandler.cpp:307-317 | the upper-part loop: `phase` passes before phase D, nothing afterwards |
| PlayerScore.ScrollImageEarly | DisplayHandler.cpp:308-317 | before the lower part is due, the frame is the upper part alone |
| PlayerScore.ScrollImageLate | DisplayHandler.cpp:320-327 | once due, the lower part is added to the value and its mask ored in |
| PlayerScore.ScrollValuesDisjoint | DisplayHandler.cpp:326 | the two parts never overlap, so the sum does not wrap and keeps the lower part in the freed digits |
| PlayerScore.ScrollMasksDisjoint | DisplayHandler.cpp:325 | no position is lit by both parts' masks |
| PlayerScore.ScrollLateShowsOnlyLowPart | DisplayHandler.cpp:314-327 | from phase D on only the lower part is drawn |
| PlayerScore.DashSweepsIn | DisplayHandler.cpp:349-352 | in the first D+1 dash phases exactly the `phase` leftmost positions are darkened |
| PlayerScore.DashSweepsOut | DisplayHandler.cpp:353-358 | afterwards all but the phase-D leftmost positions stay dark |
| PlayerScore.DashGoesDark | DisplayHandler.cpp:349-352 | at phase D the whole display is dark |
| PlayerScore.RollingDashMask | DisplayHandler.cpp:347-359 | the dash loops compute DashMask |
| PlayerScore.SweepIn | DisplayHandler.cpp:350-352 | the first dash loop clears the `phase` low bits |
| PlayerScore.SweepOut | DisplayHandler.cpp:354-358 | the second dash loop clears positions phase-D to D-1 |
| PlayerScore.ShowPlainScore | DisplayHandler.cpp:378-383 | a score that fits is drawn in full with at least two digits under the library's mask, darkened only by the blink |
| PlayerScore.ShowRecentWideScore | DisplayHandler.cpp:293-300 | within two seconds of a change a too-wide score shows its D lowest digits |
| PlayerScore.ScrollIsGated | DisplayHandler.cpp:279-283 | the scroll draws once per new phase and never in phases 11 to 15 |
| PlayerScore.FlashAndDashAreGated | DisplayHandler.cpp:333-375 | flash and dash draw once per frame number; the flash alternates blank and score |
| PlayerScore.ShowTargetsDisplay | DisplayHandler.cpp:273-387 | every write goes to the display drawn |
| PlayerScore.WideFrame | DisplayHandler.cpp:291-331 | a too-wide score: its low digits within 2 s of a change, else the gated scroll; PlayerScore.ShowRecentWideScore, ScrollFrame and ScrollIsGated |
| PlayerScore.FlashFrame | DisplayHandler.cpp:333-339 | the flash: blank and score alternating every 250 ms; PlayerScore.FlashAndDashAreGated |
| PlayerScore.RollingDashFrame | DisplayHandler.cpp:341-365 | the rolling dash: the score under DashMask of the 60 ms phase in the first 2D phases of a cycle of 6D, the full score in the rest; PlayerScore.RollingDashMask, DashSweepsIn, DashSweepsOut, DashGoesDark and FlashAndDashAreGated |
| PlayerScore.IntermittentDashFrame | DisplayHandler.cpp:366-375 | the intermittent flash: blank one 250 ms slot in four; PlayerScore.FlashAndDashAreGated |
| PlayerScore.PlainFrame | DisplayHandler.cpp:378-383 | the plain score under the library's mask and the blink; PlayerScore.ShowPlainScore |
| PlayerScore.Show | DisplayHandler.cpp:273-387 | ShowPlayerScore's branch order: wide score, flash, rolling dash, intermittent dash, nothing for another dash kind, plain; PlayerScore.ShowTargetsDisplay and the lemmas of each branch |
| Carousel.ScoreDigits | DisplayHandler.cpp:460-461 | a score is laid out with 1 to 10 digits, a zero with two |
| Carousel.DigitsFor | DisplayHandler.cpp:455-462 | the digit count of each player, two for the current player |
| Carousel.PhasesBounds | DisplayHandler.cpp:454-466 | a cycle has at least 23 and at most 34 phases per other player |
| Carousel.PhasesBelowBound | DisplayHandler.cpp:454-466 | the running sum stays at or below 34 phases per player, and the current player, once passed, adds none |
| Carousel.PhasesSplit | DisplayHandler.cpp:454-479 | counting up to a player and walking on from it add up to the whole cycle |
| Carousel.LocateFindsOtherPlayer | DisplayHandler.cpp:470-479 | every phase of the cycle falls in the turn of a player in the game other than the current one |
| Carousel.Locate | DisplayHandler.cpp:470-479 | the player whose turn a phase falls in, and the phase within that turn; Carousel.LocateFindsOtherPlayer and PhasesSplit |
| Carousel.WipeShape | DisplayHandler.cpp:482-489 | the wipe lights 1 to D positions, all D only in its middle phase, changing by one per phase |
| Carousel.WipeMask | DisplayHandler.cpp:490-493 | the wipe's mask loop lights the k low bits |
| Carousel.WipeShowsPlayerNumber | DisplayHandler.cpp:483 | `MAX_DISPLAY_SCORE / 9 * (p+1)` holds the player number in every position |
| Carousel.IntroMaskEdges | DisplayHandler.cpp:497-498 | the intro frame lights exactly the two edge positions |
| Carousel.ScrollIndexInRange | DisplayHandler.cpp:503-507 | each scroll phase selects a `pow10` entry from 10^(nd-2) down to 10^0 |
| Carousel.ScrollRevealsOneDigitPerPhase | DisplayHandler.cpp:503-507 | each scroll phase shows one more digit of the score |
| Carousel.ScrollIndexAsWrittenOnSixDigits | DisplayHandler.cpp:505 | on six-digit hardware the written index is the intended one |
| Carousel.ScrollIndexAsWrittenOffTable | DisplayHandler.cpp:505 | on seven-digit hardware the written index is two below the intended one on every scroll phase, and negative exactly in a score's last two scroll phases; a two-digit score's only scroll phase reads `pow10[-2]` |
| Carousel.TurnWrites | DisplayHandler.cpp:481-510 | what a phase of a turn draws: wipe, intro frame, scroll or whole score; Carousel.WipeShape, WipeShowsPlayerNumber, IntroMaskEdges, ScrollIndexInRange and ScrollRevealsOneDigitPerPhase |
| Carousel.CycleWrites | DisplayHandler.cpp:451-510 | one carousel frame: the cycle's phase at time t, located in a turn and drawn; Carousel.PhasesBounds and LocateFindsOtherPlayer |
| Carousel.OtherScores | DisplayHandler.cpp:438-513 | ShowOtherScores: nothing below three players or on a frame already shown, else a new frame number and CycleWrites; Carousel.OtherScoresFacts and Scoreboard.CarouselFrameIsShared |
| Carousel.OtherScoresFacts | DisplayHandler.cpp:438-513 | the carousel draws once per 80 ms frame, only on its display, only with three or more players |
| Carousel.CarouselFrame | DisplayHandler.cpp:451-510 | one frame's writes are CycleWrites of the scores |
| Carousel.CountPhases | DisplayHandler.cpp:451-466 | the counting loop fills one entry per player and sums the cycle's phases, which is positive |
| Carousel.PlayerEntry | DisplayHandler.cpp:455-465 | one player's entries, and a byte sum that does not wrap for up to eight players with the current player among them |
| Carousel.FindTurn | DisplayHandler.cpp:470-479 | the search loop finds the turn Locate names, of a player other than the current one |
| Carousel.TurnFrame | DisplayHandler.cpp:481-510 | what a phase of a turn draws: wipe, intro, scroll or whole score |
| Scoreboard.ShowScoreOn | DisplayHandler.cpp:273-387 | ShowPlayerScore inside the loop draws only its display, changes no score and sets no override |
| Scoreboard.Commit | DisplayHandler.cpp:782-785 | committing ends the animation with nothing pending and keeps the overrides |
| Scoreboard.RevealOn | DisplayHandler.cpp:788-806 | the reveal draws only the current display and keeps the overrides |
| Scoreboard.RevealPhase | DisplayHandler.cpp:791-805 | the same for one new reveal phase |
| Scoreboard.RollOn | DisplayHandler.cpp:808-815 | the roll draws only the current display and keeps the overrides |
| Scoreboard.Crossing | DisplayHandler.cpp:811-814 | the rolling share crossing a tick multiple records the remainder and asks for the level plus one; Handler.DisplayHandler.NoteRemaining and Scoreboard.RollingTickLevelIsLost |
| Scoreboard.RollBy | DisplayHandler.cpp:809-815 | the same for a given rolling share |
| Scoreboard.TickApplied | DisplayHandler.cpp:825-835 | a major tick keeps the overrides and the call's invariants |
| Scoreboard.TickOn | DisplayHandler.cpp:822-836 | the same for a major-tick pass |
| Scoreboard.Rolling | DisplayHandler.cpp:786-821 | the same for the rolling animation |
| Scoreboard.Jackpot | DisplayHandler.cpp:780-837 | the same for the increment animation |
| Scoreboard.OverrideOn | DisplayHandler.cpp:840-847 | the override branch draws only its display and asks for no tick |
| Scoreboard.CarouselOn | DisplayHandler.cpp:873 | the carousel draws only its display |
| Scoreboard.CarouselFrameIsShared | DisplayHandler.cpp:436-444 | one carousel frame per call: after one display has drawn it, the carousel on any other display changes nothing |
| Scoreboard.PlainOn | DisplayHandler.cpp:848-876 | the plain-score branch draws only its display and asks for no tick |
| Scoreboard.UpdateOne | DisplayHandler.cpp:766-878 | one pass of the loop keeps the call's invariants |
| Scoreboard.UpdateUpTo | DisplayHandler.cpp:766-878 | the same for the loop over the first n displays |
| Scoreboard.Finish | DisplayHandler.cpp:759-763 | the same for finishAnimation |
| Scoreboard.UpdateDisplays | DisplayHandler.cpp:756-881 | the same for the whole call |
| Scoreboard.KeepsStep | DisplayHandler.cpp:766-878 | each display keeps what the displays before it kept |
| Scoreboard.UpdateOneKeeps | DisplayHandler.cpp:766-878 | one pass keeps score plus pending, sets no override bit and writes only selected displays |
| Scoreboard.UpdateUpToKeeps | DisplayHandler.cpp:766-878 | the same for the loop |
| Scoreboard.JackpotKeeps | DisplayHandler.cpp:780-837 | the increment animation on the current player's display loses no points |
| Scoreboard.CommitKeeps | DisplayHandler.cpp:782-785 | committing into the current player's score keeps score plus pending and every other score |
| Scoreboard.TickAppliedKeeps | DisplayHandler.cpp:827-835 | one major tick keeps the current player's score plus pending and every other score |
| Scoreboard.TickShownKeeps | DisplayHandler.cpp:825-836 | the same for a tick followed by the redraw |
| Scoreboard.RollingKeeps | DisplayHandler.cpp:786-821 | the same for the rolling animation |
| Scoreboard.MajorTicksKeeps | DisplayHandler.cpp:822-836 | the same for major ticks |
| Scoreboard.UpdateDisplaysFacts | DisplayHandler.cpp:756-881 | a call keeps the current player's score plus pending amount and changes no other player's score; it sets no override bit and writes only selected displays; after finishAnimation nothing is pending |
| Scoreboard.PlayTickAsWritten | DisplayHandler.cpp:757 | the `boolean` return holds 0 or 1, 0 exactly when no tick was asked for |
| Scoreboard.MajorTickLevelIsLost | DisplayHandler.cpp:826 | a major tick asks for the start's tick level, and every level above 1 comes back as 1 |
| Scoreboard.RollingTickLevelIsLost | DisplayHandler.cpp:814 | a rolling tick asks for the level plus one, which comes back as 1 |
| Scoreboard.CarouselOverrunsItsTables | DisplayHandler.cpp:452-453 | the carousel is only reached with more than four players, past the end of its four-entry tables |
| Scoreboard.JackpotCreditsDisplaySlot | DisplayHandler.cpp:780-785 | as written, with the current player above the fourth, the commit credits display slot cp - 4 and the current player loses the amount; the model's Jackpot keeps it |
| Scoreboard.JackpotHidesOverride | DisplayHandler.cpp:780-840 | the increment animation is drawn instead of an override, whose state is kept |
| Scoreboard.IdleCallKeepsScores | DisplayHandler.cpp:756-881 | without an animation and finishAnimation, a call changes no score and nothing pending |
| Scoreboard.UnselectedUntouched | DisplayHandler.cpp:774 | a display the call does not select is left exactly as it was |
| Handler.DisplayHandler.constructor | DisplayHandler.cpp:33-51 | the globals start as Animator.Initial, with an empty display log |
| Handler.DisplayHandler.SetLastTimeScoreChanged | DisplayHandler.cpp:79-81 | only LastTimeScoreChanged changes |
| Handler.DisplayHandler.GetLastTimeScoreChanged | DisplayHandler.cpp:83-85 | returns LastTimeScoreChanged |
| Handler.DisplayHandler.OverrideScoreDisplay | DisplayHandler.cpp:88-96 | the new globals are OverrideTable.Override of the old |
| Handler.DisplayHandler.ClearOverride | DisplayHandler.cpp:99-105 | the new globals are OverrideTable.ClearOverride of the old |
| Handler.DisplayHandler.SetAnimationDisplayOrder | DisplayHandler.cpp:120-125 | the new globals are OverrideTable.SetAnimationDisplayOrder of the old |
| Handler.DisplayHandler.ResetDisplayTrackingVariables | DisplayHandler.cpp:70-76 | the new globals are OverrideTable.ResetTracking of the old |
| Handler.DisplayHandler.StartScoreAnimation | DisplayHandler.cpp:391-429 | the new globals and scores are Animator.Start of the old |
| Handler.DisplayHandler.AddPending | DisplayHandler.cpp:392-394 | the pending amount is added to the given score slot and cleared; nothing else changes |
| Handler.DisplayHandler.Begin | DisplayHandler.cpp:396-428 | the animation starts with the amount pending and the tick of the tick table |
| Handler.DisplayHandler.SetTick | DisplayHandler.cpp:402-428 | the tick size and level are those of the tick table |
| Handler.DisplayHandler.ShowAnimatedValue | DisplayHandler.cpp:131-270 | the new globals and log are those of AnimatedValue.Animated |
| Handler.DisplayHandler.Plain | DisplayHandler.cpp:261-268 | the override value is drawn within its mask |
| Handler.DisplayHandler.Bounce | DisplayHandler.cpp:137-154 | the bounce frame is recorded |
| Handler.DisplayHandler.Flutter | DisplayHandler.cpp:155-167 | the flutter frame is recorded |
| Handler.DisplayHandler.Flyby | DisplayHandler.cpp:168-202 | the flyby frame is recorded |
| Handler.DisplayHandler.FlybyDraw | DisplayHandler.cpp:183-200 | the flyby's value and mask slid by its signed offset |
| Handler.DisplayHandler.Center | DisplayHandler.cpp:203-228 | the centred frame is recorded |
| Handler.DisplayHandler.Symmetric | DisplayHandler.cpp:229-260 | the symmetric-bounce frame is recorded |
| Handler.DisplayHandler.SymmetricDraw | DisplayHandler.cpp:237-259 | the digit and its mirror image, value and mask |
| Handler.DisplayHandler.ShowPlayerScore | DisplayHandler.cpp:273-387 | the new globals and log are those of PlayerScore.Show |
| Handler.DisplayHandler.ShowScore | DisplayHandler.cpp:273-387 | the same inside a Display_UpdateDisplays pass |
| Handler.DisplayHandler.WideScore | DisplayHandler.cpp:291-331 | the frame of a too-wide score |
| Handler.DisplayHandler.FlashScore | DisplayHandler.cpp:333-339 | the flash frame |
| Handler.DisplayHandler.RollingDash | DisplayHandler.cpp:341-365 | the rolling-dash frame |
| Handler.DisplayHandler.IntermittentDash | DisplayHandler.cpp:366-375 | the intermittent-flash frame |
| Handler.DisplayHandler.PlainScore | DisplayHandler.cpp:378-383 | the plain frame |
| Handler.DisplayHandler.Blink | DisplayHandler.cpp:296-300 | the achievement blink mask |
| Handler.DisplayHandler.ShowOtherScores | DisplayHandler.cpp:438-513 | the new frame number and log are those of Carousel.OtherScores |
| Handler.DisplayHandler.CommitPending | DisplayHandler.cpp:782-785 | the state after Scoreboard.Commit into the given score slot |
| Handler.DisplayHandler.Reveal | DisplayHandler.cpp:788-806 | the state after Scoreboard.RevealOn |
| Handler.DisplayHandler.Roll | DisplayHandler.cpp:808-815 | the state after Scoreboard.RollOn |
| Handler.DisplayHandler.RollRedraw | DisplayHandler.cpp:809-811 | returns the rolling share and draws the score plus that share |
| Handler.DisplayHandler.NoteRemaining | DisplayHandler.cpp:812-815 | a crossing of a tick multiple records the share and asks for the level plus one; otherwise nothing changes |
| Handler.DisplayHandler.MajorTick | DisplayHandler.cpp:822-836 | the state after Scoreboard.TickOn |
| Handler.DisplayHandler.ApplyTick | DisplayHandler.cpp:825-835 | the state after Scoreboard.TickApplied |
| Handler.DisplayHandler.RollingAnimation | DisplayHandler.cpp:786-821 | the state after Scoreboard.Rolling |
| Handler.DisplayHandler.Jackpot | DisplayHandler.cpp:780-837 | the state after Scoreboard.Jackpot |
| Handler.DisplayHandler.ShowOverride | DisplayHandler.cpp:840-847 | the state after Scoreboard.OverrideOn |
| Handler.DisplayHandler.ShowScores | DisplayHandler.cpp:848-876 | the state after Scoreboard.PlainOn |
| Handler.DisplayHandler.UpdateOne | DisplayHandler.cpp:766-878 | the state after Scoreboard.UpdateOne |
| Handler.DisplayHandler.FinishAnimation | DisplayHandler.cpp:759-763 | the state after Scoreboard.Finish |
| Handler.DisplayHandler.UpdateDisplays | DisplayHandler.cpp:756-881 | the new globals, scores, log and returned tick level are those of Scoreboard.UpdateDisplays |
| Handler.DisplayHandler.UpdateAll | DisplayHandler.cpp:766-878 | the loop's state is Scoreboard.UpdateUpTo over the four displays |
| MenuSteps.NextTopLevel | OperatorMenus.cpp:339-347 | the top level stays within the menus; forward past the game adjustments menu gives "return to game", backward from 0 gives the game adjustments menu |
| MenuSteps.SubLevelsOf | OperatorMenus.cpp:354-356 | six sub levels for the self-test and audits menus, none for the others; used by Menus.OperatorMenus.AdvanceTopMenu |
| MenuSteps.TopLevelsCycle | OperatorMenus.cpp:339-347 | backward undoes forward and forward undoes backward |
| MenuSteps.EveryTopLevelReached | OperatorMenus.cpp:339-347 | n forward presses from "return to game" reach level n, and one more past the last closes the cycle |
| MenuSteps.NextSubLevel | OperatorMenus.cpp:391-409 | the sub level stays below the count or, without looping, leaves the sub menus; it loops exactly at the ends, to the first or last sub level |
| MenuSteps.SubLevelsCycle | OperatorMenus.cpp:391-409 | with looping, the opposite step undoes a step |
| MenuSteps.IndexOf | OperatorMenus.cpp:219-224 | the first position holding the value, or the length |
| MenuSteps.IndexOfFinds | OperatorMenus.cpp:219-224 | the search finds the value exactly when it is in the list |
| MenuSteps.ListIndex | OperatorMenus.cpp:216-224 | a list setting's ParameterID is the first position of its value, or 0 when absent |
| MenuSteps.ValueCount | OperatorMenus.cpp:207-208 | NumAdjustmentValues is the argument count, at most eight |
| MenuSteps.CopyOverrunsTable | OperatorMenus.cpp:207-211 | as written, the copy runs past the eight slots exactly when the count was cut down; nine values write slot 8 |
| MenuSteps.ListStep | OperatorMenus.cpp:679-694 | the new list position is in the list, and 0 for a value not in it |
| MenuSteps.ListStepFrom | OperatorMenus.cpp:683-693 | from a value's first position i, up goes to (i+1) mod length and down to i-1, stopping at 0 |
| MenuSteps.StepByte | OperatorMenus.cpp:633-651 | MIN_MAX and CPC stay in range and wrap at the ends; MIN_MAX_DEFAULT has the extra value 99 after the maximum |
| MenuSteps.ByteStepsCycle | OperatorMenus.cpp:633-651 | for MIN_MAX and CPC, up and down are inverse steps |
| MenuSteps.DefaultStepDownFrom99 | OperatorMenus.cpp:636-650 | MIN_MAX_DEFAULT cycles up through hi, 99 and lo, but steps down from 99 to 98 |
| MenuSteps.ScoreStepSize | OperatorMenus.cpp:702-715 | the step is 1000 for a press, 10000 when held and 25000 after six repeats |
| MenuSteps.ScoreStep | OperatorMenus.cpp:705-715 | down never underflows, SCORE_NO_DEFAULT never gives 0, and up adds the step exactly below the wrap |
| MenuSteps.ScoreStepsCycle | OperatorMenus.cpp:705-715 | up and down undo each other away from the wrap and the floor |
| MenuSteps.EnterEffect | OperatorMenus.cpp:612-723 | a byte setting is set only on the game rules and adjustment menus, a score only when one is attached, and an audit is cleared only when clearable with reset held |
| MenuSteps.AdjustEffect | OperatorMenus.cpp:632-720 | a byte step happens only for a range or list setting, a score step only for an attached score setting and never on a single press with reset held, and no audit is cleared |
| MenuSteps.EnterKeepsRange | OperatorMenus.cpp:632-655 | on either adjustment menu, a MIN_MAX or CPC setting in range stays in range, and ParameterID shows its value |
| MenuSteps.EnterWalksList | OperatorMenus.cpp:678-696 | on either adjustment menu, a list setting moves to a list entry, and ParameterID is its position |
| MenuSteps.SwitchDigitsAreDisplayMask | OperatorMenus.cpp:763-785 | a switch's positions are GetDisplayMask of the digit count of its number plus one |
| MenuSteps.SwitchPairLightsBothNumbers | OperatorMenus.cpp:755-788 | the pair's mask lights the second number's digits at the right and the first's three places to the left |
| MenuSteps.SwitchPairMask | OperatorMenus.cpp:755-788 | the two switch numbers' masks, the first moved three places left; MenuSteps.SwitchPairLightsBothNumbers and SwitchDigitsAreDisplayMask |
| MenuSteps.DefaultLampLookup | OperatorMenus.cpp:55-59 | IDs 1 to 64 are lamps 0 to 63; 0 is unused and the rest out of range |
| MenuSteps.LampLookupIsInverse | OperatorMenus.cpp:55-59 | each lamp is found under exactly one ID, its number plus one |
| MenuSteps.DefaultSolenoidIDLookup | OperatorMenus.cpp:61-65 | IDs 1 to 15 are solenoids 0 to 14; 0 is unused and the rest out of range |
| MenuSteps.DefaultSolenoidStrengthLookup | OperatorMenus.cpp:67-71 | IDs 1 to 15 have strength 5; 0 is unused and the rest out of range |
| MenuSteps.SolenoidLookupsAgree | OperatorMenus.cpp:61-71 | the two lookups agree on which IDs name a solenoid |
| Menus.OperatorMenus.constructor | OperatorMenus.cpp:74-108 | the menu starts inactive, with no setting attached and eight zero values |
| Menus.OperatorMenus.HasTopLevelChanged | OperatorMenus.cpp:147-153 | returns the flag and clears it |
| Menus.OperatorMenus.HasSubLevelChanged | OperatorMenus.cpp:155-161 | returns the flag and clears it |
| Menus.OperatorMenus.HasParameterChanged | OperatorMenus.cpp:163-169 | returns the flag and clears it |
| Menus.OperatorMenus.FindValue | OperatorMenus.cpp:219-224 | the search loop returns IndexOf over the values in use |
| Menus.OperatorMenus.SetParameterControls | OperatorMenus.cpp:203-227 | the whole new state: the type, callout and setting; at most eight values copied and the rest kept; ParameterID the list position of the value |
| Menus.OperatorMenus.CopyValues | OperatorMenus.cpp:209-211 | the first n slots take the new values and the rest are kept |
| Menus.OperatorMenus.AdvanceTopMenu | OperatorMenus.cpp:337-374 | the new level is NextTopLevel and the sub menus are left; the result says the menu came round to "return to game" |
| Menus.OperatorMenus.StartSubMenu | OperatorMenus.cpp:377-386 | enters sub level 0 with no setting attached |
| Menus.OperatorMenus.AdvanceSubMenu | OperatorMenus.cpp:388-420 | the new sub level and the result are NextSubLevel |
| Menus.OperatorMenus.HandleEnterButton | OperatorMenus.cpp:556-726 | the setting, ParameterID and change flag after a press are those of EnterEffect |
| Menus.OperatorMenus.AdjustSetting | OperatorMenus.cpp:632-720 | the same for the adjustment menus, by AdjustEffect |
| Menus.OperatorMenus.StepRange | OperatorMenus.cpp:633-651 | the new value is StepByte |
| Menus.OperatorMenus.StepList | OperatorMenus.cpp:679-694 | the search loop returns ListStep, a position below eight |
| Menus.OperatorMenus.StepScore | OperatorMenus.cpp:706-718 | the new value is ScoreStep |
| Menus.OperatorMenus.GetDisplayMaskForSwitches | OperatorMenus.cpp:755-788 | the loop returns SwitchPairMask |

## Left out

- The DMD build of the display handler (DisplayHandler.cpp:518-738) is not modelled. Only the build for segment displays is.
- The once-a-second serial score report (DisplayHandler.cpp:865-870) is output only and is not modelled.
- `RPU_SetDisplay` and `RPU_SetDisplayBlank` are recorded as writes in a ghost log, not executed.
  - The blank mask `RPU_SetDisplay` returns is a parameter, since the library is not part of this model.
- The clock, the score table, the current player, the player count and the achievements are inputs.
  - `RPU_OS_ALL_DIGITS_MASK` is taken to be the low D bits, and `RPU_OS_MAX_DISPLAY_SCORE` to be 10^D - 1.
- Scoreboard.Fits requires at most eight players and, in a game of three or more, a current player who is one of them. Both hold in a game, and together they keep the carousel's byte phase sum at or below 7 * 34 = 238.
- Handler.DisplayHandler.FlybyDraw: with a flyby order of 42 or more, the source's byte loop counter cannot reach the slide it counts to. The model's counter is unbounded, so that endless loop is not modelled.
- In OperatorMenus.cpp, these are not modelled:
  - `UpdateMenu`'s switch-stack draining, which also counts NumSpeedyChanges (here a field set from outside);
  - `UpdateSelfTest`, `StartTestMode` and `ReadCurrentSwitches`;
  - `EnterOperatorMenu` and `ExitOperatorMenu`;
  - the sound and display-test callbacks;
  - `ShowParameterValue` and `ShowAuditValue`.
  These depend on the switch matrix, lamps, solenoids, sound and EEPROM, which are not part of this model.
- Menus.OperatorMenus.HandleEnterButton: the self-test branch (OperatorMenus.cpp:558-611) drives lamps, displays, solenoids and sound, and is left out. The EEPROM writes and display calls of the other branches are left out too.
- Menus.OperatorMenus.AdvanceTopMenu, Menus.OperatorMenus.StartSubMenu and Menus.OperatorMenus.AdvanceSubMenu: the credit, ball-in-play and blanking display calls, and the self test they start, are left out.
- Menus.OperatorMenus.SetParameterControls: the allowed values arrive as a sequence rather than a C array. The copy uses the count cut down to eight (see Findings).
- Handler.DisplayHandler.UpdateDisplays: returns the whole tick level, where the source's `boolean playTick` (DisplayHandler.cpp:757) returns 0 or 1. Scoreboard.PlayTickAsWritten models the source's return value.
- Scoreboard.Jackpot, Scoreboard.Commit (as called by Jackpot and Rolling), Scoreboard.RollBy, Scoreboard.TickApplied, Scoreboard.TickOn and Scoreboard.Rolling credit and draw the current player's score. The source uses `CurrentScores[displayCount]` (DisplayHandler.cpp:783, 811, 818, 828-836). The two differ whenever the current player is above the fourth; Scoreboard.JackpotCreditsDisplaySlot states the source's behaviour.
- Handler.DisplayHandler.Jackpot, Handler.DisplayHandler.CommitPending (as called), Handler.DisplayHandler.RollRedraw, Handler.DisplayHandler.ApplyTick, Handler.DisplayHandler.MajorTick and Handler.DisplayHandler.RollingAnimation: the same correction in the class.
- Carousel.TurnWrites and Carousel.TurnFrame index `pow10` with the scroll start 2D - 1, where the source has the literal 11 (DisplayHandler.cpp:505). They agree on six-digit hardware; on seven digits Carousel.ScrollIndexAsWrittenOffTable states the source's index.
- Carousel.CountPhases and Carousel.CarouselFrame keep one table entry per player, where the source declares four (DisplayHandler.cpp:452-453). Beyond four players the source writes past its tables, which the model does not reproduce.
- MenuSteps.DefaultKindDistinct: the MIN_MAX_DEFAULT code is assumed to differ from the MIN_MAX and CPC codes, as each adjustment type has its own code in the header.

## Findings

| source | as written | input that shows it | evidently intended | confidence | as-written member | corrected member |
|---|---|---|---|---|---|---|
| DisplayHandler.cpp:505 | the carousel's scroll index subtracts a fixed 11, the first scroll phase of a six-digit display | seven digits, a two-digit score, scroll phase 13: index 2 - 2 - (13 - 11) = -2 reads `pow10[-2]` | subtract 2D - 1, the phase after the intro frame | not executed | Carousel.ScrollIndexAsWrittenOffTable | Carousel.ScrollIndexInRange |
| DisplayHandler.cpp:757 | `playTick` is declared `boolean`, so the tick level assigned at lines 814 and 826 comes back as 1 | a major-tick animation of 60000 points asks for level 4 and returns 1 | return the tick level, as the `byte` return type allows | not executed | Scoreboard.MajorTickLevelIsLost | Handler.DisplayHandler.UpdateDisplays |
| DisplayHandler.cpp:452-453 | the carousel's two per-player tables have four entries but are indexed by every player number | five players: entry 4 is written and read past the end | one entry per player | not executed | Scoreboard.CarouselOverrunsItsTables | Carousel.CountPhases |
| OperatorMenus.cpp:209 | the copy loop runs over the argument count, not over NumAdjustmentValues, which was just cut down to 8 | nine values: AdjustmentValues[8] is written past the table | copy at most eight values | not executed | MenuSteps.CopyOverrunsTable | Menus.OperatorMenus.SetParameterControls |
| DisplayHandler.cpp:783 | the jackpot branch adds the amount to `CurrentScores[displayCount]` (also at lines 811, 818, 828-836), although line 864 uses `CurrentPlayer` | five players, player five current (`CurrentPlayer` 4), animation type off: display 0 is drawn and player one receives the amount | credit and show `CurrentScores[CurrentPlayer]` | not executed | Scoreboard.JackpotCreditsDisplaySlot | Scoreboard.UpdateDisplaysFacts |
