/** The rules of the operator menu (OperatorMenus.cpp) as pure functions: how
    the top-level and sub-level menus advance, how a setting is found in its
    list of allowed values and how one press of the enter button steps a
    byte setting, a list setting or a score setting. The class in module
    Menus is proved against these functions; the lemmas here state what
    those steps promise.

    The OPERATOR_MENU_* constants come from a header that is not part of
    this model, so they are a value given to the menu when it is built. */
module MenuSteps {
  import opened Machine
  import opened DigitMasks

  type u16 = x: int | 0 <= x < 0x1_0000
  type i16 = x: int | -0x8000 <= x < 0x8000

  datatype Option<T> = None | Some(value: T)

  /** The OPERATOR_MENU_* constants: menu levels, adjustment types and the
      two values a lookup callback returns for an ID that has no device. */
  datatype MenuConstants = MenuConstants(
    notActive: byte, returnToGame: byte, selfTestMenu: byte, auditsMenu: byte,
    basicAdjMenu: byte, gameRulesLevel: byte, gameAdjMenu: byte,
    adjList: byte, adjMinMax: byte, adjMinMaxDefault: byte, adjCpc: byte,
    adjScore: byte, adjScoreWithDefault: byte, adjScoreNoDefault: byte,
    audClearable: byte, valueUnused: u16, valueOutOfRange: u16)

  /** The top-level menus are numbered 0 (return to game) up to the game
      adjustments menu, which is not the last byte value. */
  predicate TopLevelsCounted(c: MenuConstants) {
    c.returnToGame == 0 && c.gameAdjMenu < 255
  }

  /** The MIN_MAX_DEFAULT code is neither the MIN_MAX nor the CPC code
      (the header gives each adjustment type its own code). */
  predicate DefaultKindDistinct(c: MenuConstants) {
    c.adjMinMaxDefault != c.adjMinMax && c.adjMinMaxDefault != c.adjCpc
  }

  /* ---------------------------------------------------------------------- */
  /* Navigation                                                               */

  /** The level AdvanceTopMenu moves to (OperatorMenus.cpp:339-347): forward
      one level, past the game adjustments menu back to "return to game";
      backward one level, from level 0 round to the game adjustments menu. */
  function NextTopLevel(c: MenuConstants, top: byte, forward: bool): (r: byte)
    ensures c.returnToGame <= c.gameAdjMenu && top <= c.gameAdjMenu ==> r <= c.gameAdjMenu
    ensures forward && top == c.gameAdjMenu < 255 ==> r == c.returnToGame
    ensures !forward && top == 0 ==> r == c.gameAdjMenu
  {
    if forward then
      var t := ToByte(top + 1);
      if t > c.gameAdjMenu then c.returnToGame else t
    else if top != 0 then top - 1 else c.gameAdjMenu
  }

  /** Stepping back undoes stepping forward and the other way round: the top
      levels form one cycle. */
  lemma TopLevelsCycle(c: MenuConstants, top: byte)
    requires TopLevelsCounted(c) && top <= c.gameAdjMenu
    ensures NextTopLevel(c, NextTopLevel(c, top, true), false) == top
    ensures NextTopLevel(c, NextTopLevel(c, top, false), true) == top
  {
  }

  /** Moving forward from level 0 n times visits level n. */
  function AdvanceTimes(c: MenuConstants, top: byte, n: nat): byte {
    if n == 0 then top else NextTopLevel(c, AdvanceTimes(c, top, n - 1), true)
  }

  /** Every top-level menu is reached from "return to game" by pressing
      forward as many times as its number, and one more press past the game
      adjustments menu closes the cycle. */
  lemma {:induction false} EveryTopLevelReached(c: MenuConstants, n: nat)
    requires TopLevelsCounted(c) && n <= c.gameAdjMenu as nat + 1
    ensures AdvanceTimes(c, c.returnToGame, n) == if n == c.gameAdjMenu as nat + 1 then c.returnToGame else n
  {
    if n > 0 {
      EveryTopLevelReached(c, n - 1);
    }
  }

  /** The sub-level count AdvanceTopMenu sets (OperatorMenus.cpp:354-356). */
  function SubLevelsOf(c: MenuConstants, top: byte): byte {
    if top == c.selfTestMenu || top == c.auditsMenu then 6 else 0
  }

  /** The sub level AdvanceSubMenu moves to and whether the menu looped
      (OperatorMenus.cpp:391-409). Leaving either end loops round when
      `loop` is set and leaves the sub menus otherwise. */
  function NextSubLevel(c: MenuConstants, sub: byte, num: byte, forward: bool, loop: bool): (r: (byte, bool))
    ensures sub < num ==> r.0 < num || (r.0 == c.notActive && !loop)
    ensures sub < num ==> (r.1 <==> loop && (if forward then sub + 1 == num else sub == 0))
    ensures r.1 ==> r.0 == if forward then 0 else ToByte(num - 1)
  {
    if forward then
      var s := ToByte(sub + 1);
      if s >= num then (if loop then (0, true) else (c.notActive, false)) else (s, false)
    else if sub != 0 then (sub - 1, false)
    else if loop then (ToByte(num - 1), true)
    else (c.notActive, false)
  }

  /** With looping on, the sub levels form one cycle as well. */
  lemma SubLevelsCycle(c: MenuConstants, sub: byte, num: byte, forward: bool)
    requires sub < num
    ensures NextSubLevel(c, NextSubLevel(c, sub, num, forward, true).0, num, !forward, true).0 == sub
  {
  }

  /* ---------------------------------------------------------------------- */
  /* Lists of allowed values                                                  */

  /** The position of the first x in s, or |s| when there is none. */
  function IndexOf(s: seq<byte>, x: byte): (r: nat)
    ensures r <= |s|
    ensures r < |s| ==> s[r] == x
    ensures forall j :: 0 <= j < r ==> s[j] != x
  {
    if s == [] then 0 else if s[0] == x then 0 else 1 + IndexOf(s[1..], x)
  }

  /** IndexOf finds x exactly when x is in the list. */
  lemma IndexOfFinds(s: seq<byte>, x: byte)
    ensures IndexOf(s, x) < |s| <==> x in s
  {
  }

  /** The ParameterID SetParameterControls gives a list setting
      (OperatorMenus.cpp:218-224): the first position holding the value, or 0
      when the value is not in the list. */
  function ListIndex(s: seq<byte>, x: byte): (r: nat)
    ensures x in s ==> r < |s| && s[r] == x && x !in s[..r]
    ensures x !in s ==> r == 0
  {
    var k := IndexOf(s, x);
    if k < |s| then k else 0
  }

  /** The list position a press of enter moves a list setting to
      (OperatorMenus.cpp:684-695): up to the next value, from the last round
      to the first; down to the previous value, staying at the first; a
      value not in the list goes to position 0. */
  function ListStep(s: seq<byte>, x: byte, up: bool): (r: nat)
    ensures r < |s| || r == 0
    ensures x !in s ==> r == 0
  {
    var k := IndexOf(s, x);
    if k == |s| then 0
    else if up then (if k < |s| - 1 then k + 1 else 0)
    else if k > 0 then k - 1 else 0
  }

  /** For a value that first occurs at position i, up is i + 1 modulo the
      length and down is i - 1, never going below 0. */
  lemma ListStepFrom(s: seq<byte>, i: nat)
    requires i < |s| && s[i] !in s[..i]
    ensures ListStep(s, s[i], true) == (i + 1) % |s|
    ensures ListStep(s, s[i], false) == if i == 0 then 0 else i - 1
  {
  }

  /* ---------------------------------------------------------------------- */
  /* The table of allowed values                                              */

  /** AdjustmentValues has eight slots. */
  const ADJUSTMENT_SLOTS: nat := 8

  /** NumAdjustmentValues as SetParameterControls sets it
      (OperatorMenus.cpp:207-208): the argument count, cut down to the
      eight slots of the table. */
  function ValueCount(numValues: byte): (n: byte)
    ensures n <= ADJUSTMENT_SLOTS && n <= numValues
    ensures numValues <= ADJUSTMENT_SLOTS ==> n == numValues
  {
    if numValues > 8 then 8 else numValues
  }

  /** The number of slots the copy loop of SetParameterControls
      (OperatorMenus.cpp:209-211) fills as written: it runs over the
      argument count, not over the count it has just cut down. */
  function CopiedAsWritten(numValues: byte): nat {
    numValues as nat
  }

  /** As written, exactly the counts the cut was meant for make the copy run
      past the eight slots: nine values write AdjustmentValues[8], while the
      menu goes on to use eight. */
  lemma CopyOverrunsTable(numValues: byte)
    ensures CopiedAsWritten(numValues) > ADJUSTMENT_SLOTS <==> ValueCount(numValues) < numValues
    ensures CopiedAsWritten(9) == 9 && ValueCount(9) == 8
  {
  }

  /* ---------------------------------------------------------------------- */
  /* Byte settings with a minimum and a maximum                               */

  /** One press of enter on a MIN_MAX, CPC or MIN_MAX_DEFAULT setting
      (OperatorMenus.cpp:633-651); `lo` and `hi` are AdjustmentValues[0] and
      [1]. A MIN_MAX_DEFAULT setting has the extra value 99 after the
      maximum. The byte arithmetic wraps. */
  function StepByte(withDefault: bool, lo: byte, hi: byte, cur: byte, up: bool): (r: byte)
    ensures !withDefault && lo <= cur <= hi < 255 ==> lo <= r <= hi
    ensures withDefault && lo <= cur <= hi < 99 ==> lo <= r <= hi || r == 99
    ensures withDefault && up && cur == 99 && hi < 99 ==> r == lo
    ensures !up && cur == lo ==> r == if withDefault then 99 else hi
    ensures up && cur == hi < 255 ==> r == if withDefault && hi < 99 then 99 else lo
  {
    if up then
      var v := ToByte(cur + 1);
      if v > hi then
        if !withDefault then lo else if v > 99 then lo else 99
      else v
    else if cur == lo then (if withDefault then 99 else hi)
    else ToByte(cur - 1)
  }

  /** For MIN_MAX and CPC settings up and down are inverse steps round the
      cycle lo, ..., hi. */
  lemma ByteStepsCycle(lo: byte, hi: byte, cur: byte)
    requires lo <= cur <= hi < 255
    ensures StepByte(false, lo, hi, StepByte(false, lo, hi, cur, true), false) == cur
    ensures StepByte(false, lo, hi, StepByte(false, lo, hi, cur, false), true) == cur
  {
  }

  /** For a MIN_MAX_DEFAULT setting the cycle upward is lo, ..., hi, 99, lo;
      downward from lo it reaches 99, but from 99 it goes to 98, which lies
      outside the range whenever hi < 98. */
  lemma DefaultStepDownFrom99(lo: byte, hi: byte)
    requires lo <= hi < 98
    ensures StepByte(true, lo, hi, hi, true) == 99 && StepByte(true, lo, hi, 99, true) == lo
    ensures StepByte(true, lo, hi, lo, false) == 99
    ensures StepByte(true, lo, hi, 99, false) == 98 && !(lo <= 98 <= hi)
  {
  }

  /* ---------------------------------------------------------------------- */
  /* Score settings                                                           */

  /** The step of a score setting (OperatorMenus.cpp:702-719): 1000 for a
      single press, 10000 for a held button and 25000 once more than six
      such repeats have gone by. */
  function ScoreStepSize(numSpeedy: byte, speedy: bool): (r: u32)
    ensures r % 1000 == 0 && 1000 <= r <= 25000
    ensures speedy <==> r > 1000
  {
    if !speedy then 1000 else if numSpeedy > 6 then 25000 else 10000
  }

  /** One step of a score setting: up adds the step in `unsigned long`
      arithmetic; down subtracts it only when the value is at least the
      step; a SCORE_NO_DEFAULT setting that would be 0 becomes 1000. */
  function ScoreStep(noDefault: bool, step: u32, cur: u32, up: bool): (r: u32)
    ensures !up ==> r <= cur || (noDefault && r == 1000)
    ensures noDefault ==> r != 0
    ensures up && cur + step < TwoTo32 && (cur + step > 0 || !noDefault) ==> r == cur + step
  {
    var v := if up then Wrap32(cur + step) else if cur >= step then cur - step else cur;
    if noDefault && v == 0 then 1000 else v
  }

  /** Down undoes up on a score that does not overflow, and up undoes down
      on a score of at least one step, away from the SCORE_NO_DEFAULT floor. */
  lemma ScoreStepsCycle(noDefault: bool, step: u32, cur: u32)
    requires step > 0
    ensures cur + step < TwoTo32 && (cur > 0 || !noDefault) ==>
              ScoreStep(noDefault, step, ScoreStep(noDefault, step, cur, true), false) == cur
    ensures cur >= step && (cur > step || !noDefault) ==>
              ScoreStep(noDefault, step, ScoreStep(noDefault, step, cur, false), true) == cur
  {
  }

  /* ---------------------------------------------------------------------- */
  /* The effect of one press of enter                                         */

  /** What HandleEnterButton does to the setting it adjusts. */
  datatype Effect = Unchanged | ClearAudit | SetByte(value: byte, id: byte) | SetScore(score: u32)

  /** The part of the menu's state a press of enter can change: the byte
      and unsigned long settings behind CurrentAdjustmentByte and
      CurrentAdjustmentUL (None when no setting is attached), ParameterID and
      ParameterChanged. */
  datatype Adjustment = Adjustment(byteValue: Option<byte>, score: Option<u32>, parameterID: byte,
                                   parameterChanged: bool)

  /** The state after an effect. */
  function Apply(e: Effect, a: Adjustment): Adjustment {
    match e
    case Unchanged => a
    case ClearAudit => a.(score := Some(0))
    case SetByte(v, id) => a.(byteValue := Some(v), parameterID := id, parameterChanged := true)
    case SetScore(v) => a.(score := Some(v), parameterChanged := true)
  }

  predicate IsScoreKind(c: MenuConstants, kind: byte) {
    kind == c.adjScoreWithDefault || kind == c.adjScoreNoDefault || kind == c.adjScore
  }

  predicate IsRangeKind(c: MenuConstants, kind: byte) {
    kind == c.adjMinMax || kind == c.adjMinMaxDefault || kind == c.adjCpc
  }

  /** The branches of HandleEnterButton that adjust a setting
      (OperatorMenus.cpp:612-723) on the menu's state: the top level, the
      adjustment type, the eight AdjustmentValues and how many are in use,
      the current byte and unsigned long settings (None when no setting is
      attached) and the speedy-change count. The self-test branch changes
      no setting and is left out. */
  function EnterEffect(c: MenuConstants, top: byte, kind: byte, values: seq<byte>, num: nat,
                       byteValue: Option<byte>, score: Option<u32>, numSpeedy: byte,
                       resetHeld: bool, speedy: bool, up: bool): (e: Effect)
    requires |values| == 8 && num <= 8
    ensures e.SetByte? ==> byteValue.Some? && top != c.selfTestMenu && top != c.auditsMenu
    ensures e.SetScore? || e.ClearAudit? ==> score.Some?
    ensures e.ClearAudit? ==> top == c.auditsMenu && kind == c.audClearable && resetHeld
  {
    if top == c.selfTestMenu then Unchanged
    else if top == c.auditsMenu then
      if kind == c.audClearable && resetHeld && score.Some? then ClearAudit else Unchanged
    else if top == c.gameRulesLevel then
      if byteValue.Some? && kind == c.adjList && num == 2 && resetHeld then SetByte(values[1], values[1])
      else Unchanged
    else if top == c.basicAdjMenu || top == c.gameAdjMenu then
      AdjustEffect(c, kind, values, num, byteValue, score, numSpeedy, resetHeld, speedy, up)
    else Unchanged
  }

  /** The branch of HandleEnterButton for the two adjustment menus
      (OperatorMenus.cpp:632-720): a range setting, a list setting or a
      score setting moves one step; a held button does not step a score
      by 1000. */
  function AdjustEffect(c: MenuConstants, kind: byte, values: seq<byte>, num: nat,
                        byteValue: Option<byte>, score: Option<u32>, numSpeedy: byte,
                        resetHeld: bool, speedy: bool, up: bool): (e: Effect)
    requires |values| == 8 && num <= 8
    ensures e.SetByte? ==> byteValue.Some? && (IsRangeKind(c, kind) || kind == c.adjList)
    ensures e.SetScore? ==> score.Some? && IsScoreKind(c, kind) && (speedy || !resetHeld)
    ensures !e.ClearAudit?
  {
    if byteValue.Some? && IsRangeKind(c, kind) then
      var v := StepByte(kind == c.adjMinMaxDefault, values[0], values[1], byteValue.value, up);
      SetByte(v, v)
    else if byteValue.Some? && kind == c.adjList then
      var k := ListStep(values[..num], byteValue.value, up);
      SetByte(values[k], k)
    else if score.Some? && IsScoreKind(c, kind) then
      if speedy || !resetHeld then
        SetScore(ScoreStep(kind == c.adjScoreNoDefault, ScoreStepSize(numSpeedy, speedy), score.value, up))
      else Unchanged
    else Unchanged
  }

  /** On an adjustment menu, a MIN_MAX or CPC setting inside its range
      stays inside it, and ParameterID shows the new value. */
  lemma EnterKeepsRange(c: MenuConstants, top: byte, kind: byte, values: seq<byte>, num: nat,
                        cur: byte, score: Option<u32>, numSpeedy: byte, resetHeld: bool, speedy: bool, up: bool)
    requires |values| == 8 && num <= 8
    requires (top == c.basicAdjMenu || top == c.gameAdjMenu) && top != c.selfTestMenu && top != c.auditsMenu && top != c.gameRulesLevel
    requires (kind == c.adjMinMax || kind == c.adjCpc) && kind != c.adjMinMaxDefault
    requires values[0] <= cur <= values[1] < 255
    ensures var e := EnterEffect(c, top, kind, values, num, Some(cur), score, numSpeedy, resetHeld, speedy, up);
            e.SetByte? && values[0] <= e.value <= values[1] && e.id == e.value
  {
  }

  /** On an adjustment menu, a list setting whose value is in the list
      moves to a neighbouring list entry, and ParameterID is its position. */
  lemma EnterWalksList(c: MenuConstants, top: byte, kind: byte, values: seq<byte>, num: nat,
                       cur: byte, score: Option<u32>, numSpeedy: byte, resetHeld: bool, speedy: bool, up: bool)
    requires |values| == 8 && num <= 8
    requires (top == c.basicAdjMenu || top == c.gameAdjMenu) && top != c.selfTestMenu && top != c.auditsMenu && top != c.gameRulesLevel
    requires kind == c.adjList && !IsRangeKind(c, kind) && cur in values[..num]
    ensures var e := EnterEffect(c, top, kind, values, num, Some(cur), score, numSpeedy, resetHeld, speedy, up);
            e.SetByte? && e.id < num && e.value == values[e.id] == values[..num][e.id]
  {
  }

  /* ---------------------------------------------------------------------- */
  /* The switch test's digit mask                                             */

  /** The lit positions for one switch of the switch test
      (OperatorMenus.cpp:763-785): none for an empty slot; otherwise the one,
      two or three rightmost positions of the display, as many as the
      switch number plus one has digits (stored back into a byte). */
  function SwitchDigitsMask(D: nat, empty: byte, s: byte): bv8
    requires ValidDigits(D)
  {
    if s == empty then 0
    else
      var v := ToByte(s + 1);
      if v > 99 then (if D == 7 then 0x70 else 0x38)
      else if v > 9 then (if D == 7 then 0x60 else 0x30)
      else if D == 7 then 0x40 else 0x20
  }

  /** The mask of a switch pair: the first switch's positions moved three
      places to the left (`displayMask /= 8`), then the second switch's. */
  function SwitchPairMask(D: nat, empty: byte, s1: byte, s2: byte): bv8
    requires ValidDigits(D)
  {
    Shr(SwitchDigitsMask(D, empty, s1), 3) | SwitchDigitsMask(D, empty, s2)
  }

  /** A switch's positions are GetDisplayMask of the digit count of its
      number plus one. */
  lemma SwitchDigitsAreDisplayMask(D: nat, empty: byte, s: byte)
    requires ValidDigits(D) && s != empty && s < 255
    ensures SwitchDigitsMask(D, empty, s) == DisplayMask(D, Magnitude(s + 1))
  {
    var v := s + 1;
    if v > 99 {
      MagnitudeExact(v, 3);
    } else if v > 9 {
      MagnitudeExact(v, 2);
    } else {
      MagnitudeExact(v, 1);
    }
  }

  /** The switch test shows (s1 + 1) * 1000 + (s2 + 1): the pair's mask
      lights the digits of s2 + 1 in the three rightmost positions and those
      of s1 + 1 in the three positions to their left. */
  lemma SwitchPairLightsBothNumbers(D: nat, empty: byte, s1: byte, s2: byte)
    requires ValidDigits(D) && s1 != empty && s2 != empty && s1 < 255 && s2 < 255
    ensures SwitchPairMask(D, empty, s1, s2) ==
              Shr(DisplayMask(D, Magnitude(s1 + 1)), 3) | DisplayMask(D, Magnitude(s2 + 1))
  {
    SwitchDigitsAreDisplayMask(D, empty, s1);
    SwitchDigitsAreDisplayMask(D, empty, s2);
  }

  /* ---------------------------------------------------------------------- */
  /* Default lookups                                                          */

  /** DefaultLampLookup (OperatorMenus.cpp:55-59): display IDs 1 to 64 are
      lamps 0 to 63; 0 is unused and the rest are out of range (the
      sentinels stored into a byte). */
  function DefaultLampLookup(c: MenuConstants, displayID: byte): (r: byte)
    ensures 0 < displayID < 65 ==> r < 64
    ensures displayID == 0 ==> r == ToByte(c.valueUnused)
    ensures displayID >= 65 ==> r == ToByte(c.valueOutOfRange)
  {
    if displayID == 0 then ToByte(c.valueUnused)
    else if displayID < 65 then displayID - 1
    else ToByte(c.valueOutOfRange)
  }

  /** Every lamp is shown under exactly one display ID, its number plus one. */
  lemma LampLookupIsInverse(c: MenuConstants, displayID: byte, lamp: byte)
    requires ToByte(c.valueUnused) >= 64 && ToByte(c.valueOutOfRange) >= 64 && lamp < 64
    ensures DefaultLampLookup(c, displayID) == lamp <==> displayID == lamp + 1
  {
  }

  /** DefaultSolenoidIDLookup (OperatorMenus.cpp:61-65): display IDs 1 to
      15 are solenoids 0 to 14. */
  function DefaultSolenoidIDLookup(c: MenuConstants, displayID: byte): (r: u16)
    ensures 0 < displayID < 16 ==> r < 15
    ensures displayID == 0 ==> r == c.valueUnused
    ensures displayID >= 16 ==> r == c.valueOutOfRange
  {
    if displayID == 0 then c.valueUnused
    else if displayID < 16 then displayID - 1
    else c.valueOutOfRange
  }

  /** DefaultSolenoidStrengthLookup (OperatorMenus.cpp:67-71): strength 5
      for display IDs 1 to 15. */
  function DefaultSolenoidStrengthLookup(c: MenuConstants, displayID: byte): (r: byte)
    ensures 0 < displayID < 16 ==> r == 5
    ensures displayID == 0 ==> r == ToByte(c.valueUnused)
    ensures displayID >= 16 ==> r == ToByte(c.valueOutOfRange)
  {
    if displayID == 0 then ToByte(c.valueUnused)
    else if displayID < 16 then 5
    else ToByte(c.valueOutOfRange)
  }

  /** The two solenoid lookups agree on which display IDs name a solenoid,
      and each solenoid is found under its number plus one. */
  lemma SolenoidLookupsAgree(c: MenuConstants, displayID: byte)
    requires c.valueUnused >= 15 && c.valueOutOfRange >= 15
    requires ToByte(c.valueUnused) != 5 && ToByte(c.valueOutOfRange) != 5
    ensures DefaultSolenoidIDLookup(c, displayID) < 15 <==> DefaultSolenoidStrengthLookup(c, displayID) == 5
    ensures DefaultSolenoidIDLookup(c, displayID) < 15 ==> displayID == DefaultSolenoidIDLookup(c, displayID) + 1
  {
  }
}
