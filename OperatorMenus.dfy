/** The OperatorMenus class (OperatorMenus.cpp): the menu's levels, its
    change flags and the setting it is adjusting are fields updated in place
    by its methods, and the setting itself is changed through
    CurrentAdjustmentByte and CurrentAdjustmentUL, here references to a
    ByteSetting and a ScoreSetting object. Each method is proved against the
    pure step functions of module MenuSteps. */
module Menus {
  import opened Machine
  import opened DigitMasks
  import opened MenuSteps

  /** A byte-sized game setting the menu adjusts in place. */
  class ByteSetting {
    var value: byte

    constructor (v: byte)
      ensures value == v
    {
      value := v;
    }
  }

  /** An `unsigned long` game setting (a score or an audit) the menu adjusts
      in place. */
  class ScoreSetting {
    var value: u32

    constructor (v: u32)
      ensures value == v
    {
      value := v;
    }
  }

  class OperatorMenus {
    /** The OPERATOR_MENU_* constants of the build. */
    const c: MenuConstants
    /** Digit positions per display: 7 with RPU_OS_USE_7_DIGIT_DISPLAYS, else 6. */
    const D: nat
    /** SWITCH_STACK_EMPTY of the hardware library. */
    const switchStackEmpty: byte

    var topLevel: byte             // TopLevel
    var subLevel: byte             // SubLevel
    var numSubLevels: byte         // NumSubLevels
    var parameterID: byte          // ParameterID
    var topLevelChanged: bool      // TopLevelChanged
    var subLevelChanged: bool      // SubLevelChanged
    var parameterChanged: bool     // ParameterChanged
    var adjustmentType: byte       // AdjustmentType
    var numAdjustmentValues: byte  // NumAdjustmentValues
    const adjustmentValues: array<byte>  // AdjustmentValues[8]
    var parameterCallout: i16      // ParameterCallout
    var storageByte: i16           // CurrentAdjustmentStorageByte
    var currentByte: ByteSetting?  // CurrentAdjustmentByte
    var currentScore: ScoreSetting?  // CurrentAdjustmentUL
    var numSpeedyChanges: byte     // NumSpeedyChanges

    ghost predicate Valid()
      reads this
    {
      DefaultKindDistinct(c) && ValidDigits(D) && adjustmentValues.Length == 8 && numAdjustmentValues <= 8
    }

    /** The setting behind CurrentAdjustmentByte, if there is one. */
    ghost function ByteValue(): Option<byte>
      reads this, currentByte
    {
      if currentByte == null then None else Some(currentByte.value)
    }

    /** The setting behind CurrentAdjustmentUL, if there is one. */
    ghost function ScoreValue(): Option<u32>
      reads this, currentScore
    {
      if currentScore == null then None else Some(currentScore.value)
    }

    /** What a press of enter can change. */
    ghost function Adjustable(): Adjustment
      reads this, currentByte, currentScore
    {
      Adjustment(ByteValue(), ScoreValue(), parameterID, parameterChanged)
    }

    /** The constructor (OperatorMenus.cpp:74-108) for the menu state this
        model keeps; the fields it leaves uninitialised start at zero. */
    constructor (consts: MenuConstants, digits: nat, empty: byte)
      requires DefaultKindDistinct(consts) && ValidDigits(digits)
      ensures Valid() && c == consts && D == digits && switchStackEmpty == empty
      ensures topLevel == consts.notActive && adjustmentType == 0 && numAdjustmentValues == 0
      ensures adjustmentValues[..] == [0, 0, 0, 0, 0, 0, 0, 0] && storageByte == 0
      ensures currentByte == null && currentScore == null
      ensures fresh(adjustmentValues)
    {
      c, D, switchStackEmpty := consts, digits, empty;
      topLevel := consts.notActive;
      subLevel, numSubLevels, parameterID := 0, 0, 0;
      topLevelChanged, subLevelChanged, parameterChanged := false, false, false;
      adjustmentType := 0;
      numAdjustmentValues := 0;
      adjustmentValues := new byte[8](_ => 0);
      parameterCallout, storageByte := 0, 0;
      currentByte, currentScore := null, null;
      numSpeedyChanges := 0;
    }

    /** HasTopLevelChanged (OperatorMenus.cpp:147-153): reports the flag and
        clears it, so it is true once per change. */
    method HasTopLevelChanged() returns (changed: bool)
      modifies this`topLevelChanged
      ensures changed == old(topLevelChanged) && !topLevelChanged
    {
      changed := false;
      if topLevelChanged {
        topLevelChanged := false;
        changed := true;
      }
    }

    /** HasSubLevelChanged (OperatorMenus.cpp:155-161). */
    method HasSubLevelChanged() returns (changed: bool)
      modifies this`subLevelChanged
      ensures changed == old(subLevelChanged) && !subLevelChanged
    {
      changed := false;
      if subLevelChanged {
        subLevelChanged := false;
        changed := true;
      }
    }

    /** HasParameterChanged (OperatorMenus.cpp:163-169). */
    method HasParameterChanged() returns (changed: bool)
      modifies this`parameterChanged
      ensures changed == old(parameterChanged) && !parameterChanged
    {
      changed := false;
      if parameterChanged {
        parameterChanged := false;
        changed := true;
      }
    }

    /** The position of the first of the NumAdjustmentValues values that
        equals x, or NumAdjustmentValues: the search loops of
        SetParameterControls (OperatorMenus.cpp:218-224) and of the list
        branch of HandleEnterButton (OperatorMenus.cpp:684-695). */
    method FindValue(x: byte) returns (k: nat)
      requires Valid()
      ensures k == IndexOf(adjustmentValues[..numAdjustmentValues], x)
    {
      k := 0;
      while k < numAdjustmentValues as nat && adjustmentValues[k] != x
        invariant k <= numAdjustmentValues as nat
        invariant forall j :: 0 <= j < k ==> adjustmentValues[j] != x
      {
        k := k + 1;
      }
    }

    /** SetParameterControls (OperatorMenus.cpp:203-227): takes over the
        setting to adjust, copies its allowed values and, for a list setting,
        finds the current value's position. At most eight values are taken
        over: the copy runs over the count cut down to the table's eight
        slots, where the code as written runs over the argument count. */
    method SetParameterControls(kind: byte, numValues: byte, values: seq<byte>, callout: i16,
                                storage: i16, byteSetting: ByteSetting?, score: ScoreSetting?)
      requires Valid() && numValues as int <= |values|
      modifies this`adjustmentType, this`numAdjustmentValues, adjustmentValues, this`parameterCallout,
               this`storageByte, this`currentByte, this`currentScore, this`parameterID
      ensures Valid()
      ensures adjustmentType == kind && numAdjustmentValues == ValueCount(numValues)
      ensures parameterCallout == callout
      ensures storageByte == storage && currentByte == byteSetting && currentScore == score
      ensures adjustmentValues[..] ==
                values[..numAdjustmentValues] + old(adjustmentValues[..])[numAdjustmentValues..]
      ensures parameterID ==
                if kind == c.adjList && byteSetting != null
                then ListIndex(values[..numAdjustmentValues], byteSetting.value)
                else 0
    {
      adjustmentType := kind;
      numAdjustmentValues := ValueCount(numValues);
      CopyValues(numAdjustmentValues, values);
      parameterCallout := callout;
      storageByte := storage;
      currentByte := byteSetting;
      currentScore := score;
      parameterID := 0;
      if adjustmentType == c.adjList && currentByte != null {
        var k := FindValue(currentByte.value);
        assert adjustmentValues[..numAdjustmentValues] == values[..numAdjustmentValues];
        if k < numAdjustmentValues as nat {
          parameterID := k;
        }
      }
    }

    /** The copy loop of SetParameterControls (OperatorMenus.cpp:209-211):
        the first n allowed values are taken over, the rest stay. */
    method CopyValues(n: byte, values: seq<byte>)
      requires Valid() && n <= 8 && n as int <= |values|
      modifies adjustmentValues
      ensures adjustmentValues[..] == values[..n] + old(adjustmentValues[n..])
    {
      var count := 0;
      while count < n
        invariant count <= n
        invariant adjustmentValues[..count] == values[..count]
        invariant adjustmentValues[count..] == old(adjustmentValues[count..])
      {
        adjustmentValues[count] := values[count];
        count := count + 1;
      }
      assert adjustmentValues[..] == adjustmentValues[..n] + adjustmentValues[n..];
    }

    /** AdvanceTopMenu (OperatorMenus.cpp:337-374), without its display
        calls: moves the top level one step and leaves the sub menus. The
        result says that the menu has come round to "return to game". */
    method AdvanceTopMenu(moveForward: bool) returns (looped: bool)
      modifies this`topLevel, this`subLevel, this`numSubLevels, this`topLevelChanged,
               this`subLevelChanged, this`parameterChanged
      ensures topLevel == NextTopLevel(c, old(topLevel), moveForward)
      ensures looped <==> topLevel == c.returnToGame
      ensures subLevel == c.notActive && numSubLevels == SubLevelsOf(c, topLevel)
      ensures topLevelChanged && !subLevelChanged && !parameterChanged
    {
      if moveForward {
        topLevel := ToByte(topLevel + 1);
        if topLevel > c.gameAdjMenu {
          topLevel := c.returnToGame;
        }
      } else {
        if topLevel != 0 {
          topLevel := topLevel - 1;
        } else {
          topLevel := c.gameAdjMenu;
        }
      }
      topLevelChanged := true;
      subLevelChanged := false;
      parameterChanged := false;
      subLevel := c.notActive;

      numSubLevels := 0;
      if topLevel == c.selfTestMenu {
        numSubLevels := 6;
      }
      if topLevel == c.auditsMenu {
        numSubLevels := 6;
      }
      looped := topLevel == c.returnToGame;
    }

    /** StartSubMenu (OperatorMenus.cpp:377-386), without its display calls
        and the self test it starts: enters the first sub level with no
        setting selected. */
    method StartSubMenu()
      modifies this`subLevel, this`currentByte, this`currentScore, this`subLevelChanged
      ensures subLevel == 0 && currentByte == null && currentScore == null && subLevelChanged
    {
      subLevel := 0;
      currentByte := null;
      currentScore := null;
      subLevelChanged := true;
    }

    /** AdvanceSubMenu (OperatorMenus.cpp:388-420), without its display
        calls and the self test it restarts: moves the sub level one step,
        looping round at either end when `loopMenu` is set and leaving the
        sub menus otherwise. The result says that the menu looped. */
    method AdvanceSubMenu(moveForward: bool, loopMenu: bool) returns (looped: bool)
      modifies this`subLevel, this`subLevelChanged
      ensures (subLevel, looped) == NextSubLevel(c, old(subLevel), numSubLevels, moveForward, loopMenu)
      ensures subLevelChanged
    {
      looped := false;
      if moveForward {
        subLevel := ToByte(subLevel + 1);
        if subLevel >= numSubLevels {
          if loopMenu {
            subLevel := 0;
            looped := true;
          } else {
            subLevel := c.notActive;
          }
        }
      } else {
        if subLevel != 0 {
          subLevel := subLevel - 1;
        } else {
          if loopMenu {
            subLevel := ToByte(numSubLevels - 1);
            looped := true;
          } else {
            subLevel := c.notActive;
          }
        }
      }
      subLevelChanged := true;
    }

    /** The branches of HandleEnterButton (OperatorMenus.cpp:556-726) that
        adjust a setting, with RPU_GetUpDownSwitchState() as `up`; the
        self-test branch and the writes to EEPROM and to the displays are
        not part of this model. */
    method HandleEnterButton(doubleClick: bool, resetHeld: bool, speedyChange: bool, up: bool)
      requires Valid()
      modifies this`parameterID, this`parameterChanged, currentByte, currentScore
      ensures Adjustable() ==
                Apply(old(EnterEffect(c, topLevel, adjustmentType, adjustmentValues[..], numAdjustmentValues as nat,
                                      ByteValue(), ScoreValue(), numSpeedyChanges, resetHeld, speedyChange, up)),
                      old(Adjustable()))
    {
      var kind := adjustmentType;
      if topLevel == c.selfTestMenu {
      } else if topLevel == c.auditsMenu {
        if kind == c.audClearable && resetHeld && currentScore != null {
          currentScore.value := 0;
        }
      } else if topLevel == c.gameRulesLevel {
        if currentByte != null && kind == c.adjList && numAdjustmentValues == 2 && resetHeld {
          currentByte.value := adjustmentValues[1];
          parameterID := currentByte.value;
          parameterChanged := true;
        }
      } else if topLevel == c.basicAdjMenu || topLevel == c.gameAdjMenu {
        AdjustSetting(resetHeld, speedyChange, up);
      }
    }

    /** The adjustment-menu branch of HandleEnterButton
        (OperatorMenus.cpp:632-720). */
    method AdjustSetting(resetHeld: bool, speedyChange: bool, up: bool)
      requires Valid()
      modifies this`parameterID, this`parameterChanged, currentByte, currentScore
      ensures Adjustable() ==
                Apply(old(AdjustEffect(c, adjustmentType, adjustmentValues[..], numAdjustmentValues as nat,
                                       ByteValue(), ScoreValue(), numSpeedyChanges, resetHeld, speedyChange, up)),
                      old(Adjustable()))
    {
      var kind := adjustmentType;
      if currentByte != null && (kind == c.adjMinMax || kind == c.adjMinMaxDefault || kind == c.adjCpc) {
        var curVal := StepRange(currentByte.value, up);
        currentByte.value := curVal;
        parameterID := currentByte.value;
        parameterChanged := true;
      } else if currentByte != null && kind == c.adjList {
        var newIndex := StepList(currentByte.value, up);
        currentByte.value := adjustmentValues[newIndex];
        parameterID := newIndex;
        parameterChanged := true;
      } else if currentScore != null && (kind == c.adjScoreWithDefault || kind == c.adjScoreNoDefault || kind == c.adjScore) {
        var changeVal: u32 := 10000;
        if numSpeedyChanges > 6 {
          changeVal := 25000;
        }
        if speedyChange {
          currentScore.value := StepScore(currentScore.value, changeVal, up);
          parameterChanged := true;
        } else if !resetHeld {
          currentScore.value := StepScore(currentScore.value, 1000, up);
          parameterChanged := true;
        }
      }
    }

    /** The new value of a MIN_MAX, MIN_MAX_DEFAULT or CPC setting
        (OperatorMenus.cpp:633-651). */
    method StepRange(cur: byte, up: bool) returns (curVal: byte)
      requires Valid()
      requires adjustmentType == c.adjMinMax || adjustmentType == c.adjMinMaxDefault || adjustmentType == c.adjCpc
      ensures curVal == StepByte(adjustmentType == c.adjMinMaxDefault, adjustmentValues[0], adjustmentValues[1], cur, up)
    {
      curVal := cur;
      if up {
        curVal := ToByte(curVal + 1);
        if curVal > adjustmentValues[1] {
          if adjustmentType == c.adjMinMax || adjustmentType == c.adjCpc {
            curVal := adjustmentValues[0];
          } else {
            if curVal > 99 {
              curVal := adjustmentValues[0];
            } else {
              curVal := 99;
            }
          }
        }
      } else {
        if curVal == adjustmentValues[0] {
          if adjustmentType == c.adjMinMaxDefault {
            curVal := 99;
          } else {
            curVal := adjustmentValues[1];
          }
        } else {
          curVal := ToByte(curVal - 1);
        }
      }
    }

    /** The new list position of a LIST setting (OperatorMenus.cpp:679-694). */
    method StepList(cur: byte, up: bool) returns (newIndex: nat)
      requires Valid()
      ensures newIndex == ListStep(adjustmentValues[..numAdjustmentValues], cur, up) && newIndex < 8
    {
      var valCount := FindValue(cur);
      newIndex := 0;
      if valCount < numAdjustmentValues as nat {
        if up {
          if valCount < numAdjustmentValues as nat - 1 {
            newIndex := valCount + 1;
          } else {
            newIndex := 0;
          }
        } else {
          if valCount > 0 {
            newIndex := valCount - 1;
          }
        }
      }
    }

    /** The new value of a score setting (OperatorMenus.cpp:706-718). */
    method StepScore(cur: u32, changeVal: u32, up: bool) returns (curVal: u32)
      ensures curVal == ScoreStep(adjustmentType == c.adjScoreNoDefault, changeVal, cur, up)
    {
      curVal := cur;
      if up {
        curVal := Wrap32(curVal + changeVal);
      } else if curVal >= changeVal {
        curVal := curVal - changeVal;
      }
      if adjustmentType == c.adjScoreNoDefault && curVal == 0 {
        curVal := 1000;
      }
    }

    /** GetDisplayMaskForSwitches (OperatorMenus.cpp:755-788): the positions
        the switch test lights for a pair of switch numbers. The byte
        `displayMask /= 8` is a shift right by three. */
    method GetDisplayMaskForSwitches(switch1: byte, switch2: byte) returns (displayMask: bv8)
      requires ValidDigits(D)
      ensures displayMask == SwitchPairMask(D, switchStackEmpty, switch1, switch2)
    {
      displayMask := 0;
      var count := 0;
      while count < 2
        invariant count <= 2
        invariant displayMask == if count == 0 then 0
                                 else if count == 1 then SwitchDigitsMask(D, switchStackEmpty, switch1)
                                 else SwitchPairMask(D, switchStackEmpty, switch1, switch2)
      {
        var curSwitch := switch1;
        if count == 1 {
          curSwitch := switch2;
        }
        ghost var before := Shr(displayMask, 3);
        displayMask := Shr(displayMask, 3);
        if curSwitch != switchStackEmpty {
          curSwitch := ToByte(curSwitch as int + 1);
          if curSwitch > 99 {
            displayMask := displayMask | (if D == 7 then 0x70 else 0x38);
          } else if curSwitch > 9 {
            displayMask := displayMask | (if D == 7 then 0x60 else 0x30);
          } else {
            displayMask := displayMask | (if D == 7 then 0x40 else 0x20);
          }
        }
        assert displayMask == before | SwitchDigitsMask(D, switchStackEmpty, if count == 1 then switch2 else switch1);
        count := count + 1;
      }
    }
  }
}
