/** The per-display override table and the tracking resets
    (DisplayHandler.cpp:70-128): Display_OverrideScoreDisplay,
    Display_ClearOverride, Display_SetAnimationDisplayOrder and
    Display_ResetDisplayTrackingVariables as functions of the handler's state. */
module OverrideTable {
  import opened Machine
  import opened Animator

  /** Display_OverrideScoreDisplay (DisplayHandler.cpp:88-96): a display
      number past the last display is ignored; otherwise the display's
      override bit is set, its slots take the new value, effect and mask, and
      its last frame number becomes 255 so that the next call starts afresh. */
  function Override(e: Engine, d: byte, value: u32, kind: byte, mask: bv8): (r: Engine)
    requires e.Valid()
    ensures r.Valid()
    ensures d >= 4 ==> r == e
    ensures d < 4 ==>
              Bit(r.overrideStatus, d) &&
              (forall b :: 0 <= b < 8 && b != d ==> (Bit(r.overrideStatus, b) <==> Bit(e.overrideStatus, b)))
    ensures d < 4 ==>
              r.overrideValue[d] == value && r.animation[d] == kind &&
              r.lastSeed[d] == 255 && r.overrideMask[d] == mask &&
              (forall j :: 0 <= j < 4 && j != d ==>
                 r.overrideValue[j] == e.overrideValue[j] && r.animation[j] == e.animation[j] &&
                 r.lastSeed[j] == e.lastSeed[j] && r.overrideMask[j] == e.overrideMask[j])
    ensures r == e.(overrideStatus := r.overrideStatus, animation := r.animation,
                    overrideValue := r.overrideValue, lastSeed := r.lastSeed,
                    overrideMask := r.overrideMask)
  {
    if d >= 4 then e
    else
      SetBitOnly(e.overrideStatus, d);
      e.(overrideStatus := e.overrideStatus | Shl(1, d),
         animation := e.animation[d := kind],
         overrideValue := e.overrideValue[d := value],
         lastSeed := e.lastSeed[d := 255],
         overrideMask := e.overrideMask[d := mask])
  }

  /** Display_ClearOverride (DisplayHandler.cpp:99-105): 0xFF clears every
      override; any other number clears only its own bit, which for a number
      of 8 or more is no bit at all. */
  function ClearOverride(e: Engine, d: byte): (r: Engine)
    ensures r == e.(overrideStatus := r.overrideStatus)
    ensures d == 0xFF ==> r.overrideStatus == 0
    ensures d != 0xFF ==>
              forall b :: 0 <= b < 8 ==> (Bit(r.overrideStatus, b) <==> Bit(e.overrideStatus, b) && b != d)
  {
    if d == 0xFF then e.(overrideStatus := 0)
    else
      ClearBitOnly(e.overrideStatus, d);
      e.(overrideStatus := e.overrideStatus & !Shl(1, d))
  }

  /** Clearing an override undoes setting it: the status is as before the
      override whenever the display had none, and the display's slots keep
      the override's value for a later one. */
  lemma ClearUndoesOverride(e: Engine, d: byte, value: u32, kind: byte, mask: bv8)
    requires e.Valid() && d < 4 && !Bit(e.overrideStatus, d)
    ensures ClearOverride(Override(e, d, value, kind, mask), d).overrideStatus == e.overrideStatus
  {
    var s := e.overrideStatus;
    var s' := ClearOverride(Override(e, d, value, kind, mask), d).overrideStatus;
    forall b | 0 <= b < 8
      ensures Bit(s', b) <==> Bit(s, b)
    {
    }
    BitsEqual(s', s);
  }

  /** Two masks with the same bits are equal. */
  lemma BitsEqual(x: bv8, y: bv8)
    requires forall b :: 0 <= b < 8 ==> (Bit(x, b) <==> Bit(y, b))
    ensures x == y
  {
    assert Bit(x, 0) == Bit(y, 0) && Bit(x, 1) == Bit(y, 1) && Bit(x, 2) == Bit(y, 2) &&
           Bit(x, 3) == Bit(y, 3) && Bit(x, 4) == Bit(y, 4) && Bit(x, 5) == Bit(y, 5) &&
           Bit(x, 6) == Bit(y, 6) && Bit(x, 7) == Bit(y, 7);
  }

  /** Display_SetAnimationDisplayOrder (DisplayHandler.cpp:120-125): the
      flyby order of the four displays. */
  function SetAnimationDisplayOrder(e: Engine, d0: byte, d1: byte, d2: byte, d3: byte): (r: Engine)
    ensures r == e.(order := r.order) && r.order == [d0, d1, d2, d3]
  {
    e.(order := [d0, d1, d2, d3])
  }

  /** Display_ResetDisplayTrackingVariables (DisplayHandler.cpp:70-76): ends
      any increment animation without committing what was pending. */
  function ResetTracking(e: Engine): (r: Engine)
    ensures r.pending == 0 && r.animStart == 0 && r.lastRemaining == 0
    ensures r.lastPhase == 0xFF && r.tickLevel == 0
    ensures r.(pending := e.pending, animStart := e.animStart, lastRemaining := e.lastRemaining,
               lastPhase := e.lastPhase, tickLevel := e.tickLevel) == e
  {
    e.(pending := 0, animStart := 0, lastRemaining := 0, lastPhase := 0xFF, tickLevel := 0)
  }

  /** `s | (0x01 << d)` sets bit d and no other. */
  lemma SetBitOnly(s: bv8, d: nat)
    ensures forall b :: 0 <= b < 8 ==> (Bit(s | Shl(1, d), b) <==> Bit(s, b) || b == d)
  {
    forall b | 0 <= b < 8
      ensures Bit(s | Shl(1, d), b) <==> Bit(s, b) || b == d
    {
      SingleBit(s, d, b);
    }
  }

  /** `s & ~(0x01 << d)` clears bit d and no other. */
  lemma ClearBitOnly(s: bv8, d: nat)
    ensures forall b :: 0 <= b < 8 ==> (Bit(s & !Shl(1, d), b) <==> Bit(s, b) && b != d)
  {
    forall b | 0 <= b < 8
      ensures Bit(s & !Shl(1, d), b) <==> Bit(s, b) && b != d
    {
      SingleBit(s, d, b);
    }
  }

  lemma SingleBit(s: bv8, d: nat, b: nat)
    requires b < 8
    ensures Bit(s | Shl(1, d), b) <==> Bit(s, b) || b == d
    ensures Bit(s & !Shl(1, d), b) <==> Bit(s, b) && b != d
  {
    OneShifted(d, b);
    WithBit(s, Shl(1, d), d, b);
  }

  lemma WithBit(s: bv8, y: bv8, d: nat, b: nat)
    requires b < 8 && (Bit(y, b) <==> b == d)
    ensures Bit(s | y, b) <==> Bit(s, b) || b == d
    ensures Bit(s & !y, b) <==> Bit(s, b) && b != d
  {
    OrAndBit(s, y, b);
  }

  lemma OneShifted(d: nat, b: nat)
    requires b < 8
    ensures Bit(Shl(1, d), b) <==> b == d
  {
    if d == 0 {} else if d == 1 {} else if d == 2 {} else if d == 3 {}
    else if d == 4 {} else if d == 5 {} else if d == 6 {} else if d == 7 {}
    else { assert Shl(1, d) == 0; }
  }

  lemma OrAndBit(x: bv8, y: bv8, b: nat)
    requires b < 8
    ensures Bit(x | y, b) <==> Bit(x, b) || Bit(y, b)
    ensures Bit(x & !y, b) <==> Bit(x, b) && !Bit(y, b)
  {
    if b == 0 {} else if b == 1 {} else if b == 2 {} else if b == 3 {}
    else if b == 4 {} else if b == 5 {} else if b == 6 {} else {}
  }
}
