/** The two display primitives of the hardware library, RPU_SetDisplay and
    RPU_SetDisplayBlank. Their internals are not part of this model: a call is
    recorded as a Write, so that the model can state which writes happen. */
module Primitives {
  import opened Machine

  /** An optional argument of RPU_SetDisplay: either passed by the caller or
      left to the library's default. */
  datatype Param<T> = LibraryDefault | Given(value: T)

  datatype Write =
    | SetDigits(display: nat, value: u32, suppressLeadingZeros: Param<bool>,
                minDigits: Param<nat>, rightJustify: Param<bool>)
    | SetBlank(display: nat, mask: bv8)
  {
    /** The display a write goes to. */
    function Target(): nat {
      match this
      case SetDigits(d, _, _, _, _) => d
      case SetBlank(d, _) => d
    }
  }

  /** Every write of `ws` goes to display `d`. */
  predicate AllTo(ws: seq<Write>, d: nat) {
    forall i :: 0 <= i < |ws| ==> ws[i].Target() == d
  }

  /** RPU_SetDisplay(d, v, suppress) with the other arguments defaulted. */
  function Digits(d: nat, v: u32, suppress: bool): Write {
    SetDigits(d, v, Given(suppress), LibraryDefault, LibraryDefault)
  }

  /** RPU_SetDisplay(d, v, suppress, minDigits). */
  function DigitsMin(d: nat, v: u32, suppress: bool, minDigits: nat): Write {
    SetDigits(d, v, Given(suppress), Given(minDigits), LibraryDefault)
  }

  /** RPU_SetDisplay(d, v, suppress, minDigits, rightJustify). */
  function DigitsFull(d: nat, v: u32, suppress: bool, minDigits: nat, justify: bool): Write {
    SetDigits(d, v, Given(suppress), Given(minDigits), Given(justify))
  }

  /** RPU_SetDisplay(d, v) with every optional argument defaulted. */
  function DigitsDefault(d: nat, v: u32): Write {
    SetDigits(d, v, LibraryDefault, LibraryDefault, LibraryDefault)
  }
}
