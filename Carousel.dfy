/** ShowOtherScores (DisplayHandler.cpp:438-513): when there are more players
    than displays, a display that does not show the current player cycles
    through the other players. Each gets a wipe of its player number across
    the display, a frame with its number at the left edge and its leading
    digit at the right, its score scrolling in from the top digits, and then
    its whole score. */
module Carousel {
  import opened Machine
  import opened DigitMasks
  import opened Primitives

  const FRAME_MS: nat := 80

  /** Phases that show a player's whole score at the end of its turn. */
  const FULL_SCORE_PHASES: nat := 12

  /** The digit count the carousel lays a score out with: a zero counts as
      two digits. */
  function ScoreDigits(s: u32): (n: nat)
    ensures 1 <= n <= 10
  {
    MagnitudeOfU32(s);
    if Magnitude(s) == 0 then 2 else Magnitude(s)
  }

  /** numDigitsForScore: two for the current player. */
  function DigitsFor(scores: seq<u32>, cp: nat, i: nat): (n: nat)
    requires i < |scores|
    ensures 1 <= n <= 10
  {
    if i == cp then 2 else ScoreDigits(scores[i])
  }

  /** playerNumPhases: the current player gets no turn. */
  function PlayerPhases(D: nat, scores: seq<u32>, cp: nat, i: nat): nat
    requires ValidDigits(D) && i < |scores|
  {
    if i == cp then 0 else 2 * D - 2 + ScoreDigits(scores[i]) + FULL_SCORE_PHASES
  }

  /** The phases of players from..n-1. */
  function PhasesFrom(D: nat, scores: seq<u32>, cp: nat, n: nat, from: nat): nat
    requires ValidDigits(D) && n <= |scores| && from <= n
    decreases n - from
  {
    if from == n then 0 else PlayerPhases(D, scores, cp, from) + PhasesFrom(D, scores, cp, n, from + 1)
  }

  /** A whole cycle has at least one turn per other player, and at most 34
      phases per player. */
  lemma {:induction false} PhasesBounds(D: nat, scores: seq<u32>, cp: nat, n: nat, from: nat)
    requires ValidDigits(D) && n <= |scores| && from <= n
    ensures PhasesFrom(D, scores, cp, n, from) <= 34 * (n - from)
    ensures PhasesFrom(D, scores, cp, n, from) >= 23 * (n - from - (if from <= cp < n then 1 else 0))
    decreases n - from
  {
    if from < n {
      PhasesBounds(D, scores, cp, n, from + 1);
    }
  }

  /** The phases of players 0..k-1, as the counting loop adds them up. */
  function PhasesBelow(D: nat, scores: seq<u32>, cp: nat, k: nat): nat
    requires ValidDigits(D) && k <= |scores|
  {
    if k == 0 then 0 else PhasesBelow(D, scores, cp, k - 1) + PlayerPhases(D, scores, cp, k - 1)
  }

  /** Each player adds at most 34 phases, and the current player none. */
  lemma {:induction false} PhasesBelowBound(D: nat, scores: seq<u32>, cp: nat, k: nat)
    requires ValidDigits(D) && k <= |scores|
    ensures PhasesBelow(D, scores, cp, k) <= 34 * k
    ensures cp < k ==> PhasesBelow(D, scores, cp, k) <= 34 * (k - 1)
  {
    if k > 0 {
      PhasesBelowBound(D, scores, cp, k - 1);
    }
  }

  /** Counting up to k and walking on from k add up to the whole cycle. */
  lemma {:induction false} PhasesSplit(D: nat, scores: seq<u32>, cp: nat, n: nat, k: nat)
    requires ValidDigits(D) && k <= n <= |scores|
    ensures PhasesBelow(D, scores, cp, k) + PhasesFrom(D, scores, cp, n, k) == PhasesFrom(D, scores, cp, n, 0)
  {
    if k > 0 {
      PhasesSplit(D, scores, cp, n, k - 1);
    }
  }

  /** The loop that finds whose turn a phase belongs to: the first player
      whose phases are not used up, with the phase within its turn. */
  function Locate(D: nat, scores: seq<u32>, cp: nat, n: nat, from: nat, phase: nat): (nat, nat)
    requires ValidDigits(D) && n <= |scores| && from <= n
    decreases n - from
  {
    if from == n then (n, phase)
    else if phase >= PlayerPhases(D, scores, cp, from) then
      Locate(D, scores, cp, n, from + 1, phase - PlayerPhases(D, scores, cp, from))
    else (from, phase)
  }

  /** A phase of the cycle always lands in the turn of a player in the game
      who is not the current player. */
  lemma {:induction false} LocateFindsOtherPlayer(D: nat, scores: seq<u32>, cp: nat, n: nat, from: nat, phase: nat)
    requires ValidDigits(D) && n <= |scores| && from <= n
    requires phase < PhasesFrom(D, scores, cp, n, from)
    ensures var (p, rest) := Locate(D, scores, cp, n, from, phase);
            from <= p < n && p != cp && rest < PlayerPhases(D, scores, cp, p)
    decreases n - from
  {
    if phase >= PlayerPhases(D, scores, cp, from) {
      LocateFindsOtherPlayer(D, scores, cp, n, from + 1, phase - PlayerPhases(D, scores, cp, from));
    }
  }

  /** The number of lit positions in wipe phase `phase`: growing from the
      left edge to the full display, then shrinking. */
  function WipeWidth(D: nat, phase: nat): nat
    requires ValidDigits(D) && phase < 2 * D - 2
  {
    if phase < D then phase + 1 else 2 * D - (1 + phase)
  }

  /** The wipe lights 1 to D positions, all of them at its middle, and it
      grows and shrinks by one position per phase. */
  lemma WipeShape(D: nat, phase: nat)
    requires ValidDigits(D) && phase < 2 * D - 2
    ensures 1 <= WipeWidth(D, phase) <= D
    ensures WipeWidth(D, phase) == D <==> phase == D - 1
    ensures phase + 1 < 2 * D - 2 ==>
              WipeWidth(D, phase + 1) == WipeWidth(D, phase) + (if phase + 1 < D then 1 else -1)
  {
  }

  /** The player number repeated in every position: (MAX_DISPLAY_SCORE / 9)
      times the number. */
  function Repeated(D: nat, p: nat): u32
    requires ValidDigits(D)
  {
    Wrap32((Pow10(D) - 1) / 9 * (p + 1))
  }

  /** The decimal digit of weight 10^k. */
  function DigitAt(v: nat, k: nat): nat {
    v / Pow10(k) % 10
  }

  /** c repeated k times as a decimal number. */
  function RepUnitTimes(c: nat, k: nat): nat {
    if k == 0 then 0 else 10 * RepUnitTimes(c, k - 1) + c
  }

  lemma {:induction false} RepUnitDigits(c: nat, k: nat, j: nat)
    requires c < 10 && j < k
    ensures DigitAt(RepUnitTimes(c, k), j) == c
  {
    var x := RepUnitTimes(c, k - 1);
    if j > 0 {
      RepUnitDigits(c, k - 1, j - 1);
      DivPow10Step(10 * x + c, 0);
      DivPow10Shift(10 * x + c, j - 1);
      assert (10 * x + c) / 10 == x;
    }
  }

  lemma DivPow10Shift(v: nat, j: nat)
    ensures v / 10 / Pow10(j) == v / Pow10(j + 1)
  {
    DivDivComm(v, j);
  }

  lemma {:induction false} DivDivComm(v: nat, j: nat)
    ensures v / 10 / Pow10(j) == v / Pow10(j + 1)
  {
    if j > 0 {
      DivDivComm(v, j - 1);
      DivPow10Step(v / 10, j - 1);
      DivPow10Step(v, j);
    }
  }

  /** The wipe's mask loop (DisplayHandler.cpp:490-493): k passes of
      doubling the byte and setting its low bit. */
  method WipeMask(k: nat) returns (m: bv8)
    ensures m == LowOnes(k)
  {
    m := 0;
    var c := 0;
    while c < k
      invariant c <= k
      invariant m == LowOnes(c)
    {
      LowOnesDouble(c);
      m := (m * 2) | 1;
      c := c + 1;
    }
  }

  lemma LowOnesDouble(c: nat)
    ensures (LowOnes(c) * 2) | 1 == LowOnes(c + 1)
  {
    if c == 0 {} else if c == 1 {} else if c == 2 {} else if c == 3 {}
    else if c == 4 {} else if c == 5 {} else if c == 6 {} else if c == 7 {} else {}
  }

  /** Every position of the wipe shows the player's number. */
  lemma WipeShowsPlayerNumber(D: nat, p: nat, k: nat)
    requires ValidDigits(D) && p < 9 && k < D
    ensures Repeated(D, p) == RepUnitTimes(p + 1, D)
    ensures DigitAt(Repeated(D, p), k) == p + 1
  {
    RepUnitIsRepeated(D, p + 1);
    RepUnitDigits(p + 1, D, k);
  }

  lemma RepUnitIsRepeated(D: nat, c: nat)
    requires ValidDigits(D) && 1 <= c <= 9
    ensures Wrap32((Pow10(D) - 1) / 9 * c) == RepUnitTimes(c, D)
  {
    assert RepUnitTimes(c, 0) == 0;
    assert RepUnitTimes(c, 1) == c;
    assert RepUnitTimes(c, 2) == 11 * c;
    assert RepUnitTimes(c, 3) == 111 * c;
    assert RepUnitTimes(c, 4) == 1111 * c;
    assert RepUnitTimes(c, 5) == 11111 * c;
    assert RepUnitTimes(c, 6) == 111111 * c;
    if D == 6 {
      assert Pow10(6) == 1000000;
    } else {
      assert RepUnitTimes(c, 7) == 1111111 * c;
      assert Pow10(7) == 10000000;
    }
  }

  /** The frame between wipe and scroll: the player number at the left edge
      and the score's leading digit at the right edge. */
  function IntroValue(D: nat, p: nat, score: u32, nd: nat): u32
    requires ValidDigits(D) && nd >= 1
  {
    Wrap32((p + 1) * Pow10(D - 1) + score / Pow10(nd - 1))
  }

  function IntroMask(D: nat): bv8
    requires ValidDigits(D)
  {
    1 | Shr(0x80, 8 - D)
  }

  /** The intro frame lights exactly the two edge positions. */
  lemma IntroMaskEdges(D: nat, b: nat)
    requires ValidDigits(D) && b < 8
    ensures Bit(IntroMask(D), b) <==> b == 0 || b == D - 1
  {
  }

  /** The pow10 index the scroll phases use when laid out for D digits: the
      scroll starts at phase 2D-1, one after the intro frame. */
  function ScrollIndex(D: nat, nd: nat, rest: nat): int
    requires ValidDigits(D)
  {
    nd - 2 - (rest - (2 * D - 1))
  }

  /** The same index as written, with the scroll start fixed at phase 11. */
  function ScrollIndexAsWritten(nd: nat, rest: nat): int {
    nd - 2 - (rest - 11)
  }

  /** The scroll phases of a player are those between the intro frame and
      the final whole-score phases. */
  predicate IsScrollPhase(D: nat, nd: nat, rest: nat)
    requires ValidDigits(D)
  {
    2 * D - 2 < rest < 2 * D - 2 + nd
  }

  /** On every scroll phase the index selects a pow10 entry from 10^(nd-2)
      down to 10^0, so the score scrolls in from its top two digits. */
  lemma ScrollIndexInRange(D: nat, nd: nat, rest: nat)
    requires ValidDigits(D) && IsScrollPhase(D, nd, rest)
    ensures 0 <= ScrollIndex(D, nd, rest) <= nd - 2
    ensures ScrollIndex(D, nd, rest) == nd - 2 - (rest - (2 * D - 1))
  {
  }

  /** On six-digit hardware the written index is the intended one. */
  lemma ScrollIndexAsWrittenOnSixDigits(nd: nat, rest: nat)
    ensures ScrollIndexAsWritten(nd, rest) == ScrollIndex(6, nd, rest)
  {
  }

  /** On seven-digit hardware the written index is two too small on every
      scroll phase, and it falls before the table exactly in a score's last
      two scroll phases (its only one for a two-digit score, which reads
      pow10[-2] at phase 13). */
  lemma ScrollIndexAsWrittenOffTable(nd: nat, rest: nat)
    requires IsScrollPhase(7, nd, rest)
    ensures ScrollIndexAsWritten(nd, rest) == ScrollIndex(7, nd, rest) - 2
    ensures ScrollIndexAsWritten(nd, rest) < 0 <==> rest + 1 >= 2 * 7 - 3 + nd
    ensures IsScrollPhase(7, 2, 13) && ScrollIndexAsWritten(2, 13) == -2 && ScrollIndex(7, 2, 13) == 0
  {
  }

  /** Each scroll phase adds one digit: the shown part of a score of nd digits
      has rest - 2D + 3 digits, from two up to nd - 1 ... */
  lemma ScrollRevealsOneDigitPerPhase(D: nat, score: u32, rest: nat)
    requires ValidDigits(D) && score > 0
    requires IsScrollPhase(D, Magnitude(score), rest)
    ensures Magnitude(score / Pow10(ScrollIndex(D, Magnitude(score), rest))) == rest - 2 * D + 3
  {
    MagnitudeOfDiv(score, ScrollIndex(D, Magnitude(score), rest));
  }

  /** The writes for phase `rest` of player p's turn. */
  function TurnWrites(D: nat, d: nat, scores: seq<u32>, cp: nat, p: nat, rest: nat): seq<Write>
    requires ValidDigits(D) && p < |scores|
  {
    var nd := DigitsFor(scores, cp, p);
    if rest < 2 * D - 2 then
      [SetBlank(d, LowOnes(WipeWidth(D, rest))), DigitsMin(d, Repeated(D, p), false, 1)]
    else if rest == 2 * D - 2 then
      [DigitsMin(d, IntroValue(D, p, scores[p], nd), false, 1), SetBlank(d, IntroMask(D))]
    else if rest < PlayerPhases(D, scores, cp, p) - FULL_SCORE_PHASES then
      ScrollIndexInRange(D, nd, rest);
      [DigitsMin(d, ScaleDown(scores[p], ScrollIndex(D, nd, rest)), true, 2)]
    else
      [DigitsMin(d, scores[p], true, 2)]
  }

  /** The writes of one carousel frame at time t: the phase of the cycle,
      whose turn it falls in and what that turn draws. */
  function CycleWrites(D: nat, d: nat, scores: seq<u32>, numPlayers: nat, cp: nat, t: u32): seq<Write>
    requires ValidDigits(D) && 3 <= numPlayers <= |scores|
  {
    PhasesBounds(D, scores, cp, numPlayers, 0);
    var total := PhasesFrom(D, scores, cp, numPlayers, 0);
    var (p, rest) := Locate(D, scores, cp, numPlayers, 0, t / FRAME_MS % total);
    LocateFindsOtherPlayer(D, scores, cp, numPlayers, 0, t / FRAME_MS % total);
    TurnWrites(D, d, scores, cp, p, rest)
  }

  /** ShowOtherScores: returns the new LastOtherScoresPhaseShown and the
      writes. */
  function OtherScores(D: nat, d: nat, scores: seq<u32>, numPlayers: nat, cp: nat,
                       t: u32, lastOther: byte): (byte, seq<Write>)
    requires ValidDigits(D) && numPlayers <= |scores|
  {
    if numPlayers < 3 then (lastOther, [])
    else
      var frame := ToByte(t / FRAME_MS);
      if frame == lastOther then (lastOther, [])
      else (frame, CycleWrites(D, d, scores, numPlayers, cp, t))
  }

  /** The carousel draws once per 80 ms frame, only on the display it was
      called for, and always for a player in the game other than the
      current one. */
  lemma OtherScoresFacts(D: nat, d: nat, scores: seq<u32>, numPlayers: nat, cp: nat,
                         t: u32, lastOther: byte)
    requires ValidDigits(D) && numPlayers <= |scores|
    ensures var (last', ws) := OtherScores(D, d, scores, numPlayers, cp, t, lastOther);
            AllTo(ws, d) &&
            (ws != [] ==> last' != lastOther && numPlayers >= 3) &&
            OtherScores(D, d, scores, numPlayers, cp, t, last').1 == []
  {
  }

  // -------------------------------------------------- the frame, in place

  /** One frame of the carousel (DisplayHandler.cpp:451-510): the phase
      count of every player, whose turn the frame falls in, and what that
      turn draws. The two tables have a slot per player. */
  method CarouselFrame(D: nat, dc: nat, scores: array<u32>, numPlayers: nat, cp: nat, t: u32)
    returns (ws: seq<Write>)
    requires ValidDigits(D) && 3 <= numPlayers <= scores.Length && numPlayers <= 8 && cp < numPlayers
    ensures ws == CycleWrites(D, dc, scores[..], numPlayers, cp, t)
  {
    ghost var s := scores[..];
    var phases, digits, numPhases := CountPhases(D, scores, numPlayers, cp);
    var p, rest := FindTurn(D, phases, numPhases, numPlayers, t, s, cp);
    ws := TurnFrame(D, dc, scores, p, rest, phases[p], digits[p], cp);
    ghost var total := PhasesFrom(D, s, cp, numPlayers, 0);
    LocateFindsOtherPlayer(D, s, cp, numPlayers, 0, t / FRAME_MS % total);
  }

  /** The counting loop (DisplayHandler.cpp:451-466): each player's phase
      count and digit count, and their sum. */
  method CountPhases(D: nat, scores: array<u32>, numPlayers: nat, cp: nat)
    returns (phases: array<nat>, digits: array<nat>, numPhases: byte)
    requires ValidDigits(D) && 3 <= numPlayers <= scores.Length && numPlayers <= 8 && cp < numPlayers
    ensures phases.Length == numPlayers && digits.Length == numPlayers
    ensures forall j :: 0 <= j < numPlayers ==>
              phases[j] == PlayerPhases(D, scores[..], cp, j) && digits[j] == DigitsFor(scores[..], cp, j)
    ensures numPhases == PhasesFrom(D, scores[..], cp, numPlayers, 0) && numPhases > 0
  {
    ghost var s := scores[..];
    ghost var pt := seq(numPlayers, j requires 0 <= j < numPlayers => PlayerPhases(D, s, cp, j));
    ghost var dt := seq(numPlayers, j requires 0 <= j < numPlayers => DigitsFor(s, cp, j));
    phases := new nat[numPlayers];
    digits := new nat[numPlayers];
    numPhases := 0;
    var count := 0;
    while count < numPlayers
      invariant count <= numPlayers && s == scores[..]
      invariant numPhases == PhasesBelow(D, s, cp, count)
      invariant phases[..count] == pt[..count] && digits[..count] == dt[..count]
    {
      var ph, nd;
      ph, nd, numPhases := PlayerEntry(D, scores, count, cp, numPhases);
      assert ph == pt[count] && nd == dt[count];
      phases[count] := ph;
      digits[count] := nd;
      count := count + 1;
    }
    assert phases[..] == phases[..count] && digits[..] == digits[..count];
    PhasesSplit(D, s, cp, numPlayers, numPlayers);
    PhasesBounds(D, s, cp, numPlayers, 0);
  }

  /** One player's entries in the two tables (DisplayHandler.cpp:455-464):
      none for the current player, else its digit count, a zero counting
      as two, and the phases of its turn, which are added to the sum. With
      at most eight players, one of them the current player, and at most 34
      phases for each of the others, the byte sum does not wrap. */
  method PlayerEntry(D: nat, scores: array<u32>, count: nat, cp: nat, sum: byte)
    returns (ph: nat, nd: nat, sum': byte)
    requires ValidDigits(D) && count < scores.Length && count < 8 && cp < 8
    requires sum == PhasesBelow(D, scores[..], cp, count)
    ensures ph == PlayerPhases(D, scores[..], cp, count) && nd == DigitsFor(scores[..], cp, count)
    ensures sum' == PhasesBelow(D, scores[..], cp, count + 1)
  {
    PhasesBelowBound(D, scores[..], cp, count + 1);
    if count == cp {
      return 0, 2, sum;
    }
    var n := MagnitudeOfScore(scores[count]);
    if n == 0 {
      n := 2;
    }
    nd := n;
    ph := D * 2 - 2 + n + FULL_SCORE_PHASES;
    sum' := sum + ph;
  }

  /** The search loop (DisplayHandler.cpp:470-479): the frame's phase of
      the cycle, used up turn by turn until it falls inside one. */
  method FindTurn(D: nat, phases: array<nat>, numPhases: byte, numPlayers: nat, t: u32,
                  ghost s: seq<u32>, ghost cp: nat)
    returns (p: nat, rest: nat)
    requires ValidDigits(D) && 3 <= numPlayers <= |s| && phases.Length == numPlayers
    requires forall j :: 0 <= j < numPlayers ==> phases[j] == PlayerPhases(D, s, cp, j)
    requires numPhases == PhasesFrom(D, s, cp, numPlayers, 0) && numPhases > 0
    ensures (p, rest) == Locate(D, s, cp, numPlayers, 0, t / FRAME_MS % numPhases)
    ensures p < numPlayers && p != cp && rest < phases[p]
  {
    var phase: byte := t / FRAME_MS % numPhases;
    p, rest := 0, phase;
    while p < numPlayers && rest >= phases[p]
      invariant p <= numPlayers
      invariant Locate(D, s, cp, numPlayers, p, rest) == Locate(D, s, cp, numPlayers, 0, phase)
    {
      rest := rest - phases[p];
      p := p + 1;
    }
    LocateFindsOtherPlayer(D, s, cp, numPlayers, 0, phase);
  }

  /** What phase `rest` of player p's turn draws (DisplayHandler.cpp:481-510):
      the wipe of the player number, the intro frame, the score scrolling
      in, or the whole score. */
  method TurnFrame(D: nat, dc: nat, scores: array<u32>, p: nat, rest: nat, phases: nat, nd: nat, ghost cp: nat)
    returns (ws: seq<Write>)
    requires ValidDigits(D) && p < scores.Length && p != cp && rest < phases
    requires phases == PlayerPhases(D, scores[..], cp, p) && nd == DigitsFor(scores[..], cp, p)
    ensures ws == TurnWrites(D, dc, scores[..], cp, p, rest)
  {
    if rest < D * 2 - 2 {
      var repeated := Wrap32((Pow10(D) - 1) / 9 * (p + 1));
      var width := if rest < D then rest + 1 else 2 * D - (1 + rest);
      var mask := WipeMask(width);
      ws := [SetBlank(dc, mask), DigitsMin(dc, repeated, false, 1)];
    } else if rest == D * 2 - 2 {
      var mask: bv8 := 1;
      mask := mask | Shr(0x80, 8 - D);
      var value := Wrap32((p + 1) * Pow10(D - 1));
      value := Wrap32(value + Quotient(scores[p], Pow10(nd - 1)));
      assert value == IntroValue(D, p, scores[p], nd) by {
        Wrap32Sum((p + 1) * Pow10(D - 1), scores[p] / Pow10(nd - 1));
      }
      ws := [DigitsMin(dc, value, false, 1), SetBlank(dc, mask)];
    } else if rest < phases - FULL_SCORE_PHASES {
      ScrollIndexInRange(D, nd, rest);
      var value := Quotient(scores[p], Pow10(nd - 2 - (rest - (2 * D - 1))));
      ws := [DigitsMin(dc, value, true, 2)];
    } else {
      ws := [DigitsMin(dc, scores[p], true, 2)];
    }
  }
}
