/**
 The round constants are the ones that the linear feedback shift register of section 3.2.5 of FIPS 202 produces.
 */
module KeccakConstants {
  import opened KeccakSteps

  /** One step of the register of Algorithm 5; bit `k` of the word is `R[k]`. */
  function Shift(r: bv8): bv8 {
    (r << 1) ^ (if r & 0x80 != 0 then 0x71 else 0)
  }

  /** The register after `t` steps. */
  function Register(t: nat): bv8 {
    if t == 0 then 1 else Shift(Register(t - 1))
  }

  /** `rc(t)`. */
  predicate Rc(t: nat) {
    Register(t) & 1 == 1
  }

  /** The round constant of Algorithm 6: bit `2^j - 1` is `rc(j + 7 * round)`. */
  function RoundConstant(round: nat): int {
    (if Rc(7 * round) then 0x1 else 0) + (if Rc(7 * round + 1) then 0x2 else 0)
    + (if Rc(7 * round + 2) then 0x8 else 0) + (if Rc(7 * round + 3) then 0x80 else 0)
    + (if Rc(7 * round + 4) then 0x8000 else 0) + (if Rc(7 * round + 5) then 0x8000_0000 else 0)
    + (if Rc(7 * round + 6) then 0x8000_0000_0000_0000 else 0)
  }

  /** The register at the start of each round, and the seven bits it gives to that round. */
  const REGISTERS: seq<bv8> := [
    0x01, 0x80, 0xD8, 0x1A, 0xDF, 0x09, 0x35, 0x4F, 0xCA, 0x70, 0x41, 0xEC,
    0xD5, 0xCD, 0x63, 0xAB, 0xAA, 0x2A, 0xF2, 0xE8, 0x37, 0x3E, 0x0B, 0x44]

  function Seven(r: bv8): bv8 {
    Shift(Shift(Shift(Shift(Shift(Shift(Shift(r)))))))
  }

  function Word(r: bv8): int {
    (if r & 1 == 1 then 0x1 else 0) + (if Shift(r) & 1 == 1 then 0x2 else 0)
    + (if Shift(Shift(r)) & 1 == 1 then 0x8 else 0) + (if Shift(Shift(Shift(r))) & 1 == 1 then 0x80 else 0)
    + (if Shift(Shift(Shift(Shift(r)))) & 1 == 1 then 0x8000 else 0)
    + (if Shift(Shift(Shift(Shift(Shift(r))))) & 1 == 1 then 0x8000_0000 else 0)
    + (if Shift(Shift(Shift(Shift(Shift(Shift(r)))))) & 1 == 1 then 0x8000_0000_0000_0000 else 0)
  }

  lemma RegisterStep(round: nat)
    requires round < 23
    ensures Seven(REGISTERS[round]) == REGISTERS[round + 1]
  {
    if round < 8 {
      if round < 4 { } else { }
    } else if round < 16 {
      if round < 12 { } else { }
    } else {
      if round < 20 { } else { }
    }
  }

  lemma RegisterWord(round: nat)
    requires round < 24
    ensures Word(REGISTERS[round]) == ROUND_CONSTANTS[round]
  {
    if round < 8 {
      if round < 4 { } else { }
    } else if round < 16 {
      if round < 12 { } else { }
    } else {
      if round < 20 { } else { }
    }
  }

  lemma RegisterSeven(t: nat)
    ensures Register(t + 1) == Shift(Register(t)) && Register(t + 2) == Shift(Shift(Register(t)))
    ensures Register(t + 3) == Shift(Shift(Shift(Register(t))))
    ensures Register(t + 4) == Shift(Shift(Shift(Shift(Register(t)))))
    ensures Register(t + 5) == Shift(Shift(Shift(Shift(Shift(Register(t))))))
    ensures Register(t + 6) == Shift(Shift(Shift(Shift(Shift(Shift(Register(t)))))))
    ensures Register(t + 7) == Seven(Register(t))
  {
    hide Shift;
    assert Register(t + 1) == Shift(Register(t));
    assert Register(t + 2) == Shift(Register(t + 1));
    assert Register(t + 3) == Shift(Register(t + 2));
    assert Register(t + 4) == Shift(Register(t + 3));
    assert Register(t + 5) == Shift(Register(t + 4));
    assert Register(t + 6) == Shift(Register(t + 5));
    assert Register(t + 7) == Shift(Register(t + 6));
  }

  lemma {:induction false} RegisterAt(round: nat)
    requires round < 24
    ensures |REGISTERS| == 24 && Register(7 * round) == REGISTERS[round]
  {
    hide Seven, Shift;
    if round > 0 {
      RegisterAt(round - 1);
      RegisterSeven(7 * (round - 1));
      RegisterStep(round - 1);
    }
  }

  /** The table of the program is the table of the standard. */
  lemma RoundConstantsAreStandard(round: nat)
    requires round < ROUNDS
    ensures |ROUND_CONSTANTS| == ROUNDS && ROUND_CONSTANTS[round] == RoundConstant(round)
  {
    hide Shift, Seven, REGISTERS;
    RegisterAt(round);
    RegisterSeven(7 * round);
    RegisterWord(round);
  }
}
