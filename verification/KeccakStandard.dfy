/**
 The hash function against FIPS 202 bit by bit: one round, the 24 rounds and the sponge, each as a relation between
 the bits of its states.  The statements of this file spell out steps, offsets, rate and bit order.
 */
module KeccakStandard {
  import opened Bits
  import opened KeccakSteps
  import opened KeccakConstants
  import opened KeccakBijection
  import opened Keccak

  // ----- one round ----------------------------------------------------------------------------------

  /** The offsets of section 3.2.2 as its Table 2 lists them, modulo the lane width; lane `5*y + x` is `(x, y)`. */
  lemma OffsetsOfTable2(l: nat)
    requires l < 25
    ensures RhoOffset(l) == [
      0, 1, 62, 28, 27,
      36, 44, 6, 55, 20,
      3, 10, 43, 25, 39,
      41, 45, 15, 21, 8,
      18, 2, 61, 56, 14][l]
  {
    hide *;
    LaneZeroOffset();
    TableShapes();
    if l > 0 {
      LaneTable(l);
      OffsetOfStep(l, STEP_OF[l]);
    }
  }

  lemma OffsetOfStep(l: nat, t: nat)
    requires 1 <= l < 25 && |STEP_OF| == 25 && t == STEP_OF[l] < 24 && LoopSource(t) == l
    ensures RhoOffset(l) == [
      0, 1, 62, 28, 27,
      36, 44, 6, 55, 20,
      3, 10, 43, 25, 39,
      41, 45, 15, 21, 8,
      18, 2, 61, 56, 14][l]
  {
    hide RhoOffset, LoopSource, PI_LANE;
    RhoOffsetAt(t);
  }

  /** Iota, section 3.2.5: only lane (0, 0) changes, by the constant that the shift register gives to the round. */
  lemma IotaBit(a: seq<int>, round: nat, x: int, y: int, z: int)
    requires |a| == 25 && round < 24
    ensures At(Iota(a, round), x, y, z) ==
            (At(a, x, y, z) != (x % 5 == 0 && y % 5 == 0 && Bit(RoundConstant(round), z % 64)))
  {
    hide Bit, Xor, RoundConstant, ROUND_CONSTANTS;
    RoundConstantsAreStandard(round);
    XorBit(a[0], RoundConstant(round), z % 64);
  }

  /**
   One round, section 3.3: theta, rho, pi, chi and iota in this order.  If the bits of `b` come from `a` by theta,
   those of `c` from `b` by rho, of `d` from `c` by pi, of `e` from `d` by chi and of `f` from `e` by iota, then `f` is
   what the round makes of `a`.
   */
  lemma RoundIsStandard(a: seq<int>, b: seq<int>, c: seq<int>, d: seq<int>, e: seq<int>, f: seq<int>, round: nat)
    requires IsState(a) && IsState(b) && IsState(c) && IsState(d) && IsState(e) && IsState(f) && round < 24
    requires forall x, y, z :: At(b, x, y, z) == (At(a, x, y, z) != (Parity(a, x - 1, z) != Parity(a, x + 1, z - 1)))
    requires forall x, y, z :: At(c, x, y, z) == At(b, x, y, z - RhoOffset(5 * (y % 5) + x % 5))
    requires forall x, y, z :: At(d, x, y, z) == At(c, x + 3 * y, x, z)
    requires forall x, y, z {:trigger At(e, x, y, z)} :: At(e, x, y, z) == (At(d, x, y, z) != (!At(d, x + 1, y, z) && At(d, x + 2, y, z)))
    requires forall x, y, z ::
      At(f, x, y, z) == (At(e, x, y, z) != (x % 5 == 0 && y % 5 == 0 && Bit(RoundConstant(round), z % 64)))
    ensures f == Round(a, round)
  {
    hide *;
    StateShape(a); StateShape(b); StateShape(c); StateShape(d); StateShape(e); StateShape(f);
    StepsAreStates(a, round);
    forall x, y, z ensures At(Theta(a), x, y, z) == At(b, x, y, z) { ThetaBit(a, x, y, z); }
    SameBits(Theta(a), b);
    forall x, y, z ensures At(Rho(b), x, y, z) == At(c, x, y, z) { RhoBit(b, x, y, z); }
    StepsAreStates(b, round);
    SameBits(Rho(b), c);
    forall x, y, z ensures At(Pi(c), x, y, z) == At(d, x, y, z) { PiBit(c, x, y, z); }
    StepsAreStates(c, round);
    SameBits(Pi(c), d);
    forall x, y, z ensures At(Chi(d), x, y, z) == At(e, x, y, z) { ChiBit(d, x, y, z); }
    StepsAreStates(d, round);
    SameBits(Chi(d), e);
    forall x, y, z ensures At(Iota(e, round), x, y, z) == At(f, x, y, z) { IotaBit(e, round, x, y, z); }
    StepsAreStates(e, round);
    SameBits(Iota(e, round), f);
    RoundSteps(a, round);
  }

  lemma RoundSteps(a: seq<int>, round: nat)
    requires |a| == 25 && round < 24
    ensures Round(a, round) == Iota(Chi(Pi(Rho(Theta(a)))), round)
  {
    hide Theta, Rho, Pi, Chi, Iota;
  }

  lemma SameBits(a: seq<int>, b: seq<int>)
    requires IsState(a) && IsState(b)
    requires forall x, y, z :: At(a, x, y, z) == At(b, x, y, z)
    ensures a == b
  {
    hide *;
    StatesEqual(a, b);
  }

  lemma StepsAreStates(a: seq<int>, round: nat)
    requires IsState(a) && round < 24
    ensures IsState(Theta(a)) && IsState(Rho(a)) && IsState(Pi(a)) && IsState(Chi(a)) && IsState(Iota(a, round))
  {
    hide *;
    StateShape(a);
    ThetaIsState(a);
    RhoIsState(a);
    PiIsState(a);
    ChiIsState(a);
    IotaTwice(a, round);
  }

  // ----- the permutation and the sponge ---------------------------------------------------------------

  /** Keccak-f[1600] is 24 rounds, numbered from 0. */
  lemma KeccakFIsRounds(a: seq<int>) returns (states: seq<seq<int>>)
    requires IsState(a)
    ensures |states| == 25 && states[0] == a && states[24] == KeccakF(a)
    ensures forall i :: 0 <= i <= 24 ==> |states[i]| == 25 && IsState(states[i])
    ensures forall i :: 0 <= i < 24 ==> states[i + 1] == Round(states[i], i)
  {
    hide *;
    StateShape(a);
    states := RoundStates(a, ROUNDS);
    AllRounds(a);
  }

  lemma {:induction false} RoundStates(a: seq<int>, n: nat) returns (states: seq<seq<int>>)
    requires |a| == 25 && IsState(a) && n <= ROUNDS
    ensures |states| == n + 1 && states[0] == a && states[n] == Rounds(a, n)
    ensures forall i :: 0 <= i <= n ==> |states[i]| == 25 && IsState(states[i])
    ensures forall i :: 0 <= i < n ==> states[i + 1] == Round(states[i], i)
  {
    hide IsState, Round;
    if n == 0 {
      states := [a];
    } else {
      states := RoundStates(a, n - 1);
      RoundsAreStates(a, n);
      states := states + [Rounds(a, n)];
    }
  }

  lemma AllRounds(a: seq<int>)
    requires |a| == 25
    ensures KeccakF(a) == Rounds(a, ROUNDS)
  {
    hide Rounds;
  }

  lemma StateShape(a: seq<int>)
    ensures ROUNDS == 24 && RATE == 136 && |STEP_OF| == 25
    ensures IsState(a) ==> |a| == 25
  {
  }

  /**
   The hash is the sponge of section 4 with rate 1088 and `pad10*1`.  `bits` are the bits of the message, a one, the
   least number of zeros that fills the last block, and a one; `before[0]` is all zeros; `mixed[i]` is `before[i]` with
   the 1088 bits of block `i` added; `before[i + 1]` is the permutation of it; the digest is the first 256 bits of the
   last state.
   */
  lemma DigestIsSponge(message: seq<Byte>)
    returns (bits: seq<bool>, before: seq<seq<int>>, mixed: seq<seq<int>>)
    ensures |bits| % 1088 == 0 && 8 * |message| + 2 <= |bits| < 8 * |message| + 2 + 1088
    ensures forall k :: 0 <= k < |bits| ==>
      bits[k] == if k < 8 * |message| then Bit(message[k / 8], k % 8) else k == 8 * |message| || k == |bits| - 1
    ensures |mixed| == |bits| / 1088 && |before| == |mixed| + 1
    ensures forall i :: 0 <= i < |before| ==> |before[i]| == 25 && IsState(before[i])
    ensures forall i :: 0 <= i < |mixed| ==> |mixed[i]| == 25 && IsState(mixed[i]) && before[i + 1] == KeccakF(mixed[i])
    ensures forall x, y, z :: !At(before[0], x, y, z)
    ensures forall i, x, y, z :: 0 <= i < |mixed| && 0 <= x < 5 && 0 <= y < 5 && 0 <= z < 64 ==>
      At(mixed[i], x, y, z) == (At(before[i], x, y, z) !=
        (64 * (5 * y + x) + z < 1088 && bits[1088 * i + (64 * (5 * y + x) + z)]))
    ensures |Digest(message)| == 32
    ensures forall x, y, z :: 0 <= x < 5 && 0 <= y < 5 && 0 <= z < 64 && 64 * (5 * y + x) + z < 256 ==>
      Bit(Digest(message)[(64 * (5 * y + x) + z) / 8], z % 8) == At(before[|mixed|], x, y, z)
  {
    hide *;
    var padded := Pad(message);
    bits := BitString(padded);
    PaddedBits(message, bits);
    BlocksOfPadded(message);
    ZeroStateBits();
    StateShape(ZERO_STATE);
    before, mixed := AbsorbStates(ZERO_STATE, padded);
    forall i, x, y, z | 0 <= i < |mixed| && 0 <= x < 5 && 0 <= y < 5 && 0 <= z < 64
      ensures 64 * (5 * y + x) + z < 1088 ==> 1088 * i + (64 * (5 * y + x) + z) < |bits|
      ensures At(mixed[i], x, y, z) == (At(before[i], x, y, z) !=
        (64 * (5 * y + x) + z < 1088 && bits[1088 * i + (64 * (5 * y + x) + z)]))
    {
      BlockBit(before[i], padded, i, x, y, z);
    }
    DigestOfState(message);
    forall x, y, z | 0 <= x < 5 && 0 <= y < 5 && 0 <= z < 64 && 64 * (5 * y + x) + z < 256
      ensures (64 * (5 * y + x) + z) / 8 < 32
      ensures Bit(Digest(message)[(64 * (5 * y + x) + z) / 8], z % 8) == At(before[|mixed|], x, y, z)
    {
      DigestBit(before[|mixed|], Digest(message), x, y, z);
    }
  }

  lemma PaddedBits(message: seq<Byte>, bits: seq<bool>)
    requires bits == BitString(Pad(message))
    ensures |bits| % 1088 == 0 && 8 * |message| + 2 <= |bits| < 8 * |message| + 2 + 1088
    ensures forall k :: 0 <= k < |bits| ==>
      bits[k] == if k < 8 * |message| then Bit(message[k / 8], k % 8) else k == 8 * |message| || k == |bits| - 1
  {
    hide Bit;
    PadIsPad101(message);
    forall k | 0 <= k < |bits|
      ensures bits[k] == if k < 8 * |message| then Bit(message[k / 8], k % 8) else k == 8 * |message| || k == |bits| - 1
    {
      if k >= 8 * |message| { PadBit(message, k); }
    }
  }

  lemma BlocksOfPadded(message: seq<Byte>)
    ensures RATE == 136 && |Pad(message)| % 136 == 0
    ensures |BitString(Pad(message))| / 1088 == |Pad(message)| / 136
  {
    PadIsPad101(message);
  }

  lemma ZeroStateBits()
    ensures IsState(ZERO_STATE) && forall x, y, z :: !At(ZERO_STATE, x, y, z)
  {
    hide Bit;
    StartIsState();
    forall x, y, z ensures !At(ZERO_STATE, x, y, z) { BitTail(0, z % 64); }
  }

  function Block(padded: seq<Byte>, i: nat): (block: seq<Byte>)
    requires 136 * i + 136 <= |padded|
    ensures |block| == 136
  {
    padded[136 * i..136 * i + 136]
  }

  /** The states that absorbing goes through, before and after each block is added. */
  lemma {:induction false} AbsorbStates(a: seq<int>, padded: seq<Byte>)
    returns (before: seq<seq<int>>, mixed: seq<seq<int>>)
    requires |a| == 25 && IsState(a) && RATE == 136
    ensures 136 * |mixed| <= |padded| < 136 * |mixed| + 136 && |before| == |mixed| + 1
    ensures before[0] == a && before[|mixed|] == Absorb(a, padded)
    ensures forall i :: 0 <= i < |before| ==> |before[i]| == 25 && IsState(before[i])
    ensures forall i :: 0 <= i < |mixed| ==>
      |mixed[i]| == 25 && IsState(mixed[i]) && before[i + 1] == KeccakF(mixed[i])
    ensures forall i :: 0 <= i < |mixed| ==> mixed[i] == AbsorbBlock(before[i], Block(padded, i))
    decreases |padded|
  {
    hide *;
    AbsorbTurn(a, padded);
    if |padded| < 136 {
      before, mixed := [a], [];
    } else {
      var m := AbsorbBlock(a, Block(padded, 0));
      var before', mixed' := AbsorbStates(KeccakF(m), padded[136..]);
      before, mixed := [a] + before', [m] + mixed';
      forall i | 0 <= i < |mixed'|
        ensures mixed'[i] == AbsorbBlock(before'[i], Block(padded, i + 1))
      {
        BlockOfRest(padded, i);
      }
    }
  }

  lemma BlockOfRest(padded: seq<Byte>, i: nat)
    requires 136 * i + 272 <= |padded|
    ensures Block(padded[136..], i) == Block(padded, i + 1)
  {
  }

  lemma AbsorbTurn(a: seq<int>, padded: seq<Byte>)
    requires |a| == 25 && IsState(a) && RATE == 136
    ensures |padded| < 136 ==> Absorb(a, padded) == a
    ensures |padded| >= 136 ==>
      var m := AbsorbBlock(a, Block(padded, 0));
      IsState(m) && IsState(KeccakF(m)) && Absorb(a, padded) == Absorb(KeccakF(m), padded[136..])
  {
    hide IsState, KeccakF, AbsorbBlock;
    if |padded| >= 136 { AbsorbedIsState(a, Block(padded, 0)); }
  }

  lemma BlockBit(a: seq<int>, padded: seq<Byte>, i: nat, x: nat, y: nat, z: nat)
    requires IsState(a) && x < 5 && y < 5 && z < 64 && RATE == 136 && 136 * i + 136 <= |padded|
    ensures var k := 64 * (5 * y + x) + z;
      && (k < 1088 ==> 1088 * i + k < |BitString(padded)|)
      && At(AbsorbBlock(a, Block(padded, i)), x, y, z) ==
         (At(a, x, y, z) != (k < 1088 && BitString(padded)[1088 * i + k]))
  {
    hide *;
    var k := 64 * (5 * y + x) + z;
    AbsorbBit(a, Block(padded, i), x, y, z);
    if k < 1088 { BitOfBlock(padded, i, k); }
  }

  lemma BitOfBlock(padded: seq<Byte>, i: nat, k: nat)
    requires 136 * i + 136 <= |padded| && k < 1088
    ensures 1088 * i + k < |BitString(padded)|
    ensures BitString(padded)[1088 * i + k] == Bit(Block(padded, i)[k / 8], k % 8)
  {
    hide Bit;
    assert (1088 * i + k) / 8 == 136 * i + k / 8 && (1088 * i + k) % 8 == k % 8;
  }

  lemma DigestOfState(message: seq<Byte>)
    ensures Digest(message) == StateBytes(Absorb(ZERO_STATE, Pad(message)))[..32]
  {
    hide Pad, Absorb, StateBytes;
  }

  /** The bytes of a state in order: bit `k` of byte `8 * l + j` is bit `8 * j + k` of lane `l`. */
  lemma DigestBit(a: seq<int>, digest: seq<Byte>, x: nat, y: nat, z: nat)
    requires IsState(a) && digest == StateBytes(a)[..32]
    requires x < 5 && y < 5 && z < 64 && 64 * (5 * y + x) + z < 256
    ensures Bit(digest[(64 * (5 * y + x) + z) / 8], z % 8) == At(a, x, y, z)
  {
    hide *;
    StateShape(a);
    var l := 5 * y + x;
    AtLane(a, x, y, z);
    StateByte(a, l, z / 8);
    ByteOfLane(l, z);
    LaneOfState(a, l);
    ToFromBytesBit(a[l], z);
  }

  lemma LaneOfState(a: seq<int>, l: nat)
    requires IsState(a) && l < 25
    ensures 0 <= a[l] < Pow2(64)
  {
    hide Pow2;
  }

  lemma ToFromBytesBit(v: int, z: nat)
    requires 0 <= v < Pow2(64) && z < 64
    ensures Bit(ToBytes(v, 8)[z / 8], z % 8) == Bit(v, z)
  {
    hide *;
    FromToBytes(v, 8);
    FromBytesBit(ToBytes(v, 8), z / 8, z % 8);
  }

  lemma {:induction false} StateByte(lanes: seq<int>, l: nat, j: nat)
    requires l < |lanes| && j < 8
    ensures StateBytes(lanes)[8 * l + j] == ToBytes(lanes[l], 8)[j]
  {
    hide ToBytes;
    if l > 0 { StateByte(lanes[1..], l - 1, j); }
  }
}
