/**
 The step mappings of Keccak-f[1600] as parallel functions on 25 lanes, with the tables of
 `backend/app/parsing/keccak.py`.

 Lanes are Python integers.  Lane `5*y + x` is the lane written `Lane(x, y)` in section 3.1.3 of FIPS 202,
 and `At(A, x, y, z)` is the bit written `A[x, y, z]` there.  Each mapping is tied to its bit-level
 definition in section 3.2 by one lemma (`ThetaBit`, `RhoBit`, `PiBit`, `ChiBit`).
 */
module KeccakSteps {
  import opened Bits

  const ROUNDS := 24

  const ROTATION_OFFSETS: seq<nat> :=
    [1, 3, 6, 10, 15, 21, 28, 36, 45, 55, 2, 14, 27, 41, 56, 8, 25, 43, 62, 18, 39, 61, 20, 44]

  const PI_LANE: seq<nat> :=
    [10, 7, 11, 17, 18, 3, 5, 16, 8, 21, 24, 4, 15, 23, 19, 13, 12, 2, 20, 14, 22, 9, 6, 1]

  const ROUND_CONSTANTS: seq<int> := [
    0x0000000000000001, 0x0000000000008082, 0x800000000000808A, 0x8000000080008000,
    0x000000000000808B, 0x0000000080000001, 0x8000000080008081, 0x8000000000008009,
    0x000000000000008A, 0x0000000000000088, 0x0000000080008009, 0x000000008000000A,
    0x000000008000808B, 0x800000000000008B, 0x8000000000008089, 0x8000000000008003,
    0x8000000000008002, 0x8000000000000080, 0x000000000000800A, 0x800000008000000A,
    0x8000000080008081, 0x8000000000008080, 0x0000000080000001, 0x8000000080008008]

  const MASK: int := Pow2(64) - 1

  predicate IsLane(v: int) {
    0 <= v < Pow2(64)
  }

  predicate IsState(a: seq<int>) {
    |a| == 25 && forall l :: 0 <= l < 25 ==> IsLane(a[l])
  }

  function Rotl(value: int, shift: nat): int {
    var s := shift % 64;
    And(Or(Shl(value, s), Shr(value, 64 - s)), MASK)
  }

  /** Bit `A[x, y, z]`, the three indices taken modulo 5, 5 and 64 as in FIPS 202. */
  predicate At(a: seq<int>, x: int, y: int, z: int)
    requires |a| == 25
  {
    Bit(a[5 * (y % 5) + x % 5], z % 64)
  }

  // ----- the step mappings -------------------------------------------------------------------

  function Column(a: seq<int>, x: int): int
    requires |a| == 25 && 0 <= x < 5
  {
    Xor(Xor(Xor(Xor(a[x], a[x + 5]), a[x + 10]), a[x + 15]), a[x + 20])
  }

  function Mixed(a: seq<int>, x: int): int
    requires |a| == 25 && 0 <= x < 5
  {
    Xor(Column(a, (x + 4) % 5), Rotl(Column(a, (x + 1) % 5), 1))
  }

  function Theta(a: seq<int>): (r: seq<int>)
    requires |a| == 25
    ensures |r| == 25
  {
    seq(25, l requires 0 <= l < 25 => Xor(a[l], Mixed(a, l % 5)))
  }

  /** Where the walk of section 3.2.2 stands after `t` steps: from (1, 0), always on to (y, 2x + 3y). */
  function Walk(t: nat): (p: (int, int))
    ensures 0 <= p.0 < 5 && 0 <= p.1 < 5
  {
    if t == 0 then (1, 0) else
      var (x, y) := Walk(t - 1);
      (y, (2 * x + 3 * y) % 5)
  }

  function WalkLane(t: nat): (l: nat)
    ensures l < 25
  {
    5 * Walk(t).1 + Walk(t).0
  }

  function Triangular(t: nat): nat {
    (t + 1) * (t + 2) / 2
  }

  /** The first step at or after `t` on which the walk stands on lane `l`; 24 if there is none. */
  function StepAt(l: nat, t: nat): (s: nat)
    requires t <= 24
    ensures t <= s <= 24
    ensures s < 24 ==> WalkLane(s) == l
    ensures forall u :: t <= u < s ==> WalkLane(u) != l
    decreases 24 - t
  {
    if t == 24 || WalkLane(t) == l then t else StepAt(l, t + 1)
  }

  /** Offset of a lane in section 3.2.2: none for lane 0, the triangular number of its walk step otherwise. */
  function RhoOffset(l: nat): nat {
    if l == 0 then 0 else Triangular(StepAt(l, 0)) % 64
  }

  function Rho(a: seq<int>): (r: seq<int>)
    requires |a| == 25
    ensures |r| == 25
  {
    seq(25, l requires 0 <= l < 25 => if l == 0 then a[0] else Rotl(a[l], RhoOffset(l)))
  }

  function PiSource(l: nat): (m: nat)
    requires l < 25
    ensures m < 25
  {
    5 * (l % 5) + (l % 5 + 3 * (l / 5)) % 5
  }

  function Pi(a: seq<int>): (r: seq<int>)
    requires |a| == 25
    ensures |r| == 25
  {
    seq(25, l requires 0 <= l < 25 => a[PiSource(l)])
  }

  function ChiLane(a: seq<int>, l: nat): int
    requires |a| == 25 && l < 25
  {
    var row := l - l % 5;
    And(Xor(a[l], And(Not(a[row + (l % 5 + 1) % 5]), a[row + (l % 5 + 2) % 5])), MASK)
  }

  function Chi(a: seq<int>): (r: seq<int>)
    requires |a| == 25
    ensures |r| == 25
  {
    seq(25, l requires 0 <= l < 25 => ChiLane(a, l))
  }

  function Iota(a: seq<int>, round: nat): (r: seq<int>)
    requires |a| == 25 && round < ROUNDS
    ensures |r| == 25
  {
    a[0 := Xor(a[0], ROUND_CONSTANTS[round])]
  }

  function Round(a: seq<int>, round: nat): (r: seq<int>)
    requires |a| == 25 && round < ROUNDS
    ensures |r| == 25
  {
    Iota(Chi(Pi(Rho(Theta(a)))), round)
  }

  /** The first `n` rounds. */
  function Rounds(a: seq<int>, n: nat): (r: seq<int>)
    requires |a| == 25 && n <= ROUNDS
    ensures |r| == 25
  {
    if n == 0 then a else Round(Rounds(a, n - 1), n - 1)
  }

  function KeccakF(a: seq<int>): (r: seq<int>)
    requires |a| == 25
    ensures |r| == 25
  {
    Rounds(a, ROUNDS)
  }

  // ----- bits of the word operators -----------------------------------------------------------

  lemma {:induction false} OnesBit(w: nat, z: nat)
    ensures Bit(Pow2(w) - 1, z) == (z < w)
    decreases z
  {
    if w == 0 {
      BitTail(0, z);
    } else if z > 0 {
      assert (Pow2(w) - 1) / 2 == Pow2(w - 1) - 1;
      OnesBit(w - 1, z - 1);
    }
  }

  /** Operators cannot leave the lane range: a masked word has no bit at 64 or above. */
  lemma MaskedIsLane(v: int)
    ensures IsLane(And(v, MASK))
  {
    hide Bit, Bitwise, Pow2, Shl, Shr;
    forall z: nat | z >= 64 ensures !Bit(And(v, MASK), z) {
      BitwiseBit(AndOp, v, MASK, z);
      OnesBit(64, z);
    }
    RangeByBits(And(v, MASK), 64);
  }

  lemma XorBit(a: int, b: int, z: nat)
    ensures Bit(Xor(a, b), z) == (Bit(a, z) != Bit(b, z))
  {
    BitwiseBit(XorOp, a, b, z);
  }

  lemma XorIsLane(a: int, b: int)
    requires IsLane(a) && IsLane(b)
    ensures IsLane(Xor(a, b))
  {
    hide Bit, Bitwise, Pow2, Shl, Shr;
    RangeByBits(a, 64);
    RangeByBits(b, 64);
    forall z: nat | z >= 64 ensures !Bit(Xor(a, b), z) { XorBit(a, b, z); }
    RangeByBits(Xor(a, b), 64);
  }

  /** `_rotl` is the rotation of section 3.2: bit `z` comes from bit `z - shift` modulo 64. */
  lemma RotlBit(v: int, shift: nat, z: nat)
    requires IsLane(v)
    ensures IsLane(Rotl(v, shift))
    ensures z < 64 ==> Bit(Rotl(v, shift), z) == Bit(v, (z - shift) % 64)
  {
    hide Bit, Bitwise, Pow2, Shl, Shr;
    var s := shift % 64;
    var lo, hi := Shl(v, s), Shr(v, 64 - s);
    MaskedIsLane(Or(lo, hi));
    BitwiseBit(AndOp, Or(lo, hi), MASK, z);
    BitwiseBit(OrOp, lo, hi, z);
    ShlBit(v, s, z);
    ShrBit(v, 64 - s, z);
    OnesBit(64, z);
    RangeByBits(v, 64);
    if z < 64 {
      assert (z - shift) % 64 == (z - s) % 64;
      assert (z - s) % 64 == if z >= s then z - s else z + 64 - s;
    }
  }

  // ----- the bit-level definitions of section 3.2 ----------------------------------------------

  /** Column parity `C[x, z]`. */
  predicate Parity(a: seq<int>, x: int, z: int)
    requires |a| == 25
  {
    At(a, x, 0, z) != (At(a, x, 1, z) != (At(a, x, 2, z) != (At(a, x, 3, z) != At(a, x, 4, z))))
  }

  lemma ColumnBit(a: seq<int>, x: int, z: nat)
    requires IsState(a) && 0 <= x < 5
    ensures IsLane(Column(a, x))
    ensures z < 64 ==> Bit(Column(a, x), z) == Parity(a, x, z)
  {
    hide Bit, Bitwise, Pow2, Shl, Shr;
    var c1 := Xor(a[x], a[x + 5]);
    var c2 := Xor(c1, a[x + 10]);
    var c3 := Xor(c2, a[x + 15]);
    XorIsLane(a[x], a[x + 5]); XorIsLane(c1, a[x + 10]); XorIsLane(c2, a[x + 15]); XorIsLane(c3, a[x + 20]);
    XorBit(a[x], a[x + 5], z); XorBit(c1, a[x + 10], z); XorBit(c2, a[x + 15], z); XorBit(c3, a[x + 20], z);
  }

  lemma MixedBit(a: seq<int>, x: int, z: nat)
    requires IsState(a) && 0 <= x < 5
    ensures IsLane(Mixed(a, x))
    ensures z < 64 ==> Bit(Mixed(a, x), z) == (Parity(a, x - 1, z) != Parity(a, x + 1, z - 1))
  {
    hide Bit, Bitwise, Pow2, Shl, Shr;
    var left, right := Column(a, (x + 4) % 5), Column(a, (x + 1) % 5);
    var z' := (z - 1) % 64;
    ColumnBit(a, (x + 4) % 5, z);
    ColumnBit(a, (x + 1) % 5, z');
    RotlBit(right, 1, z);
    XorIsLane(left, Rotl(right, 1));
    XorBit(left, Rotl(right, 1), z);
    assert (x + 4) % 5 == (x - 1) % 5;
    if z < 64 {
      assert Parity(a, (x + 4) % 5, z) == Parity(a, x - 1, z);
      assert Parity(a, (x + 1) % 5, z') == Parity(a, x + 1, z - 1);
    }
  }

  lemma ThetaIsState(a: seq<int>)
    requires IsState(a)
    ensures IsState(Theta(a))
  {
    hide Bit, Bitwise, Pow2, Xor, Mixed;
    forall l | 0 <= l < 25 ensures IsLane(Theta(a)[l]) {
      MixedBit(a, l % 5, 0);
      XorIsLane(a[l], Mixed(a, l % 5));
    }
  }

  /** Theta, section 3.2.1. */
  lemma ThetaBit(a: seq<int>, x: int, y: int, z: int)
    requires IsState(a)
    ensures At(Theta(a), x, y, z) ==
            (At(a, x, y, z) != (Parity(a, x - 1, z) != Parity(a, x + 1, z - 1)))
  {
    hide Bit, Bitwise, Pow2, Xor, Mixed, Parity;
    var l := 5 * (y % 5) + x % 5;
    MixedBit(a, x % 5, z % 64);
    XorBit(a[l], Mixed(a, x % 5), z % 64);
    assert l % 5 == x % 5;
    ParityPeriodic(a, x % 5 - 1, x - 1, z % 64, z);
    ParityPeriodic(a, x % 5 + 1, x + 1, z % 64 - 1, z - 1);
  }

  lemma ParityPeriodic(a: seq<int>, x: int, x': int, z: int, z': int)
    requires |a| == 25
    requires x % 5 == x' % 5 && z % 64 == z' % 64
    ensures Parity(a, x, z) == Parity(a, x', z')
  {
    hide Bit;
  }

  lemma ChiIsState(a: seq<int>)
    requires |a| == 25
    ensures IsState(Chi(a))
  {
    hide Bit, Bitwise, Pow2, And, Xor, Not;
    forall l | 0 <= l < 25 ensures IsLane(Chi(a)[l]) {
      var row := l - l % 5;
      MaskedIsLane(Xor(a[l], And(Not(a[row + (l % 5 + 1) % 5]), a[row + (l % 5 + 2) % 5])));
    }
  }

  lemma ChiWordBit(v: int, p: int, q: int, k: nat)
    requires k < 64
    ensures Bit(And(Xor(v, And(Not(p), q)), MASK), k) == (Bit(v, k) != (!Bit(p, k) && Bit(q, k)))
  {
    hide Bit, Bitwise, Pow2, Not;
    BitwiseBit(AndOp, Xor(v, And(Not(p), q)), MASK, k);
    OnesBit(64, k);
    XorBit(v, And(Not(p), q), k);
    BitwiseBit(AndOp, Not(p), q, k);
    NotBit(p, k);
  }

  /** Chi, section 3.2.4. */
  lemma ChiBit(a: seq<int>, x: int, y: int, z: int)
    requires |a| == 25
    ensures At(Chi(a), x, y, z) == (At(a, x, y, z) != (!At(a, x + 1, y, z) && At(a, x + 2, y, z)))
  {
    hide Bit, Bitwise, Pow2, And, Xor, Not;
    var l := 5 * (y % 5) + x % 5;
    var row := l - l % 5;
    assert l % 5 == x % 5 && row == 5 * (y % 5);
    assert (x % 5 + 1) % 5 == (x + 1) % 5 && (x % 5 + 2) % 5 == (x + 2) % 5;
    ChiWordBit(a[l], a[row + (x % 5 + 1) % 5], a[row + (x % 5 + 2) % 5], z % 64);
  }

  // ----- rho and pi ---------------------------------------------------------------------------

  /** Lane on which step `t` of the in-place loop reads: lane 1 first, then the previous destination. */
  function LoopSource(t: nat): (l: nat)
    requires t <= 24
    ensures l < 25
  {
    if t == 0 then 1 else PI_LANE[t - 1]
  }

  function NextLane(l: nat): nat {
    l / 5 + 5 * ((2 * (l % 5) + 3 * (l / 5)) % 5)
  }

  lemma PiTableStep(t: nat)
    requires t < 24
    ensures LoopSource(t + 1) == NextLane(LoopSource(t))
  {
    if t < 8 {
      if t < 4 { } else { }
    } else if t < 16 {
      if t < 12 { } else { }
    } else {
      if t < 20 { } else { }
    }
  }

  /** The offset table holds the triangular numbers of section 3.2.2, modulo the lane width. */
  lemma OffsetsAreTriangular(t: nat)
    requires t < 24
    ensures ROTATION_OFFSETS[t] == Triangular(t) % 64
  {
    if t < 8 {
      if t < 4 { } else { }
    } else if t < 16 {
      if t < 12 { } else { }
    } else {
      if t < 20 { } else { }
    }
  }

  lemma WalkLaneNext(t: nat)
    ensures WalkLane(t + 1) == NextLane(WalkLane(t))
  {
    var (x, y) := Walk(t);
    LaneDigits(x, y);
  }

  /** The in-place loop visits the lanes in the order of the walk, and its last destination is lane 1. */
  lemma {:induction false} LoopFollowsWalk(t: nat)
    requires t <= 24
    ensures LoopSource(t) == WalkLane(t)
  {
    hide NextLane, WalkLane, PI_LANE;
    if t == 0 {
      WalkStart();
    } else {
      LoopFollowsWalk(t - 1);
      WalkLaneNext(t - 1);
      PiTableStep(t - 1);
    }
  }

  lemma WalkStart()
    ensures WalkLane(0) == 1
  {
  }

  /** Step on which the loop reads lane `l`. */
  const STEP_OF: seq<nat> :=
    [24, 0, 18, 6, 12, 7, 23, 2, 9, 22, 1, 3, 17, 16, 20, 13, 8, 4, 5, 15, 19, 10, 21, 14, 11]

  lemma StepTable(t: nat)
    requires t < 24
    ensures 1 <= LoopSource(t) && STEP_OF[LoopSource(t)] == t
  {
    if t < 8 {
      if t < 4 { if t < 2 { } else { } } else { if t < 6 { } else { } }
    } else if t < 16 {
      if t < 12 { if t < 10 { } else { } } else { if t < 14 { } else { } }
    } else {
      if t < 20 { if t < 18 { } else { } } else { if t < 22 { } else { } }
    }
  }

  lemma LaneTable(l: nat)
    requires 1 <= l < 25
    ensures STEP_OF[l] < 24 && LoopSource(STEP_OF[l]) == l
  {
    if l < 9 {
      if l < 5 { } else { }
    } else if l < 17 {
      if l < 13 { } else { }
    } else {
      if l < 21 { } else { }
    }
  }

  lemma TableShapes()
    ensures |PI_LANE| == |ROTATION_OFFSETS| == 24 && |STEP_OF| == 25
    ensures PI_LANE[23] == 1 && STEP_OF[1] == 0
  {
  }

  /** Destination `PI_LANE[t]` is the lane that step `t + 1` reads; the last one is lane 1. */
  lemma DestinationTable(t: nat)
    requires t < 24
    ensures 1 <= PI_LANE[t] < 25 && STEP_OF[PI_LANE[t]] == (t + 1) % 24
  {
    hide STEP_OF, PI_LANE;
    TableShapes();
    if t < 23 { StepTable(t + 1); }
  }

  /** The destinations of the loop are the lanes 1 to 24, each exactly once. */
  lemma LoopVisitsEveryLaneOnce(t: nat, u: nat, l: nat)
    requires t < 24 && u < 24 && 1 <= l < 25
    ensures 1 <= PI_LANE[t]
    ensures PI_LANE[t] == PI_LANE[u] ==> t == u
    ensures exists s: nat :: s < 24 && PI_LANE[s] == l
  {
    hide STEP_OF, PI_LANE;
    TableShapes();
    DestinationTable(t);
    DestinationTable(u);
    LaneTable(l);
    var s := if STEP_OF[l] == 0 then 23 else STEP_OF[l] - 1;
    assert PI_LANE[s] == l;
  }

  lemma PiUndoesNext(l: nat)
    requires l < 25
    ensures NextLane(l) < 25 && PiSource(NextLane(l)) == l
  {
    var x, y := l % 5, l / 5;
    LaneDigits(y, (2 * x + 3 * y) % 5);
    TurnTwice(x, y);
  }

  lemma LaneDigits(x: nat, y: nat)
    requires x < 5
    ensures (x + 5 * y) % 5 == x && (x + 5 * y) / 5 == y
  {
  }

  lemma TurnTwice(x: int, y: int)
    requires 0 <= x < 5
    ensures (y + 3 * ((2 * x + 3 * y) % 5)) % 5 == x
  {
    var q := (2 * x + 3 * y) / 5;
    assert y + 3 * ((2 * x + 3 * y) % 5) == x + 5 * (x + 2 * y - 3 * q);
  }

  lemma PiSourceAt(t: nat)
    requires t < 24
    ensures PiSource(PI_LANE[t]) == LoopSource(t)
  {
    hide PI_LANE, NextLane, PiSource;
    TableShapes();
    PiTableStep(t);
    PiUndoesNext(LoopSource(t));
  }

  lemma RhoOffsetAt(t: nat)
    requires t < 24
    ensures LoopSource(t) > 0 && RhoOffset(LoopSource(t)) == ROTATION_OFFSETS[t]
  {
    hide STEP_OF, PI_LANE, ROTATION_OFFSETS, WalkLane, Triangular;
    TableShapes();
    StepTable(t);
    StepOfWalk(t);
    OffsetsAreTriangular(t);
  }

  /** One step of the loop moves one lane as pi after rho does. */
  lemma LoopStepIsPiRho(a: seq<int>, t: nat)
    requires |a| == 25 && t < 24
    ensures PI_LANE[t] > 0 && Pi(Rho(a))[PI_LANE[t]] == Rotl(a[LoopSource(t)], ROTATION_OFFSETS[t])
  {
    hide STEP_OF, PI_LANE, ROTATION_OFFSETS, Rotl, RhoOffset, LoopSource, PiSource;
    TableShapes();
    DestinationTable(t);
    PiSourceAt(t);
    RhoOffsetAt(t);
    assert Pi(Rho(a))[PI_LANE[t]] == Rho(a)[LoopSource(t)];
  }

  lemma StepOfWalk(t: nat)
    requires t < 24
    ensures StepAt(LoopSource(t), 0) == t
  {
    hide STEP_OF, PI_LANE, WalkLane;
    LoopFollowsWalk(t);
    StepTable(t);
    var s := StepAt(LoopSource(t), 0);
    if s < t {
      LoopFollowsWalk(s);
      StepTable(s);
    }
  }

  lemma RhoIsState(a: seq<int>)
    requires IsState(a)
    ensures IsState(Rho(a))
  {
    hide Rotl, RhoOffset;
    forall l | 0 <= l < 25 ensures IsLane(Rho(a)[l]) { RotlBit(a[l], RhoOffset(l), 0); }
  }

  lemma Shift64(z: int, z': int, n: int)
    requires z % 64 == z' % 64
    ensures (z + n) % 64 == (z' + n) % 64
  {
    assert z' + n == z + n + 64 * (z' / 64 - z / 64);
  }

  /** Rho, section 3.2.2. */
  lemma RhoBit(a: seq<int>, x: int, y: int, z: int)
    requires IsState(a)
    ensures At(Rho(a), x, y, z) == At(a, x, y, z - RhoOffset(5 * (y % 5) + x % 5))
  {
    hide Bit, Rotl, RhoOffset, Pow2;
    var l := 5 * (y % 5) + x % 5;
    var r: int := RhoOffset(l);
    LaneZeroOffset();
    RotlBit(a[l], RhoOffset(l), z % 64);
    Shift64(z % 64, z, -r);
    assert z % 64 + -r == z % 64 - r && z + -r == z - r;
    assert l > 0 ==> Rho(a)[l] == Rotl(a[l], RhoOffset(l));
  }

  lemma LaneZeroOffset()
    ensures RhoOffset(0) == 0
  {
  }

  lemma ModFive(x: int, y: int)
    ensures (x % 5 + 3 * (y % 5)) % 5 == (x + 3 * y) % 5
  {
    var p, q := x / 5, y / 5;
    assert x + 3 * y == x % 5 + 3 * (y % 5) + 5 * (p + 3 * q);
  }

  /** Pi, section 3.2.3. */
  lemma PiBit(a: seq<int>, x: int, y: int, z: int)
    requires |a| == 25
    ensures At(Pi(a), x, y, z) == At(a, x + 3 * y, x, z)
  {
    hide Bit, PiSource;
    var l := 5 * (y % 5) + x % 5;
    PiSourceDigits(x, y);
    assert Pi(a)[l] == a[PiSource(l)];
  }

  lemma PiSourceDigits(x: int, y: int)
    ensures PiSource(5 * (y % 5) + x % 5) == 5 * (x % 5) + (x + 3 * y) % 5
  {
    LaneDigits(x % 5, y % 5);
    ModFive(x, y);
  }

  /** States with the same bits are equal. */
  lemma StatesEqual(a: seq<int>, b: seq<int>)
    requires IsState(a) && IsState(b)
    requires forall x, y, z :: 0 <= x < 5 && 0 <= y < 5 && 0 <= z < 64 ==> At(a, x, y, z) == At(b, x, y, z)
    ensures a == b
  {
    hide Bit, Pow2;
    forall l | 0 <= l < 25 ensures a[l] == b[l] {
      forall z: nat | z < 64 ensures Bit(a[l], z) == Bit(b[l], z) {
        assert At(a, l % 5, l / 5, z) == At(b, l % 5, l / 5, z);
      }
      ExtensionalBelow(a[l], b[l], 64);
    }
  }
}
