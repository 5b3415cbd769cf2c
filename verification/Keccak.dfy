/**
 `backend/app/parsing/keccak.py`: the in-place permutation and the byte-oriented sponge around it, proved against
 the parallel step mappings of `KeccakSteps` and the sponge of sections 4 and 5.1 of FIPS 202.
 */
module Keccak {
  import opened Bits
  import opened KeccakSteps
  import opened KeccakBijection

  type Byte = b: int | 0 <= b < 256

  const RATE: nat := 136
  const ZERO_STATE: seq<int> := [
    0, 0, 0, 0, 0, 0, 0, 0, 0, 0, 0, 0, 0, 0, 0, 0, 0, 0, 0, 0, 0, 0, 0, 0, 0]

  // ----- the in-place permutation -----------------------------------------------------------------

  method ThetaInPlace(state: array<int>)
    requires state.Length == 25
    modifies state
    ensures state[..] == Theta(old(state[..]))
  {
    hide Xor, Rotl, Theta, Column, Mixed;
    ghost var a := state[..];
    ghost var theta := Theta(a);
    ThetaLanes(a);
    var columns := [Column(state[..], 0), Column(state[..], 1), Column(state[..], 2),
                    Column(state[..], 3), Column(state[..], 4)];
    for i := 0 to 5
      invariant forall l :: 0 <= l < 25 ==> state[l] == if l % 5 < i then theta[l] else a[l]
    {
      var mixed := Xor(columns[(i + 4) % 5], Rotl(columns[(i + 1) % 5], 1));
      MixedLane(a, i);
      var row := 0;
      while row < 25
        invariant 0 <= row <= 25 && row % 5 == 0
        invariant forall l :: 0 <= l < 25 ==>
          state[l] == if l % 5 < i || (l % 5 == i && l < row) then theta[l] else a[l]
      {
        assert (row + i) % 5 == i;
        state[row + i] := Xor(state[row + i], mixed);
        row := row + 5;
      }
    }
  }

  lemma ThetaLanes(a: seq<int>)
    requires |a| == 25
    ensures forall l :: 0 <= l < 25 ==> Theta(a)[l] == Xor(a[l], Mixed(a, l % 5))
  {
    hide Xor, Mixed;
  }

  lemma MixedLane(a: seq<int>, i: nat)
    requires |a| == 25 && i < 5
    ensures Mixed(a, i) == Xor(Column(a, (i + 4) % 5), Rotl(Column(a, (i + 1) % 5), 1))
  {
    hide Xor, Rotl, Column;
  }

  /** Step on which the fused loop writes lane `l`. */
  function DestinationStep(l: nat): nat
    requires 1 <= l < 25
  {
    (STEP_OF[l] + 23) % 24
  }

  method RhoPiInPlace(state: array<int>)
    requires state.Length == 25
    modifies state
    ensures state[..] == Pi(Rho(old(state[..])))
  {
    hide Rotl, PI_LANE, ROTATION_OFFSETS, STEP_OF, Pi, Rho;
    TableShapes();
    ghost var a := state[..];
    ghost var moved := Pi(Rho(a));
    LaneZeroStays(a);
    var lane := state[1];
    for index := 0 to 24
      invariant lane == a[LoopSource(index)]
      invariant forall l :: 0 <= l < 25 ==>
        state[l] == if l > 0 && DestinationStep(l) < index then moved[l] else a[l]
    {
      DestinationTable(index);
      LoopStepIsPiRho(a, index);
      OnlyDestination(index);
      var dest := PI_LANE[index];
      var saved := state[dest];
      state[dest] := Rotl(lane, ROTATION_OFFSETS[index]);
      lane := saved;
    }
    assert forall l :: 1 <= l < 25 ==> DestinationStep(l) < 24;
  }

  lemma LaneZeroStays(a: seq<int>)
    requires |a| == 25
    ensures Pi(Rho(a))[0] == a[0]
  {
    hide Rotl, RhoOffset;
    assert PiSource(0) == 0;
    assert Pi(Rho(a))[0] == Rho(a)[PiSource(0)];
  }

  lemma OnlyDestination(index: nat)
    requires index < 24
    ensures 1 <= PI_LANE[index] < 25
    ensures forall l :: 1 <= l < 25 ==> (DestinationStep(l) == index <==> l == PI_LANE[index])
  {
    hide PI_LANE, STEP_OF;
    TableShapes();
    DestinationTable(index);
    forall l | 1 <= l < 25 && DestinationStep(l) == index ensures l == PI_LANE[index] {
      LaneTable(l);
      DestinationTable(index);
      assert STEP_OF[l] == (index + 1) % 24;
    }
  }

  method ChiInPlace(state: array<int>)
    requires state.Length == 25
    modifies state
    ensures state[..] == Chi(old(state[..]))
  {
    hide ChiLane, Xor, And, Not;
    ghost var a := state[..];
    var row := 0;
    while row < 25
      invariant 0 <= row <= 25 && row % 5 == 0
      invariant forall l :: 0 <= l < 25 ==> state[l] == if l < row then ChiLane(a, l) else a[l]
    {
      var current := state[row..row + 5];
      for i := 0 to 5
        invariant forall l :: 0 <= l < 25 ==> state[l] == if l < row + i then ChiLane(a, l) else a[l]
      {
        ChiLaneOfRow(a, current, row, i);
        state[row + i] := Xor(state[row + i], And(Not(current[(i + 1) % 5]), current[(i + 2) % 5]));
        state[row + i] := And(state[row + i], MASK);
      }
      row := row + 5;
    }
  }

  lemma ChiLaneOfRow(a: seq<int>, current: seq<int>, row: nat, i: nat)
    requires |a| == 25 && row < 25 && row % 5 == 0 && i < 5
    requires current == a[row..row + 5]
    ensures ChiLane(a, row + i) == And(Xor(a[row + i], And(Not(current[(i + 1) % 5]), current[(i + 2) % 5])), MASK)
  {
    hide Xor, And, Not;
    assert (row + i) % 5 == i;
  }

  /** The 24 rounds overwrite the state with its image under the parallel permutation. */
  method KeccakFInPlace(state: array<int>)
    requires state.Length == 25
    modifies state
    ensures state[..] == KeccakF(old(state[..]))
  {
    hide Theta, Rho, Pi, Chi, Xor;
    ConstantCount();
    hide ROUND_CONSTANTS;
    ghost var a := state[..];
    for round := 0 to ROUNDS
      invariant state[..] == Rounds(a, round)
    {
      ThetaInPlace(state);
      RhoPiInPlace(state);
      ChiInPlace(state);
      ghost var b := state[..];
      state[0] := Xor(state[0], ROUND_CONSTANTS[round]);
      assert state[..] == Iota(b, round);
    }
  }

  // ----- bytes and lanes --------------------------------------------------------------------------

  /** `int.from_bytes(b, "little")`. */
  function FromBytes(b: seq<Byte>): int {
    if b == [] then 0 else b[0] + 256 * FromBytes(b[1..])
  }

  /** `v.to_bytes(n, "little")`. */
  function ToBytes(v: int, n: nat): (b: seq<Byte>)
    ensures |b| == n
    decreases n
  {
    if n == 0 then [] else [v % 256] + ToBytes(v / 256, n - 1)
  }

  lemma {:induction false} FromToBytes(v: int, n: nat)
    requires 0 <= v < Pow2(8 * n)
    ensures FromBytes(ToBytes(v, n)) == v
    decreases n
  {
    if n > 0 {
      BytePow2(n);
      FromToBytes(v / 256, n - 1);
      assert ToBytes(v, n)[1..] == ToBytes(v / 256, n - 1);
    }
  }

  lemma {:induction false} ToFromBytes(b: seq<Byte>)
    ensures 0 <= FromBytes(b) < Pow2(8 * |b|)
    ensures ToBytes(FromBytes(b), |b|) == b
  {
    if b != [] {
      ToFromBytes(b[1..]);
      BytePow2(|b|);
      var rest := FromBytes(b[1..]);
      assert FromBytes(b) % 256 == b[0] && FromBytes(b) / 256 == rest;
    }
  }

  lemma BytePow2(n: nat)
    requires n > 0
    ensures Pow2(8 * n) == 256 * Pow2(8 * (n - 1))
  {
    assert Pow2(8) == 256;
    hide Pow2;
    Pow2Sum(8, 8 * (n - 1));
    assert 8 + 8 * (n - 1) == 8 * n;
  }

  /** Bit `8i + k` of the number is bit `k` of byte `i`: the bit order of section 3.1.2. */
  lemma {:induction false} FromBytesBit(b: seq<Byte>, i: nat, k: nat)
    requires i < |b| && k < 8
    ensures Bit(FromBytes(b), 8 * i + k) == Bit(b[i], k)
  {
    hide Bit, Pow2;
    var rest := FromBytes(b[1..]);
    ByteThenRest(b[0], rest, k);
    if i > 0 {
      ByteThenRest(b[0], rest, 8 * i + k);
      FromBytesBit(b[1..], i - 1, k);
      assert 8 * i + k - 8 == 8 * (i - 1) + k;
    }
  }

  lemma ByteThenRest(low: Byte, rest: int, z: nat)
    ensures Bit(low + 256 * rest, z) == if z < 8 then Bit(low, z) else Bit(rest, z - 8)
  {
    hide Bit;
    assert Pow2(8) == 256;
    JoinBit(low, rest, 8, z);
  }

  // ----- padding and sponge -----------------------------------------------------------------------

  function Zeros(n: nat): (b: seq<Byte>)
    ensures |b| == n && forall i :: 0 <= i < n ==> b[i] == 0
  {
    seq(n, _ => 0)
  }

  /** `pad10*1` when `q` bytes are missing to the end of a block. */
  function PadBytes(q: nat): (t: seq<Byte>)
    requires 1 <= q
    ensures |t| == q
  {
    if q == 1 then [0x81] else [0x01] + Zeros(q - 2) + [0x80]
  }

  /** The padding after a message of `n` bytes; a full block is padded by another whole block. */
  function PadTail(n: nat): seq<Byte> {
    PadBytes(RATE - n % RATE)
  }

  function Pad(message: seq<Byte>): seq<Byte> {
    message + PadTail(|message|)
  }

  function AbsorbBlock(a: seq<int>, block: seq<Byte>): (r: seq<int>)
    requires |a| == 25 && |block| == RATE
    ensures |r| == 25
  {
    seq(25, i requires 0 <= i < 25 => if i < RATE / 8 then Xor(a[i], FromBytes(block[8 * i..8 * i + 8])) else a[i])
  }

  /** Section 4: fold the permutation over the blocks of the padded message. */
  function Absorb(a: seq<int>, padded: seq<Byte>): (r: seq<int>)
    requires |a| == 25
    ensures |r| == 25
    decreases |padded|
  {
    if |padded| < RATE then a
    else Absorb(KeccakF(AbsorbBlock(a, padded[..RATE])), padded[RATE..])
  }

  function StateBytes(lanes: seq<int>): (b: seq<Byte>)
    ensures |b| == 8 * |lanes|
  {
    if lanes == [] then [] else ToBytes(lanes[0], 8) + StateBytes(lanes[1..])
  }

  function Digest(message: seq<Byte>): (d: seq<Byte>)
    ensures |d| == 32
  {
    StateBytes(Absorb(ZERO_STATE, Pad(message)))[..32]
  }

  method XorBlock(state: array<int>, block: seq<Byte>)
    requires state.Length == 25 && |block| == RATE
    modifies state
    ensures state[..] == AbsorbBlock(old(state[..]), block)
  {
    hide Xor, FromBytes;
    ghost var a := state[..];
    for i := 0 to RATE / 8
      invariant forall l :: 0 <= l < 25 ==> state[l] == if l < i then AbsorbBlock(a, block)[l] else a[l]
    {
      var lane := FromBytes(block[i * 8..(i + 1) * 8]);
      state[i] := Xor(state[i], lane);
    }
  }

  /** `keccak256`. */
  method Keccak256(data: seq<Byte>) returns (digest: seq<Byte>)
    ensures digest == Digest(data)
  {
    hide KeccakF, AbsorbBlock, Absorb, Pad, PadTail, Xor, StateBytes, ToBytes, IsState;
    var state := new int[25](_ => 0);
    assert state[..] == ZERO_STATE;
    StartIsState();
    ghost var padded := Pad(data);
    var offset := 0;
    assert padded[0..] == padded;
    while offset + RATE <= |data|
      invariant 0 <= offset <= |data| <= |padded| && offset % RATE == 0
      invariant Absorb(state[..], padded[offset..]) == Absorb(ZERO_STATE, padded)
      invariant IsState(state[..])
    {
      AbsorbStep(state[..], data, offset);
      XorBlock(state, data[offset..offset + RATE]);
      KeccakFInPlace(state);
      offset := offset + RATE;
    }
    var block := data[offset..];
    block := block + [0x01];
    block := block + Zeros(RATE - |block|);
    LastByte(block, data, offset);
    block := block[|block| - 1 := Xor(block[|block| - 1], 0x80)];
    AbsorbLast(state[..], block);
    XorBlock(state, block);
    KeccakFInPlace(state);
    digest := Squeeze(state);
  }

  /** The output loop; no lane is too wide for `to_bytes(8, "little")`. */
  method Squeeze(state: array<int>) returns (digest: seq<Byte>)
    requires state.Length == 25 && IsState(state[..])
    ensures digest == StateBytes(state[..])[..32]
  {
    hide StateBytes, ToBytes;
    ghost var final := state[..];
    StateBytesLength(final);
    var out: seq<Byte> := [];
    var k := 0;
    while k < 25
      invariant 0 <= k <= 3 && |out| == 8 * k && out == StateBytes(final)[..8 * k]
    {
      assert 0 <= state[k] < Pow2(64);
      NextLaneBytes(final, k);
      out := out + ToBytes(state[k], 8);
      if |out| >= 32 { break; }
      k := k + 1;
    }
    digest := out[..32];
  }

  lemma StateBytesLength(lanes: seq<int>)
    ensures |StateBytes(lanes)| == 8 * |lanes|
  {
  }

  lemma StartIsState()
    ensures IsState(ZERO_STATE)
    ensures forall m: seq<Byte> :: |Pad(m)| >= |m|
  {
    hide PadTail, Pow2;
  }

  lemma AbsorbStep(a: seq<int>, data: seq<Byte>, offset: nat)
    requires IsState(a) && offset + RATE <= |data| <= |Pad(data)|
    ensures var next := KeccakF(AbsorbBlock(a, data[offset..offset + RATE]));
            && Absorb(a, Pad(data)[offset..]) == Absorb(next, Pad(data)[offset + RATE..])
            && IsState(next)
  {
    hide KeccakF, AbsorbBlock, PadTail, IsState;
    var p := Pad(data)[offset..];
    assert p[..RATE] == data[offset..offset + RATE];
    assert p[RATE..] == Pad(data)[offset + RATE..];
    AbsorbedIsState(a, data[offset..offset + RATE]);
  }

  /** Exclusive-or of 0x80 into the last byte turns the zero-extended block into the padding. */
  lemma LastByte(block: seq<Byte>, data: seq<Byte>, offset: nat)
    requires offset <= |data| < offset + RATE && offset % RATE == 0
    requires block == data[offset..] + [0x01] + Zeros(RATE - 1 - (|data| - offset))
    ensures 0 <= Xor(block[|block| - 1], 0x80) < 256
    ensures block[|block| - 1 := Xor(block[|block| - 1], 0x80)] == data[offset..] + PadTail(|data|) == Pad(data)[offset..]
  {
    XorTopBit();
    hide Xor;
    var t := |data| - offset;
    assert |data| % RATE == t by { RestOfRate(|data|, offset, t); }
    LastByteOf(block, data[offset..], RATE - t);
  }

  lemma RestOfRate(n: nat, offset: nat, t: nat)
    requires n == offset + t && offset % RATE == 0 && t < RATE
    ensures n % RATE == t
  {
  }

  lemma LastByteOf(block: seq<Byte>, rest: seq<Byte>, q: nat)
    requires q > 0 && block == rest + [0x01] + Zeros(q - 1)
    ensures block[|block| - 1] == (if q == 1 then 0x01 else 0)
    ensures block[|block| - 1 := if q == 1 then 0x81 else 0x80] == rest + PadBytes(q)
  {
    if q > 1 {
      assert block[|block| - 1 := 0x80] == rest + ([0x01] + Zeros(q - 2) + [0x80]);
    }
  }

  lemma XorTopBit()
    ensures Xor(0, 0x80) == 0x80 && Xor(1, 0x80) == 0x81
  {
    XorByZero(0x80);
    XorByZero(0x40);
    assert Xor(1, 0x80) == 2 * Xor(0, 0x40) + 1;
  }

  lemma {:induction false} XorByZero(v: nat)
    ensures Xor(0, v) == v
  {
    if v > 0 { XorByZero(v / 2); }
  }

  lemma AbsorbLast(a: seq<int>, block: seq<Byte>)
    requires IsState(a) && |block| == RATE
    ensures Absorb(a, block) == KeccakF(AbsorbBlock(a, block)) && IsState(Absorb(a, block))
  {
    hide KeccakF, AbsorbBlock, IsState;
    assert block[..RATE] == block && block[RATE..] == [];
    AbsorbedIsState(a, block);
  }

  lemma AbsorbedIsState(a: seq<int>, block: seq<Byte>)
    requires IsState(a) && |block| == RATE
    ensures IsState(AbsorbBlock(a, block)) && IsState(KeccakF(AbsorbBlock(a, block)))
  {
    hide Xor, FromBytes, Pow2, Rounds;
    forall i | 0 <= i < 17 ensures IsLane(Xor(a[i], FromBytes(block[8 * i..8 * i + 8]))) {
      ToFromBytes(block[8 * i..8 * i + 8]);
      XorIsLane(a[i], FromBytes(block[8 * i..8 * i + 8]));
    }
    RoundsAreStates(AbsorbBlock(a, block), ROUNDS);
  }

  lemma {:induction false} NextLaneBytes(lanes: seq<int>, k: nat)
    requires k < |lanes|
    ensures StateBytes(lanes)[..8 * (k + 1)] == StateBytes(lanes)[..8 * k] + ToBytes(lanes[k], 8)
  {
    hide ToBytes;
    if k > 0 {
      NextLaneBytes(lanes[1..], k - 1);
      var head, rest := ToBytes(lanes[0], 8), StateBytes(lanes[1..]);
      assert StateBytes(lanes)[..8 * (k + 1)] == head + rest[..8 * k];
      assert StateBytes(lanes)[..8 * k] == head + rest[..8 * (k - 1)];
    } else {
      assert StateBytes(lanes)[..8] == ToBytes(lanes[0], 8);
    }
  }

  // ----- what the padding and the absorption mean ---------------------------------------------------

  /** The bits of a byte string in the order of FIPS 202: least significant bit of each byte first. */
  function BitString(b: seq<Byte>): (s: seq<bool>)
    ensures |s| == 8 * |b|
  {
    seq(8 * |b|, k requires 0 <= k < 8 * |b| => Bit(b[k / 8], k % 8))
  }

  /** Algorithm 9 of FIPS 202: `pad10*1(x, m)`. */
  function Pad101(x: int, m: int): seq<bool>
    requires x > 0
  {
    [true] + Falses((-m - 2) % x) + [true]
  }

  function Falses(n: nat): (s: seq<bool>)
    ensures |s| == n && forall i :: 0 <= i < n ==> !s[i]
  {
    seq(n, _ => false)
  }

  lemma ByteBits(k: nat)
    requires k < 8
    ensures !Bit(0, k) && Bit(0x01, k) == (k == 0) && Bit(0x80, k) == (k == 7)
    ensures Bit(0x81, k) == (k == 0 || k == 7)
  {
    BitTail(0, k);
    if k > 0 { BitTail(0, k - 1); }
    TopBit(7, k);
    if k > 0 { TopBit(6, k - 1); }
    assert Pow2(7) == 0x80 && Pow2(6) == 0x40;
  }

  lemma {:induction false} TopBit(w: nat, k: nat)
    ensures Bit(Pow2(w), k) == (k == w)
    decreases w
  {
    if w == 0 {
      if k > 0 { BitTail(0, k - 1); }
    } else if k > 0 {
      assert Pow2(w) / 2 == Pow2(w - 1);
      TopBit(w - 1, k - 1);
    }
  }

  /** Read as bits, the padding bytes are pad10*1 for a rate of 1088 bits, with no suffix before it. */
  lemma PadIsPad101(message: seq<Byte>)
    ensures BitString(Pad(message)) == BitString(message) + Pad101(8 * RATE, 8 * |message|)
    ensures |Pad(message)| % RATE == 0
  {
    var n := |message|;
    var q := RATE - n % RATE;
    var t := PadTail(n);
    assert n == RATE * (n / RATE) + n % RATE;
    assert (-8 * n - 2) % (8 * RATE) == 8 * q - 2 by { ModOfPad(n, q); }
    assert (n + q) % RATE == 0 by { assert n + q == RATE * (n / RATE + 1); }
    var bits := BitString(message) + Pad101(8 * RATE, 8 * n);
    assert |bits| == 8 * (n + q);
    forall k | 0 <= k < 8 * (n + q) ensures BitString(Pad(message))[k] == bits[k] {
      if k >= 8 * n { PadBit(message, k); }
    }
  }

  lemma ModOfPad(n: nat, q: int)
    requires q == RATE - n % RATE
    ensures (-8 * n - 2) % (8 * RATE) == 8 * q - 2
  {
    assert -8 * n - 2 == 8 * q - 2 - 8 * RATE * (n / RATE + 1);
  }

  lemma PadBit(message: seq<Byte>, k: nat)
    requires 8 * |message| <= k < 8 * |Pad(message)|
    ensures Bit(Pad(message)[k / 8], k % 8) == (k == 8 * |message| || k == 8 * |Pad(message)| - 1)
  {
    hide Bit;
    var n := |message|;
    ByteBits(k % 8);
    assert Pad(message)[k / 8] == PadTail(n)[k / 8 - n];
  }

  /** Different messages have different padded messages. */
  lemma PadInjective(m: seq<Byte>, n: seq<Byte>)
    requires Pad(m) == Pad(n)
    ensures m == n
  {
    if |m| < |n| {
      PadStart(m, n);
    } else if |n| < |m| {
      PadStart(n, m);
    } else {
      assert m == Pad(m)[..|m|] && n == Pad(n)[..|n|];
    }
  }

  lemma PadStart(m: seq<Byte>, n: seq<Byte>)
    requires |m| < |n|
    ensures Pad(m) != Pad(n)
  {
    assert Pad(n)[|n|] == PadTail(|n|)[0];
    if |Pad(m)| == |Pad(n)| {
      assert Pad(m)[|n|] == PadTail(|m|)[|n| - |m|];
    }
  }

  /** Absorbing adds the block, followed by a zero capacity part, to the state bit by bit (section 4). */
  lemma AbsorbBit(a: seq<int>, block: seq<Byte>, x: nat, y: nat, z: nat)
    requires IsState(a) && |block| == RATE && x < 5 && y < 5 && z < 64
    ensures var k := 64 * (5 * y + x) + z;
            At(AbsorbBlock(a, block), x, y, z) == (At(a, x, y, z) != (k < 8 * RATE && Bit(block[k / 8], k % 8)))
  {
    hide Bit, Xor, FromBytes, At;
    var l := 5 * y + x;
    AtLane(a, x, y, z);
    AtLane(AbsorbBlock(a, block), x, y, z);
    if l < 17 {
      XorBit(a[l], FromBytes(block[8 * l..8 * l + 8]), z);
      BlockLaneBit(block, l, z);
    }
  }

  lemma AtLane(a: seq<int>, x: nat, y: nat, z: nat)
    requires |a| == 25 && x < 5 && y < 5 && z < 64
    ensures At(a, x, y, z) == Bit(a[5 * y + x], z)
  {
    hide Bit;
  }

  lemma BlockLaneBit(block: seq<Byte>, l: nat, z: nat)
    requires |block| == RATE && l < 17 && z < 64
    ensures Bit(FromBytes(block[8 * l..8 * l + 8]), z) == Bit(block[(64 * l + z) / 8], (64 * l + z) % 8)
  {
    hide Bit, FromBytes;
    FromBytesBit(block[8 * l..8 * l + 8], z / 8, z % 8);
    ByteOfLane(l, z);
  }

  lemma ByteOfLane(l: nat, z: nat)
    ensures (64 * l + z) / 8 == 8 * l + z / 8 && (64 * l + z) % 8 == z % 8
  {
  }
}
