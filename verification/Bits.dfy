/**
 Python integers as the hash code uses them: unbounded, with two's-complement bit operators.

 `Bit(v, z)` is bit `z` of `v`; a negative number has ones from some position on.  Every operator is
 characterised bit by bit, so the rest of the project reasons about Booleans and never about wide words.
 */
module Bits {

  function Pow2(n: nat): (p: nat)
    ensures p > 0
  {
    if n == 0 then 1 else 2 * Pow2(n - 1)
  }

  predicate Bit(v: int, z: nat)
    decreases z
  {
    if z == 0 then v % 2 == 1 else Bit(v / 2, z - 1)
  }

  function Abs(v: int): nat {
    if v < 0 then -v else v
  }

  datatype Op = XorOp | AndOp | OrOp

  predicate Apply(op: Op, p: bool, q: bool) {
    match op
    case XorOp => p != q
    case AndOp => p && q
    case OrOp => p || q
  }

  /** `op` applied to every pair of bits; the sign plays the part of the infinite tail. */
  function Bitwise(op: Op, a: int, b: int): int
    decreases Abs(a) + Abs(b)
  {
    if -1 <= a <= 0 && -1 <= b <= 0 then
      if Apply(op, a < 0, b < 0) then -1 else 0
    else
      2 * Bitwise(op, a / 2, b / 2) + if Apply(op, a % 2 == 1, b % 2 == 1) then 1 else 0
  }

  function Xor(a: int, b: int): int {
    Bitwise(XorOp, a, b)
  }

  function And(a: int, b: int): int {
    Bitwise(AndOp, a, b)
  }

  function Or(a: int, b: int): int {
    Bitwise(OrOp, a, b)
  }

  function Not(a: int): int {
    -a - 1
  }

  function Shl(v: int, s: nat): int
    decreases s
  {
    if s == 0 then v else Shl(2 * v, s - 1)
  }

  function Shr(v: int, s: nat): int
    decreases s
  {
    if s == 0 then v else Shr(v / 2, s - 1)
  }

  lemma {:induction false} JoinBit(low: int, high: int, n: nat, z: nat)
    requires 0 <= low < Pow2(n)
    ensures Bit(low + Pow2(n) * high, z) == if z < n then Bit(low, z) else Bit(high, z - n)
    decreases n
  {
    if n > 0 {
      var twice := Pow2(n - 1) * high;
      assert Pow2(n) * high == 2 * twice;
      HalfOfSum(low, twice);
      if z > 0 { JoinBit(low / 2, high, n - 1, z - 1); }
    }
  }

  lemma HalfOfSum(low: int, twice: int)
    ensures (low + 2 * twice) / 2 == low / 2 + twice && (low + 2 * twice) % 2 == low % 2
  {
  }

  /** The non-negative number below `Pow2(w)` whose low bits are `f`. */
  function FromBits(f: int -> bool, w: nat): int {
    if w == 0 then 0 else (if f(0) then 1 else 0) + 2 * FromBits(z => f(z + 1), w - 1)
  }

  lemma {:induction false} Pow2Sum(m: nat, n: nat)
    ensures Pow2(m + n) == Pow2(m) * Pow2(n)
    decreases m
  {
    if m > 0 { Pow2Sum(m - 1, n); }
  }

  lemma Pow2Of64()
    ensures Pow2(64) == 0x1_0000_0000_0000_0000
  {
    assert Pow2(8) == 256;
    hide Pow2;
    Pow2Sum(8, 8);
    Pow2Sum(16, 16);
    Pow2Sum(32, 32);
  }

  lemma {:induction false} BitTail(v: int, z: nat)
    requires v == 0 || v == -1
    ensures Bit(v, z) == (v < 0)
  {
    if z > 0 { BitTail(v / 2, z - 1); }
  }

  lemma {:induction false} BitwiseBit(op: Op, a: int, b: int, z: nat)
    ensures Bit(Bitwise(op, a, b), z) == Apply(op, Bit(a, z), Bit(b, z))
    decreases z
  {
    var r := Bitwise(op, a, b);
    if -1 <= a <= 0 && -1 <= b <= 0 {
      BitTail(a, z); BitTail(b, z); BitTail(r, z);
    } else if z > 0 {
      assert r / 2 == Bitwise(op, a / 2, b / 2);
      BitwiseBit(op, a / 2, b / 2, z - 1);
    }
  }

  lemma {:induction false} NotBit(a: int, z: nat)
    ensures Bit(Not(a), z) == !Bit(a, z)
    decreases z
  {
    if z > 0 {
      assert Not(a) / 2 == Not(a / 2);
      NotBit(a / 2, z - 1);
    }
  }

  lemma {:induction false} DoubleBit(v: int, z: nat)
    ensures Bit(2 * v, z) == (z > 0 && Bit(v, z - 1))
  {
    assert (2 * v) / 2 == v;
  }

  lemma {:induction false} ShlBit(v: int, s: nat, z: nat)
    ensures Bit(Shl(v, s), z) == (z >= s && Bit(v, z - s))
    decreases s
  {
    if s > 0 {
      ShlBit(2 * v, s - 1, z);
      if z >= s - 1 { DoubleBit(v, z - (s - 1)); }
    }
  }

  lemma {:induction false} ShrBit(v: int, s: nat, z: nat)
    ensures Bit(Shr(v, s), z) == Bit(v, z + s)
    decreases s
  {
    if s > 0 {
      ShrBit(v / 2, s - 1, z);
    }
  }

  lemma {:induction false} FromBitsBit(f: int -> bool, w: nat, z: nat)
    ensures 0 <= FromBits(f, w) < Pow2(w)
    ensures Bit(FromBits(f, w), z) == (z < w && f(z))
    decreases w
  {
    if w == 0 {
      BitTail(0, z);
    } else {
      var g := z' => f(z' + 1);
      FromBitsBit(g, w - 1, if z > 0 then z - 1 else 0);
      assert FromBits(f, w) / 2 == FromBits(g, w - 1);
    }
  }

  ghost predicate NoBitFrom(v: int, w: nat) {
    forall z: nat :: z >= w ==> !Bit(v, z)
  }

  /** A number lies in `[0, Pow2(w))` exactly when it has no bit at `w` or above. */
  lemma {:induction false} RangeByBits(v: int, w: nat)
    ensures 0 <= v < Pow2(w) <==> NoBitFrom(v, w)
    decreases Abs(v), w
  {
    if v == 0 || v == -1 {
      BitTail(v, w);
      forall z: nat ensures Bit(v, z) == (v < 0) { BitTail(v, z); }
    } else {
      var w' := if w == 0 then 0 else w - 1;
      RangeByBits(v / 2, w');
      if NoBitFrom(v, w) {
        forall z: nat | z >= w' ensures !Bit(v / 2, z) { assert !Bit(v, z + 1); }
        assert w == 0 ==> !Bit(v, 0);
      }
      if NoBitFrom(v / 2, w') {
        forall z: nat | z >= w && z > 0 ensures !Bit(v, z) { assert !Bit(v / 2, z - 1); }
      }
    }
  }

  /** Two numbers with the same bits are equal. */
  lemma {:induction false} Extensional(a: int, b: int)
    requires forall z: nat :: Bit(a, z) == Bit(b, z)
    ensures a == b
    decreases Abs(a) + Abs(b)
  {
    assert Bit(a, 0) == Bit(b, 0);
    forall z: nat ensures Bit(a / 2, z) == Bit(b / 2, z) { assert Bit(a, z + 1) == Bit(b, z + 1); }
    if -1 <= a <= 0 && -1 <= b <= 0 {
    } else {
      Extensional(a / 2, b / 2);
    }
  }

  /** The same for numbers known to fit in `w` bits: the low bits decide. */
  lemma ExtensionalBelow(a: int, b: int, w: nat)
    requires 0 <= a < Pow2(w) && 0 <= b < Pow2(w)
    requires forall z: nat :: z < w ==> Bit(a, z) == Bit(b, z)
    ensures a == b
  {
    RangeByBits(a, w);
    RangeByBits(b, w);
    Extensional(a, b);
  }
}
