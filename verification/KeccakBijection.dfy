/**
 The 24-round permutation really is one: it maps the states of 25 lanes below 2^64 one-to-one onto themselves.

 Each step mapping is shown to be injective and surjective by itself.  For theta that means solving
 `q + E(q) = p` for column parities, where `E(q)[x, z] = q[x-1, z] + q[x+1, z-1]`.  Over bits, squaring doubles
 the distances in `E`; after six squarings the z-distance is a whole lane and disappears.
 */
module KeccakBijection {
  import opened Bits
  import opened KeccakSteps

  /** A bit for every column; indices are read modulo 5 and 64. */
  type Plane = (int, int) -> bool

  ghost predicate Periodic(p: Plane) {
    forall x, z, x', z' :: x % 5 == x' % 5 && z % 64 == z' % 64 ==> p(x, z) == p(x', z')
  }

  ghost predicate MixAt(p: Plane, n: int, x: int, z: int) {
    p(x, z) != (p(x - n, z) != p(x + n, z - n))
  }

  /** The parity map of theta at distance `n`; theta itself mixes at distance 1. */
  ghost function Mix(p: Plane, n: int): Plane {
    (x, z) => MixAt(p, n, x, z)
  }

  lemma Wrap(p: Plane, x: int, z: int, x': int, z': int)
    requires Periodic(p)
    requires x % 5 == x' % 5 && z % 64 == z' % 64
    ensures p(x, z) == p(x', z')
  {
  }

  lemma Shift5(x: int, x': int, n: int)
    requires x % 5 == x' % 5
    ensures (x + n) % 5 == (x' + n) % 5
  {
    assert x' + n == x + n + 5 * (x' / 5 - x / 5);
  }

  // ----- theta: the column-parity map ------------------------------------------------------------

  lemma ParityIsPeriodic(a: seq<int>)
    requires |a| == 25
    ensures Periodic((x, z) => Parity(a, x, z))
  {
    hide Parity;
    forall x, z, x', z' | x % 5 == x' % 5 && z % 64 == z' % 64 ensures Parity(a, x, z) == Parity(a, x', z') {
      ParityPeriodic(a, x, x', z, z');
    }
  }

  /** Five rows are an odd number, so theta adds the mixed columns to every column parity once. */
  lemma ParityOfTheta(a: seq<int>, x: int, z: int)
    requires IsState(a)
    ensures Parity(Theta(a), x, z) == Mix((i, k) => Parity(a, i, k), 1)(x, z)
  {
    hide At;
    ThetaBit(a, x, 0, z); ThetaBit(a, x, 1, z); ThetaBit(a, x, 2, z); ThetaBit(a, x, 3, z); ThetaBit(a, x, 4, z);
    FiveTimes(a, x, z, Parity(a, x - 1, z) != Parity(a, x + 1, z - 1), Theta(a));
  }

  lemma FiveTimes(a: seq<int>, x: int, z: int, d: bool, b: seq<int>)
    requires |a| == 25 && |b| == 25
    requires forall y :: 0 <= y < 5 ==> At(b, x, y, z) == (At(a, x, y, z) != d)
    ensures Parity(b, x, z) == (Parity(a, x, z) != d)
  {
    hide At;
    assert At(b, x, 0, z) == (At(a, x, 0, z) != d) && At(b, x, 1, z) == (At(a, x, 1, z) != d);
    assert At(b, x, 2, z) == (At(a, x, 2, z) != d) && At(b, x, 3, z) == (At(a, x, 3, z) != d);
    assert At(b, x, 4, z) == (At(a, x, 4, z) != d);
  }

  /** `d` is in the kernel of the mixing at distance `n`. */
  ghost predicate InKernel(d: Plane, n: int) {
    forall x, z :: d(x, z) == (d(x - n, z) != d(x + n, z - n))
  }

  lemma KernelDoubles(d: Plane, n: int)
    requires InKernel(d, n)
    ensures InKernel(d, 2 * n)
  {
    forall x, z ensures d(x, z) == (d(x - 2 * n, z) != d(x + 2 * n, z - 2 * n)) {
      assert d(x, z) == (d(x - n, z) != d(x + n, z - n));
      assert d(x - n, z) == (d(x - n - n, z) != d(x - n + n, z - n));
      assert d(x + n, z - n) == (d(x + n - n, z - n) != d(x + n + n, z - n - n));
    }
  }

  /** At distance 64 the lane position is back where it was, and five columns make 64 steps a step back. */
  lemma NeighbourSum(d: Plane, x: int, z: int)
    requires Periodic(d) && InKernel(d, 1)
    ensures d(x, z) == (d(x + 1, z) != d(x - 1, z))
  {
    assert InKernel(d, 64) by {
      hide InKernel;
      KernelDoubles(d, 1); KernelDoubles(d, 2); KernelDoubles(d, 4);
      KernelDoubles(d, 8); KernelDoubles(d, 16); KernelDoubles(d, 32);
    }
    assert d(x, z) == (d(x - 64, z) != d(x + 64, z - 64));
    Wrap(d, x - 64, z, x + 1, z);
    Wrap(d, x + 64, z - 64, x - 1, z);
  }

  /** The kernel of the column-parity map is trivial. */
  lemma KernelIsZero(d: Plane, x: int, z: int)
    requires Periodic(d) && InKernel(d, 1)
    ensures !d(x, z)
  {
    hide InKernel, Periodic;
    Wrap(d, x + 5, z, x, z);
    Wrap(d, x + 4, z, x - 1, z);
    NeighbourSum(d, x, z);
    NeighbourSum(d, x + 1, z);
    NeighbourSum(d, x + 2, z);
    NeighbourSum(d, x + 3, z);
    NeighbourSum(d, x + 4, z);
  }

  lemma ThetaInjective(a: seq<int>, b: seq<int>)
    requires IsState(a) && IsState(b) && Theta(a) == Theta(b)
    ensures a == b
  {
    hide At, Parity, Theta;
    var d: Plane := (x, z) => Parity(a, x, z) != Parity(b, x, z);
    assert Periodic(d) by { ParityIsPeriodic(a); ParityIsPeriodic(b); DifferencePeriodic(a, b, d); }
    forall x, z ensures d(x, z) == (d(x - 1, z) != d(x + 1, z - 1)) {
      ParityOfTheta(a, x, z);
      ParityOfTheta(b, x, z);
    }
    forall x, y, z | 0 <= x < 5 && 0 <= y < 5 && 0 <= z < 64 ensures At(a, x, y, z) == At(b, x, y, z) {
      KernelIsZero(d, x - 1, z);
      KernelIsZero(d, x + 1, z - 1);
      ThetaBit(a, x, y, z);
      ThetaBit(b, x, y, z);
    }
    StatesEqual(a, b);
  }

  lemma DifferencePeriodic(a: seq<int>, b: seq<int>, d: Plane)
    requires |a| == 25 && |b| == 25
    requires forall x, z :: d(x, z) == (Parity(a, x, z) != Parity(b, x, z))
    ensures Periodic(d)
  {
    hide Parity;
    forall x, z, x', z' | x % 5 == x' % 5 && z % 64 == z' % 64 ensures d(x, z) == d(x', z') {
      ParityPeriodic(a, x, x', z, z');
      ParityPeriodic(b, x, x', z, z');
    }
  }

  // ----- theta: solving for the parities ----------------------------------------------------------

  /** Mixing at distances `n`, `2n`, `4n`, ..., `k` times in all, nearest distance last. */
  ghost function Chain(p: Plane, n: int, k: nat): Plane
    decreases k
  {
    if k == 0 then p else Mix(Chain(p, 2 * n, k - 1), n)
  }

  lemma MixTwice(p: Plane, n: int, x: int, z: int)
    ensures Mix(Mix(p, n), n)(x, z) == Mix(p, 2 * n)(x, z)
  {
  }

  ghost predicate Same(p: Plane, q: Plane) {
    forall x, z :: p(x, z) == q(x, z)
  }

  /** Squaring telescopes: one more mixing at `n` turns the whole chain into a mixing at `n * 2^k`. */
  lemma {:induction false} ChainTelescopes(p: Plane, n: int, k: nat)
    ensures Same(Mix(Chain(p, n, k), n), Mix(p, n * Pow2(k)))
    decreases k
  {
    DoublePow(n, k);
    hide Same, Mix, Pow2;
    if k == 0 {
      SameRefl(Mix(p, n));
    } else {
      var q := Chain(p, 2 * n, k - 1);
      SameTwice(q, n);
      ChainTelescopes(p, 2 * n, k - 1);
      SameTrans(Mix(Chain(p, n, k), n), Mix(q, 2 * n), Mix(p, n * Pow2(k)));
    }
  }

  lemma DoublePow(n: int, k: nat)
    ensures if k == 0 then n * Pow2(k) == n else (2 * n) * Pow2(k - 1) == n * Pow2(k)
  {
    if k > 0 {
      var m := Pow2(k - 1);
      assert Pow2(k) == 2 * m;
      assert (2 * n) * m == n * (2 * m);
    }
  }

  lemma SameRefl(p: Plane)
    ensures Same(p, p)
  {
  }

  lemma SameTwice(p: Plane, n: int)
    ensures Same(Mix(Mix(p, n), n), Mix(p, 2 * n))
  {
    forall x, z ensures Mix(Mix(p, n), n)(x, z) == Mix(p, 2 * n)(x, z) { MixTwice(p, n, x, z); }
  }

  lemma SameTrans(p: Plane, q: Plane, r: Plane)
    requires Same(p, q) && Same(q, r)
    ensures Same(p, r)
  {
  }

  lemma MixWrap(p: Plane, n: int, x: int, z: int, x': int, z': int)
    requires Periodic(p)
    requires x % 5 == x' % 5 && z % 64 == z' % 64
    ensures Mix(p, n)(x, z) == Mix(p, n)(x', z')
  {
    hide Periodic;
    Shift5(x, x', -n);
    Shift5(x, x', n);
    Shift64(z, z', -n);
    Wrap(p, x, z, x', z');
    Wrap(p, x - n, z, x' - n, z');
    Wrap(p, x + n, z - n, x' + n, z' - n);
  }

  lemma MixPeriodic(p: Plane, n: int)
    requires Periodic(p)
    ensures Periodic(Mix(p, n))
  {
    hide Mix;
    forall x, z, x', z' | x % 5 == x' % 5 && z % 64 == z' % 64 ensures Mix(p, n)(x, z) == Mix(p, n)(x', z') {
      MixWrap(p, n, x, z, x', z');
    }
  }

  lemma {:induction false} ChainPeriodic(p: Plane, n: int, k: nat)
    requires Periodic(p)
    ensures Periodic(Chain(p, n, k))
    decreases k
  {
    if k > 0 {
      hide Periodic, Mix;
      ChainPeriodic(p, 2 * n, k - 1);
      MixPeriodic(Chain(p, 2 * n, k - 1), n);
    }
  }

  ghost predicate SpreadAt(p: Plane, x: int, z: int) {
    p(x, z) != (p(x + 2, z) != p(x - 2, z))
  }

  ghost function Spread(p: Plane): Plane {
    (x, z) => SpreadAt(p, x, z)
  }

  /** Column parities before theta, from those after it. */
  ghost function Unmix(p: Plane): Plane {
    Chain(Spread(p), 1, 6)
  }

  lemma UnmixPeriodic(p: Plane)
    requires Periodic(p)
    ensures Periodic(Unmix(p))
  {
    hide Periodic, Spread, Chain;
    SpreadPeriodic(p);
    ChainPeriodic(Spread(p), 1, 6);
  }

  lemma UnmixSolves(p: Plane, x: int, z: int)
    requires Periodic(p)
    ensures Mix(Unmix(p), 1)(x, z) == p(x, z)
  {
    hide Periodic, Spread, Chain, Mix;
    ChainTelescopes(Spread(p), 1, 6);
    assert Pow2(6) == 64;
    FullTurn(p, x, z);
  }

  lemma SpreadWrap(p: Plane, x: int, z: int, x': int, z': int)
    requires Periodic(p)
    requires x % 5 == x' % 5 && z % 64 == z' % 64
    ensures Spread(p)(x, z) == Spread(p)(x', z')
  {
    hide Periodic;
    Shift5(x, x', 2);
    Shift5(x, x', -2);
    Wrap(p, x, z, x', z');
    Wrap(p, x + 2, z, x' + 2, z');
    Wrap(p, x - 2, z, x' - 2, z');
  }

  lemma SpreadPeriodic(p: Plane)
    requires Periodic(p)
    ensures Periodic(Spread(p))
  {
    hide Spread;
    forall x, z, x', z' | x % 5 == x' % 5 && z % 64 == z' % 64 ensures Spread(p)(x, z) == Spread(p)(x', z') {
      SpreadWrap(p, x, z, x', z');
    }
  }

  /** On five columns, spreading undoes the neighbour sums left after the last squaring. */
  lemma SpreadIs(p: Plane, x: int, z: int)
    ensures Spread(p)(x, z) == (p(x, z) != (p(x + 2, z) != p(x - 2, z)))
  {
  }

  lemma FullTurn(p: Plane, x: int, z: int)
    requires Periodic(p)
    ensures Mix(Spread(p), 64)(x, z) == p(x, z)
  {
    FullMix(Spread(p), x, z);
    SpreadIs(p, x, z);
    SpreadIs(p, x + 1, z);
    SpreadIs(p, x - 1, z);
    hide Periodic, Spread, Mix;
    SpreadWrap(p, x - 64, z, x + 1, z);
    SpreadWrap(p, x + 64, z - 64, x - 1, z);
    Wrap(p, x + 3, z, x - 2, z);
    Wrap(p, x - 3, z, x + 2, z);
  }

  lemma FullMix(q: Plane, x: int, z: int)
    ensures Mix(q, 64)(x, z) == (q(x, z) != (q(x - 64, z) != q(x + 64, z - 64)))
  {
  }

  // ----- theta: a state for every image ------------------------------------------------------------

  /** The lane whose bits are given. */
  ghost function LaneOf(f: int -> bool): int {
    FromBits(f, 64)
  }

  ghost function StateOf(f: (int, int, int) -> bool): (a: seq<int>)
    ensures |a| == 25
  {
    seq(25, l requires 0 <= l < 25 => LaneOf(z => f(l % 5, l / 5, z)))
  }

  lemma StateOfBits(f: (int, int, int) -> bool)
    ensures IsState(StateOf(f))
    ensures forall x, y, z :: At(StateOf(f), x, y, z) == f(x % 5, y % 5, z % 64)
  {
    hide Bit, FromBits, Pow2;
    forall l | 0 <= l < 25 ensures IsLane(StateOf(f)[l]) {
      FromBitsBit(z => f(l % 5, l / 5, z), 64, 0);
    }
    forall x, y, z ensures At(StateOf(f), x, y, z) == f(x % 5, y % 5, z % 64) {
      var l := 5 * (y % 5) + x % 5;
      LaneDigits(x % 5, y % 5);
      FromBitsBit(k => f(l % 5, l / 5, k), 64, z % 64);
    }
  }

  ghost predicate ThetaPreimageAt(b: seq<int>, q: Plane, x: int, y: int, z: int)
    requires |b| == 25
  {
    At(b, x, y, z) != (q(x - 1, z) != q(x + 1, z - 1))
  }

  lemma ThetaSurjective(b: seq<int>) returns (a: seq<int>)
    requires IsState(b)
    ensures IsState(a) && Theta(a) == b
  {
    hide At, Parity, Theta, Periodic, Mix, Unmix;
    var p: Plane := (x, z) => Parity(b, x, z);
    var q := Unmix(p);
    ParityIsPeriodic(b);
    UnmixPeriodic(p);
    a := StateOf((x, y, z) => ThetaPreimageAt(b, q, x, y, z));
    StateOfBits((x, y, z) => ThetaPreimageAt(b, q, x, y, z));
    forall x, y, z ensures At(a, x, y, z) == ThetaPreimageAt(b, q, x, y, z) {
      PreimagePeriodic(b, q, x, y, z);
    }
    forall x, z ensures Parity(a, x, z) == q(x, z) {
      UnmixSolves(p, x, z);
      MixApplied(q, x, z);
      FiveTimes(b, x, z, q(x - 1, z) != q(x + 1, z - 1), a);
    }
    ThetaIsState(a);
    forall x, y, z | 0 <= x < 5 && 0 <= y < 5 && 0 <= z < 64 ensures At(Theta(a), x, y, z) == At(b, x, y, z) {
      ThetaBit(a, x, y, z);
    }
    StatesEqual(Theta(a), b);
  }

  lemma MixApplied(q: Plane, x: int, z: int)
    ensures Mix(q, 1)(x, z) == (q(x, z) != (q(x - 1, z) != q(x + 1, z - 1)))
  {
  }

  lemma PreimagePeriodic(b: seq<int>, q: Plane, x: int, y: int, z: int)
    requires |b| == 25 && Periodic(q)
    ensures ThetaPreimageAt(b, q, x % 5, y % 5, z % 64) == ThetaPreimageAt(b, q, x, y, z)
  {
    hide Bit, Periodic;
    Shift5(x % 5, x, -1);
    Shift5(x % 5, x, 1);
    Shift64(z % 64, z, -1);
    Wrap(q, x % 5 - 1, z % 64, x - 1, z);
    Wrap(q, x % 5 + 1, z % 64 - 1, x + 1, z - 1);
  }

  // ----- rho, pi, chi, iota -----------------------------------------------------------------------

  lemma RhoInjective(a: seq<int>, b: seq<int>)
    requires IsState(a) && IsState(b) && Rho(a) == Rho(b)
    ensures a == b
  {
    hide Bit, Rho, RhoOffset;
    forall x, y, z | 0 <= x < 5 && 0 <= y < 5 && 0 <= z < 64 ensures At(a, x, y, z) == At(b, x, y, z) {
      var r := RhoOffset(5 * (y % 5) + x % 5);
      RhoBit(a, x, y, z + r);
      RhoBit(b, x, y, z + r);
      assert z + r - r == z;
    }
    StatesEqual(a, b);
  }

  ghost predicate RhoPreimageAt(b: seq<int>, x: int, y: int, z: int)
    requires |b| == 25
  {
    At(b, x, y, z + RhoOffset(5 * (y % 5) + x % 5))
  }

  lemma RhoSurjective(b: seq<int>) returns (a: seq<int>)
    requires IsState(b)
    ensures IsState(a) && Rho(a) == b
  {
    hide At, Rho, RhoOffset;
    a := StateOf((x, y, z) => RhoPreimageAt(b, x, y, z));
    StateOfBits((x, y, z) => RhoPreimageAt(b, x, y, z));
    RhoIsState(a);
    forall x, y, z | 0 <= x < 5 && 0 <= y < 5 && 0 <= z < 64 ensures At(Rho(a), x, y, z) == At(b, x, y, z) {
      var r: int := RhoOffset(5 * (y % 5) + x % 5);
      RhoBit(a, x, y, z);
      assert At(a, x, y, z - r) == At(b, x, y, (z - r) % 64 + r);
      AtWraps(b, x, y, (z - r) % 64 + r, z, r);
    }
    StatesEqual(Rho(a), b);
  }

  lemma AtWraps(b: seq<int>, x: int, y: int, z': int, z: int, r: int)
    requires |b| == 25 && z' == (z - r) % 64 + r
    ensures At(b, x, y, z') == At(b, x, y, z)
  {
    hide Bit;
    Shift64((z - r) % 64, z - r, r);
  }

  lemma PiInjective(a: seq<int>, b: seq<int>)
    requires IsState(a) && IsState(b) && Pi(a) == Pi(b)
    ensures a == b
  {
    hide At, Pi;
    forall x, y, z | 0 <= x < 5 && 0 <= y < 5 && 0 <= z < 64 ensures At(a, x, y, z) == At(b, x, y, z) {
      PiBit(a, y, 2 * x - 2 * y, z);
      PiBit(b, y, 2 * x - 2 * y, z);
      AtColumn(a, x, y + 3 * (2 * x - 2 * y), y, z);
      AtColumn(b, x, y + 3 * (2 * x - 2 * y), y, z);
    }
    StatesEqual(a, b);
  }

  lemma AtColumn(a: seq<int>, x: int, x': int, y: int, z: int)
    requires |a| == 25 && x' == y + 3 * (2 * x - 2 * y)
    ensures At(a, x', y, z) == At(a, x, y, z)
  {
    hide Bit;
    FiveMore(x', x, x - y);
  }

  ghost predicate PiPreimageAt(b: seq<int>, x: int, y: int, z: int)
    requires |b| == 25
  {
    At(b, y, 2 * x - 2 * y, z)
  }

  lemma PiSurjective(b: seq<int>) returns (a: seq<int>)
    requires IsState(b)
    ensures IsState(a) && Pi(a) == b
  {
    hide At, Pi;
    a := StateOf((x, y, z) => PiPreimageAt(b, x, y, z));
    StateOfBits((x, y, z) => PiPreimageAt(b, x, y, z));
    forall x, y, z | 0 <= x < 5 && 0 <= y < 5 && 0 <= z < 64 ensures At(Pi(a), x, y, z) == At(b, x, y, z) {
      PiBit(a, x, y, z);
      AtRow(b, x, y, 2 * ((x + 3 * y) % 5) - 2 * (x % 5), z);
    }
    PiIsState(a);
    StatesEqual(Pi(a), b);
  }

  lemma AtRow(b: seq<int>, x: int, y: int, y': int, z: int)
    requires |b| == 25 && 0 <= x < 5 && y' == 2 * ((x + 3 * y) % 5) - 2 * x
    ensures At(b, x, y', z % 64) == At(b, x, y, z)
  {
    hide Bit;
    var q := (x + 3 * y) / 5;
    assert y' == y + 5 * (y - 2 * q);
    FiveMore(y', y, y - 2 * q);
  }

  lemma FiveMore(y': int, y: int, q: int)
    requires y' == y + 5 * q
    ensures y' % 5 == y % 5
  {
  }

  lemma PiIsState(a: seq<int>)
    requires IsState(a)
    ensures IsState(Pi(a))
  {
    hide PiSource;
    forall l | 0 <= l < 25 ensures IsLane(Pi(a)[l]) { assert Pi(a)[l] == a[PiSource(l)]; }
  }

  /** The inverse of the row map: five bits decide each other. */
  predicate UnchiAt(b: seq<int>, x: int, y: int, z: int)
    requires |b| == 25
  {
    At(b, x, y, z) !=
    (!At(b, x + 1, y, z) && (At(b, x + 2, y, z) != (!At(b, x + 3, y, z) && At(b, x + 4, y, z))))
  }

  lemma RowTurn(a: seq<int>, x: int, y: int, z: int)
    requires |a| == 25
    ensures At(a, x + 5, y, z) == At(a, x, y, z) && At(a, x + 6, y, z) == At(a, x + 1, y, z)
  {
    hide Bit;
    FiveMore(x + 5, x, 1);
    FiveMore(x + 6, x + 1, 1);
  }

  lemma UnchiChi(a: seq<int>, x: int, y: int, z: int)
    requires |a| == 25
    ensures UnchiAt(Chi(a), x, y, z) == At(a, x, y, z)
  {
    hide At, Chi;
    ChiBit(a, x, y, z); ChiBit(a, x + 1, y, z); ChiBit(a, x + 2, y, z); ChiBit(a, x + 3, y, z); ChiBit(a, x + 4, y, z);
    RowTurn(a, x, y, z);
  }

  lemma ChiInjective(a: seq<int>, b: seq<int>)
    requires IsState(a) && IsState(b) && Chi(a) == Chi(b)
    ensures a == b
  {
    hide At, Chi, UnchiAt;
    forall x, y, z | 0 <= x < 5 && 0 <= y < 5 && 0 <= z < 64 ensures At(a, x, y, z) == At(b, x, y, z) {
      UnchiChi(a, x, y, z);
      UnchiChi(b, x, y, z);
    }
    StatesEqual(a, b);
  }

  lemma AtPeriodic(b: seq<int>, x: int, x': int, y: int, z: int)
    requires |b| == 25 && x % 5 == x' % 5
    ensures At(b, x, y % 5, z % 64) == At(b, x', y, z)
  {
    hide Bit;
  }

  lemma UnchiPeriodic(b: seq<int>, x: int, y: int, z: int)
    requires |b| == 25
    ensures UnchiAt(b, x % 5, y % 5, z % 64) == UnchiAt(b, x, y, z)
  {
    hide At;
    Shift5(x % 5, x, 1); Shift5(x % 5, x, 2); Shift5(x % 5, x, 3); Shift5(x % 5, x, 4);
    AtPeriodic(b, x % 5, x, y, z); AtPeriodic(b, x % 5 + 1, x + 1, y, z); AtPeriodic(b, x % 5 + 2, x + 2, y, z);
    AtPeriodic(b, x % 5 + 3, x + 3, y, z); AtPeriodic(b, x % 5 + 4, x + 4, y, z);
  }

  lemma ChiSurjective(b: seq<int>) returns (a: seq<int>)
    requires IsState(b)
    ensures IsState(a) && Chi(a) == b
  {
    hide At, Chi, UnchiAt;
    a := StateOf((x, y, z) => UnchiAt(b, x, y, z));
    StateOfBits((x, y, z) => UnchiAt(b, x, y, z));
    ChiIsState(a);
    forall x, y, z | 0 <= x < 5 && 0 <= y < 5 && 0 <= z < 64 ensures At(Chi(a), x, y, z) == At(b, x, y, z) {
      ChiBit(a, x, y, z);
      UnchiPeriodic(b, x, y, z); UnchiPeriodic(b, x + 1, y, z); UnchiPeriodic(b, x + 2, y, z);
      ChiUnchi(b, x, y, z);
    }
    StatesEqual(Chi(a), b);
  }

  lemma ChiUnchi(b: seq<int>, x: int, y: int, z: int)
    requires |b| == 25
    ensures (UnchiAt(b, x, y, z) != (!UnchiAt(b, x + 1, y, z) && UnchiAt(b, x + 2, y, z))) == At(b, x, y, z)
  {
    hide At;
    RowTurn(b, x, y, z);
  }

  lemma RoundConstantIsLane(round: nat)
    requires round < ROUNDS
    ensures IsLane(ROUND_CONSTANTS[round])
  {
    hide Pow2;
    Pow2Of64();
  }

  lemma IotaTwice(a: seq<int>, round: nat)
    requires IsState(a) && round < ROUNDS
    ensures IsState(Iota(a, round)) && Iota(Iota(a, round), round) == a
  {
    hide Bit, Bitwise, Pow2, Xor, ROUND_CONSTANTS;
    RoundConstantIsLane(round);
    ConstantCount();
    var c := ROUND_CONSTANTS[round];
    XorIsLane(a[0], c);
    XorIsLane(Xor(a[0], c), c);
    forall z: nat | z < 64 ensures Bit(Xor(Xor(a[0], c), c), z) == Bit(a[0], z) {
      XorBit(a[0], c, z);
      XorBit(Xor(a[0], c), c, z);
    }
    ExtensionalBelow(Xor(Xor(a[0], c), c), a[0], 64);
  }

  lemma ConstantCount()
    ensures |ROUND_CONSTANTS| == ROUNDS
  {
  }

  // ----- the permutation --------------------------------------------------------------------------

  lemma RoundIsState(a: seq<int>, round: nat)
    requires IsState(a) && round < ROUNDS
    ensures IsState(Round(a, round))
  {
    hide Theta, Rho, Pi, Chi, Iota;
    ThetaIsState(a);
    RhoIsState(Theta(a));
    PiIsState(Rho(Theta(a)));
    ChiIsState(Pi(Rho(Theta(a))));
    IotaTwice(Chi(Pi(Rho(Theta(a)))), round);
  }

  lemma RoundInjective(a: seq<int>, b: seq<int>, round: nat)
    requires IsState(a) && IsState(b) && round < ROUNDS && Round(a, round) == Round(b, round)
    ensures a == b
  {
    hide Theta, Rho, Pi, Chi, Iota;
    ThetaIsState(a);
    ThetaIsState(b);
    RhoIsState(Theta(a));
    RhoIsState(Theta(b));
    PiIsState(Rho(Theta(a)));
    PiIsState(Rho(Theta(b)));
    ChiIsState(Pi(Rho(Theta(a))));
    ChiIsState(Pi(Rho(Theta(b))));
    IotaTwice(Chi(Pi(Rho(Theta(a)))), round);
    IotaTwice(Chi(Pi(Rho(Theta(b)))), round);
    ChiInjective(Pi(Rho(Theta(a))), Pi(Rho(Theta(b))));
    PiInjective(Rho(Theta(a)), Rho(Theta(b)));
    RhoInjective(Theta(a), Theta(b));
    ThetaInjective(a, b);
  }

  lemma RoundSurjective(b: seq<int>, round: nat) returns (a: seq<int>)
    requires IsState(b) && round < ROUNDS
    ensures IsState(a) && Round(a, round) == b
  {
    hide Theta, Rho, Pi, Chi, Iota;
    IotaTwice(b, round);
    a := ChiSurjective(Iota(b, round));
    a := PiSurjective(a);
    a := RhoSurjective(a);
    a := ThetaSurjective(a);
  }

  /** Every lane stays below 2^64 through all rounds. */
  lemma {:induction false} RoundsAreStates(a: seq<int>, n: nat)
    requires IsState(a) && n <= ROUNDS
    ensures IsState(Rounds(a, n))
  {
    hide Round;
    if n > 0 {
      RoundsAreStates(a, n - 1);
      RoundIsState(Rounds(a, n - 1), n - 1);
    }
  }

  lemma {:induction false} RoundsInjective(a: seq<int>, b: seq<int>, n: nat)
    requires IsState(a) && IsState(b) && n <= ROUNDS && Rounds(a, n) == Rounds(b, n)
    ensures a == b
  {
    hide Round;
    if n > 0 {
      RoundsAreStates(a, n - 1);
      RoundsAreStates(b, n - 1);
      RoundInjective(Rounds(a, n - 1), Rounds(b, n - 1), n - 1);
      RoundsInjective(a, b, n - 1);
    }
  }

  lemma {:induction false} RoundsSurjective(b: seq<int>, n: nat) returns (a: seq<int>)
    requires IsState(b) && n <= ROUNDS
    ensures IsState(a) && Rounds(a, n) == b
    decreases n
  {
    hide Round;
    a := b;
    if n > 0 {
      var c := RoundSurjective(b, n - 1);
      a := RoundsSurjective(c, n - 1);
    }
  }

  /** Keccak-f[1600] loses no state: two states with the same image are the same state. */
  lemma KeccakFInjective(a: seq<int>, b: seq<int>)
    requires IsState(a) && IsState(b) && KeccakF(a) == KeccakF(b)
    ensures a == b
  {
    RoundsInjective(a, b, ROUNDS);
  }

  /** Keccak-f[1600] reaches every state. */
  lemma KeccakFSurjective(b: seq<int>)
    requires IsState(b)
    ensures exists a :: IsState(a) && KeccakF(a) == b
  {
    var a := RoundsSurjective(b, ROUNDS);
    assert KeccakF(a) == b;
  }
}
