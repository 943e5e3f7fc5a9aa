/** The randomised Walsh-Hadamard rotation over the reals: the in-place butterfly
    loop is the recursive transform, and it preserves inner products. */
module Hadamard {
  import opened Wrappers

  // ------------------------------------------------------------------------
  // Vectors

  function Add(x: seq<real>, y: seq<real>): (r: seq<real>)
    requires |x| == |y|
    ensures |r| == |x|
  {
    seq(|x|, i requires 0 <= i < |x| => x[i] + y[i])
  }

  function Sub(x: seq<real>, y: seq<real>): (r: seq<real>)
    requires |x| == |y|
    ensures |r| == |x|
  {
    seq(|x|, i requires 0 <= i < |x| => x[i] - y[i])
  }

  /** Products are named so that proofs about where they stand need not multiply. */
  function Mul(a: real, b: real): real {
    a * b
  }

  function Scale(c: real, x: seq<real>): (r: seq<real>)
    ensures |r| == |x|
  {
    seq(|x|, i requires 0 <= i < |x| => Mul(c, x[i]))
  }

  function Dot(x: seq<real>, y: seq<real>): real
    requires |x| == |y|
  {
    if x == [] then 0.0 else Mul(x[0], y[0]) + Dot(x[1..], y[1..])
  }

  lemma {:induction false} DotAppend(a: seq<real>, b: seq<real>, c: seq<real>, d: seq<real>)
    requires |a| == |c| && |b| == |d|
    ensures Dot(a + b, c + d) == Dot(a, c) + Dot(b, d)
  {
    hide Mul;
    if a == [] {
      assert a + b == b && c + d == d;
    } else {
      assert (a + b)[1..] == a[1..] + b && (c + d)[1..] == c[1..] + d;
      DotAppend(a[1..], b, c[1..], d);
    }
  }

  /** One butterfly doubles the inner products of its two halves, together. */
  lemma {:induction false} DotButterfly(a: seq<real>, b: seq<real>, c: seq<real>, d: seq<real>)
    requires |a| == |b| == |c| == |d|
    ensures Dot(Add(a, b), Add(c, d)) + Dot(Sub(a, b), Sub(c, d)) == 2.0 * (Dot(a, c) + Dot(b, d))
  {
    hide Mul;
    if a != [] {
      assert Add(a, b)[1..] == Add(a[1..], b[1..]) && Add(c, d)[1..] == Add(c[1..], d[1..]);
      assert Sub(a, b)[1..] == Sub(a[1..], b[1..]) && Sub(c, d)[1..] == Sub(c[1..], d[1..]);
      DotButterfly(a[1..], b[1..], c[1..], d[1..]);
      ButterflyProduct(a[0], b[0], c[0], d[0]);
    }
  }

  lemma ButterflyProduct(a: real, b: real, c: real, d: real)
    ensures Mul(a + b, c + d) + Mul(a - b, c - d) == 2.0 * (Mul(a, c) + Mul(b, d))
  {
  }

  lemma {:induction false} DotScale(c: real, x: seq<real>, y: seq<real>)
    requires |x| == |y|
    ensures Dot(Scale(c, x), Scale(c, y)) == Mul(Mul(c, c), Dot(x, y))
  {
    hide Mul;
    if x == [] {
      assert Mul(Mul(c, c), 0.0) == 0.0 by { MulZero(Mul(c, c)); }
    } else {
      assert Scale(c, x)[1..] == Scale(c, x[1..]) && Scale(c, y)[1..] == Scale(c, y[1..]);
      DotScale(c, x[1..], y[1..]);
      ScaleProduct(c, x[0], y[0]);
      Distribute(Mul(c, c), Mul(x[0], y[0]), Dot(x[1..], y[1..]));
    }
  }

  lemma ScaleProduct(c: real, a: real, b: real)
    ensures Mul(Mul(c, a), Mul(c, b)) == Mul(Mul(c, c), Mul(a, b))
  {
  }

  lemma MulZero(c: real)
    ensures Mul(c, 0.0) == 0.0
  {
  }

  lemma Distribute(c: real, a: real, b: real)
    ensures Mul(c, a) + Mul(c, b) == Mul(c, a + b)
  {
  }

  // ------------------------------------------------------------------------
  // The recursive transform

  /** The sums and the differences of two halves. */
  function Butterfly(x: seq<real>, half: nat): (r: seq<real>)
    requires |x| == 2 * half
    ensures |r| == |x|
  {
    Add(x[..half], x[half..]) + Sub(x[..half], x[half..])
  }

  /** The Walsh-Hadamard transform of a vector of length `Pow2(k)`. */
  function Transform(x: seq<real>, k: nat): (r: seq<real>)
    requires |x| == Pow2(k)
    ensures |r| == |x|
    decreases k
  {
    if k == 0 then x
    else
      var half := Pow2(k - 1);
      Butterfly(Transform(x[..half], k - 1) + Transform(x[half..], k - 1), half)
  }

  /** The transform multiplies every inner product by the length. */
  lemma {:induction false} TransformScalesDot(x: seq<real>, y: seq<real>, k: nat)
    requires |x| == |y| == Pow2(k)
    ensures Dot(Transform(x, k), Transform(y, k)) == Mul(Pow2(k) as real, Dot(x, y))
    decreases k
  {
    hide Mul, Dot, Butterfly;
    if k == 0 {
      MulOne(Dot(x, y));
    } else {
      var half := Pow2(k - 1);
      TransformScalesDot(x[..half], y[..half], k - 1);
      TransformScalesDot(x[half..], y[half..], k - 1);
      var p, q := Dot(x[..half], y[..half]), Dot(x[half..], y[half..]);
      var u := Transform(x[..half], k - 1) + Transform(x[half..], k - 1);
      var v := Transform(y[..half], k - 1) + Transform(y[half..], k - 1);
      DotOfHalves(Transform(x[..half], k - 1), Transform(x[half..], k - 1),
                  Transform(y[..half], k - 1), Transform(y[half..], k - 1));
      ButterflyDoublesDot(u, v, half);
      DotAppend(x[..half], x[half..], y[..half], y[half..]);
      assert x == x[..half] + x[half..] && y == y[..half] + y[half..];
      Distribute(half as real, p, q);
      DoubleProduct(half, p + q);
    }
  }

  lemma MulOne(d: real)
    ensures Mul(1.0, d) == d
  {
  }

  lemma DoubleProduct(half: nat, d: real)
    ensures 2.0 * Mul(half as real, d) == Mul((2 * half) as real, d)
  {
    assert (2 * half) as real == 2.0 * half as real;
  }

  lemma DotOfHalves(a: seq<real>, b: seq<real>, c: seq<real>, d: seq<real>)
    requires |a| == |b| == |c| == |d|
    ensures Dot(a + b, c + d) == Dot(a, c) + Dot(b, d)
  {
    DotAppend(a, b, c, d);
  }

  lemma ButterflyDoublesDot(x: seq<real>, y: seq<real>, half: nat)
    requires |x| == |y| == 2 * half
    ensures Dot(Butterfly(x, half), Butterfly(y, half)) == 2.0 * Dot(x, y)
  {
    hide Dot;
    DotAppend(Add(x[..half], x[half..]), Sub(x[..half], x[half..]), Add(y[..half], y[half..]),
      Sub(y[..half], y[half..]));
    DotButterfly(x[..half], x[half..], y[..half], y[half..]);
    DotAppend(x[..half], x[half..], y[..half], y[half..]);
    assert x == x[..half] + x[half..] && y == y[..half] + y[half..];
  }

  // ------------------------------------------------------------------------
  // The in-place loop, level by level

  /** One level of the loop: the butterfly of every block of `2 * len`. */
  function Level(x: seq<real>, len: nat): (r: seq<real>)
    requires 0 < len
    ensures |r| == |x|
  {
    if |x| < 2 * len then x
    else Butterfly(x[..2 * len], len) + Level(x[2 * len..], len)
  }

  /** The transform of every block of `Pow2(k)`. */
  function Blocks(x: seq<real>, k: nat): (r: seq<real>)
    ensures |r| == |x|
  {
    if |x| < Pow2(k) then x
    else Transform(x[..Pow2(k)], k) + Blocks(x[Pow2(k)..], k)
  }

  /** `n` is a whole number of blocks of `size`. */
  predicate Divides(size: nat, n: nat)
    requires 0 < size
  {
    n == 0 || (size <= n && Divides(size, n - size))
  }

  lemma {:induction false} Pow2Divides(j: nat, k: nat)
    requires j <= k
    ensures Divides(Pow2(j), Pow2(k))
    decreases k
  {
    if j < k {
      Pow2Divides(j, k - 1);
      DividesSum(Pow2(j), Pow2(k - 1), Pow2(k - 1));
    }
  }

  lemma {:induction false} DividesSum(size: nat, a: nat, b: nat)
    requires 0 < size && Divides(size, a) && Divides(size, b)
    ensures Divides(size, a + b)
    decreases a
  {
    if a != 0 {
      DividesSum(size, a - size, b);
    }
  }

  /** A level turns transformed blocks into transformed blocks of twice the size. */
  lemma {:induction false} LevelOfBlocks(x: seq<real>, k: nat)
    requires Divides(Pow2(k + 1), |x|)
    ensures Level(Blocks(x, k), Pow2(k)) == Blocks(x, k + 1)
    decreases |x|
  {
    var len := Pow2(k);
    if x == [] {
      assert Level([], len) == [] && Blocks([], k) == [];
    } else {
      var rest := x[2 * len..];
      LevelOfBlocks(rest, k);
      assert Pow2(k + 1) == 2 * len;
      hide Transform, Butterfly, Blocks, Level, Divides, Pow2;
      var f := Transform(x[..len], k) + Transform(x[len..2 * len], k);
      TwoBlocks(x, k);
      LevelOfFirst(f, Blocks(rest, k), len);
      TransformOfTwo(x, k);
      FirstBlock(x, k + 1);
    }
  }

  lemma LevelOfFirst(a: seq<real>, b: seq<real>, len: nat)
    requires 0 < len && |a| == 2 * len
    ensures Level(a + b, len) == Butterfly(a, len) + Level(b, len)
  {
    hide Butterfly;
    assert (a + b)[..2 * len] == a && (a + b)[2 * len..] == b;
  }

  lemma TransformOfTwo(x: seq<real>, k: nat)
    requires 2 * Pow2(k) <= |x|
    ensures var len := Pow2(k);
      Transform(x[..2 * len], k + 1) == Butterfly(Transform(x[..len], k) + Transform(x[len..2 * len], k), len)
  {
    var len := Pow2(k);
    assert x[..2 * len][..len] == x[..len] && x[..2 * len][len..] == x[len..2 * len];
  }

  lemma TwoBlocks(x: seq<real>, k: nat)
    requires 2 * Pow2(k) <= |x|
    ensures Blocks(x, k) == Transform(x[..Pow2(k)], k) + Transform(x[Pow2(k)..2 * Pow2(k)], k)
      + Blocks(x[2 * Pow2(k)..], k)
  {
    hide Transform, Pow2, Blocks;
    var len := Pow2(k);
    FirstBlock(x, k);
    FirstBlock(x[len..], k);
    SecondBlock(x, len);
    ConcatAssoc(Transform(x[..len], k), Transform(x[len..2 * len], k), Blocks(x[2 * len..], k));
  }

  lemma SecondBlock(x: seq<real>, len: nat)
    requires 2 * len <= |x|
    ensures x[len..][..len] == x[len..2 * len] && x[len..][len..] == x[2 * len..]
  {
  }

  lemma FirstBlock(x: seq<real>, k: nat)
    requires Pow2(k) <= |x|
    ensures Blocks(x, k) == Transform(x[..Pow2(k)], k) + Blocks(x[Pow2(k)..], k)
  {
  }

  /** Levels compose block by block. */
  lemma {:induction false} LevelAppend(a: seq<real>, b: seq<real>, len: nat)
    requires 0 < len && Divides(2 * len, |a|)
    ensures Level(a + b, len) == Level(a, len) + Level(b, len)
    decreases |a|
  {
    if a == [] {
      assert a + b == b;
    } else {
      assert (a + b)[..2 * len] == a[..2 * len] && (a + b)[2 * len..] == a[2 * len..] + b;
      LevelAppend(a[2 * len..], b, len);
    }
  }

  lemma OneBlockLevel(x: seq<real>, len: nat)
    requires 0 < len && |x| == 2 * len
    ensures Level(x, len) == Butterfly(x, len)
  {
    assert x[..2 * len] == x && x[2 * len..] == [];
  }

  /** Single elements are their own transforms. */
  lemma {:induction false} BlocksOfOne(x: seq<real>)
    ensures Blocks(x, 0) == x
  {
    if x != [] {
      BlocksOfOne(x[1..]);
    }
  }

  lemma WholeBlock(x: seq<real>, k: nat)
    requires |x| == Pow2(k)
    ensures Blocks(x, k) == Transform(x, k)
  {
    assert x[..Pow2(k)] == x && x[Pow2(k)..] == [];
  }

  /** One level's effect on an inner product: it doubles. */
  lemma {:induction false} LevelDoublesDot(x: seq<real>, y: seq<real>, len: nat)
    requires 0 < len && |x| == |y| && Divides(2 * len, |x|)
    ensures Dot(Level(x, len), Level(y, len)) == 2.0 * Dot(x, y)
    decreases |x|
  {
    if x != [] {
      hide Dot, Butterfly;
      var a, b := x[..2 * len], y[..2 * len];
      LevelDoublesDot(x[2 * len..], y[2 * len..], len);
      DotAppend(Butterfly(a, len), Level(x[2 * len..], len), Butterfly(b, len), Level(y[2 * len..], len));
      ButterflyDoublesDot(a, b, len);
      DotAppend(a, x[2 * len..], b, y[2 * len..]);
      assert x == a + x[2 * len..] && y == b + y[2 * len..];
    } else {
      assert Level(x, len) == x && Level(y, len) == y;
    }
  }

  // ------------------------------------------------------------------------
  // The code

  /** One block of one level, in place. */
  method ButterflyInPlace(values: array<real>, i: nat, len: nat)
    requires i + 2 * len <= values.Length
    modifies values
    ensures values[i..i + 2 * len] == Butterfly(old(values[i..i + 2 * len]), len)
    ensures values[..i] == old(values[..i]) && values[i + 2 * len..] == old(values[i + 2 * len..])
  {
    hide *;
    ghost var was := values[..];
    NoneDone(was, i, len);
    for j := i to i + len
      invariant HalfDone(was, values[..], i, len, j)
    {
      ghost var now := values[..];
      var x, y := values[j], values[j + len];
      values[j] := x + y;
      values[j + len] := x - y;
      assert values[..] == now[j := x + y][j + len := x - y];
      OneMoreDone(was, now, i, len, j);
    }
    AllDone(was, values[..], i, len);
    ButterflyIs(was, values[..], i, len);
    assert values[i..i + 2 * len] == values[..][i..i + 2 * len];
    assert values[..i] == values[..][..i] && values[i + 2 * len..] == values[..][i + 2 * len..];
  }

  /** The butterflies of `i..j` are done, the rest is as it was. */
  ghost predicate HalfDone(was: seq<real>, now: seq<real>, i: nat, len: nat, j: nat)
    requires i <= j <= i + len && i + 2 * len <= |was|
  {
    && |now| == |was|
    && (forall m :: i <= m < j ==> now[m] == was[m] + was[m + len])
    && (forall m :: i + len <= m < j + len ==> now[m] == was[m - len] - was[m])
    && (forall m :: 0 <= m < i || j <= m < i + len || j + len <= m < |was| ==> now[m] == was[m])
  }

  lemma NoneDone(was: seq<real>, i: nat, len: nat)
    requires i + 2 * len <= |was|
    ensures HalfDone(was, was, i, len, i)
  {
  }

  lemma OneMoreDone(was: seq<real>, now: seq<real>, i: nat, len: nat, j: nat)
    requires i <= j < i + len && i + 2 * len <= |was| && HalfDone(was, now, i, len, j)
    ensures HalfDone(was, now[j := now[j] + now[j + len]][j + len := now[j] - now[j + len]], i, len, j + 1)
  {
  }

  lemma AllDone(was: seq<real>, now: seq<real>, i: nat, len: nat)
    requires i + 2 * len <= |was| && HalfDone(was, now, i, len, i + len)
    ensures |now| == |was|
    ensures forall m :: i <= m < i + len ==> now[m] == was[m] + was[m + len]
    ensures forall m :: i + len <= m < i + 2 * len ==> now[m] == was[m - len] - was[m]
    ensures forall m :: 0 <= m < i || i + 2 * len <= m < |was| ==> now[m] == was[m]
  {
  }

  lemma ButterflyIs(was: seq<real>, now: seq<real>, i: nat, len: nat)
    requires i + 2 * len <= |was| == |now|
    requires forall m :: i <= m < i + len ==> now[m] == was[m] + was[m + len]
    requires forall m :: i + len <= m < i + 2 * len ==> now[m] == was[m - len] - was[m]
    requires forall m :: 0 <= m < i || i + 2 * len <= m < |was| ==> now[m] == was[m]
    ensures now[i..i + 2 * len] == Butterfly(was[i..i + 2 * len], len)
    ensures now[..i] == was[..i] && now[i + 2 * len..] == was[i + 2 * len..]
  {
    var x, r := was[i..i + 2 * len], now[i..i + 2 * len];
    forall m | 0 <= m < 2 * len ensures r[m] == Butterfly(x, len)[m] {
      assert r[m] == now[i + m];
    }
  }

  /** One more block of a pass. */
  lemma LevelGrows(x: seq<real>, was: seq<real>, now: seq<real>, i: nat, len: nat)
    requires 0 < len && i + 2 * len <= |x| == |was| == |now| && Divides(2 * len, i)
    requires was[..i] == Level(x[..i], len) && was[i..] == x[i..]
    requires now[i..i + 2 * len] == Butterfly(was[i..i + 2 * len], len)
    requires now[..i] == was[..i] && now[i + 2 * len..] == was[i + 2 * len..]
    ensures now[..i + 2 * len] == Level(x[..i + 2 * len], len) && now[i + 2 * len..] == x[i + 2 * len..]
  {
    hide Butterfly, Level;
    var block := x[i..i + 2 * len];
    assert was[i..i + 2 * len] == block by { assert was[i..][..2 * len] == x[i..][..2 * len]; }
    assert was[i + 2 * len..] == x[i + 2 * len..] by { assert was[i..][2 * len..] == x[i..][2 * len..]; }
    LevelAppend(x[..i], block, len);
    OneBlockLevel(block, len);
    assert x[..i + 2 * len] == x[..i] + block;
    assert now[..i + 2 * len] == now[..i] + now[i..i + 2 * len];
  }

  /** One pass over the array at distance `len`. */
  method LevelInPlace(values: array<real>, len: nat)
    requires 0 < len && Divides(2 * len, values.Length)
    modifies values
    ensures values[..] == Level(old(values[..]), len)
  {
    hide Butterfly, Level;
    ghost var x := values[..];
    var i := 0;
    while i < values.Length
      invariant 0 <= i <= values.Length && Divides(2 * len, i) && Divides(2 * len, values.Length - i)
      invariant values[..i] == Level(x[..i], len)
      invariant values[i..] == x[i..]
      decreases values.Length - i
    {
      ghost var was := values[..];
      ButterflyInPlace(values, i, len);
      assert was[..i] == values[..i] && was[i..] == x[i..];
      LevelGrows(x, was, values[..], i, len);
      DividesSum(2 * len, i, 2 * len);
      i := i + 2 * len;
      assert values[..i] == values[..][..i] && values[i..] == values[..][i..];
    }
    assert x[..i] == x && values[..i] == values[..];
  }

  /** The unnormalised in-place transform of `2^k` values. */
  method TransformInPlace(values: array<real>, ghost k: nat)
    requires values.Length == Pow2(k)
    modifies values
    ensures values[..] == Transform(old(values[..]), k)
  {
    ghost var x := values[..];
    ghost var level := 0;
    var len := 1;
    BlocksOfOne(x);
    while len < values.Length
      invariant level <= k && len == Pow2(level)
      invariant values[..] == Blocks(x, level)
      decreases k - level
    {
      Pow2Grows(level, k);
      Pow2Divides(level + 1, k);
      LevelOfBlocks(x, level);
      LevelInPlace(values, len);
      len := len * 2;
      level := level + 1;
    }
    Pow2Grows(level, k);
    WholeBlock(x, k);
  }

  lemma {:induction false} Pow2Grows(j: nat, k: nat)
    requires j <= k
    ensures Pow2(j) <= Pow2(k) && (Pow2(j) < Pow2(k) <==> j < k)
    decreases k
  {
    if j < k {
      Pow2Grows(j, k - 1);
    }
  }

  /** The in-place transform of `2^k` values, normalised by `norm`. */
  method FwhtInPlace(values: array<real>, ghost k: nat, norm: real)
    requires values.Length == Pow2(k)
    modifies values
    ensures values[..] == Scale(norm, Transform(old(values[..]), k))
  {
    TransformInPlace(values, k);
    hide Transform;
    ghost var x := values[..];
    for i := 0 to values.Length
      invariant forall m :: 0 <= m < values.Length ==> values[m] == if m < i then Mul(norm, x[m]) else x[m]
    {
      values[i] := Mul(norm, values[i]);
    }
  }

  const DIM := 1024
  const LOG_DIM := 10

  /** `1 / sqrt(1024)`. */
  const NORM: real := 1.0 / 32.0

  lemma DimIsPow2()
    ensures Pow2(LOG_DIM) == DIM
    ensures Mul(Mul(NORM, NORM), Pow2(LOG_DIM) as real) == 1.0
  {
    assert Pow2(5) == 32;
    assert Pow2(10) == 1024;
  }

  const ROTATION_SEED: bv64 := 0x54_51_56_65_63_45_5f_31

  function MixLeft(state: bv64, n: nat): bv64
    requires n < 64
  {
    state ^ (state << n)
  }

  function MixRight(state: bv64, n: nat): bv64
    requires n < 64
  {
    state ^ (state >> n)
  }

  /** One step of xorshift64. */
  function NextState(state: bv64): bv64 {
    MixLeft(MixRight(MixLeft(state, 13), 7), 17)
  }

  function StateAfter(n: nat): bv64 {
    if n == 0 then ROTATION_SEED else NextState(StateAfter(n - 1))
  }

  function SignAt(i: nat): real {
    if StateAfter(i + 1) & 1 == 0 then 1.0 else -1.0
  }

  /** The fixed sign vector, the same for every vector rotated. */
  function FixedSigns(): (signs: seq<real>)
    ensures |signs| == DIM && Signs(signs)
  {
    seq(DIM, i requires 0 <= i < DIM => SignAt(i))
  }

  /** The generator never gets stuck at zero, where every sign would be the same. */
  lemma {:induction false} NeverZero(n: nat)
    ensures StateAfter(n) != 0
  {
    if n > 0 {
      NeverZero(n - 1);
      StepKeepsNonZero(StateAfter(n - 1));
    }
  }

  lemma StepKeepsNonZero(x: bv64)
    requires x != 0
    ensures NextState(x) != 0
  {
    hide MixLeft, MixRight;
    Mix13(x);
    Mix7(MixLeft(x, 13));
    Mix17(MixRight(MixLeft(x, 13), 7));
  }

  lemma Mix13(x: bv64)
    requires x != 0
    ensures MixLeft(x, 13) != 0
  {
  }

  lemma Mix7(x: bv64)
    requires x != 0
    ensures MixRight(x, 7) != 0
  {
  }

  lemma Mix17(x: bv64)
    requires x != 0
    ensures MixLeft(x, 17) != 0
  {
  }

  /** The first states and signs of xorshift64 from that seed. */
  lemma FirstSigns()
    ensures StateAfter(1) == 0xfd93679da0ac39cf && StateAfter(2) == 0xb41c7d9ad322f27c
    ensures StateAfter(3) == 0xc8ba995e2147a898 && StateAfter(4) == 0x653e0c343a6e01c9
    ensures [SignAt(0), SignAt(1), SignAt(2), SignAt(3)] == [-1.0, 1.0, 1.0, -1.0]
  {
    assert StateAfter(0) == ROTATION_SEED;
    assert StateAfter(1) == NextState(StateAfter(0));
    assert StateAfter(2) == NextState(StateAfter(1));
    assert StateAfter(3) == NextState(StateAfter(2));
    assert StateAfter(4) == NextState(StateAfter(3));
  }

  method RotationSigns() returns (signs: seq<real>)
    ensures signs == FixedSigns()
  {
    hide MixLeft, MixRight;
    var state := ROTATION_SEED;
    signs := [];
    for i := 0 to DIM
      invariant state == StateAfter(i)
      invariant |signs| == i && forall j :: 0 <= j < i ==> signs[j] == SignAt(j)
    {
      state := MixLeft(state, 13);
      state := MixRight(state, 7);
      state := MixLeft(state, 17);
      signs := signs + [if state & 1 == 0 then 1.0 else -1.0];
    }
  }

  function Flip(x: seq<real>, signs: seq<real>): (r: seq<real>)
    requires |x| == |signs|
    ensures |r| == |x|
  {
    seq(|x|, i requires 0 <= i < |x| => Mul(x[i], signs[i]))
  }

  ghost predicate Signs(signs: seq<real>) {
    forall i :: 0 <= i < |signs| ==> signs[i] == 1.0 || signs[i] == -1.0
  }

  lemma {:induction false} FlipKeepsDot(x: seq<real>, y: seq<real>, signs: seq<real>)
    requires |x| == |y| == |signs| && Signs(signs)
    ensures Dot(Flip(x, signs), Flip(y, signs)) == Dot(x, y)
  {
    hide Mul;
    if x != [] {
      assert Flip(x, signs)[1..] == Flip(x[1..], signs[1..]) && Flip(y, signs)[1..] == Flip(y[1..], signs[1..]);
      FlipKeepsDot(x[1..], y[1..], signs[1..]);
      var s := signs[0];
      FlipProduct(x[0], y[0], s);
    }
  }

  lemma FlipProduct(a: real, b: real, s: real)
    requires s == 1.0 || s == -1.0
    ensures Mul(Mul(a, s), Mul(b, s)) == Mul(a, b)
  {
  }

  /** Sign flips, transform, normalisation. */
  ghost function Rotated(x: seq<real>, signs: seq<real>, k: nat, norm: real): (r: seq<real>)
    requires |x| == |signs| == Pow2(k)
    ensures |r| == |x|
  {
    Scale(norm, Transform(Flip(x, signs), k))
  }

  /** The rotation of a vector of `DIM` values, in a fresh array. */
  method Rotate(values: seq<real>) returns (rotated: array<real>)
    requires |values| == DIM
    ensures |values| == Pow2(LOG_DIM) && rotated[..] == Rotated(values, FixedSigns(), LOG_DIM, NORM)
  {
    DimIsPow2();
    hide Pow2, Transform, FixedSigns;
    var signs := RotationSigns();
    rotated := new real[DIM](i requires 0 <= i < DIM => Mul(values[i], signs[i]));
    assert rotated[..] == Flip(values, signs);
    FwhtInPlace(rotated, LOG_DIM, NORM);
  }

  /** For any length `2^k` and the matching normaliser the rotation preserves
      inner products exactly. */
  lemma RotatedKeepsDot(x: seq<real>, y: seq<real>, signs: seq<real>, k: nat, norm: real)
    requires |x| == |y| == |signs| == Pow2(k) && Signs(signs) && Mul(Mul(norm, norm), Pow2(k) as real) == 1.0
    ensures Dot(Rotated(x, signs, k, norm), Rotated(y, signs, k, norm)) == Dot(x, y)
  {
    hide Dot, Transform, Pow2, Mul;
    var a, b := Flip(x, signs), Flip(y, signs);
    DotScale(norm, Transform(a, k), Transform(b, k));
    TransformScalesDot(a, b, k);
    FlipKeepsDot(x, y, signs);
    Associate(Mul(norm, norm), Pow2(k) as real, Dot(a, b));
    MulOne(Dot(a, b));
  }

  lemma Associate(a: real, b: real, c: real)
    ensures Mul(a, Mul(b, c)) == Mul(Mul(a, b), c)
  {
  }

  /** Main result: scoring rotated vectors is scoring the vectors. */
  lemma RotationPreservesDot(x: seq<real>, y: seq<real>, signs: seq<real>)
    requires |x| == |y| == |signs| == DIM && Signs(signs)
    ensures |x| == Pow2(LOG_DIM)
    ensures Dot(Rotated(x, signs, LOG_DIM, NORM), Rotated(y, signs, LOG_DIM, NORM)) == Dot(x, y)
  {
    DimIsPow2();
    hide Dot, Rotated, Pow2, Mul;
    RotatedKeepsDot(x, y, signs, LOG_DIM, NORM);
  }
}
