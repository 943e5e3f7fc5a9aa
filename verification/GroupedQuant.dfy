/** Grouped symmetric quantisation over the reals: 32 groups of 32 values, one
    scale per group, codes packed to a fixed width. */
module GroupedQuant {
  import opened Wrappers
  import opened BitPacking

  const DIM := 1024
  const GROUP_SIZE := 32

  function Abs(x: real): real {
    if x < 0.0 then -x else x
  }

  /** Rounds to the nearest integer, halves away from zero. */
  function Round(x: real): int {
    if x >= 0.0 then (x + 0.5).Floor else -((-x + 0.5).Floor)
  }

  function Clamp(n: int, low: int, high: int): (r: int)
    requires low <= high
    ensures low <= r <= high
  {
    if n < low then low else if high < n then high else n
  }

  /** The largest magnitude a code of `bits` bits can stand for. */
  function MaxLevel(bits: nat): (n: nat)
    requires 1 <= bits
  {
    Pow2(bits - 1) - 1
  }

  function MaxAbs(group: seq<real>): (m: real)
    ensures 0.0 <= m
    ensures forall i :: 0 <= i < |group| ==> Abs(group[i]) <= m
  {
    if group == [] then 0.0
    else
      var m := MaxAbs(group[..|group| - 1]);
      var a := Abs(group[|group| - 1]);
      if a > m then a else m
  }

  /** The step between two levels of a group. At width 1 the largest level is
      zero, and a magnitude divided by it is infinite. */
  datatype Scale = Finite(step: real) | Infinite

  function GroupScale(group: seq<real>, level: nat): (s: Scale)
    ensures s.Finite? ==> 0.0 < s.step
    ensures s.Infinite? <==> level == 0 && MaxAbs(group) != 0.0
  {
    var m := MaxAbs(group);
    if m == 0.0 then Finite(1.0)
    else if level == 0 then Infinite
    else
      DivideBack(m, level as real);
      Finite(Divided(m, level as real))
  }

  /** A finite step times the largest level reaches every value of the group. */
  lemma ScaleCovers(group: seq<real>, level: nat, i: nat)
    requires i < |group| && GroupScale(group, level).Finite?
    ensures Abs(group[i]) <= GroupScale(group, level).step * level as real
  {
    hide Divided;
    var m := MaxAbs(group);
    assert Abs(group[i]) <= m;
    if m != 0.0 {
      DivideBack(m, level as real);
    }
  }

  function Divided(a: real, b: real): real
    requires b != 0.0
  {
    a / b
  }

  function Times(n: real, step: real): real {
    step * n
  }

  lemma DivideBack(m: real, level: real)
    requires 0.0 < m && 0.0 < level
    ensures 0.0 < Divided(m, level) && Divided(m, level) * level == m
  {
  }

  /** A number divided by infinity is zero. */
  function InSteps(v: real, scale: Scale): real
    requires scale.Finite? ==> 0.0 < scale.step
  {
    match scale
    case Finite(step) => Divided(v, step)
    case Infinite => 0.0
  }

  /** The unsigned code of one value. */
  function CodeOf(v: real, scale: Scale, level: nat): nat
    requires scale.Finite? ==> 0.0 < scale.step
  {
    var code := Clamp(Round(InSteps(v, scale)), 0 - level, level);
    code + level
  }

  /** The value a code stands for; a multiple of infinity is no real number. */
  function ValueOf(code: int, scale: Scale, level: int): Option<real> {
    match scale
    case Finite(step) => Some(Times((code - level) as real, step))
    case Infinite => None
  }

  lemma RoundIsNear(x: real)
    ensures Abs(Round(x) as real - x) <= 0.5
  {
  }

  /** A number halfway between two integers goes to the one further from zero. */
  lemma HalvesGoOut(n: int)
    ensures n >= 0 ==> Round(n as real + 0.5) == n + 1
    ensures n < 0 ==> Round(n as real + 0.5) == n
  {
  }

  lemma RoundStays(x: real, level: nat)
    requires Abs(x) <= level as real
    ensures 0 - level <= Round(x) <= level
  {
  }

  lemma QuotientBound(v: real, scale: real, level: real)
    requires 0.0 < scale && Abs(v) <= scale * level
    ensures Abs(Divided(v, scale)) <= level
  {
    var q := Divided(v, scale);
    assert q * scale == v;
    if level < q {
      Product(q - level, scale);
    } else if q < -level {
      Product(-level - q, scale);
    }
  }

  lemma Product(a: real, b: real)
    requires 0.0 < a && 0.0 < b
    ensures 0.0 < a * b
  {
  }

  /** A value inside its group's range is coded without clipping, in range, and
      decoded within half a step. */
  lemma CodeIsNear(v: real, step: real, level: nat)
    requires 0.0 < step && Abs(v) <= step * level as real
    ensures CodeOf(v, Finite(step), level) <= 2 * level
    ensures var back := ValueOf(CodeOf(v, Finite(step), level), Finite(step), level);
      back.Some? && Abs(back.value - v) <= step / 2.0
  {
    var x := Divided(v, step);
    QuotientBound(v, step, level as real);
    RoundStays(x, level);
    hide Divided, Round, Abs, Times;
    assert CodeOf(v, Finite(step), level) == Round(x) + level;
    RoundedIsNear(v, step, Round(x));
  }

  lemma RoundedIsNear(v: real, step: real, r: int)
    requires 0.0 < step && r == Round(Divided(v, step))
    ensures Abs(Times(r as real, step) - v) <= step / 2.0
  {
    var x := Divided(v, step);
    RoundIsNear(x);
    QuotientTimes(v, step);
    hide Times, Divided;
    NearTimes(r as real, x, step, v);
  }

  lemma NearTimes(a: real, b: real, step: real, v: real)
    requires 0.0 < step && -0.5 <= a - b <= 0.5 && Times(b, step) == v
    ensures -(step / 2.0) <= Times(a, step) - v <= step / 2.0
  {
    hide Times;
    HalfStep(a - b, step);
    Spread(a, b, step);
  }

  lemma QuotientTimes(v: real, step: real)
    requires step != 0.0
    ensures Times(Divided(v, step), step) == v
  {
  }

  lemma Spread(a: real, b: real, c: real)
    ensures Times(a - b, c) == Times(a, c) - Times(b, c)
  {
    Distribute(a - b, b, c);
    hide Times;
    assert (a - b) + b == a;
  }

  lemma Distribute(a: real, b: real, c: real)
    ensures Times(a + b, c) == Times(a, c) + Times(b, c)
  {
  }

  lemma HalfStep(e: real, step: real)
    requires 0.0 < step && -0.5 <= e <= 0.5
    ensures -(step / 2.0) <= Times(e, step) <= step / 2.0
  {
    assert Times(0.5, step) == step / 2.0 && Times(-0.5, step) == -(step / 2.0);
    Monotone(e, 0.5, step);
    Monotone(-0.5, e, step);
  }

  lemma Monotone(a: real, b: real, step: real)
    requires 0.0 < step && a <= b
    ensures Times(a, step) <= Times(b, step)
  {
    Spread(b, a, step);
    if a < b {
      Product(step, b - a);
    }
  }

  lemma CodesFit(level: nat, bits: nat)
    requires 1 <= bits && level == MaxLevel(bits)
    ensures 2 * level < Pow2(bits)
  {
  }

  // ------------------------------------------------------------------------
  // The code

  datatype Quantized = Quantized(packed: seq<nat>, groupScales: seq<Scale>, bits: nat)

  /** Where value `i`'s group starts. */
  function GroupStart(i: nat): nat {
    i / GROUP_SIZE * GROUP_SIZE
  }

  function GroupOf(values: seq<real>, i: nat): seq<real>
    requires |values| == DIM && i < DIM
  {
    values[GroupStart(i)..GroupStart(i) + GROUP_SIZE]
  }

  ghost function ScaleAt(values: seq<real>, i: nat, level: nat): (s: Scale)
    requires |values| == DIM && i < DIM
    ensures s.Finite? ==> 0.0 < s.step
  {
    GroupScale(GroupOf(values, i), level)
  }

  ghost function CodeAt(values: seq<real>, i: nat, level: nat): nat
    requires |values| == DIM && i < DIM
  {
    CodeOf(values[i], ScaleAt(values, i, level), level)
  }

  /** What decoding gives back for value `i`. */
  ghost function BackAt(values: seq<real>, i: nat, level: nat): Option<real>
    requires |values| == DIM && i < DIM
  {
    ValueOf(CodeAt(values, i, level), ScaleAt(values, i, level), level)
  }

  ghost function CodesOf(values: seq<real>, level: nat): seq<nat>
    requires |values| == DIM
  {
    seq(DIM, i requires 0 <= i < DIM => CodeAt(values, i, level))
  }

  ghost predicate CodedUpTo(codes: seq<nat>, values: seq<real>, level: nat, n: nat)
    requires |values| == DIM
  {
    |codes| == n <= DIM && forall i :: 0 <= i < n ==> codes[i] == CodeAt(values, i, level)
  }

  /** Quantises group by group and packs the codes. The codes fit their width. */
  method Encode(values: seq<real>, bits: nat) returns (q: Quantized, ghost padding: seq<bool>)
    requires |values| == DIM && 1 <= bits <= 8
    ensures q.bits == bits
    ensures Codes(CodesOf(values, MaxLevel(bits)), bits)
    ensures Bytes(q.packed) && IsPacked(CodesOf(values, MaxLevel(bits)), bits, q.packed, padding)
    ensures ScalesAre(q.groupScales, values, MaxLevel(bits), DIM / GROUP_SIZE)
  {
    hide Pow2, CodeAt, ScaleAt, IsPacked;
    var level := MaxLevel(bits);
    CodesInRange(values, bits);
    var codes: seq<nat> := [];
    var scales: seq<Scale> := [];
    for g := 0 to DIM / GROUP_SIZE
      invariant CodedUpTo(codes, values, level, g * GROUP_SIZE)
      invariant ScalesAre(scales, values, level, g)
    {
      var scale;
      codes, scale := EncodeGroup(values, level, g, codes);
      scales := scales + [scale];
    }
    assert codes == CodesOf(values, level);
    var packed := PackBits(codes, bits);
    padding :| |padding| < 8 && true !in padding && IsPacked(codes, bits, packed, padding);
    q := Quantized(packed, scales, bits);
  }

  ghost predicate ScalesAre(scales: seq<Scale>, values: seq<real>, level: nat, n: nat)
    requires |values| == DIM
  {
    |scales| == n <= DIM / GROUP_SIZE && forall g :: 0 <= g < n ==> scales[g] == ScaleAt(values, g * GROUP_SIZE, level)
  }

  method EncodeGroup(values: seq<real>, level: nat, g: nat, before: seq<nat>) returns (codes: seq<nat>, scale: Scale)
    requires |values| == DIM && g < DIM / GROUP_SIZE
    requires CodedUpTo(before, values, level, g * GROUP_SIZE)
    ensures CodedUpTo(codes, values, level, (g + 1) * GROUP_SIZE)
    ensures scale == ScaleAt(values, g * GROUP_SIZE, level)
  {
    hide GroupScale, CodeOf, CodedUpTo;
    var start := g * GROUP_SIZE;
    var group := values[start..start + GROUP_SIZE];
    scale := GroupScale(group, level);
    codes := before;
    for k := 0 to GROUP_SIZE
      invariant CodedUpTo(codes, values, level, start + k)
    {
      assert GroupStart(start + k) == start;
      NextCoded(codes, values, level, start + k);
      codes := codes + [CodeOf(group[k], scale, level)];
    }
  }

  lemma NextCoded(codes: seq<nat>, values: seq<real>, level: nat, n: nat)
    requires |values| == DIM && n < DIM && CodedUpTo(codes, values, level, n)
    ensures CodedUpTo(codes + [CodeAt(values, n, level)], values, level, n + 1)
  {
    hide CodeAt;
  }

  lemma CodesInRange(values: seq<real>, bits: nat)
    requires |values| == DIM && 1 <= bits
    ensures Codes(CodesOf(values, MaxLevel(bits)), bits)
  {
    var level := MaxLevel(bits);
    CodesFit(level, bits);
    forall i | 0 <= i < DIM ensures CodesOf(values, level)[i] < Pow2(bits) {
      CodeNearAt(values, i, level);
    }
  }

  lemma CodeNearAt(values: seq<real>, i: nat, level: nat)
    requires |values| == DIM && i < DIM
    ensures CodeAt(values, i, level) <= 2 * level
    ensures Near(BackAt(values, i, level), values, i, level)
  {
    assert GroupOf(values, i)[i - GroupStart(i)] == values[i];
    if ScaleAt(values, i, level).Finite? {
      ScaleCovers(GroupOf(values, i), level, i - GroupStart(i));
      CodeIsNear(values[i], ScaleAt(values, i, level).step, level);
    }
  }

  /** Within half the scale of value `i`'s group, if that scale is finite. */
  ghost predicate Near(x: Option<real>, values: seq<real>, i: nat, level: nat)
    requires |values| == DIM && i < DIM
  {
    match ScaleAt(values, i, level)
    case Finite(step) => x.Some? && Abs(x.value - values[i]) <= step / 2.0
    case Infinite => x.None?
  }

  ghost predicate BackUpTo(out: seq<Option<real>>, values: seq<real>, level: nat, n: nat)
    requires |values| == DIM
  {
    |out| == n <= DIM && forall i :: 0 <= i < n ==> out[i] == BackAt(values, i, level)
  }

  /** Dequantises back to `DIM` values, each from its own code and its group's scale. */
  method Decode(q: Quantized, ghost values: seq<real>, ghost padding: seq<bool>) returns (out: seq<Option<real>>)
    requires |values| == DIM && 1 <= q.bits <= 8 && Bytes(q.packed)
    requires ScalesAre(q.groupScales, values, MaxLevel(q.bits), DIM / GROUP_SIZE)
    requires IsPacked(CodesOf(values, MaxLevel(q.bits)), q.bits, q.packed, padding)
    ensures BackUpTo(out, values, MaxLevel(q.bits), DIM)
    ensures forall i :: 0 <= i < DIM ==> Near(out[i], values, i, MaxLevel(q.bits))
  {
    hide Pow2, CodeAt, ScaleAt, IsPacked, Near;
    var level := MaxLevel(q.bits);
    CodesInRange(values, q.bits);
    var codes := UnpackBits(q.packed, q.bits, DIM, CodesOf(values, level), padding);
    out := [];
    for g := 0 to DIM / GROUP_SIZE
      invariant BackUpTo(out, values, level, g * GROUP_SIZE)
    {
      assert q.groupScales[g] == ScaleAt(values, g * GROUP_SIZE, level);
      out := DecodeGroup(codes, level, g, q.groupScales[g], out, values);
    }
    forall i | 0 <= i < DIM ensures Near(out[i], values, i, level) {
      CodeNearAt(values, i, level);
    }
  }

  method DecodeGroup(codes: seq<nat>, level: nat, g: nat, scale: Scale, before: seq<Option<real>>,
                     ghost values: seq<real>)
      returns (out: seq<Option<real>>)
    requires |values| == DIM && g < DIM / GROUP_SIZE
    requires codes == CodesOf(values, level) && scale == ScaleAt(values, g * GROUP_SIZE, level)
    requires BackUpTo(before, values, level, g * GROUP_SIZE)
    ensures BackUpTo(out, values, level, (g + 1) * GROUP_SIZE)
  {
    hide CodeAt, GroupScale, ValueOf;
    var start := g * GROUP_SIZE;
    out := before;
    for k := 0 to GROUP_SIZE
      invariant BackUpTo(out, values, level, start + k)
    {
      assert GroupStart(start + k) == start == GroupStart(start);
      out := out + [ValueOf(codes[start + k], scale, level)];
    }
  }

  /** `m` is the largest magnitude among the values of value `i`'s group. */
  ghost predicate IsPeak(values: seq<real>, i: nat, m: real)
    requires |values| == DIM && i < DIM
  {
    && (forall k :: 0 <= k < DIM && k / 32 == i / 32 ==> -m <= values[k] <= m)
    && exists k :: 0 <= k < DIM && k / 32 == i / 32 && (values[k] == m || values[k] == -m)
  }

  /** `x` is `v` to within half of what the peak makes of one of `2^(bits - 1) - 1` levels. */
  ghost predicate WithinHalfALevel(x: real, v: real, m: real, bits: nat)
    requires 1 <= bits
  {
    -m <= 2.0 * ((Pow2(bits - 1) - 1) as real * (x - v)) <= m
  }

  /** What must come back for value `i`: itself to within half a level of its
      group's peak, and exactly if it is at the peak. At width 1 only zero comes back. */
  ghost predicate ComesBack(x: Option<real>, values: seq<real>, i: nat, bits: nat)
    requires |values| == DIM && i < DIM && 1 <= bits
  {
    forall m | IsPeak(values, i, m) ::
      if bits == 1 then x == if m == 0.0 then Some(0.0) else None
      else
        && x.Some? && WithinHalfALevel(x.value, values[i], m, bits)
        && (values[i] == m || values[i] == -m ==> x.value == values[i])
  }

  /** Main result: encoding and decoding moves no value by more than half of what
      its group's largest magnitude makes of one level, and a value of that magnitude
      not at all. From width 2 on every value comes back; at width 1 only the groups
      of zeros do, and everything else is lost. */
  method EncodeThenDecode(values: seq<real>, bits: nat) returns (out: seq<Option<real>>)
    requires |values| == DIM && 1 <= bits <= 8
    ensures |out| == DIM
    ensures forall i :: 0 <= i < DIM ==> ComesBack(out[i], values, i, bits) && exists m :: IsPeak(values, i, m)
    ensures forall i :: 0 <= i < DIM ==> Near(out[i], values, i, MaxLevel(bits))
    ensures bits != 1 ==> forall i :: 0 <= i < DIM ==> ScaleAt(values, i, MaxLevel(bits)).Finite?
    ensures bits == 1 ==> forall i :: 0 <= i < DIM ==> out[i] == if AllZero(GroupOf(values, i)) then Some(0.0) else None
  {
    hide Pow2, CodeAt, ScaleAt, IsPacked, Near, MaxLevel, ComesBack, IsPeak, BackAt, AllZero, GroupOf;
    var q, padding := Encode(values, bits);
    out := Decode(q, values, padding);
    forall i | 0 <= i < DIM
      ensures bits == 1 ==> out[i] == if AllZero(GroupOf(values, i)) then Some(0.0) else None
      ensures bits != 1 ==> ScaleAt(values, i, MaxLevel(bits)).Finite?
      ensures ComesBack(out[i], values, i, bits) && exists m :: IsPeak(values, i, m)
    {
      BackAtWidth(values, i, bits);
      AllComesBack(values, i, bits);
      assert IsPeak(values, i, MaxAbs(GroupOf(values, i))) by {
        MaxAbsIsPeak(values, i);
      }
    }
  }

  /** The largest magnitude is some value's. */
  lemma {:induction false} MaxAbsIsTaken(group: seq<real>)
    requires group != []
    ensures exists i :: 0 <= i < |group| && Abs(group[i]) == MaxAbs(group)
  {
    var front, last := group[..|group| - 1], group[|group| - 1];
    if front == [] {
      assert Abs(group[0]) == MaxAbs(group);
    } else {
      MaxAbsIsTaken(front);
      var i :| 0 <= i < |front| && Abs(front[i]) == MaxAbs(front);
      assert group[i] == front[i] && group[|group| - 1] == last;
    }
  }

  /** Value `k` of `i`'s group, where it stands. */
  lemma GroupHas(values: seq<real>, i: nat, k: nat)
    requires |values| == DIM && i < DIM && k < DIM && k / 32 == i / 32
    ensures GroupStart(i) <= k < GroupStart(i) + GROUP_SIZE && GroupOf(values, i)[k - GroupStart(i)] == values[k]
  {
  }

  lemma MaxAbsIsPeak(values: seq<real>, i: nat)
    requires |values| == DIM && i < DIM
    ensures IsPeak(values, i, MaxAbs(GroupOf(values, i)))
  {
    var group := GroupOf(values, i);
    forall k | 0 <= k < DIM && k / 32 == i / 32 ensures -MaxAbs(group) <= values[k] <= MaxAbs(group) {
      GroupHas(values, i, k);
      assert Abs(group[k - GroupStart(i)]) <= MaxAbs(group);
    }
    MaxAbsIsTaken(group);
    var j :| 0 <= j < |group| && Abs(group[j]) == MaxAbs(group);
    var k := GroupStart(i) + j;
    assert k / 32 == i / 32 && group[j] == values[k];
  }

  lemma PeakIsMaxAbs(values: seq<real>, i: nat, m: real)
    requires |values| == DIM && i < DIM && IsPeak(values, i, m)
    ensures m == MaxAbs(GroupOf(values, i))
  {
    MaxAbsIsPeak(values, i);
    hide MaxAbs, GroupOf;
  }

  lemma AllComesBack(values: seq<real>, i: nat, bits: nat)
    requires |values| == DIM && i < DIM && 1 <= bits
    ensures ComesBack(BackAt(values, i, MaxLevel(bits)), values, i, bits)
  {
    forall m | IsPeak(values, i, m)
      ensures var x := BackAt(values, i, MaxLevel(bits));
        if bits == 1 then x == if m == 0.0 then Some(0.0) else None
        else
          && x.Some? && WithinHalfALevel(x.value, values[i], m, bits)
          && (values[i] == m || values[i] == -m ==> x.value == values[i])
    {
      hide BackAt, IsPeak, MaxAbs, GroupOf;
      PeakIsMaxAbs(values, i, m);
      BackAtWidth(values, i, bits);
      MaxAbsIsZero(GroupOf(values, i));
      if bits != 1 {
        OneComesBack(values, i, bits, m);
      }
    }
  }

  lemma OneComesBack(values: seq<real>, i: nat, bits: nat, m: real)
    requires |values| == DIM && i < DIM && 1 < bits && m == MaxAbs(GroupOf(values, i)) && IsPeak(values, i, m)
    ensures var x := BackAt(values, i, MaxLevel(bits));
      && x.Some? && WithinHalfALevel(x.value, values[i], m, bits)
      && (values[i] == m || values[i] == -m ==> x.value == values[i])
  {
    hide MaxAbs, GroupOf, IsPeak, ValueOf, CodeOf, WithinHalfALevel, MaxLevel;
    LevelAtWidth(bits);
    MemberOfGroup(values, i, m);
    ScalarComesBack(values[i], m, bits);
  }

  lemma LevelAtWidth(bits: nat)
    requires 1 < bits
    ensures MaxLevel(bits) == Pow2(bits - 1) - 1 > 0
  {
    Pow2Monotone(1, bits - 1);
    assert Pow2(1) == 2;
  }

  lemma MemberOfGroup(values: seq<real>, i: nat, m: real)
    requires |values| == DIM && i < DIM && IsPeak(values, i, m)
    ensures -m <= values[i] <= m
  {
  }

  function StepOf(m: real, level: nat): (step: real)
    requires 0.0 <= m && 0 < level
    ensures 0.0 < step && (m != 0.0 ==> step * level as real == m)
  {
    if m == 0.0 then 1.0
    else
      DivideBack(m, level as real);
      Divided(m, level as real)
  }

  lemma ScalarComesBack(v: real, m: real, bits: nat)
    requires 1 < bits && 0 < MaxLevel(bits) && -m <= v <= m
    ensures var level := MaxLevel(bits); var scale := Finite(StepOf(m, level));
      var x := ValueOf(CodeOf(v, scale, level), scale, level);
      x.Some? && WithinHalfALevel(x.value, v, m, bits) && (v == m || v == -m ==> x.value == v)
  {
    hide Times, Divided, Round, CodeOf, MaxLevel, WithinHalfALevel;
    var level := MaxLevel(bits);
    var step := StepOf(m, level);
    if m == 0.0 {
      ZeroComesBack(step, level, bits);
    } else {
      InReach(v, m, step, level);
      CodeIsNear(v, step, level);
      PeakComesBack(v, step, level, m);
      NearIsWithin(ValueOf(CodeOf(v, Finite(step), level), Finite(step), level).value, v, step, m, bits);
    }
  }

  lemma ZeroComesBack(step: real, level: nat, bits: nat)
    requires 0.0 < step && 1 <= bits
    ensures ValueOf(CodeOf(0.0, Finite(step), level), Finite(step), level) == Some(0.0)
    ensures WithinHalfALevel(0.0, 0.0, 0.0, bits)
  {
    TimesZero(step);
    WholeStepsComeBack(0, step, level, 0.0);
  }

  lemma NearIsWithin(x: real, v: real, step: real, m: real, bits: nat)
    requires 1 < bits && 0.0 < step && step * MaxLevel(bits) as real == m && Abs(x - v) <= step / 2.0
    ensures WithinHalfALevel(x, v, m, bits)
  {
    hide MaxLevel, Pow2;
    LevelAtWidth(bits);
    HalfALevel(x - v, step, MaxLevel(bits), m);
  }

  lemma InReach(v: real, m: real, step: real, level: nat)
    requires -m <= v <= m && step * level as real == m
    ensures Abs(v) <= step * level as real
  {
  }

  lemma TimesZero(step: real)
    ensures Times(0.0, step) == 0.0
  {
  }

  /** A whole number of steps is coded as itself. */
  lemma WholeStepsComeBack(n: int, step: real, level: nat, v: real)
    requires 0.0 < step && 0 - level <= n <= level && v == Times(n as real, step)
    ensures ValueOf(CodeOf(v, Finite(step), level), Finite(step), level) == Some(v)
  {
    assert Divided(v, step) == n as real by {
      DividedTimes(n as real, step);
    }
    hide Divided, Times;
    assert Round(n as real) == n;
  }

  lemma DividedTimes(x: real, step: real)
    requires 0.0 < step
    ensures Divided(Times(x, step), step) == x
  {
  }

  lemma PeakComesBack(v: real, step: real, level: nat, m: real)
    requires 0.0 < step && step * level as real == m
    ensures v == m || v == -m ==> ValueOf(CodeOf(v, Finite(step), level), Finite(step), level) == Some(v)
  {
    hide Divided, Round, CodeOf;
    if v == m {
      WholeStepsComeBack(level, step, level, v);
    } else if v == -m {
      Negated(level as real, step);
      WholeStepsComeBack(0 - level, step, level, v);
    }
  }

  lemma Negated(x: real, step: real)
    ensures Times(-x, step) == -Times(x, step)
  {
  }

  lemma HalfALevel(d: real, step: real, level: nat, m: real)
    requires 0.0 < step && step * level as real == m && -(step / 2.0) <= d <= step / 2.0
    ensures -m <= 2.0 * (level as real * d) <= m
  {
    var n := level as real;
    assert n * (step / 2.0) == m / 2.0;
    assert n * (step / 2.0 - d) >= 0.0 && n * (d + step / 2.0) >= 0.0;
    assert n * (step / 2.0 - d) == n * (step / 2.0) - n * d;
    assert n * (d + step / 2.0) == n * d + n * (step / 2.0);
  }

  predicate AllZero(group: seq<real>) {
    forall i :: 0 <= i < |group| ==> group[i] == 0.0
  }

  /** At width 1 the only level is zero. */
  lemma BackAtWidth(values: seq<real>, i: nat, bits: nat)
    requires |values| == DIM && i < DIM && 1 <= bits
    ensures bits == 1 ==> BackAt(values, i, MaxLevel(bits)) == if AllZero(GroupOf(values, i)) then Some(0.0) else None
    ensures bits != 1 ==> ScaleAt(values, i, MaxLevel(bits)).Finite?
  {
    MaxAbsIsZero(GroupOf(values, i));
    if bits != 1 {
      Pow2Monotone(1, bits - 1);
      assert Pow2(1) == 2;
    } else {
      assert MaxLevel(bits) == 0;
    }
  }

  lemma {:induction false} MaxAbsIsZero(group: seq<real>)
    ensures MaxAbs(group) == 0.0 <==> AllZero(group)
  {
    if group != [] {
      var front := group[..|group| - 1];
      MaxAbsIsZero(front);
      assert group == front + [group[|group| - 1]];
    }
  }
}
