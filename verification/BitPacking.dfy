/** Packing small codes into bytes and back, and the grouped quantisation that
    uses it. Least significant bits come first; the 32-bit accumulator is
    modelled as a natural number whose bound is proved. */
module BitPacking {
  import opened Wrappers

  // ------------------------------------------------------------------------
  // Bits, least significant first

  function ToBits(n: nat, width: nat): (r: seq<bool>)
    ensures |r| == width
  {
    if width == 0 then [] else [n % 2 == 1] + ToBits(n / 2, width - 1)
  }

  function FromBits(bits: seq<bool>): (n: nat) {
    if bits == [] then 0 else (if bits[0] then 1 else 0) + 2 * FromBits(bits[1..])
  }

  /** The bits of all values in order, each `width` bits wide. */
  function BitsOf(values: seq<nat>, width: nat): (r: seq<bool>) {
    if values == [] then [] else ToBits(values[0], width) + BitsOf(values[1..], width)
  }

  lemma {:induction false} FromToBits(n: nat, width: nat)
    requires n < Pow2(width)
    ensures FromBits(ToBits(n, width)) == n
  {
    if width != 0 {
      FromToBits(n / 2, width - 1);
      assert ToBits(n, width)[1..] == ToBits(n / 2, width - 1);
    }
  }

  lemma {:induction false} BitsOfAppend(a: seq<nat>, b: seq<nat>, width: nat)
    ensures BitsOf(a + b, width) == BitsOf(a, width) + BitsOf(b, width)
  {
    if a == [] {
      assert a + b == b;
    } else {
      assert (a + b)[1..] == a[1..] + b;
      BitsOfAppend(a[1..], b, width);
      assert ToBits(a[0], width) + (BitsOf(a[1..], width) + BitsOf(b, width))
          == ToBits(a[0], width) + BitsOf(a[1..], width) + BitsOf(b, width);
    }
  }

  lemma BitsOfOne(v: nat, width: nat)
    ensures BitsOf([v], width) == ToBits(v, width)
  {
    assert [v][1..] == [];
  }

  /** Putting `v` above the low `k` bits appends its bits. */
  lemma {:induction false} ToBitsOr(acc: nat, k: nat, v: nat, width: nat)
    requires acc < Pow2(k)
    ensures ToBits(acc + v * Pow2(k), k + width) == ToBits(acc, k) + ToBits(v, width)
    decreases k
  {
    if k != 0 {
      var p := Pow2(k - 1);
      assert v * Pow2(k) == 2 * (v * p);
      ToBitsOr(acc / 2, k - 1, v, width);
      assert (acc + v * Pow2(k)) % 2 == acc % 2 && (acc + v * Pow2(k)) / 2 == acc / 2 + v * p;
    }
  }

  /** `n & ((1 << k) - 1)` and `n >> k`. */
  function Low(n: nat, k: nat): nat {
    n % Pow2(k)
  }

  function High(n: nat, k: nat): nat {
    Quotient(n, Pow2(k))
  }

  function Quotient(n: nat, p: nat): nat
    requires 0 < p
  {
    n / p
  }

  /** Taking the low `k` bits off splits the bits there. */
  lemma SplitBits(n: nat, k: nat, width: nat)
    requires k <= width && n < Pow2(width)
    ensures ToBits(n, width) == ToBits(Low(n, k), k) + ToBits(High(n, k), width - k)
    ensures Low(n, k) < Pow2(k) && High(n, k) < Pow2(width - k)
  {
    SplitValue(n, Pow2(k));
    ToBitsOr(Low(n, k), k, High(n, k), width - k);
    Pow2Sum(k, width - k);
    hide Pow2;
    if Pow2(width - k) <= High(n, k) {
      Grows(Pow2(width - k), High(n, k), Pow2(k));
    }
  }

  lemma SplitValue(n: nat, p: nat)
    requires 0 < p
    ensures n == n % p + (n / p) * p && n % p < p
  {
  }

  lemma Grows(a: nat, b: nat, c: nat)
    requires a <= b
    ensures a * c <= b * c
  {
  }

  lemma {:induction false} Pow2Sum(a: nat, b: nat)
    ensures Pow2(a + b) == Pow2(b) * Pow2(a)
    decreases a
  {
    if a != 0 {
      Pow2Sum(a - 1, b);
      assert Pow2(a + b) == 2 * (Pow2(b) * Pow2(a - 1)) == Pow2(b) * (2 * Pow2(a - 1));
    }
  }

  lemma {:induction false} Pow2Monotone(a: nat, b: nat)
    requires a <= b
    ensures Pow2(a) <= Pow2(b)
    decreases b
  {
    if a < b {
      Pow2Monotone(a, b - 1);
    }
  }

  lemma {:induction false} BitsOfLength(values: seq<nat>, width: nat)
    ensures |BitsOf(values, width)| == |values| * width
  {
    if values != [] {
      BitsOfLength(values[1..], width);
      assert |values| * width == width + (|values| - 1) * width;
    }
  }

  // ------------------------------------------------------------------------
  // The code

  const U32_LIMIT := 0x1_0000_0000
  const BYTE := 256

  ghost predicate Bytes(s: seq<nat>) {
    forall i :: 0 <= i < |s| ==> s[i] < BYTE
  }

  ghost predicate Codes(values: seq<nat>, bits: nat) {
    forall i :: 0 <= i < |values| ==> values[i] < Pow2(bits)
  }

  lemma ByteIsPow2()
    ensures Pow2(8) == BYTE && Pow2(16) < U32_LIMIT
  {
    assert Pow2(4) == 16;
    Pow2Sum(4, 4);
    Pow2Sum(8, 8);
  }

  /** Packs codes of `bits` bits, least significant bit first. The accumulator
      never needs more than fifteen bits. */
  method PackBits(values: seq<nat>, bits: nat) returns (out: seq<nat>)
    requires 1 <= bits <= 8 && Codes(values, bits)
    ensures Bytes(out)
    ensures exists padding :: |padding| < 8 && true !in padding && IsPacked(values, bits, out, padding)
  {
    hide Pow2, ToBits, BitsOf, Low, High;
    out := [];
    var acc: nat, accBits: nat := 0, 0;
    NothingPacked(values, bits);
    for i := 0 to |values|
      invariant accBits < 8 && acc < Pow2(accBits) && Bytes(out)
      invariant Holds(out, acc, accBits, BitsOf(values[..i], bits))
    {
      PushCode(out, acc, accBits, values, i, bits);
      acc := acc + values[i] * Pow2(accBits);
      accBits := accBits + bits;
      assert acc < U32_LIMIT by { FitsU32(acc, accBits); }
      while accBits >= 8
        invariant accBits < 16 && acc < Pow2(accBits) && Bytes(out)
        invariant Holds(out, acc, accBits, BitsOf(values[..i + 1], bits))
        decreases accBits
      {
        EmitByte(out, acc, accBits, BitsOf(values[..i + 1], bits));
        out := out + [Low(acc, 8)];
        acc := High(acc, 8);
        accBits := accBits - 8;
      }
    }
    assert values[..|values|] == values;
    ghost var padding := EmitLast(out, acc, accBits, values, bits);
    if accBits > 0 {
      out := out + [Low(acc, 8)];
    }
  }

  /** The bytes written and the bits in the accumulator are the bits so far. */
  ghost predicate Holds(out: seq<nat>, acc: nat, accBits: nat, bits: seq<bool>) {
    BitsOf(out, 8) + ToBits(acc, accBits) == bits
  }

  lemma NothingPacked(values: seq<nat>, bits: nat)
    ensures Holds([], 0, 0, BitsOf(values[..0], bits)) && 0 < Pow2(0)
  {
  }

  lemma FitsU32(acc: nat, accBits: nat)
    requires acc < Pow2(accBits) && accBits <= 16
    ensures acc < U32_LIMIT
  {
    ByteIsPow2();
    Pow2Monotone(accBits, 16);
  }

  lemma PushCode(out: seq<nat>, acc: nat, accBits: nat, values: seq<nat>, i: nat, bits: nat)
    requires i < |values| && acc < Pow2(accBits) && values[i] < Pow2(bits)
    requires Holds(out, acc, accBits, BitsOf(values[..i], bits))
    ensures acc + values[i] * Pow2(accBits) < Pow2(accBits + bits)
    ensures Holds(out, acc + values[i] * Pow2(accBits), accBits + bits, BitsOf(values[..i + 1], bits))
  {
    PushBits(acc, accBits, values[i], bits);
    assert values[..i + 1] == values[..i] + [values[i]];
    BitsOfAppend(values[..i], [values[i]], bits);
    BitsOfOne(values[i], bits);
    ConcatAssoc(BitsOf(out, 8), ToBits(acc, accBits), ToBits(values[i], bits));
  }

  lemma EmitByte(out: seq<nat>, acc: nat, accBits: nat, target: seq<bool>)
    requires 8 <= accBits && acc < Pow2(accBits) && Holds(out, acc, accBits, target)
    ensures Low(acc, 8) < BYTE && High(acc, 8) < Pow2(accBits - 8)
    ensures Holds(out + [Low(acc, 8)], High(acc, 8), accBits - 8, target)
  {
    ByteIsPow2();
    hide ToBits, Low, High, Pow2, BitsOf;
    SplitBits(acc, 8, accBits);
    BitsOfAppend(out, [Low(acc, 8)], 8);
    BitsOfOne(Low(acc, 8), 8);
    ConcatAssoc(BitsOf(out, 8), ToBits(Low(acc, 8), 8), ToBits(High(acc, 8), accBits - 8));
  }

  /** Flushing the last bits pads them with zeros. */
  lemma EmitLast(out: seq<nat>, acc: nat, accBits: nat, values: seq<nat>, bits: nat) returns (padding: seq<bool>)
    requires accBits < 8 && acc < Pow2(accBits) && Holds(out, acc, accBits, BitsOf(values, bits))
    ensures Low(acc, 8) < BYTE && |padding| < 8 && true !in padding
    ensures IsPacked(values, bits, if accBits > 0 then out + [Low(acc, 8)] else out, padding)
  {
    LastByte(acc, accBits);
    if accBits == 0 {
      padding := [];
      assert ToBits(acc, 0) == [];
      assert BitsOf(out, 8) + [] == BitsOf(out, 8) && BitsOf(values, bits) + [] == BitsOf(values, bits);
    } else {
      padding := ToBits(0, 8 - accBits);
      ZeroBits(8 - accBits);
      BitsOfAppend(out, [Low(acc, 8)], 8);
      BitsOfOne(Low(acc, 8), 8);
      ConcatAssoc(BitsOf(out, 8), ToBits(acc, accBits), padding);
    }
  }

  lemma {:induction false} ZeroBits(width: nat)
    ensures true !in ToBits(0, width)
  {
    if width != 0 {
      ZeroBits(width - 1);
    }
  }

  /** The bytes hold the codes' bits, then padding. */
  ghost predicate IsPacked(values: seq<nat>, bits: nat, out: seq<nat>, padding: seq<bool>) {
    BitsOf(out, 8) == BitsOf(values, bits) + padding
  }

  lemma PushBits(acc: nat, accBits: nat, v: nat, bits: nat)
    requires acc < Pow2(accBits) && v < Pow2(bits)
    ensures acc + v * Pow2(accBits) < Pow2(accBits + bits)
    ensures ToBits(acc + v * Pow2(accBits), accBits + bits) == ToBits(acc, accBits) + ToBits(v, bits)
  {
    ToBitsOr(acc, accBits, v, bits);
    Pow2Sum(accBits, bits);
    Grows(v + 1, Pow2(bits), Pow2(accBits));
    assert (v + 1) * Pow2(accBits) == v * Pow2(accBits) + Pow2(accBits);
  }

  lemma LastByte(acc: nat, accBits: nat)
    requires accBits < 8 && acc < Pow2(accBits)
    ensures acc < BYTE && ToBits(Low(acc, 8), 8) == ToBits(acc, accBits) + ToBits(0, 8 - accBits)
  {
    ByteIsPow2();
    Pow2Monotone(accBits, 8);
    ToBitsOr(acc, accBits, 0, 8 - accBits);
    hide Pow2, ToBits;
    assert acc + 0 * Pow2(accBits) == acc;
    SmallMod(acc, Pow2(8));
  }

  lemma SmallMod(n: nat, p: nat)
    requires n < p
    ensures n % p == n
  {
  }

  /** Reads `count` codes of `bits` bits. With enough packed bytes the iterator is
      never exhausted, and the accumulator never needs more than fifteen bits. */
  method UnpackBits(bytes: seq<nat>, bits: nat, count: nat, ghost values: seq<nat>, ghost padding: seq<bool>)
      returns (out: seq<nat>)
    requires 1 <= bits <= 8 && Bytes(bytes)
    requires count == |values| && Codes(values, bits) && IsPacked(values, bits, bytes, padding)
    ensures out == values
  {
    hide Pow2, ToBits, BitsOf, Low, High;
    out := [];
    var acc: nat, accBits: nat, next: nat := 0, 0, 0;
    NothingRead(bytes, values, bits, padding);
    for i := 0 to count
      invariant accBits < 8 && acc < Pow2(accBits) && next <= |bytes|
      invariant out == values[..i]
      invariant Ahead(acc, accBits, bytes[next..], BitsOf(values[i..], bits) + padding)
    {
      NextCode(values, i, bits, padding);
      ghost var rest := BitsOf(values[i + 1..], bits) + padding;
      while accBits < bits
        invariant accBits < bits + 8 && acc < Pow2(accBits) && next <= |bytes|
        invariant Ahead(acc, accBits, bytes[next..], ToBits(values[i], bits) + rest)
        decreases bits + 8 - accBits
      {
        ReadByte(acc, accBits, bytes, next, values[i], bits, rest);
        acc := acc + bytes[next] * Pow2(accBits);
        accBits := accBits + 8;
        next := next + 1;
      }
      assert acc < U32_LIMIT by { FitsU32(acc, accBits); }
      TakeCode(acc, accBits, bits, values[i], BitsOf(bytes[next..], 8), rest);
      SplitBits(acc, bits, accBits);
      out := out + [Low(acc, bits)];
      acc := High(acc, bits);
      accBits := accBits - bits;
    }
    assert values[..count] == values;
  }

  /** The bits in the accumulator and the bytes not yet read are the bits to come. */
  ghost predicate Ahead(acc: nat, accBits: nat, bytes: seq<nat>, bits: seq<bool>) {
    ToBits(acc, accBits) + BitsOf(bytes, 8) == bits
  }

  lemma NothingRead(bytes: seq<nat>, values: seq<nat>, bits: nat, padding: seq<bool>)
    requires IsPacked(values, bits, bytes, padding)
    ensures 0 < Pow2(0) && Ahead(0, 0, bytes[0..], BitsOf(values[0..], bits) + padding)
  {
    assert values[0..] == values && bytes[0..] == bytes;
    assert [] + BitsOf(bytes, 8) == BitsOf(bytes, 8);
  }

  lemma NextCode(values: seq<nat>, i: nat, bits: nat, padding: seq<bool>)
    requires i < |values|
    ensures BitsOf(values[i..], bits) + padding == ToBits(values[i], bits) + (BitsOf(values[i + 1..], bits) + padding)
  {
    assert values[i..][1..] == values[i + 1..];
    ConcatAssoc(ToBits(values[i], bits), BitsOf(values[i + 1..], bits), padding);
  }

  lemma ReadByte(acc: nat, accBits: nat, bytes: seq<nat>, next: nat, v: nat, bits: nat, rest: seq<bool>)
    requires accBits < bits && acc < Pow2(accBits) && next <= |bytes| && Bytes(bytes)
    requires Ahead(acc, accBits, bytes[next..], ToBits(v, bits) + rest)
    ensures next < |bytes|
    ensures acc + bytes[next] * Pow2(accBits) < Pow2(accBits + 8)
    ensures Ahead(acc + bytes[next] * Pow2(accBits), accBits + 8, bytes[next + 1..], ToBits(v, bits) + rest)
  {
    ByteIsPow2();
    hide Pow2, ToBits;
    BitsOfLength(bytes[next..], 8);
    assert |ToBits(acc, accBits) + BitsOf(bytes[next..], 8)| == |ToBits(v, bits) + rest|;
    assert bytes[next..][1..] == bytes[next + 1..];
    PushBits(acc, accBits, bytes[next], 8);
    ConcatAssoc(ToBits(acc, accBits), ToBits(bytes[next], 8), BitsOf(bytes[next + 1..], 8));
  }

  /** The low `bits` bits of the accumulator are the next code. */
  lemma TakeCode(acc: nat, accBits: nat, bits: nat, v: nat, more: seq<bool>, rest: seq<bool>)
    requires bits <= accBits && acc < Pow2(accBits) && v < Pow2(bits)
    requires ToBits(acc, accBits) + more == ToBits(v, bits) + rest
    ensures Low(acc, bits) == v
    ensures ToBits(High(acc, bits), accBits - bits) + more == rest
  {
    SplitBits(acc, bits, accBits);
    hide ToBits, Pow2, Low, High, FromBits;
    var low, high := ToBits(Low(acc, bits), bits), ToBits(High(acc, bits), accBits - bits);
    ConcatAssoc(low, high, more);
    SameSplit(low, high + more, ToBits(v, bits), rest, ToBits(acc, accBits) + more);
    FromToBits(Low(acc, bits), bits);
    FromToBits(v, bits);
  }

  lemma SameSplit(a: seq<bool>, b: seq<bool>, c: seq<bool>, d: seq<bool>, all: seq<bool>)
    requires a + b == all == c + d && |a| == |c|
    ensures a == c && b == d
  {
    assert a == all[..|a|] == c && b == all[|a|..] == d;
  }

  /** Main result: unpacking what was packed gives the codes back, for every
      width from one to eight and every length. */
  method PackThenUnpack(values: seq<nat>, bits: nat) returns (out: seq<nat>)
    requires 1 <= bits <= 8 && Codes(values, bits)
    ensures out == values
  {
    var packed := PackBits(values, bits);
    ghost var padding :| |padding| < 8 && true !in padding && IsPacked(values, bits, packed, padding);
    out := UnpackBits(packed, bits, |values|, values, padding);
  }
}
