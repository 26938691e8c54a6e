/** Proof-of-work targets in compact form, and the work a block claims. */
module ProofOfWork {
  import opened Powers
  import opened U256

  function Zeros(n: nat): (s: seq<u8>)
    ensures |s| == n && forall i :: 0 <= i < n ==> s[i] == 0
  {
    if n == 0 then [] else Zeros(n - 1) + [0]
  }

  const ZERO_BYTES: Bytes32 := Zeros(32)

  // ---- compact bits ------------------------------------------------------------------

  function Exponent(bits: u32): nat {
    bits / 0x100_0000
  }

  function Mantissa(bits: u32): nat {
    bits % 0x80_0000
  }

  /** The target a compact encoding stands for; exponents beyond 32 bytes decode to zero. */
  function Target(bits: u32): nat {
    var e, m := Exponent(bits), Mantissa(bits);
    if e <= 3 then m / Pow(256, 3 - e)
    else if e <= 32 then m * Pow(256, e - 3)
    else 0
  }

  /** The compact form: a size byte, a sign bit that is ignored, and a 23-bit mantissa scaled by 256^(size - 3). */
  lemma TargetIs(size: nat, sign: nat, mantissa: nat)
    requires size < 256 && sign < 2 && mantissa < 0x80_0000
    ensures size * 0x100_0000 + sign * 0x80_0000 + mantissa < 0x1_0000_0000
    ensures var t := Target(size * 0x100_0000 + sign * 0x80_0000 + mantissa);
            && (3 <= size <= 32 ==> t == mantissa * Pow(256, size - 3))
            && (size < 3 ==> t == mantissa / Pow(256, 3 - size))
            && (size > 32 ==> t == 0)
  {
    var bits: u32 := size * 0x100_0000 + sign * 0x80_0000 + mantissa;
    DivModUnique(bits, 0x100_0000, size, sign * 0x80_0000 + mantissa);
    DivModUnique(bits, 0x80_0000, size * 2 + sign, mantissa);
    if size == 3 {
      assert Pow(256, 0) == 1;
      DivModUnique(mantissa, 1, mantissa, 0);
    }
  }

  lemma TargetBound(bits: u32)
    ensures Target(bits) < TWO_256 / 2
  {
    var e, m := Exponent(bits), Mantissa(bits);
    if e <= 3 {
      ShrBound(m, Pow(256, 3 - e));
    } else if e <= 32 {
      BytePow(e - 3);
      Pow2Mono(8 * (e - 3), 232);
      MulMono(m, 0x80_0000, Pow2(8 * (e - 3)));
      Pow232();
    }
  }

  lemma Pow232()
    ensures 0x80_0000 * Pow2(232) == TWO_256 / 2
  {
    Pow2Values();
    Pow2Add(232, 24);
  }

  /** `n` little-endian bytes placed at `offset` in a zeroed 32-byte buffer. */
  function Place(b: seq<u8>, offset: nat): (t: Bytes32)
    requires offset + |b| <= 32
  {
    Zeros(offset) + b + Zeros(32 - offset - |b|)
  }

  lemma PlaceVal(b: seq<u8>, offset: nat)
    requires offset + |b| <= 32
    ensures BytesVal(Place(b, offset)) == LeVal(256, b) * Pow(256, offset)
  {
    LeValPadded(256, Zeros(offset), b, Zeros(32 - offset - |b|));
  }

  function SmallBytes(x: nat, n: nat): (b: seq<u8>)
    requires x < Pow(256, n)
    ensures |b| == n && LeVal(256, b) == x
  {
    ToLeVal(256, x, n);
    ToLe(256, x, n)
  }

  lemma SmallPowers()
    ensures Pow(256, 0) == 1 && Pow(256, 1) == 0x100 && Pow(256, 2) == 0x1_0000
    ensures Pow(256, 3) == 0x100_0000 && Pow(256, 4) == 0x1_0000_0000
  {
    BytePow(0); BytePow(1); BytePow(2); BytePow(3); BytePow(4);
    Pow2To64();
  }

  method TargetFromBits(bits: u32) returns (target: Bytes32)
    ensures BytesVal(target) == Target(bits)
  {
    target := ZERO_BYTES;
    var exponent := Exponent(bits);
    var mantissa := Mantissa(bits);
    SmallPowers();
    if exponent <= 3 {
      var value := mantissa / Pow(256, 3 - exponent);
      ShrBound(mantissa, Pow(256, 3 - exponent));
      target := Place(SmallBytes(value, 4), 0);
      PlaceVal(SmallBytes(value, 4), 0);
    } else {
      var byteOffset := exponent - 3;
      if byteOffset + 3 <= 32 {
        target := Place(SmallBytes(mantissa, 3), byteOffset);
        PlaceVal(SmallBytes(mantissa, 3), byteOffset);
      } else {
        LeValZeros(256, target);
      }
    }
  }

  /** The hash, read as a little-endian number, does not exceed the target. */
  method HashMeetsTarget(hash: Bytes32, target: Bytes32) returns (r: bool)
    ensures r <==> BytesVal(hash) <= BytesVal(target)
  {
    for i := 32 downto 0
      invariant hash[i..] == target[i..]
    {
      if hash[i] > target[i] { LeValOrder(256, hash, target, i); return false; }
      if hash[i] < target[i] { LeValOrder(256, target, hash, i); return true; }
      assert hash[i..] == [hash[i]] + hash[i + 1..] && target[i..] == [target[i]] + target[i + 1..];
    }
    assert hash[0..] == hash && target[0..] == target;
    return true;
  }

  // ---- chainwork ------------------------------------------------------------------------

  /** Expected hashes to meet the target, as a 256-bit value. A zero target wraps to zero work. */
  function BlockWork(bits: u32): u256 {
    (TWO_256 / (Target(bits) + 1)) % TWO_256
  }

  /** Exactly a zero target loses its work: for every other target the work is floor(2^256/(t+1)), at least 2. */
  lemma BlockWorkExact(bits: u32)
    ensures Target(bits) >= 1 <==> BlockWork(bits) == TWO_256 / (Target(bits) + 1)
    ensures Target(bits) >= 1 ==> BlockWork(bits) >= 2
    ensures Target(bits) == 0 ==> BlockWork(bits) == 0
  {
    var t := Target(bits);
    TargetBound(bits);
    var (q, r) := DivMod(TWO_256, t + 1);
    if t >= 1 {
      MulMono(2, t + 1, q);
      DivModUnique(q, TWO_256, 0, q);
      assert q >= 2 by { AtLeastTwo(q, t + 1, r); }
    } else {
      DivModUnique(TWO_256, 1, TWO_256, 0);
    }
  }

  lemma AtLeastTwo(q: nat, d: nat, r: nat)
    requires TWO_256 == q * d + r && r < d && d <= TWO_256 / 2
    ensures q >= 2
  {
    if q < 2 { MulMono(q, 1, d); }
  }

  /** The sum of one byte position: its low byte and its carry. */
  function ByteSum(x: u8, y: u8, carry: u16): (r: (u8, u16))
    requires carry <= 1
    ensures r.0 + r.1 * 256 == x + y + carry && r.1 <= 1
  {
    ((x + y + carry) % 256, (x + y + carry) / 256)
  }

  /** The low `i` result bytes and the carry hold the sum of the low bytes and `start`. */
  ghost predicate Summed(a: Bytes32, b: Bytes32, i: nat, result: Bytes32, start: nat, c: nat)
    requires i <= 32
  {
    LeVal(256, result[..i]) + c * Pow(256, i) == LeVal(256, a[..i]) + LeVal(256, b[..i]) + start
  }

  lemma SummedNone(a: Bytes32, b: Bytes32, result: Bytes32, start: nat)
    ensures Summed(a, b, 0, result, start, start)
  {
    assert a[..0] == [] && b[..0] == [] && result[..0] == [];
    assert Pow(256, 0) == 1 && LeVal(256, []) == 0;
  }

  lemma ByteStep(a: Bytes32, b: Bytes32, i: nat, before: Bytes32, result: Bytes32, start: nat, c: nat, c': nat)
    requires i < 32 && result[..i] == before[..i]
    requires Summed(a, b, i, before, start, c)
    requires result[i] + c' * 256 == a[i] + b[i] + c
    ensures Summed(a, b, i + 1, result, start, c')
  {
    LeValTake(256, result, i);
    LeValTake(256, a, i);
    LeValTake(256, b, i);
    ByteArith(Pow(256, i), c, a[i], b[i], result[i], c');
  }

  lemma ByteArith(p: nat, c: nat, a: nat, b: nat, d: nat, c': nat)
    requires d + c' * 256 == a + b + c
    ensures d * p + c' * (256 * p) == a * p + b * p + c * p
  {
    assert (d + c' * 256) * p == d * p + c' * (256 * p);
  }

  lemma ByteSumEnd(a: Bytes32, b: Bytes32, result: Bytes32, start: nat, c: nat)
    requires Summed(a, b, 32, result, start, c)
    ensures BytesVal(result) == (BytesVal(a) + BytesVal(b) + start) % TWO_256
  {
    assert result[..32] == result && a[..32] == a && b[..32] == b;
    BytesTop();
    BytesBound(result);
    DivModUnique(BytesVal(a) + BytesVal(b) + start, TWO_256, c, BytesVal(result));
  }

  method AddChainwork(a: Bytes32, b: Bytes32) returns (result: Bytes32)
    ensures BytesVal(result) == (BytesVal(a) + BytesVal(b)) % TWO_256
  {
    result := ZERO_BYTES;
    var carry: u16 := 0;
    SummedNone(a, b, result, 0);
    for i := 0 to 32
      invariant carry <= 1 && Summed(a, b, i, result, 0, carry)
    {
      var (low, c) := ByteSum(a[i], b[i], carry);
      ghost var before := result;
      result := result[i := low];
      ByteStep(a, b, i, before, result, 0, carry, c);
      carry := c;
    }
    ByteSumEnd(a, b, result, 0, carry);
  }

  lemma BytesTop()
    ensures Pow(256, 32) == TWO_256
  {
    BytePow(32);
    Pow2Values();
  }

  /** `target + 1` as a carry loop, wrapping at 2^256. */
  method PlusOne(target: Bytes32) returns (result: Bytes32)
    ensures BytesVal(result) == (BytesVal(target) + 1) % TWO_256
  {
    result := ZERO_BYTES;
    var carry: u16 := 1;
    ghost var none: Bytes32 := ZERO_BYTES;
    SummedNone(target, none, result, 1);
    for i := 0 to 32
      invariant carry <= 1 && Summed(target, none, i, result, 1, carry)
    {
      var (low, c) := ByteSum(target[i], 0, carry);
      ghost var before := result;
      result := result[i := low];
      ByteStep(target, none, i, before, result, 1, carry, c);
      carry := c;
    }
    ByteSumEnd(target, none, result, 1, carry);
    LeValZeros(256, none);
  }

  ghost predicate Complemented(target: Bytes32, i: nat, result: Bytes32)
    requires i <= 32
  {
    LeVal(256, result[..i]) + LeVal(256, target[..i]) + 1 == Pow(256, i)
  }

  lemma ComplementNone(target: Bytes32, result: Bytes32)
    ensures Complemented(target, 0, result)
  {
    assert target[..0] == [] && result[..0] == [];
    assert Pow(256, 0) == 1 && LeVal(256, []) == 0;
  }

  lemma ComplementStep(target: Bytes32, i: nat, before: Bytes32, result: Bytes32)
    requires i < 32 && result[..i] == before[..i] && result[i] == 255 - target[i]
    requires Complemented(target, i, before)
    ensures Complemented(target, i + 1, result)
  {
    LeValTake(256, result, i);
    LeValTake(256, target, i);
    ByteArith(Pow(256, i), 0, result[i], target[i], 255, 0);
  }

  /** Bytewise complement. */
  method Complement(target: Bytes32) returns (result: Bytes32)
    ensures BytesVal(result) == TWO_256 - 1 - BytesVal(target)
  {
    result := ZERO_BYTES;
    ComplementNone(target, result);
    for i := 0 to 32
      invariant Complemented(target, i, result)
    {
      ghost var before := result;
      result := result[i := 255 - target[i]];
      ComplementStep(target, i, before, result);
    }
    ComplementEnd(target, result);
  }

  lemma ComplementEnd(target: Bytes32, result: Bytes32)
    requires Complemented(target, 32, result)
    ensures BytesVal(result) == TWO_256 - 1 - BytesVal(target)
  {
    assert result[..32] == result && target[..32] == target;
    BytesTop();
  }

  /** The 256-bit division of the complement, plus one, is the work of the block. */
  method CalculateChainwork(bits: u32) returns (work: Bytes32)
    ensures BytesVal(work) == BlockWork(bits)
  {
    var target := TargetFromBits(bits);
    TargetBound(bits);
    var targetPlusOne := PlusOne(target);
    DivModUnique(Target(bits) + 1, TWO_256, 0, Target(bits) + 1);
    if targetPlusOne == ZERO_BYTES {
      LeValZeros(256, ZERO_BYTES);
      assert false;
      return ZERO_BYTES;
    }
    var notTarget := Complement(target);
    var quotient := DivBytes(notTarget, targetPlusOne);
    work := Increment(quotient);
    WorkShift(Target(bits));
  }

  method DivBytes(n: Bytes32, d: Bytes32) returns (quotient: Limbs)
    ensures Val(quotient) == if BytesVal(d) == 0 then 0 else BytesVal(n) / BytesVal(d)
  {
    var dividend := FromLeBytes(n);
    var divisor := FromLeBytes(d);
    quotient := Div(dividend, divisor);
  }

  method Increment(v: Limbs) returns (b: Bytes32)
    ensures BytesVal(b) == (Val(v) + 1) % TWO_256
  {
    OneVal();
    var result := Add(v, ONE);
    b := ToLeBytes(result);
  }

  const ONE: Limbs := [1, 0, 0, 0]

  lemma OneVal()
    ensures Val(ONE) == 1
  {
    FourLimbs(1, 0, 0, 0);
  }

  lemma WorkShift(t: nat)
    requires t < TWO_256
    ensures (TWO_256 - 1 - t) / (t + 1) + 1 == TWO_256 / (t + 1)
  {
    var (q, r) := DivMod(TWO_256 - 1 - t, t + 1);
    assert TWO_256 == (q + 1) * (t + 1) + r;
    DivModUnique(TWO_256, t + 1, q + 1, r);
  }
}
