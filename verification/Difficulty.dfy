/** Re-encoding targets to compact bits, and the retarget rule. */
module Difficulty {
  import opened Powers
  import opened U256
  import opened ProofOfWork

  const TARGET_TIMESPAN: u32 := 1_209_600
  const BLOCKS_PER_EPOCH: nat := 2016
  const MAX_TARGET_BITS: u32 := 0x1d00ffff
  const MAX_TARGET: u256 := 0xffff_0000_0000_0000_0000_0000_0000_0000_0000_0000_0000_0000_0000_0000

  lemma MaxTargetIs()
    ensures Target(MAX_TARGET_BITS) == MAX_TARGET < Pow2(224)
  {
    Pow208();
    assert Exponent(MAX_TARGET_BITS) == 29 && Mantissa(MAX_TARGET_BITS) == 0xffff;
  }

  lemma Pow208()
    ensures Pow(256, 26) == 0x1_0000_0000_0000_0000_0000_0000_0000_0000_0000_0000_0000_0000_0000
    ensures Pow2(224) == 0x1_0000_0000_0000_0000_0000_0000_0000_0000_0000_0000_0000_0000_0000_0000
  {
    BytePow(26);
    Pow2To64();
    Pow2Add(64, 64);
    Pow2Add(128, 64);
    Pow2Add(192, 16);
    Pow2Add(192, 32);
  }

  // ---- compact encoding ----------------------------------------------------------------

  /** Number of significant bytes. */
  function ByteLen(t: nat): nat {
    if t == 0 then 0 else 1 + ByteLen(t / 256)
  }

  lemma {:induction false} ByteLenBounds(t: nat)
    requires t > 0
    ensures ByteLen(t) > 0 && Pow(256, ByteLen(t) - 1) <= t < Pow(256, ByteLen(t))
  {
    if t < 256 {
      assert ByteLen(t) == 1 + ByteLen(0);
      assert Pow(256, 0) == 1 && Pow(256, 1) == 256 * Pow(256, 0);
    } else {
      var (q, r) := DivMod(t, 256);
      ByteLenBounds(q);
    }
  }

  lemma {:induction false} PowMono(m: nat, n: nat)
    requires m <= n
    ensures Pow(256, m) <= Pow(256, n)
    decreases n
  {
    if m < n { PowMono(m, n - 1); }
  }

  lemma ByteLenUnique(t: nat, n: nat)
    requires n > 0 && Pow(256, n - 1) <= t < Pow(256, n)
    ensures ByteLen(t) == n
  {
    ByteLenBounds(t);
    var k := ByteLen(t);
    if k < n { PowMono(k, n - 1); }
    if k > n { PowMono(n, k - 1); }
  }

  lemma ByteLenCap(t: u256)
    ensures ByteLen(t) <= 32
  {
    if ByteLen(t) > 32 {
      ByteLenBounds(t);
      PowMono(32, ByteLen(t) - 1);
      BytesTop();
    }
  }

  /** The top three bytes of `t` at size `size`, left-aligned when `t` is shorter. */
  function TopBytes(t: nat, size: nat): (m: nat)
    requires t < Pow(256, size)
    ensures m < 0x100_0000
  {
    SmallPowers();
    if size <= 3 then
      PowAdd(256, size, 3 - size);
      MulMono(t + 1, Pow(256, size), Pow(256, 3 - size));
      t * Pow(256, 3 - size)
    else
      PowAdd(256, 3, size - 3);
      var (q, r) := DivMod(t, Pow(256, size - 3));
      DivBelow(q, r, Pow(256, size - 3), 0x100_0000);
      q
  }

  function Pack(size: nat, m: nat): u32
    requires size <= 33 && m < 0x80_0000
  {
    size * 0x100_0000 + m
  }

  /** The compact encoding the retarget writes. */
  function Encode(t: u256): u32 {
    if t == 0 then 0 else
    ByteLenCap(t);
    ByteLenBounds(t);
    var size := ByteLen(t);
    var m := TopBytes(t, size);
    if m >= 0x80_0000 then Pack(size + 1, m / 256) else Pack(size, m)
  }

  /** The exponent and mantissa `Encode` packs. */
  lemma PackFields(size: nat, m: nat)
    requires size <= 33 && m < 0x80_0000
    ensures Exponent(Pack(size, m)) == size && Mantissa(Pack(size, m)) == m
  {
    DivModUnique(Pack(size, m), 0x100_0000, size, m);
    DivModUnique(Pack(size, m), 0x80_0000, 2 * size, m);
  }

  /** A value some compact encoding decodes to. */
  ghost predicate Representable(x: nat) {
    exists bits: u32 :: Target(bits) == x
  }

  /** `x` is the largest representable value not above `t`. */
  ghost predicate RoundsDownTo(t: nat, x: nat) {
    && Representable(x) && x <= t
    && forall bits: u32 :: Target(bits) <= t ==> Target(bits) <= x
  }

  /** Every compact value is a mantissa below 2^23 scaled by a power of 256 up to 256^29. */
  lemma TargetShape(bits: u32) returns (m: nat, k: nat)
    ensures m < 0x80_0000 && k <= 29 && Target(bits) == m * Pow(256, k)
  {
    var e := Exponent(bits);
    assert Pow(256, 0) == 1;
    if e <= 3 {
      m, k := Target(bits), 0;
      ShrBound(Mantissa(bits), Pow(256, 3 - e));
    } else if e <= 32 {
      m, k := Mantissa(bits), e - 3;
    } else {
      m, k := 0, 0;
    }
  }

  /**
   * A mantissa in [2^15, 2^23) at scale `k` is normalised: nothing representable lies between
   * the truncation of `t` at that scale and `t`.
   */
  lemma TruncationIsBest(t: nat, k: nat, bits: u32)
    requires 0x8000 <= t / Pow(256, k) && Target(bits) <= t
    ensures Target(bits) <= (t / Pow(256, k)) * Pow(256, k)
  {
    var m', k' := TargetShape(bits);
    var (q, r) := DivMod(t, Pow(256, k));
    if k' >= k {
      CoarserIsMultiple(m', k', k, q, r);
    } else {
      FinerIsSmaller(m', k', k, q);
    }
  }

  lemma CoarserIsMultiple(m: nat, k': nat, k: nat, q: nat, r: nat)
    requires k' >= k && r < Pow(256, k) && m * Pow(256, k') <= q * Pow(256, k) + r
    ensures m * Pow(256, k') <= q * Pow(256, k)
  {
    PowAdd(256, k' - k, k);
    MulAssoc(m, Pow(256, k' - k), Pow(256, k));
    MultipleBelow(m * Pow(256, k' - k), q, r, Pow(256, k));
  }

  lemma FinerIsSmaller(m: nat, k': nat, k: nat, q: nat)
    requires m < 0x80_0000 && k' < k && q >= 0x8000
    ensures m * Pow(256, k') <= q * Pow(256, k)
  {
    PowMono(k', k - 1);
    SmallScale(m, Pow(256, k'), Pow(256, k - 1), q);
  }

  lemma MultipleBelow(x: nat, q: nat, r: nat, p: nat)
    requires r < p && x * p <= q * p + r
    ensures x * p <= q * p
  {
    if x > q { MulMono(q + 1, x, p); }
  }

  lemma SmallScale(m: nat, s: nat, p: nat, q: nat)
    requires m < 0x80_0000 && s <= p && q >= 0x8000
    ensures m * s <= q * (256 * p)
  {
    MulMono(m, 0x80_0000, s);
    MulMono(0x8000, q, 256 * p);
  }

  lemma EncodeSmall(t: nat)
    requires 0 < t < 0x80_0000
    ensures Target(Encode(t)) == t
  {
    SmallPowers();
    ByteLenBounds(t);
    var size := ByteLen(t);
    if size > 3 { PowMono(3, size - 1); }
    var m := TopBytes(t, size);
    DivModUnique(m, Pow(256, 3 - size), t, 0);
    if m >= 0x80_0000 {
      PackFields(size + 1, m / 256);
      if size == 1 {
        DivModUnique(t * 256, 256, t, 0);
        DivModUnique(m / 256, 256, t, 0);
      }
    } else {
      PackFields(size, m);
    }
  }

  /** From four bytes up, encoding truncates at a scale that leaves a mantissa in [2^15, 2^23). */
  lemma EncodeLarge(t: u256) returns (k: nat)
    requires 0x80_0000 <= t < TWO_256 / 2
    ensures 0x8000 <= t / Pow(256, k) < 0x80_0000
    ensures Target(Encode(t)) == (t / Pow(256, k)) * Pow(256, k)
  {
    SmallPowers();
    ByteLenCap(t);
    ByteLenBounds(t);
    var size := ByteLen(t);
    if size < 3 { PowMono(size, 2); }
    var m := TopBytes(t, size);
    assert m == t / Pow(256, size - 3) by { if size == 3 { DivModUnique(t, 1, t, 0); } }
    TopIsLarge(t, size);
    if m >= 0x80_0000 {
      k := size - 2;
      DivDiv(t, Pow(256, size - 3), 256);
      if size == 32 { HighBit(t); }
      PackFields(size + 1, m / 256);
    } else {
      k := size - 3;
      PackFields(size, m);
      if size == 3 { DivModUnique(m, 1, m, 0); }
    }
  }

  lemma TopIsLarge(t: nat, size: nat)
    requires size >= 3 && Pow(256, size - 1) <= t
    ensures t / Pow(256, size - 3) >= 0x1_0000
  {
    SmallPowers();
    PowAdd(256, 2, size - 3);
    var (q, r) := DivMod(t, Pow(256, size - 3));
    if q < 0x1_0000 { OrderArith(0, r, 0x1_0000, q, Pow(256, size - 3)); }
  }

  lemma HighBit(t: nat)
    requires t < TWO_256 / 2
    ensures t / Pow(256, 29) < 0x80_0000
  {
    BytePow(29);
    Pow232();
    var (q, r) := DivMod(t, Pow(256, 29));
    DivBelow(q, r, Pow(256, 29), 0x80_0000);
  }

  /**
   * Decoding the encoded target rounds down to the nearest representable value exactly for
   * targets below 2^255; from there on the encoding needs a 33rd byte and decodes to zero.
   */
  lemma EncodeRoundsDown(t: u256)
    ensures RoundsDownTo(t, Target(Encode(t))) <==> t < TWO_256 / 2
    ensures t >= TWO_256 / 2 ==> Target(Encode(t)) == 0
  {
    if t == 0 {
      assert Target(0) == 0;
    } else if t < 0x80_0000 {
      EncodeSmall(t);
    } else if t < TWO_256 / 2 {
      var k := EncodeLarge(t);
      var (q, r) := DivMod(t, Pow(256, k));
      forall bits: u32 | Target(bits) <= t
        ensures Target(bits) <= Target(Encode(t))
      {
        TruncationIsBest(t, k, bits);
      }
    } else {
      EncodeTooLarge(t);
      assert Target(0x0100_0000 * 3 + 1) == 1 by { SmallPowers(); PackFields(3, 1); }
    }
  }

  lemma EncodeTooLarge(t: u256)
    requires t >= TWO_256 / 2
    ensures Target(Encode(t)) == 0
  {
    BytesTop();
    Pow232();
    BytePow(29);
    Pow2Add(16, 232);
    Pow2To64();
    BytePow(31);
    ByteLenUnique(t, 32);
    var (q, r) := DivMod(t, Pow(256, 29));
    if q < 0x80_0000 { OrderArith(0, r, 0x80_0000, q, Pow(256, 29)); }
    PackFields(33, TopBytes(t, 32) / 256);
  }

  /** Rounding to compact form is monotone, and never lifts a target over a compact bound. */
  lemma EncodeMonotone(s: u256, t: u256)
    requires s <= t < TWO_256 / 2
    ensures Target(Encode(s)) <= Target(Encode(t)) <= t
  {
    EncodeRoundsDown(s);
    EncodeRoundsDown(t);
  }

  // ---- the encoding loop ---------------------------------------------------------------------

  method BitsFromTarget(target: Bytes32) returns (bits: u32)
    ensures BytesVal(target) < TWO_256 && bits == Encode(BytesVal(target))
  {
    BytesBound(target);
    var size := 32;
    while size > 0 && target[size - 1] == 0
      invariant 0 <= size <= 32
      invariant forall i :: size <= i < 32 ==> target[i] == 0
    {
      size := size - 1;
    }
    if size == 0 {
      LeValZeros(256, target);
      return 0;
    }
    SizeIsByteLen(target, size);
    bits := Assemble(target, size);
  }

  /** The mantissa of a target of `size` significant bytes, normalised and packed. */
  method Assemble(target: Bytes32, size: nat) returns (bits: u32)
    requires 0 < size <= 32 && BytesVal(target) == LeVal(256, target[..size])
    requires 0 < BytesVal(target) < Pow(256, size) && ByteLen(BytesVal(target)) == size
    ensures BytesVal(target) < TWO_256 && bits == Encode(BytesVal(target))
  {
    BytesBound(target);
    var mantissa: nat;
    if size <= 3 {
      mantissa := ReadShort(target, size);
    } else {
      mantissa := ReadTop(target, size);
    }
    bits := Normalise(size, mantissa);
  }

  /** Moves a set sign bit down one byte and packs the result. */
  method Normalise(size: nat, top: nat) returns (bits: u32)
    requires size <= 32 && top < 0x100_0000
    ensures bits == if top >= 0x80_0000 then Pack(size + 1, top / 256) else Pack(size, top)
  {
    var mantissa, finalSize := top, size;
    if (mantissa / 0x80_0000) % 2 != 0 {
      mantissa := mantissa / 256;
      finalSize := finalSize + 1;
    }
    PackBits(finalSize, mantissa);
    bits := BitOr(finalSize * 0x100_0000, mantissa % 0x80_0000);
  }

  lemma PackBits(size: nat, m: nat)
    requires size <= 33 && m < 0x80_0000
    ensures BitOr(size * 0x100_0000, m % 0x80_0000) == Pack(size, m)
  {
    DivModUnique(m, 0x80_0000, 0, m);
    OrFits(size, m);
  }

  lemma OrFits(x: nat, y: nat)
    requires y < 0x100_0000
    ensures BitOr(x * 0x100_0000, y) == x * 0x100_0000 + y
  {
    Pow2To64();
    DivModUnique(x * 0x100_0000, 0x100_0000, x, 0);
    BitOrDisjoint(x * 0x100_0000, y, 24);
  }

  lemma SizeIsByteLen(target: seq<nat>, size: nat)
    requires DigitsBelow(256, target) && 0 < size <= |target| && target[size - 1] != 0
    requires forall i :: size <= i < |target| ==> target[i] == 0
    ensures LeVal(256, target) == LeVal(256, target[..size])
    ensures ByteLen(LeVal(256, target)) == size && 0 < LeVal(256, target) < Pow(256, size)
  {
    LeValTrim(256, target, size);
    NormalisedLen(target[..size]);
  }

  lemma NormalisedLen(s: seq<nat>)
    requires |s| > 0 && DigitsBelow(256, s) && s[|s| - 1] != 0
    ensures ByteLen(LeVal(256, s)) == |s| && 0 < LeVal(256, s) < Pow(256, |s|)
  {
    LeValBound(256, s);
    AtLeastWeight(LeVal(256, s[..|s| - 1]), s[|s| - 1], Pow(256, |s| - 1));
    ByteLenUnique(LeVal(256, s), |s|);
  }

  lemma AtLeastWeight(x: nat, d: nat, p: nat)
    requires d > 0
    ensures x + d * p >= p
  {
    MulMono(1, d, p);
  }

  lemma ShiftIn(m: nat, b: u8)
    ensures BitOr(m * 256, b) == m * 256 + b
  {
    Pow2To64();
    DivModUnique(m * 256, 256, m, 0);
    BitOrDisjoint(m * 256, b, 8);
  }

  method ReadShort(target: Bytes32, size: nat) returns (mantissa: nat)
    requires 0 < size <= 3 && BytesVal(target) == LeVal(256, target[..size]) < Pow(256, size)
    ensures mantissa == TopBytes(BytesVal(target), size)
  {
    mantissa := 0;
    for i := size downto 0
      invariant mantissa == LeVal(256, target[i..size])
    {
      ShiftIn(mantissa, target[i]);
      LeValCons(256, target[i], target[i + 1..size]);
      assert target[i..size] == [target[i]] + target[i + 1..size];
      mantissa := BitOr(mantissa * 256, target[i]);
    }
    assert target[0..size] == target[..size];
    mantissa := mantissa * Pow(256, 3 - size);
  }

  method ReadTop(target: Bytes32, size: nat) returns (mantissa: nat)
    requires 3 < size <= 32 && BytesVal(target) == LeVal(256, target[..size]) < Pow(256, size)
    ensures mantissa == TopBytes(BytesVal(target), size)
  {
    ThreeBytes(target[..size]);
    mantissa := OrThree(target[size - 1], target[size - 2], target[size - 3]);
  }

  /** `a << 16 | b << 8 | c`. */
  function OrThree(a: u8, b: u8, c: u8): (m: nat)
    ensures m == Three(a, b, c)
  {
    ShiftIn(a, b);
    ShiftIn(a as nat * 256 + b as nat, c);
    OrHigh(a, b);
    BitOr(BitOr(a as nat * 0x1_0000, b as nat * 0x100), c)
  }

  function Three(a: nat, b: nat, c: nat): nat {
    (a * 0x100 + b) * 0x100 + c
  }

  lemma OrHigh(a: nat, b: nat)
    requires b < 0x100
    ensures BitOr(a * 0x1_0000, b * 0x100) == (a * 0x100 + b) * 0x100
  {
    Pow2To64();
    DivModUnique(a * 0x1_0000, 0x1_0000, a, 0);
    BitOrDisjoint(a * 0x1_0000, b * 0x100, 16);
  }

  lemma ThreeBytes(s: seq<nat>)
    requires |s| > 3 && DigitsBelow(256, s) && LeVal(256, s) < Pow(256, |s|)
    ensures TopBytes(LeVal(256, s), |s|) == Three(s[|s| - 1], s[|s| - 2], s[|s| - 3])
  {
    var k := |s| - 3;
    assert s == s[..k] + [s[k], s[k + 1], s[k + 2]];
    LeValConcat(256, s[..k], [s[k], s[k + 1], s[k + 2]]);
    LeValThree(s[k], s[k + 1], s[k + 2]);
    LeValBound(256, s[..k]);
    DivModUnique(LeVal(256, s), Pow(256, k), Three(s[k + 2], s[k + 1], s[k]), LeVal(256, s[..k]));
  }

  lemma LeValThree(x: nat, y: nat, z: nat)
    ensures LeVal(256, [x, y, z]) == Three(z, y, x)
  {
    LeValCons(256, x, [y, z]);
    LeValCons(256, y, [z]);
    LeValCons(256, z, []);
    assert [x] + [y, z] == [x, y, z] && [y] + [z] == [y, z] && [z] + [] == [z];
  }

  // ---- retargeting -----------------------------------------------------------------------------

  function Clamp(timespan: u32): (c: u32)
    ensures TARGET_TIMESPAN / 4 <= c <= TARGET_TIMESPAN * 4
  {
    if timespan < TARGET_TIMESPAN / 4 then TARGET_TIMESPAN / 4
    else if timespan > TARGET_TIMESPAN * 4 then TARGET_TIMESPAN * 4
    else timespan
  }

  function Scaled(oldTarget: nat, clamped: u32): u256
    requires oldTarget < TWO_256
  {
    ShrBound((oldTarget * clamped) % TWO_256, TARGET_TIMESPAN);
    ((oldTarget * clamped) % TWO_256) / TARGET_TIMESPAN
  }

  /** The bits of the next epoch: the scaled target, capped at the maximum, in compact form. */
  function NewBits(oldBits: u32, timespan: u32): u32 {
    TargetBound(oldBits);
    Encode(Capped(Scaled(Target(oldBits), Clamp(timespan))))
  }

  /**
   * The retarget rule in plain numbers: two weeks are 1209600 seconds, an epoch counts as at least a quarter and at
   * most four times that, and the target is capped at 0xffff * 256^26.
   */
  ghost function Retargeted(oldTarget: nat, timespan: nat): nat {
    var span := if timespan < 302_400 then 302_400 else if timespan > 4_838_400 then 4_838_400 else timespan;
    var scaled := oldTarget * span / 1_209_600;
    if scaled > 0xffff_0000_0000_0000_0000_0000_0000_0000_0000_0000_0000_0000_0000_0000
    then 0xffff_0000_0000_0000_0000_0000_0000_0000_0000_0000_0000_0000_0000_0000
    else scaled
  }

  /** For an old target within the maximum, the new bits are the compact rounding of the retarget rule. */
  lemma RetargetRule(oldBits: u32, timespan: u32)
    requires Target(oldBits) <= 0xffff_0000_0000_0000_0000_0000_0000_0000_0000_0000_0000_0000_0000_0000
    ensures RoundsDownTo(Retargeted(Target(oldBits), timespan), Target(NewBits(oldBits, timespan)))
  {
    NewBitsRounds(oldBits, timespan);
    CappedIdeal(Target(oldBits), timespan);
  }

  /** Clamp, scale and cap are the retarget rule. */
  lemma CappedIdeal(oldTarget: nat, timespan: u32)
    ensures Capped(Ideal(oldTarget, Clamp(timespan))) == Retargeted(oldTarget, timespan)
  {
    IdealIs(oldTarget, Clamp(timespan));
  }

  lemma IdealIs(oldTarget: nat, span: nat)
    ensures Ideal(oldTarget, span) == oldTarget * span / 1_209_600
  {
    var n := oldTarget * span;
    var (q, r) := DivMod(n, TARGET_TIMESPAN);
    DivModUnique(n, 1_209_600, q, r);
  }

  method CalculateNewBits(oldBits: u32, actualTimespan: u32) returns (bits: u32)
    ensures bits == NewBits(oldBits, actualTimespan)
    ensures Target(oldBits) <= MAX_TARGET ==> RoundsDownTo(Retargeted(Target(oldBits), actualTimespan), Target(bits))
  {
    if Target(oldBits) <= MAX_TARGET { RetargetRule(oldBits, actualTimespan); }
    var clamped := Clamp(actualTimespan);
    var oldTarget := TargetFromBits(oldBits);
    TargetBound(oldBits);
    var newTarget := ScaleBytes(oldTarget, clamped);
    var maxTarget := TargetFromBits(MAX_TARGET_BITS);
    MaxTargetIs();
    var above := GtBytes(newTarget, maxTarget);
    var capped := if above then maxTarget else newTarget;
    bits := BitsFromTarget(capped);
  }

  method ScaleBytes(oldTarget: Bytes32, clamped: u32) returns (newTarget: Bytes32)
    ensures BytesVal(oldTarget) < TWO_256 && BytesVal(newTarget) == Scaled(BytesVal(oldTarget), clamped)
  {
    BytesBound(oldTarget);
    var oldLimbs := FromLeBytes(oldTarget);
    var multiplied := MulU32(oldLimbs, clamped);
    var newLimbs := DivU32(multiplied, TARGET_TIMESPAN);
    newTarget := ToLeBytes(newLimbs);
  }

  /** The retarget formula over the unbounded integers. */
  function Ideal(oldTarget: nat, clamped: nat): nat {
    DivMod(oldTarget * clamped, TARGET_TIMESPAN).0
  }

  /** From a target within the maximum the scaling never overflows 256 bits. */
  lemma ScaledExact(oldTarget: nat, clamped: u32)
    requires oldTarget <= MAX_TARGET && clamped <= TARGET_TIMESPAN * 4
    ensures oldTarget < TWO_256 && Scaled(oldTarget, clamped) == Ideal(oldTarget, clamped)
  {
    MulMono(oldTarget, MAX_TARGET, clamped);
    DivModUnique(oldTarget * clamped, TWO_256, 0, oldTarget * clamped);
  }

  function Capped(t: nat): (c: u256)
    ensures c <= MAX_TARGET < TWO_256 / 2
  {
    if t > MAX_TARGET then MAX_TARGET else t
  }

  /**
   * For an old target within the maximum, the new bits decode to the compact rounding of
   * min(max, floor(old * clamp / T)); they never decode above the maximum for any old bits.
   */
  lemma NewBitsRounds(oldBits: u32, timespan: u32)
    ensures Target(NewBits(oldBits, timespan)) <= MAX_TARGET
    ensures Target(oldBits) <= MAX_TARGET ==>
              RoundsDownTo(Capped(Ideal(Target(oldBits), Clamp(timespan))), Target(NewBits(oldBits, timespan)))
  {
    TargetBound(oldBits);
    EncodeRoundsDown(Capped(Scaled(Target(oldBits), Clamp(timespan))));
    if Target(oldBits) <= MAX_TARGET { ScaledExact(Target(oldBits), Clamp(timespan)); }
  }

  /** A shorter epoch never yields an easier target. */
  lemma NewBitsMonotone(oldBits: u32, s: u32, t: u32)
    requires Target(oldBits) <= MAX_TARGET && s <= t
    ensures Target(NewBits(oldBits, s)) <= Target(NewBits(oldBits, t))
  {
    var o := Target(oldBits);
    ScaledExact(o, Clamp(s));
    ScaledExact(o, Clamp(t));
    MulMono(Clamp(s), Clamp(t), o);
    DivMono(o * Clamp(s), o * Clamp(t), TARGET_TIMESPAN);
    EncodeMonotone(Capped(Scaled(o, Clamp(s))), Capped(Scaled(o, Clamp(t))));
  }

  lemma DivMono(x: nat, y: nat, d: nat)
    requires x <= y && d > 0
    ensures x / d <= y / d
  {
    var (p, r) := DivMod(x, d);
    var (q, m) := DivMod(y, d);
    if p > q { MulMono(q + 1, p, d); }
  }

  function SaturatingSub(x: u32, y: u32): u32 {
    if x >= y then x - y else 0
  }

  /** The bits a block at `height` must carry. */
  function RequiredBits(testnet4: bool, height: nat, timestamp: u32, parentTimestamp: u32,
                        epochBits: u32, epochStart: u32): u32
  {
    if epochBits == 0 then 0
    else if height % BLOCKS_PER_EPOCH == 0 then NewBits(epochBits, SaturatingSub(parentTimestamp, epochStart))
    else if testnet4 && timestamp > parentTimestamp && timestamp - parentTimestamp > 20 * 60 then MAX_TARGET_BITS
    else epochBits
  }

  method RequiredBitsForNextBlock(testnet4: bool, height: nat, timestamp: u32, parentTimestamp: u32,
                                  epochBits: u32, epochStart: u32) returns (bits: u32)
    ensures bits == RequiredBits(testnet4, height, timestamp, parentTimestamp, epochBits, epochStart)
  {
    if epochBits == 0 { return 0; }
    if height % BLOCKS_PER_EPOCH == 0 {
      bits := CalculateNewBits(epochBits, SaturatingSub(parentTimestamp, epochStart));
      return bits;
    }
    if testnet4 && timestamp > parentTimestamp && timestamp - parentTimestamp > 20 * 60 {
      return MAX_TARGET_BITS;
    }
    return epochBits;
  }

  /** What a block must carry: a retarget every 2016 blocks, the maximum target twenty minutes late on testnet4, else the epoch's bits. */
  lemma RequiredRule(testnet4: bool, height: nat, timestamp: u32, parentTimestamp: u32, epochBits: u32, epochStart: u32)
    requires epochBits != 0 && Target(epochBits) <= MAX_TARGET
    ensures var bits := RequiredBits(testnet4, height, timestamp, parentTimestamp, epochBits, epochStart);
            if height % 2016 == 0 then
              RoundsDownTo(Retargeted(Target(epochBits), if parentTimestamp > epochStart then parentTimestamp - epochStart else 0), Target(bits))
            else if testnet4 && timestamp > parentTimestamp + 1200 then bits == 0x1d00ffff
            else bits == epochBits
  {
    if height % 2016 == 0 { RetargetRule(epochBits, SaturatingSub(parentTimestamp, epochStart)); }
  }

  /** A seeded epoch within the maximum never requires a target above it. */
  lemma RequiredWithinMax(testnet4: bool, height: nat, timestamp: u32, parentTimestamp: u32,
                          epochBits: u32, epochStart: u32)
    requires Target(epochBits) <= MAX_TARGET
    ensures Target(RequiredBits(testnet4, height, timestamp, parentTimestamp, epochBits, epochStart)) <= MAX_TARGET
  {
    MaxTargetIs();
    assert Target(0) == 0;
    if epochBits != 0 && height % BLOCKS_PER_EPOCH == 0 {
      NewBitsRounds(epochBits, SaturatingSub(parentTimestamp, epochStart));
    }
  }

  /**
   * Backwards timestamps never ease the difficulty: a parent before the epoch start yields the
   * hardest retarget there is, and a block at or before its parent's time keeps the epoch bits.
   */
  lemma BackwardsTimeNeverEases(testnet4: bool, height: nat, timestamp: u32, parentTimestamp: u32,
                                epochBits: u32, epochStart: u32, anySpan: u32)
    requires Target(epochBits) <= MAX_TARGET
    ensures height % BLOCKS_PER_EPOCH == 0 && parentTimestamp <= epochStart && epochBits != 0 ==>
              Target(RequiredBits(testnet4, height, timestamp, parentTimestamp, epochBits, epochStart))
              <= Target(NewBits(epochBits, anySpan))
    ensures height % BLOCKS_PER_EPOCH != 0 && timestamp <= parentTimestamp ==>
              RequiredBits(testnet4, height, timestamp, parentTimestamp, epochBits, epochStart) == epochBits
  {
    NewBitsMonotone(epochBits, 0, anySpan);
  }
}
