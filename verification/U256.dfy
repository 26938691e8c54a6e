/** 256-bit arithmetic on four 64-bit limbs, least significant first. */
module U256 {
  import opened Powers

  const W: nat := 0x1_0000_0000_0000_0000
  const TWO_256: nat := 0x1_0000_0000_0000_0000_0000_0000_0000_0000_0000_0000_0000_0000_0000_0000_0000_0000

  type u8 = x: nat | x < 0x100
  type u16 = x: nat | x < 0x1_0000
  type u32 = x: nat | x < 0x1_0000_0000
  type u64 = x: nat | x < 0x1_0000_0000_0000_0000
  type u256 = x: nat | x < 0x1_0000_0000_0000_0000_0000_0000_0000_0000_0000_0000_0000_0000_0000_0000_0000_0000

  type Limbs = s: seq<u64> | |s| == 4 witness [0, 0, 0, 0]
  type Bytes32 = s: seq<u8> | |s| == 32 witness [0, 0, 0, 0, 0, 0, 0, 0, 0, 0, 0, 0, 0, 0, 0, 0] + [0, 0, 0, 0, 0, 0, 0, 0, 0, 0, 0, 0, 0, 0, 0, 0]

  const ZERO: Limbs := [0, 0, 0, 0]

  /** The integer four limbs stand for. */
  function Val(v: Limbs): nat {
    LeVal(W, v)
  }

  /** The integer 32 little-endian bytes stand for. */
  function BytesVal(b: Bytes32): nat {
    LeVal(256, b)
  }

  lemma WPower(i: nat)
    ensures Pow(W, i) == Pow2(64 * i)
  {
    Pow2Values();
    PowPow(2, 64, i);
  }

  lemma WPow4()
    ensures Pow(W, 4) == TWO_256
  {
    WPower(4);
    Pow2Values();
  }

  lemma ValBound(v: Limbs)
    ensures Val(v) < TWO_256
  {
    WPow4();
    LeValBound(W, v);
  }

  lemma BytePow(k: nat)
    ensures Pow(256, k) == Pow2(8 * k)
  {
    Pow2Values();
    PowPow(2, 8, k);
  }

  lemma BytesBound(b: Bytes32)
    ensures BytesVal(b) < TWO_256
  {
    BytePow(32);
    Pow2Values();
    LeValBound(256, b);
  }

  // ---- bytes and limbs -----------------------------------------------------------

  /** One limb read from eight little-endian bytes. */
  function LimbOf(b: seq<u8>): (x: u64)
    requires |b| == 8
    ensures x == LeVal(256, b)
  {
    BytePow(8);
    Pow2Values();
    LeValBound(256, b);
    LeVal(256, b)
  }

  function LimbBytes(x: u64): (b: seq<u8>)
    ensures |b| == 8 && LeVal(256, b) == x
  {
    Pow2To64();
    BytesOf(x, 8)
  }

  lemma FourLimbs(x: nat, y: nat, z: nat, t: nat)
    ensures LeVal(W, [x, y, z, t]) == x + (y + (z + t * W) * W) * W
  {
    LeValCons(W, x, [y, z, t]);
    LeValCons(W, y, [z, t]);
    LeValCons(W, z, [t]);
    LeValCons(W, t, []);
    assert [x] + [y, z, t] == [x, y, z, t] && [y] + [z, t] == [y, z, t];
    assert [z] + [t] == [z, t] && [t] + [] == [t];
  }

  lemma EightPower()
    ensures Pow(256, 8) == W
  {
    BytePow(8);
    Pow2To64();
  }

  lemma FourEights(a: seq<u8>, b: seq<u8>, c: seq<u8>, d: seq<u8>)
    requires |a| == |b| == |c| == |d| == 8
    ensures LeVal(256, a + (b + (c + d))) == LeVal(W, [LeVal(256, a), LeVal(256, b), LeVal(256, c), LeVal(256, d)])
  {
    LeValConcat(256, a, b + (c + d));
    LeValConcat(256, b, c + d);
    LeValConcat(256, c, d);
    EightPower();
    FourLimbs(LeVal(256, a), LeVal(256, b), LeVal(256, c), LeVal(256, d));
  }

  /** Reading 32 bytes as four limbs keeps the value. */
  function FromLeBytes(b: Bytes32): (v: Limbs)
    ensures Val(v) == BytesVal(b)
  {
    assert b == b[0..8] + (b[8..16] + (b[16..24] + b[24..32]));
    FourEights(b[0..8], b[8..16], b[16..24], b[24..32]);
    [LimbOf(b[0..8]), LimbOf(b[8..16]), LimbOf(b[16..24]), LimbOf(b[24..32])]
  }

  /** Writing four limbs as 32 bytes keeps the value. */
  function ToLeBytes(v: Limbs): (b: Bytes32)
    ensures BytesVal(b) == Val(v)
  {
    var b: Bytes32 := Join(LimbBytes(v[0]), LimbBytes(v[1]), LimbBytes(v[2]), LimbBytes(v[3]));
    assert BytesVal(b) == Val(v) by {
      FourEights(LimbBytes(v[0]), LimbBytes(v[1]), LimbBytes(v[2]), LimbBytes(v[3]));
      assert v == [v[0], v[1], v[2], v[3]];
    }
    b
  }

  function Join(a: seq<u8>, b: seq<u8>, c: seq<u8>, d: seq<u8>): Bytes32
    requires |a| == |b| == |c| == |d| == 8
  {
    a + (b + (c + d))
  }

  /** Bytes and limbs are two spellings of one value: each conversion undoes the other. */
  lemma LimbBytesRoundTrip(b: Bytes32, v: Limbs)
    ensures ToLeBytes(FromLeBytes(b)) == b
    ensures FromLeBytes(ToLeBytes(v)) == v
  {
    BytesInjective(ToLeBytes(FromLeBytes(b)), b);
    LimbsInjective(FromLeBytes(ToLeBytes(v)), v);
  }

  lemma BytesInjective(a: Bytes32, b: Bytes32)
    requires BytesVal(a) == BytesVal(b)
    ensures a == b
  {
    LeValInjective(256, a, b);
  }

  lemma LimbsInjective(a: Limbs, b: Limbs)
    requires Val(a) == Val(b)
    ensures a == b
  {
    LeValInjective(W, a, b);
  }

  /** The 32 little-endian bytes of a 256-bit value. */
  function Le32(n: u256): (b: Bytes32)
    ensures BytesVal(b) == n
  {
    Pow2Values();
    BytesOf(n, 32)
  }

  /** The `len` low bytes of a value they can hold. */
  function BytesOf(n: nat, len: nat): (b: seq<u8>)
    requires n < Pow2(8 * len)
    ensures |b| == len && LeVal(256, b) == n
  {
    BytePow(len);
    ToLeVal(256, n, len);
    ToLe(256, n, len)
  }

  // ---- addition and subtraction ----------------------------------------------------

  function OverflowingAdd(x: u64, y: u64): (r: (u64, u64))
    ensures r.0 + r.1 * W == x + y && r.1 <= 1
  {
    if x + y < W then (x + y, 0) else (x + y - W, 1)
  }

  function OverflowingSub(x: u64, y: u64): (r: (u64, u64))
    ensures r.0 + y == x + r.1 * W && r.1 <= 1
  {
    if x >= y then (x - y, 0) else (x + W - y, 1)
  }

  lemma CarryStep(p: nat, r: nat, c: nat, x: nat, y: nat, a: nat, b: nat, d: nat, c': nat)
    requires r + c * p == x + y && d + c' * W == a + b + c
    ensures (r + d * p) + c' * (W * p) == (x + a * p) + (y + b * p)
  {
    assert d * p + (c' * W) * p == (a + b + c) * p;
  }

  method Add(a: Limbs, b: Limbs) returns (result: Limbs)
    ensures Val(result) == (Val(a) + Val(b)) % TWO_256
  {
    result := [0, 0, 0, 0];
    var carry: u64 := 0;
    for i := 0 to 4
      invariant carry <= 1
      invariant LeVal(W, result[..i]) + carry * Pow(W, i) == LeVal(W, a[..i]) + LeVal(W, b[..i])
    {
      var (s1, c1) := OverflowingAdd(a[i], b[i]);
      var (s2, c2) := OverflowingAdd(s1, carry);
      CarryStep(Pow(W, i), LeVal(W, result[..i]), carry, LeVal(W, a[..i]), LeVal(W, b[..i]),
                a[i], b[i], s2, c1 + c2);
      ghost var before := result[..i];
      result := result[i := s2];
      assert result[..i] == before;
      LeValTake(W, result, i); LeValTake(W, a, i); LeValTake(W, b, i);
      carry := c1 + c2;
    }
    assert result[..4] == result && a[..4] == a && b[..4] == b;
    WPow4();
    ValBound(result);
    DivModUnique(Val(a) + Val(b), TWO_256, carry, Val(result));
  }

  /** Subtraction wraps modulo 2^256; without wrap-around it is exact. */
  method Sub(a: Limbs, b: Limbs) returns (result: Limbs)
    ensures Val(result) == (Val(a) - Val(b)) % TWO_256
    ensures Val(a) >= Val(b) ==> Val(result) == Val(a) - Val(b)
  {
    result := [0, 0, 0, 0];
    var borrow: u64 := 0;
    for i := 0 to 4
      invariant borrow <= 1
      invariant LeVal(W, a[..i]) + borrow * Pow(W, i) == LeVal(W, result[..i]) + LeVal(W, b[..i])
    {
      var (s1, c1) := OverflowingSub(a[i], b[i]);
      var (s2, c2) := OverflowingSub(s1, borrow);
      BorrowStep(Pow(W, i), LeVal(W, a[..i]), borrow, LeVal(W, result[..i]), LeVal(W, b[..i]),
                 a[i], s2, b[i], c1 + c2);
      ghost var before := result[..i];
      result := result[i := s2];
      assert result[..i] == before;
      LeValTake(W, result, i); LeValTake(W, a, i); LeValTake(W, b, i);
      borrow := c1 + c2;
    }
    assert result[..4] == result && a[..4] == a && b[..4] == b;
    WPow4();
    ValBound(result);
    ValBound(a);
    ghost var wraps: int := 0 - borrow;
    DivModUnique(Val(a) - Val(b), TWO_256, wraps, Val(result));
    if Val(a) >= Val(b) { DivModUnique(Val(a) - Val(b), TWO_256, 0, Val(a) - Val(b)); }
  }

  lemma BorrowStep(p: nat, x: nat, c: nat, r: nat, y: nat, a: nat, d: nat, b: nat, c': nat)
    requires x + c * p == r + y && d + b + c == a + c' * W
    ensures (x + a * p) + c' * (W * p) == (r + d * p) + (y + b * p)
  {
    assert a * p + (c' * W) * p == (d + b + c) * p;
  }

  // ---- comparison -------------------------------------------------------------------

  method Gt(a: Limbs, b: Limbs) returns (r: bool)
    ensures r <==> Val(a) > Val(b)
  {
    for i := 4 downto 0
      invariant a[i..] == b[i..]
    {
      if a[i] > b[i] { LeValOrder(W, a, b, i); return true; }
      if a[i] < b[i] { LeValOrder(W, b, a, i); return false; }
      assert a[i..] == [a[i]] + a[i + 1..] && b[i..] == [b[i]] + b[i + 1..];
    }
    assert a[0..] == a && b[0..] == b;
    return false;
  }

  method Gte(a: Limbs, b: Limbs) returns (r: bool)
    ensures r <==> Val(a) >= Val(b)
  {
    for i := 4 downto 0
      invariant a[i..] == b[i..]
    {
      if a[i] > b[i] { LeValOrder(W, a, b, i); return true; }
      if a[i] < b[i] { LeValOrder(W, b, a, i); return false; }
      assert a[i..] == [a[i]] + a[i + 1..] && b[i..] == [b[i]] + b[i + 1..];
    }
    assert a[0..] == a && b[0..] == b;
    return true;
  }

  method GtBytes(a: Bytes32, b: Bytes32) returns (r: bool)
    ensures r <==> BytesVal(a) > BytesVal(b)
  {
    for i := 32 downto 0
      invariant a[i..] == b[i..]
    {
      if a[i] > b[i] { LeValOrder(256, a, b, i); return true; }
      if a[i] < b[i] { LeValOrder(256, b, a, i); return false; }
      assert a[i..] == [a[i]] + a[i + 1..] && b[i..] == [b[i]] + b[i + 1..];
    }
    assert a[0..] == a && b[0..] == b;
    return false;
  }

  // ---- shifting -----------------------------------------------------------------------

  /** `x << k` on a 64-bit word. */
  function Shl64(x: u64, k: nat): u64
    requires k < 64
  {
    (x * Pow2(k)) % W
  }

  /** `x >> k` on a 64-bit word. */
  function Shr64(x: u64, k: nat): (r: u64)
    requires 0 < k <= 64
    ensures r <= x
  {
    var (q, r) := DivMod(x, Pow2(k));
    QuotientBelow(x, Pow2(k), q, r);
    q
  }

  lemma ShrBound(x: nat, p: nat)
    requires p > 0
    ensures x / p <= x
  {
    var (q, r) := DivMod(x, p);
    QuotientBelow(x, p, q, r);
  }

  lemma QuotientBelow(x: nat, p: nat, q: nat, r: nat)
    requires p > 0 && x == q * p + r
    ensures q <= x
  {
    MulMono(1, p, q);
  }

  lemma WordSplit(k: nat)
    requires k < 64
    ensures Pow2(k) * Pow2(64 - k) == W
  {
    Pow2Add(k, 64 - k);
    Pow2Values();
  }

  /** The bits a left shift drops are those a right shift by the complement keeps. */
  lemma ShiftSplit(x: u64, k: nat)
    requires k < 64
    ensures x * Pow2(k) == Shl64(x, k) + Shr64(x, 64 - k) * W
    ensures Shl64(x, k) % Pow2(k) == 0 && Shr64(x, 64 - k) < Pow2(k)
  {
    WordSplit(k);
    SplitArith(x, Pow2(k), Pow2(64 - k));
  }

  lemma SplitArith(x: nat, b: nat, c: nat)
    requires b > 0 && c > 0 && b * c == W && x < W
    ensures x * b == (x * b) % W + (x / c) * W
    ensures (x * b) % W % b == 0 && x / c < b
  {
    var q, r := x / c, x % c;
    assert x == q * c + r;
    SplitProduct(x, b, c, q, r);
    DivModUnique(x * b, W, q, r * b);
    DivModUnique(r * b, b, r, 0);
    DivBelow(q, r, c, b);
  }

  lemma SplitProduct(x: nat, b: nat, c: nat, q: nat, r: nat)
    requires b > 0 && b * c == W && x == q * c + r && r < c
    ensures x * b == q * W + r * b && r * b < W
  {
    assert (q * c) * b == q * (b * c);
    MulMono(r + 1, c, b);
  }

  lemma ShlFits(x: u64, y: u64, k: nat)
    requires k < 64
    ensures BitOr(Shl64(x, k), Shr64(y, 64 - k)) == Shl64(x, k) + Shr64(y, 64 - k) < W
  {
    ShiftSplit(x, k);
    ShiftSplit(y, k);
    BitOrDisjoint(Shl64(x, k), Shr64(y, 64 - k), k);
    WordSplit(k);
    DivModUnique(W, Pow2(k), Pow2(64 - k), 0);
    MultipleGap(Shl64(x, k), W, Pow2(k));
  }

  /** What the bits of limb `j` contribute to the limb above it after a shift by `k < 64`. */
  function SpillInto(v: Limbs, j: nat, k: nat): u64
    requires j <= 4 && k < 64
  {
    if j == 0 then 0 else Shr64(v[j - 1], 64 - k)
  }


  /**
   * One limb of the shift. `low` is the value of the limbs below limb `j`, `acc` the value
   * of the result limbs filled so far, `p` the weight of result limb being filled and `s`
   * the weight the whole-limb part of the shift adds.
   */
  lemma ShlStep(v: Limbs, j: nat, k: nat, p: nat, s: nat, q: nat, acc: nat, low: nat, d: u64)
    requires j < 4 && k < 64 && p == q * s
    requires acc + SpillInto(v, j, k) * p == low * Pow2(k) * s
    requires d == Shl64(v[j], k) + SpillInto(v, j, k)
    ensures (acc + d * p) + SpillInto(v, j + 1, k) * (W * p) == (low + v[j] * q) * Pow2(k) * s
  {
    ShiftSplit(v[j], k);
    ShlArith(Shl64(v[j], k), Shr64(v[j], 64 - k), Pow2(k), p, s, q, acc, low, v[j], SpillInto(v, j, k));
  }

  lemma ShlArith(lo: nat, hi: nat, b: nat, p: nat, s: nat, q: nat, acc: nat, low: nat, x: nat, spill: nat)
    requires p == q * s && x * b == lo + hi * W
    requires acc + spill * p == low * b * s
    ensures (acc + (lo + spill) * p) + hi * (W * p) == (low + x * q) * b * s
  {
    assert (lo + spill) * p == lo * p + spill * p;
    assert hi * (W * p) == (hi * W) * p;
    assert lo * p + (hi * W) * p == (x * b) * p;
    assert (x * b) * (q * s) == (x * q) * b * s by {
      assert (x * b) * q == (x * q) * b;
      assert (x * b) * (q * s) == ((x * b) * q) * s;
    }
    assert (low + x * q) * b == low * b + (x * q) * b;
    assert (low * b + (x * q) * b) * s == low * b * s + (x * q) * b * s;
  }

  /** Result limbs below `i` hold the shifted value of the source limbs used so far, less the pending spill. */
  ghost predicate Shifted(v: Limbs, limbShift: nat, bitShift: nat, i: nat, result: Limbs)
    requires limbShift <= i <= 4 && bitShift < 64
  {
    LeVal(W, result[..i]) + SpillInto(v, i - limbShift, bitShift) * Pow(W, i)
    == LeVal(W, v[..i - limbShift]) * Pow2(bitShift) * Pow(W, limbShift)
  }

  lemma ShiftedStart(v: Limbs, limbShift: nat, bitShift: nat)
    requires limbShift < 4 && bitShift < 64
    ensures Shifted(v, limbShift, bitShift, limbShift, [0, 0, 0, 0])
  {
    var zeros: Limbs := [0, 0, 0, 0];
    LeValZeros(W, zeros[..limbShift]);
    assert v[..0] == [];
  }

  method Shl(v: Limbs, shift: u32) returns (result: Limbs)
    ensures Val(result) == (Val(v) * Pow2(shift)) % TWO_256
  {
    if shift >= 256 {
      ShlOut(v, shift);
      LeValZeros(W, [0, 0, 0, 0]);
      return ZERO;
    }
    var limbShift := shift / 64;
    var bitShift := shift % 64;
    result := [0, 0, 0, 0];
    ShiftedStart(v, limbShift, bitShift);
    for i := limbShift to 4
      invariant forall m :: i <= m < 4 ==> result[m] == 0
      invariant Shifted(v, limbShift, bitShift, i, result)
    {
      ghost var before := result;
      result := result[i := Shl64(v[i - limbShift], bitShift)];
      if bitShift > 0 && i > limbShift {
        ShlFits(v[i - limbShift], v[i - limbShift - 1], bitShift);
        result := result[i := BitOr(result[i], Shr64(v[i - limbShift - 1], 64 - bitShift))];
      }
      SpillZero(v, i - limbShift, bitShift);
      ShlLoopStep(v, limbShift, bitShift, i, before, result);
    }
    ShlEnd(v, limbShift, bitShift, result);
  }

  lemma ShlEnd(v: Limbs, limbShift: nat, bitShift: nat, result: Limbs)
    requires limbShift < 4 && bitShift < 64 && Shifted(v, limbShift, bitShift, 4, result)
    ensures Val(result) == (Val(v) * Pow2(limbShift * 64 + bitShift)) % TWO_256
  {
    assert result[..4] == result;
    ValBound(result);
    ShlDropsTop(v, limbShift, bitShift, Val(result), SpillInto(v, 4 - limbShift, bitShift));
  }

  lemma ShlLoopStep(v: Limbs, limbShift: nat, bitShift: nat, i: nat, before: Limbs, result: Limbs)
    requires limbShift <= i < 4 && bitShift < 64
    requires result[..i] == before[..i]
    requires result[i] == Shl64(v[i - limbShift], bitShift) + SpillInto(v, i - limbShift, bitShift)
    requires Shifted(v, limbShift, bitShift, i, before)
    ensures Shifted(v, limbShift, bitShift, i + 1, result)
  {
    var j := i - limbShift;
    PowAdd(W, j, limbShift);
    ShlStep(v, j, bitShift, Pow(W, i), Pow(W, limbShift), Pow(W, j), LeVal(W, before[..i]), LeVal(W, v[..j]), result[i]);
    LeValTake(W, result, i);
    LeValTake(W, v, j);
  }

  lemma SpillZero(v: Limbs, j: nat, k: nat)
    requires j <= 4 && k < 64
    ensures k == 0 ==> SpillInto(v, j, k) == 0
  {
    if k == 0 && j > 0 {
      Pow2Values();
      DivModUnique(v[j - 1], W, 0, v[j - 1]);
    }
  }

  lemma ShlOut(v: Limbs, shift: nat)
    requires shift >= 256
    ensures (Val(v) * Pow2(shift)) % TWO_256 == 0
  {
    Pow2Values();
    Pow2Add(shift - 256, 256);
    var t := Val(v) * Pow2(shift - 256);
    assert Val(v) * Pow2(shift) == t * TWO_256;
    DivModUnique(t * TWO_256, TWO_256, t, 0);
  }

  /** The limbs shifted past the top weigh a multiple of 2^256. */
  lemma ShlDropsTop(v: Limbs, limbShift: nat, bitShift: nat, r: nat, spill: nat)
    requires limbShift < 4 && bitShift < 64 && r < TWO_256
    requires r + spill * Pow(W, 4) == LeVal(W, v[..4 - limbShift]) * Pow2(bitShift) * Pow(W, limbShift)
    ensures r == (Val(v) * Pow2(64 * limbShift + bitShift)) % TWO_256
  {
    var j := 4 - limbShift;
    var low, top, b, s := LeVal(W, v[..j]), LeVal(W, v[j..]), Pow2(bitShift), Pow(W, limbShift);
    assert v == v[..j] + v[j..];
    LeValConcat(W, v[..j], v[j..]);
    PowAdd(W, j, limbShift);
    WPow4();
    WPower(limbShift);
    Pow2Add(64 * limbShift, bitShift);
    DropArith(low, top, b, s, Pow(W, j), r, spill);
    DivModUnique(Val(v) * Pow2(64 * limbShift + bitShift), TWO_256, spill + top * b, r);
  }

  lemma DropArith(low: nat, top: nat, b: nat, s: nat, q: nat, r: nat, spill: nat)
    requires q * s == TWO_256 && r + spill * TWO_256 == low * b * s
    ensures (low + top * q) * (s * b) == (spill + top * b) * TWO_256 + r
  {
    assert (low + top * q) * (s * b) == low * (s * b) + (top * q) * (s * b);
    assert low * (s * b) == low * b * s;
    assert (top * q) * (s * b) == (top * b) * (q * s) by {
      assert (top * q) * (s * b) == ((top * q) * s) * b;
      assert (top * q) * s == top * (q * s);
    }
  }

  // ---- leading zeros ---------------------------------------------------------------------

  /** Leading zero bits of one 64-bit word. */
  function LeadingZeros64(x: u64): (k: nat)
    ensures k <= 64
  {
    Pow2Values();
    BitLenBelow(x, 64);
    64 - BitLen(x)
  }

  /** `256 - r` is the number of significant bits. */
  method Clz(v: Limbs) returns (r: u32)
    ensures r <= 256
    ensures Val(v) == 0 <==> r == 256
    ensures r < 256 ==> Pow2(255 - r) <= Val(v) < Pow2(256 - r)
  {
    for i := 4 downto 0
      invariant forall m :: i <= m < 4 ==> v[m] == 0
    {
      if v[i] != 0 {
        TopLimb(v, i);
        return (3 - i) * 64 + LeadingZeros64(v[i]);
      }
    }
    LeValZeros(W, v);
    return 256;
  }

  lemma TopLimb(v: Limbs, i: nat)
    requires i < 4 && v[i] != 0 && forall m :: i < m < 4 ==> v[m] == 0
    ensures 1 <= BitLen(v[i]) <= 64
    ensures Pow2(64 * i + BitLen(v[i]) - 1) <= Val(v) < Pow2(64 * i + BitLen(v[i]))
  {
    WordLen(v[i]);
    TopSplit(v, i);
    TopScale(v[i], BitLen(v[i]), 64 * i, LeVal(W, v[..i]));
  }

  lemma WordLen(x: u64)
    requires x > 0
    ensures 1 <= BitLen(x) <= 64 && Pow2(BitLen(x) - 1) <= x < Pow2(BitLen(x))
  {
    Pow2Values();
    BitLenBelow(x, 64);
    BitLenBounds(x);
  }

  lemma TopScale(x: nat, n: nat, k: nat, below: nat)
    requires n > 0 && Pow2(n - 1) <= x < Pow2(n) && below < Pow2(k)
    ensures Pow2(k + n - 1) <= below + x * Pow2(k) < Pow2(k + n)
  {
    TopArith(x, Pow2(n - 1), Pow2(n), Pow2(k), below);
    Pow2Add(n - 1, k);
    Pow2Add(n, k);
  }

  lemma TopSplit(v: Limbs, i: nat)
    requires i < 4 && forall m :: i < m < 4 ==> v[m] == 0
    ensures Val(v) == LeVal(W, v[..i]) + v[i] * Pow2(64 * i) && LeVal(W, v[..i]) < Pow2(64 * i)
  {
    assert v == v[..i + 1] + v[i + 1..];
    LeValConcat(W, v[..i + 1], v[i + 1..]);
    LeValZeros(W, v[i + 1..]);
    LeValTake(W, v, i);
    LeValBound(W, v[..i]);
    WPower(i);
  }

  lemma TopArith(x: nat, lo: nat, hi: nat, p: nat, below: nat)
    requires lo <= x < hi && below < p
    ensures lo * p <= below + x * p < hi * p
  {
    MulMono(lo, x, p);
    MulMono(x + 1, hi, p);
  }

  // ---- division ------------------------------------------------------------------------------

  /** No bit below position `s` is set. */
  ghost predicate BitsFrom(q: Limbs, s: nat) {
    && (forall j :: 0 <= j < 4 && 64 * (j + 1) <= s ==> q[j] == 0)
    && (forall j :: 0 <= j < 4 && 64 * j <= s < 64 * (j + 1) ==> q[j] % Pow2(s - 64 * j) == 0)
  }

  /** Setting bit `s` of a quotient that so far has only higher bits adds 2^s. */
  method SetBit(q: Limbs, s: u32) returns (r: Limbs)
    requires s < 256 && BitsFrom(q, s + 1)
    ensures Val(r) == Val(q) + Pow2(s) && BitsFrom(r, s)
  {
    var limb := s / 64;
    var bit := s % 64;
    BitFree(q, s);
    WordRoom(q[limb], bit);
    r := q[limb := BitOr(q[limb], Shl64(1, bit))];
    SetBitValue(q, r, s);
  }

  lemma BitFree(q: Limbs, s: nat)
    requires s < 256 && BitsFrom(q, s + 1)
    ensures q[s / 64] % Pow2(s % 64 + 1) == 0
  {
    var limb, bit := s / 64, s % 64;
    if bit == 63 {
      assert q[limb] == 0;
    } else {
      assert s + 1 - 64 * limb == bit + 1;
    }
  }

  lemma SetBitValue(q: Limbs, r: Limbs, s: nat)
    requires s < 256 && BitsFrom(q, s + 1)
    requires r == q[s / 64 := r[s / 64]] && r[s / 64] == q[s / 64] + Pow2(s % 64)
    requires r[s / 64] % Pow2(s % 64) == 0
    ensures Val(r) == Val(q) + Pow2(s) && BitsFrom(r, s)
  {
    var limb, bit := s / 64, s % 64;
    LeValUpdate(W, q, limb, r[limb]);
    WPower(limb);
    Pow2Add(bit, 64 * limb);
  }

  /** A word whose bits up to and including `bit` are clear has room for that bit. */
  lemma WordRoom(x: u64, bit: nat)
    requires bit < 64 && x % Pow2(bit + 1) == 0
    ensures Shl64(1, bit) == Pow2(bit)
    ensures BitOr(x, Pow2(bit)) == x + Pow2(bit) < W && (x + Pow2(bit)) % Pow2(bit) == 0
  {
    var p := Pow2(bit);
    Pow2Succ(bit);
    BitOrDisjoint(x, p, bit + 1);
    Pow2Values();
    Pow2Add(bit + 1, 63 - bit);
    RoomArith(x, p, Pow2(63 - bit));
  }

  lemma RoomArith(x: nat, p: nat, m: nat)
    requires p > 0 && m > 0 && (2 * p) * m == W && x < W && x % (2 * p) == 0
    ensures x + p < W && p < W && (1 * p) % W == p && (x + p) % p == 0 && x % p == 0
  {
    DivModUnique(W, 2 * p, m, 0);
    MultipleGap(x, W, 2 * p);
    DivModUnique(p, W, 0, p);
    var q := x / (2 * p);
    HalfMultiple(x, p, q);
  }

  lemma HalfMultiple(x: nat, p: nat, q: nat)
    requires p > 0 && x == q * (2 * p)
    ensures (x + p) % p == 0 && x % p == 0
  {
    assert x == (2 * q) * p;
    DivModUnique(x, p, 2 * q, 0);
    DivModUnique(x + p, p, 2 * q + 1, 0);
  }

  lemma LowerBits(q: Limbs, s: nat)
    requires s < 256 && BitsFrom(q, s + 1)
    ensures BitsFrom(q, s)
  {
    var limb, bit := s / 64, s % 64;
    BitFree(q, s);
    Pow2Succ(bit);
    HalfMultiple(q[limb], Pow2(bit), q[limb] / (2 * Pow2(bit)));
  }

  /** Shift-subtract division is exact floor division; a zero divisor gives zero. */
  method Div(a: Limbs, b: Limbs) returns (quotient: Limbs)
    ensures Val(quotient) == if Val(b) == 0 then 0 else Val(a) / Val(b)
  {
    LeValZeros(W, [0, 0, 0, 0]);
    if b == [0, 0, 0, 0] { return ZERO; }
    NonZero(b);
    var ge := Gte(a, b);
    if !ge {
      DivModUnique(Val(a), Val(b), 0, Val(a));
      return ZERO;
    }
    var aClz := Clz(a);
    var bClz := Clz(b);
    if bClz < aClz {
      ClzOrder(Val(a), Val(b), aClz, bClz);
      assert false;
      return ZERO;
    }
    var shiftMax := bClz - aClz;
    var remainder := a;
    quotient := [0, 0, 0, 0];
    StartBound(Val(a), Val(b), aClz, bClz);
    for s := shiftMax + 1 downto 0
      invariant Val(a) == Val(quotient) * Val(b) + Val(remainder)
      invariant Val(remainder) < Val(b) * Pow2(s)
      invariant BitsFrom(quotient, s)
    {
      var shifted := Shl(b, s);
      ShiftExact(Val(b), s, aClz, bClz);
      ShiftSubtract(Val(a), Val(b), Val(quotient), Val(remainder), s);
      var fits := Gte(remainder, shifted);
      if fits {
        remainder := Sub(remainder, shifted);
        quotient := SetBit(quotient, s);
      } else {
        LowerBits(quotient, s);
      }
    }
    DivDone(Val(a), Val(b), Val(quotient), Val(remainder));
  }

  lemma ShiftSubtract(a: nat, b: nat, q: nat, r: nat, s: nat)
    requires a == q * b + r && r < b * Pow2(s + 1)
    ensures r >= b * Pow2(s) ==> a == (q + Pow2(s)) * b + (r - b * Pow2(s)) && r - b * Pow2(s) < b * Pow2(s)
  {
    Pow2Succ(s);
    assert b * (2 * Pow2(s)) == b * Pow2(s) + b * Pow2(s);
    assert (q + Pow2(s)) * b == q * b + b * Pow2(s);
  }

  lemma DivDone(a: nat, b: nat, q: nat, r: nat)
    requires b > 0 && a == q * b + r && r < b * Pow2(0)
    ensures q == a / b
  {
    assert Pow2(0) == 1;
    DivModUnique(a, b, q, r);
  }

  lemma NonZero(b: Limbs)
    requires b != [0, 0, 0, 0]
    ensures Val(b) > 0
  {
    LeValZeros(W, [0, 0, 0, 0]);
    if Val(b) == 0 { LimbsInjective(b, [0, 0, 0, 0]); }
  }

  lemma ClzOrder(a: nat, b: nat, ac: nat, bc: nat)
    requires bc < ac <= 256
    requires ac == 256 <==> a == 0
    requires ac < 256 ==> a < Pow2(256 - ac)
    requires Pow2(255 - bc) <= b
    ensures a < b
  {
    if ac < 256 { Pow2Mono(256 - ac, 255 - bc); }
  }

  lemma StartBound(a: nat, b: nat, ac: nat, bc: nat)
    requires ac <= bc < 256 && a < Pow2(256 - ac) && Pow2(255 - bc) <= b
    ensures a < b * Pow2(bc - ac + 1)
  {
    Pow2Add(255 - bc, bc - ac + 1);
    MulMono(Pow2(255 - bc), b, Pow2(bc - ac + 1));
  }

  lemma ScaleBelow(b: nat, p: nat, m: nat)
    requires b < m && p > 0
    ensures b * p < m * p
  {}

  lemma SmallMod(x: nat)
    requires x < TWO_256
    ensures x % TWO_256 == x
  {
    DivModUnique(x, TWO_256, 0, x);
  }

  /** The two powers a shifted divisor stays below. */
  lemma ShiftRoom(s: nat, bc: nat)
    requires s <= bc < 256
    ensures Pow2(256 - bc) * Pow2(s) <= TWO_256
  {
    Pow2Add(256 - bc, s);
    Pow2Mono(256 - bc + s, 256);
    Pow2Values();
  }

  lemma ShiftExact(b: nat, s: nat, ac: nat, bc: nat)
    requires ac <= bc < 256 && s <= bc - ac && b < Pow2(256 - bc)
    ensures (b * Pow2(s)) % TWO_256 == b * Pow2(s)
  {
    ShiftRoom(s, bc);
    ScaleBelow(b, Pow2(s), Pow2(256 - bc));
    SmallMod(b * Pow2(s));
  }

  // ---- multiplication and division by a 32-bit word --------------------------------------------

  /** The low and high words of the 128-bit `x * b + c`. */
  function MulWord(x: u64, b: u32, c: u64): (r: (u64, u64))
    requires c <= b
    ensures r.0 + r.1 * W == x * b + c && r.1 <= b
  {
    var product: nat := x * b + c;
    MulMono(x as int + 1, W, b);
    ProductHigh(product, b);
    (product % W, product / W)
  }

  lemma MulLoopStep(a: Limbs, b: u32, i: nat, before: Limbs, result: Limbs, c: u64, c': u64)
    requires i < 4 && result[..i] == before[..i]
    requires LeVal(W, before[..i]) + c * Pow(W, i) == LeVal(W, a[..i]) * b
    requires result[i] + c' * W == a[i] * b + c
    ensures LeVal(W, result[..i + 1]) + c' * Pow(W, i + 1) == LeVal(W, a[..i + 1]) * b
  {
    MulStep(Pow(W, i), LeVal(W, result[..i]), c, LeVal(W, a[..i]), a[i], b, result[i], c');
    LeValTake(W, result, i);
    LeValTake(W, a, i);
  }

  method MulU32(a: Limbs, b: u32) returns (result: Limbs)
    ensures Val(result) == (Val(a) * b) % TWO_256
  {
    result := [0, 0, 0, 0];
    var carry: u64 := 0;
    for i := 0 to 4
      invariant carry <= b
      invariant LeVal(W, result[..i]) + carry * Pow(W, i) == LeVal(W, a[..i]) * b
    {
      var (lo, hi) := MulWord(a[i], b, carry);
      ghost var before := result;
      result := result[i := lo];
      MulLoopStep(a, b, i, before, result, carry, hi);
      carry := hi;
    }
    assert result[..4] == result && a[..4] == a;
    WPow4();
    ValBound(result);
    DivModUnique(Val(a) * b, TWO_256, carry, Val(result));
  }

  lemma ProductHigh(product: nat, b: nat)
    requires product < W * (b + 1)
    ensures product / W <= b
  {
    var q, r := product / W, product % W;
    DivBelow(q, r, W, b + 1);
  }

  lemma MulStep(p: nat, r: nat, c: nat, x: nat, a: nat, b: nat, d: nat, c': nat)
    requires r + c * p == x * b && d + c' * W == a * b + c
    ensures (r + d * p) + c' * (W * p) == (x + a * p) * b
  {
    assert d * p + (c' * W) * p == (a * b + c) * p;
    assert (x + a * p) * b == x * b + (a * b) * p;
  }

  /** Quotient and remainder of the 128-bit `(r << 64) | x` by `b`; the quotient fits a word. */
  function DivWord(r: nat, x: u64, b: u32): (res: (u64, nat))
    requires r < b
    ensures r * W + x == res.0 * b + res.1 && res.1 < b
  {
    Dividend(r, x);
    var (q, m) := DivMod(BitOr(r * W, x), b);
    DigitFits(r, x, b, q, m);
    (q, m)
  }

  lemma Dividend(r: nat, x: u64)
    ensures BitOr(r * W, x) == r * W + x
  {
    Pow2To64();
    MulDivMod(r, 0, W);
    BitOrDisjoint(r * W, x, 64);
  }

  lemma DivLoopStep(a: Limbs, b: u32, i: nat, before: Limbs, result: Limbs, r0: nat, r: nat)
    requires i < 4 && b > 0 && result[i + 1..] == before[i + 1..]
    requires LeVal(W, a[i + 1..]) == LeVal(W, before[i + 1..]) * b + r0
    requires r0 * W + a[i] == result[i] * b + r
    ensures LeVal(W, a[i..]) == LeVal(W, result[i..]) * b + r
  {
    LeValCons(W, a[i], a[i + 1..]);
    LeValCons(W, result[i], result[i + 1..]);
    assert a[i..] == [a[i]] + a[i + 1..] && result[i..] == [result[i]] + result[i + 1..];
    DivStep(LeVal(W, a[i + 1..]), LeVal(W, result[i + 1..]), b, r0, a[i], result[i], r);
  }

  /** Schoolbook division by one word. The program panics on a zero divisor. */
  method DivU32(a: Limbs, b: u32) returns (result: Limbs)
    requires b > 0
    ensures Val(result) == Val(a) / b
  {
    result := [0, 0, 0, 0];
    var remainder: nat := 0;
    for i := 4 downto 0
      invariant remainder < b
      invariant LeVal(W, a[i..]) == LeVal(W, result[i..]) * b + remainder
    {
      var (q, r) := DivWord(remainder, a[i], b);
      ghost var before := result;
      result := result[i := q];
      DivLoopStep(a, b, i, before, result, remainder, r);
      remainder := r;
    }
    assert result[0..] == result && a[0..] == a;
    DivModUnique(Val(a), b, Val(result), remainder);
  }

  lemma DigitFits(r: nat, a: u64, b: nat, q: nat, m: nat)
    requires r < b && r * W + a == q * b + m
    ensures q < W
  {
    MulMono(r + 1, b, W);
    DivBelow(q, m, b, W);
  }

  lemma DivStep(hi: nat, qhi: nat, b: nat, r0: nat, d: nat, q: nat, r: nat)
    requires b > 0 && hi == qhi * b + r0 && r0 * W + d == q * b + r
    ensures d + hi * W == (q + qhi * W) * b + r
  {
    assert (qhi * b) * W == (qhi * W) * b;
  }
}
