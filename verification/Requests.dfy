/** A redemption request: its fields, the approval bitset and the 24-bit fee store. */
module Requests {
  import opened Powers
  import opened U256

  type Script = seq<u8>

  /** The stored miner fee: three little-endian bytes. */
  type Fee24 = b: seq<u8> | |b| == 3 witness [0, 0, 0]

  datatype Status = Pending | Processing

  datatype Request = Request(
    status: Status, amount: nat, serviceFee: nat, script: Script, processingSlot: u32, totalInput: nat,
    reservedCount: nat, commitment: nat, approved: u32, approvalFee: Fee24, signingApproved: bool)

  // ---- bits ------------------------------------------------------------------------------------------

  /** Whether bit `i` is set. */
  function Bit(mask: nat, i: nat): bool {
    if i == 0 then mask % 2 == 1 else Bit(mask / 2, i - 1)
  }

  /** The bitwise `&` of two non-negative integers. */
  function BitAnd(x: nat, y: nat): nat
    decreases x + y
  {
    if x == 0 && y == 0 then 0
    else (if x % 2 == 1 && y % 2 == 1 then 1 else 0) + 2 * BitAnd(x / 2, y / 2)
  }

  lemma OrParts(x: nat, y: nat)
    ensures BitOr(x, y) / 2 == BitOr(x / 2, y / 2)
    ensures BitOr(x, y) % 2 == 1 <==> x % 2 == 1 || y % 2 == 1
  {
    assert BitOr(0, 0) == 0;
  }

  lemma {:induction false} OrBit(x: nat, y: nat, i: nat)
    ensures Bit(BitOr(x, y), i) == (Bit(x, i) || Bit(y, i))
    decreases i
  {
    OrParts(x, y);
    if i > 0 { OrBit(x / 2, y / 2, i - 1); }
  }

  lemma AndParts(x: nat, y: nat)
    ensures BitAnd(x, y) / 2 == BitAnd(x / 2, y / 2)
    ensures BitAnd(x, y) % 2 == 1 <==> x % 2 == 1 && y % 2 == 1
  {
    assert BitAnd(0, 0) == 0;
  }

  lemma {:induction false} AndBit(x: nat, y: nat, i: nat)
    ensures Bit(BitAnd(x, y), i) == (Bit(x, i) && Bit(y, i))
    decreases i
  {
    AndParts(x, y);
    if i > 0 { AndBit(x / 2, y / 2, i - 1); }
  }

  lemma {:induction false} ZeroBits(j: nat)
    ensures !Bit(0, j)
  {
    if j > 0 { ZeroBits(j - 1); }
  }

  lemma {:induction false} SingleBit(i: nat, j: nat)
    ensures Bit(Pow2(i), j) <==> i == j
    decreases i
  {
    if i == 0 {
      assert Pow2(0) == 1;
      if j > 0 { ZeroBits(j - 1); }
    } else {
      Pow2Succ(i - 1);
      if j > 0 { SingleBit(i - 1, j - 1); }
    }
  }

  /** A run of `n` ones. */
  lemma {:induction false} LowBits(n: nat, j: nat)
    ensures Pow2(n) >= 1 && (Bit(Pow2(n) - 1, j) <==> j < n)
    decreases n
  {
    if n == 0 {
      assert Pow2(0) == 1;
      ZeroBits(j);
    } else {
      Pow2Succ(n - 1);
      LowBits(n - 1, if j == 0 then 0 else j - 1);
      assert (Pow2(n) - 1) / 2 == Pow2(n - 1) - 1;
    }
  }

  /** Masks with the same bits are equal. */
  lemma {:induction false} BitsDecide(x: nat, y: nat)
    requires forall i {:trigger Bit(x, i)} :: Bit(x, i) == Bit(y, i)
    ensures x == y
    decreases x + y
  {
    if x != 0 || y != 0 {
      assert Bit(x, 0) == Bit(y, 0);
      forall i: nat ensures Bit(x / 2, i) == Bit(y / 2, i) {
        assert Bit(x, i + 1) == Bit(y, i + 1);
      }
      BitsDecide(x / 2, y / 2);
    }
  }

  /** A mask of `n` bits has no bit at or above `n`, and conversely. */
  lemma {:induction false} HighBits(mask: nat, n: nat, j: nat)
    requires mask < Pow2(n) && n <= j
    ensures !Bit(mask, j)
    decreases j
  {
    if n == 0 {
      assert Pow2(0) == 1;
      ZeroBits(j);
    } else {
      Pow2Succ(n - 1);
      HighBits(mask / 2, n - 1, j - 1);
    }
  }

  lemma {:induction false} BelowBits(mask: nat, n: nat)
    requires forall j {:trigger Bit(mask, j)} :: j >= n ==> !Bit(mask, j)
    ensures mask < Pow2(n)
    decreases n
  {
    if n == 0 {
      forall j: nat ensures Bit(mask, j) == Bit(0, j) { ZeroBits(j); }
      BitsDecide(mask, 0);
    } else {
      forall j: nat | j >= n - 1 ensures !Bit(mask / 2, j) {
        assert !Bit(mask, j + 1);
      }
      BelowBits(mask / 2, n - 1);
      Pow2Succ(n - 1);
    }
  }

  // ---- approvals ---------------------------------------------------------------------------------------

  /** The mask a fully approved request must contain. */
  function RequiredMask(count: nat): u32
    requires 0 < count <= 32
  {
    if count == 32 then 0xffff_ffff
    else MaskFits(count); Pow2(count) - 1
  }

  lemma MaskFits(count: nat)
    requires count <= 32
    ensures 1 <= Pow2(count) <= 0x1_0000_0000
  {
    Pow2Mono(count, 32);
    Pow2Values();
  }

  predicate IsApproved(r: Request, i: nat) {
    i < 32 && BitAnd(r.approved, Pow2(i)) != 0
  }

  predicate AllApproved(r: Request) {
    0 < r.reservedCount <= 32 && BitAnd(r.approved, RequiredMask(r.reservedCount)) == RequiredMask(r.reservedCount)
  }

  /** Sets bit `i`, and the global flag when that completes the set. */
  function MarkApproved(r: Request, i: nat): Request
    requires i < 32
  {
    var mask := BitOr(r.approved, Pow2(i));
    MaskStays32(r.approved, i);
    var marked := r.(approved := mask);
    if AllApproved(marked) then marked.(signingApproved := true) else marked
  }

  lemma MaskStays32(mask: u32, i: nat)
    requires i < 32
    ensures BitOr(mask, Pow2(i)) < 0x1_0000_0000
  {
    Pow2Values();
    forall j: nat | j >= 32 ensures !Bit(BitOr(mask, Pow2(i)), j) {
      OrBit(mask, Pow2(i), j);
      HighBits(mask, 32, j);
      SingleBit(i, j);
    }
    BelowBits(BitOr(mask, Pow2(i)), 32);
  }

  /** Testing with a one-bit mask tests the bit. */
  lemma ApprovedIsBit(r: Request, i: nat)
    requires i < 32
    ensures IsApproved(r, i) <==> Bit(r.approved, i)
  {
    var both := BitAnd(r.approved, Pow2(i));
    forall j: nat ensures Bit(both, j) == (j == i && Bit(r.approved, i)) {
      AndBit(r.approved, Pow2(i), j);
      SingleBit(i, j);
    }
    if both == 0 {
      ZeroBits(i);
      assert !Bit(both, i);
    } else if !Bit(r.approved, i) {
      forall j: nat ensures Bit(both, j) == Bit(0, j) { ZeroBits(j); }
      BitsDecide(both, 0);
    }
  }

  /** Bits `0..n` are all set. */
  ghost predicate AllBits(mask: nat, n: nat) {
    forall i: nat :: i < n ==> Bit(mask, i)
  }

  /** The mask comparison says that every input below the count is approved. */
  lemma AllApprovedIff(r: Request)
    requires 0 < r.reservedCount <= 32
    ensures AllApproved(r) <==> AllBits(r.approved, r.reservedCount)
  {
    var want := RequiredMask(r.reservedCount);
    var both := BitAnd(r.approved, want);
    Pow2Values();
    MaskFits(r.reservedCount);
    assert want == Pow2(r.reservedCount) - 1;
    forall i: nat ensures Bit(both, i) == (i < r.reservedCount && Bit(r.approved, i)) && (Bit(want, i) <==> i < r.reservedCount) {
      AndBit(r.approved, want, i);
      LowBits(r.reservedCount, i);
    }
    if AllApproved(r) {
      forall i: nat | i < r.reservedCount ensures Bit(r.approved, i) {
        assert Bit(both, i) == Bit(want, i);
      }
    }
    if AllBits(r.approved, r.reservedCount) {
      BitsDecide(both, want);
    }
  }

  /** Marking adds exactly one input; the flag is raised exactly when the set is complete, and never lowered. */
  lemma MarkApprovedAdds(r: Request, i: nat, j: nat)
    requires i < 32 && j < 32
    ensures IsApproved(MarkApproved(r, i), j) <==> IsApproved(r, j) || j == i
    ensures MarkApproved(r, i) == r.(approved := MarkApproved(r, i).approved, signingApproved := MarkApproved(r, i).signingApproved)
    ensures MarkApproved(r, i).signingApproved <==> r.signingApproved || AllApproved(MarkApproved(r, i))
    ensures MarkApproved(r, i).approved != 0
  {
    var m := MarkApproved(r, i);
    ApprovedIsBit(m, j);
    ApprovedIsBit(r, j);
    OrBit(r.approved, Pow2(i), j);
    SingleBit(i, j);
    OrBit(r.approved, Pow2(i), i);
    SingleBit(i, i);
    ZeroBits(i);
  }

  // ---- the pinned fee -----------------------------------------------------------------------------------

  /** The low three little-endian bytes, refused above 24 bits. */
  function StoreFee(value: nat): (r: Fee24)
    requires value <= 0xff_ffff
    ensures LoadFee(r) == value && r[0] == value % 256 && r[2] == value / 65536
  {
    var rest := value / 256;
    [value % 256, rest % 256, rest / 256]
  }

  function LoadFee(b: Fee24): nat {
    var low: nat, mid: nat, high: nat := b[0], b[1], b[2];
    low + 256 * mid + 65536 * high
  }
}
