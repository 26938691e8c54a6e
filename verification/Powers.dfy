/** Powers, the bit operations of a machine word, and little-endian digit sequences. */
module Powers {

  function Pow(b: nat, e: nat): (p: nat)
    requires b > 0
    ensures p > 0
  {
    if e == 0 then 1 else MulPos(b, Pow(b, e - 1)); b * Pow(b, e - 1)
  }

  lemma MulPos(x: nat, y: nat)
    requires x > 0 && y > 0
    ensures x * y > 0
  {}

  lemma MulMono(x: nat, y: nat, k: nat)
    requires x <= y
    ensures x * k <= y * k
  {}

  lemma MulAssoc(x: int, y: int, z: int)
    ensures (x * y) * z == x * (y * z)
  {}

  lemma {:induction false} PowAdd(b: nat, m: nat, n: nat)
    requires b > 0
    ensures Pow(b, m + n) == Pow(b, m) * Pow(b, n)
  {
    if m > 0 {
      PowAdd(b, m - 1, n);
      MulAssoc(b, Pow(b, m - 1), Pow(b, n));
    }
  }

  lemma {:induction false} PowPow(b: nat, m: nat, n: nat)
    requires b > 0
    ensures Pow(Pow(b, m), n) == Pow(b, m * n)
  {
    if n > 0 {
      PowPow(b, m, n - 1);
      assert m * n == m + m * (n - 1);
      PowAdd(b, m, m * (n - 1));
    }
  }

  function Pow2(e: nat): (p: nat)
    ensures p > 0
  {
    Pow(2, e)
  }

  lemma Pow2Add(m: nat, n: nat)
    ensures Pow2(m + n) == Pow2(m) * Pow2(n)
  {
    PowAdd(2, m, n);
  }

  lemma Pow2Succ(m: nat)
    ensures Pow2(m + 1) == 2 * Pow2(m)
  {}

  lemma {:induction false} Pow2Mono(m: nat, n: nat)
    requires m <= n
    ensures Pow2(m) <= Pow2(n)
    decreases n
  {
    if m < n { Pow2Mono(m, n - 1); }
  }

  lemma Pow2Values()
    ensures Pow2(8) == 0x100 && Pow2(16) == 0x1_0000 && Pow2(24) == 0x100_0000
    ensures Pow2(32) == 0x1_0000_0000
    ensures Pow2(64) == 0x1_0000_0000_0000_0000
    ensures Pow2(256) == 0x1_0000_0000_0000_0000_0000_0000_0000_0000_0000_0000_0000_0000_0000_0000_0000_0000
  {
    Pow2To64();
    Pow2Add(64, 64);
    Pow2Add(128, 128);
  }

  lemma Pow2To64()
    ensures Pow2(8) == 0x100 && Pow2(16) == 0x1_0000 && Pow2(24) == 0x100_0000
    ensures Pow2(32) == 0x1_0000_0000 && Pow2(64) == 0x1_0000_0000_0000_0000
  {
    assert Pow2(8) == 0x100;
    Pow2Add(8, 8);
    Pow2Add(16, 8);
    Pow2Add(16, 16);
    Pow2Add(32, 32);
  }

  // ---- quotients and remainders -------------------------------------------------

  lemma DivModUnique(n: int, d: int, q: int, r: int)
    requires d > 0 && n == q * d + r && 0 <= r < d
    ensures n / d == q && n % d == r
  {
    var q', r' := n / d, n % d;
    assert q' * d + r' == n && 0 <= r' < d;
    QuotientUnique(d, q, r, q', r');
  }

  /** Quotient and remainder together. */
  function DivMod(n: nat, d: nat): (r: (nat, nat))
    requires d > 0
    ensures n == r.0 * d + r.1 && r.1 < d && r.0 == n / d && r.1 == n % d
  {
    (n / d, n % d)
  }

  lemma QuotientUnique(d: int, q: int, r: int, q': int, r': int)
    requires d > 0 && q * d + r == q' * d + r' && 0 <= r < d && 0 <= r' < d
    ensures q == q' && r == r'
  {
    if q > q' {
      MulMonoInt(q' + 1, q, d);
    } else if q < q' {
      MulMonoInt(q + 1, q', d);
    }
  }

  lemma MulMonoInt(x: int, y: int, k: nat)
    requires x <= y
    ensures x * k <= y * k
  {}

  /** Taking a quotient by `d` and then by `e` is one quotient by the product. */
  lemma DivDiv(n: nat, d: nat, e: nat)
    requires d > 0 && e > 0
    ensures d * e > 0 && n / d / e == n / (d * e)
  {
    MulPos(d, e);
    var q, r := n / d, n % d;
    var q2, r2 := q / e, q % e;
    assert n == q2 * (d * e) + (r2 * d + r) by {
      assert n == q * d + r;
      assert q * d == (q2 * e + r2) * d;
      assert (q2 * e + r2) * d == q2 * (d * e) + r2 * d;
    }
    assert r2 * d + r < d * e by {
      MulMono(r2 + 1, e, d);
      assert (r2 + 1) * d == r2 * d + d;
    }
    DivModUnique(n, d * e, q2, r2 * d + r);
  }

  lemma MulDivMod(x: nat, k: nat, d: nat)
    requires d > 0
    ensures (x * d + k) % d == k % d && (x * d + k) / d == x + k / d
  {
    var q, r := k / d, k % d;
    assert x * d + k == (x + q) * d + r by { assert (x + q) * d == x * d + q * d; }
    DivModUnique(x * d + k, d, x + q, r);
  }

  /** A multiple of `d` strictly below another multiple of `d` is below it by at least `d`. */
  lemma MultipleGap(x: nat, y: nat, d: nat)
    requires d > 0 && x % d == 0 && y % d == 0 && x < y
    ensures x + d <= y
  {
    var p, q := x / d, y / d;
    assert x == p * d && y == q * d;
    if q <= p { MulMono(q, p, d); assert false; }
    MulMono(p + 1, q, d);
    assert (p + 1) * d == p * d + d;
  }

  // ---- bitwise or and bit length, on the binary digits ---------------------------

  /** The bitwise `|` of two non-negative integers. */
  function BitOr(x: nat, y: nat): nat
    decreases x + y
  {
    if x == 0 && y == 0 then 0
    else (if x % 2 == 1 || y % 2 == 1 then 1 else 0) + 2 * BitOr(x / 2, y / 2)
  }

  /** Or-ing values that occupy disjoint bit ranges is addition. */
  lemma {:induction false} BitOrDisjoint(x: nat, y: nat, k: nat)
    requires x % Pow2(k) == 0 && y < Pow2(k)
    ensures BitOr(x, y) == x + y
    decreases k, x
  {
    if x == 0 && y == 0 {
    } else if k == 0 {
      assert Pow2(0) == 1;
      assert y == 0;
      DivModUnique(x / 2, 1, x / 2, 0);
      BitOrDisjoint(x / 2, 0, 0);
    } else {
      var p := Pow2(k - 1);
      var q := x / (2 * p);
      assert x == q * (2 * p);
      assert x == 2 * (q * p) + 0;
      DivModUnique(x, 2, q * p, 0);
      DivModUnique(q * p, p, q, 0);
      assert y / 2 < p;
      BitOrDisjoint(x / 2, y / 2, k - 1);
    }
  }

  /** Number of significant binary digits. */
  function BitLen(x: nat): nat {
    if x == 0 then 0 else 1 + BitLen(x / 2)
  }

  lemma {:induction false} BitLenBounds(x: nat)
    requires x > 0
    ensures BitLen(x) > 0 && Pow2(BitLen(x) - 1) <= x < Pow2(BitLen(x))
  {
    if x == 1 {
      assert BitLen(1) == 1 + BitLen(0);
    } else {
      BitLenBounds(x / 2);
    }
  }

  lemma BitLenBelow(x: nat, k: nat)
    requires x < Pow2(k)
    ensures BitLen(x) <= k
  {
    if x > 0 && BitLen(x) > k {
      BitLenBounds(x);
      Pow2Mono(k, BitLen(x) - 1);
    }
  }

  // ---- little-endian digits ------------------------------------------------------

  ghost predicate DigitsBelow(base: nat, s: seq<nat>) {
    forall i :: 0 <= i < |s| ==> s[i] < base
  }

  /** The value of a little-endian digit sequence. */
  function LeVal(base: nat, s: seq<nat>): nat
    requires base > 0
  {
    if |s| == 0 then 0
    else LeVal(base, s[..|s| - 1]) + s[|s| - 1] * Pow(base, |s| - 1)
  }

  lemma LeValPush(base: nat, s: seq<nat>, d: nat)
    requires base > 0
    ensures LeVal(base, s + [d]) == LeVal(base, s) + d * Pow(base, |s|)
  {
    assert (s + [d])[..|s|] == s;
  }

  lemma LeValTake(base: nat, s: seq<nat>, i: nat)
    requires base > 0 && i < |s|
    ensures LeVal(base, s[..i + 1]) == LeVal(base, s[..i]) + s[i] * Pow(base, i)
  {
    assert s[..i + 1] == s[..i] + [s[i]];
    LeValPush(base, s[..i], s[i]);
  }

  lemma {:induction false} LeValBound(base: nat, s: seq<nat>)
    requires base > 0 && DigitsBelow(base, s)
    ensures LeVal(base, s) < Pow(base, |s|)
  {
    if |s| > 0 {
      var k := |s| - 1;
      LeValBound(base, s[..k]);
      OrderArith(0, LeVal(base, s[..k]), base, s[k], Pow(base, k));
    }
  }

  lemma ConcatArith(x: nat, d: nat, q: nat, p: nat)
    ensures (x + d * q) * p == x * p + d * (q * p)
  {
    MulAssoc(d, q, p);
  }

  /** Concatenation puts the second sequence `|s|` digits higher. */
  lemma {:induction false} LeValConcat(base: nat, s: seq<nat>, t: seq<nat>)
    requires base > 0
    ensures LeVal(base, s + t) == LeVal(base, s) + LeVal(base, t) * Pow(base, |s|)
    decreases |t|
  {
    if |t| == 0 {
      assert s + t == s;
    } else {
      var k := |t| - 1;
      LeValConcat(base, s, t[..k]);
      assert s + t == (s + t[..k]) + [t[k]];
      LeValPush(base, s + t[..k], t[k]);
      PowAdd(base, k, |s|);
      ConcatArith(LeVal(base, t[..k]), t[k], Pow(base, k), Pow(base, |s|));
    }
  }

  /** The first digit at which two equally long sequences differ, from the top, decides the order. */
  lemma {:induction false} LeValOrder(base: nat, a: seq<nat>, b: seq<nat>, i: nat)
    requires base > 0 && |a| == |b| && i < |a|
    requires DigitsBelow(base, a) && DigitsBelow(base, b)
    requires a[i + 1..] == b[i + 1..] && a[i] > b[i]
    ensures LeVal(base, a) > LeVal(base, b)
  {
    var n := i + 1;
    assert a == a[..n] + a[n..] && b == b[..n] + b[n..];
    LeValConcat(base, a[..n], a[n..]);
    LeValConcat(base, b[..n], b[n..]);
    LeValTake(base, a, i);
    LeValTake(base, b, i);
    LeValBound(base, b[..i]);
    OrderArith(LeVal(base, a[..i]), LeVal(base, b[..i]), a[i], b[i], Pow(base, i));
  }

  lemma OrderArith(x: nat, y: nat, d: nat, e: nat, p: nat)
    requires d > e && y < p
    ensures x + d * p > y + e * p
  {
    MulMono(e + 1, d, p);
  }

  lemma {:induction false} LeValZeros(base: nat, s: seq<nat>)
    requires base > 0 && forall i :: 0 <= i < |s| ==> s[i] == 0
    ensures LeVal(base, s) == 0
  {
    if |s| > 0 { LeValZeros(base, s[..|s| - 1]); }
  }

  lemma LeValPadded(base: nat, lo: seq<nat>, s: seq<nat>, hi: seq<nat>)
    requires base > 0
    requires (forall i :: 0 <= i < |lo| ==> lo[i] == 0) && (forall i :: 0 <= i < |hi| ==> hi[i] == 0)
    ensures LeVal(base, lo + s + hi) == LeVal(base, s) * Pow(base, |lo|)
  {
    var t, n := lo + s + hi, |lo| + |s|;
    assert t[..n] == lo + s;
    assert forall i :: n <= i < |t| ==> t[i] == hi[i - n];
    LeValTrim(base, t, n);
    LeValConcat(base, lo, s);
    LeValZeros(base, lo);
  }

  lemma {:induction false} LeValTrim(base: nat, s: seq<nat>, n: nat)
    requires base > 0 && n <= |s| && forall i :: n <= i < |s| ==> s[i] == 0
    ensures LeVal(base, s) == LeVal(base, s[..n])
    decreases |s|
  {
    if n == |s| {
      assert s[..n] == s;
    } else {
      var t := s[..|s| - 1];
      LeValTrim(base, t, n);
      assert t[..n] == s[..n];
    }
  }

  /** Replacing one digit changes the value by the difference at that position. */
  lemma {:induction false} LeValUpdate(base: nat, s: seq<nat>, i: nat, d: nat)
    requires base > 0 && i < |s| && s[i] <= d
    ensures LeVal(base, s[i := d]) == LeVal(base, s) + (d - s[i]) * Pow(base, i)
  {
    var t := s[i := d];
    var k := |s| - 1;
    if i == k {
      assert t[..k] == s[..k];
      assert d * Pow(base, k) == s[k] * Pow(base, k) + (d - s[k]) * Pow(base, k);
    } else {
      assert t[..k] == s[..k][i := d];
      LeValUpdate(base, s[..k], i, d);
    }
  }

  lemma LeValCons(base: nat, d: nat, t: seq<nat>)
    requires base > 0
    ensures LeVal(base, [d] + t) == d + LeVal(base, t) * base
  {
    LeValConcat(base, [d], t);
    LeValPush(base, [], d);
    assert [] + [d] == [d];
    assert Pow(base, 1) == base * Pow(base, 0);
  }

  lemma DivBelow(q: nat, r: nat, d: nat, p: nat)
    requires q * d + r < d * p
    ensures q < p
  {
    if q >= p { MulMono(p, q, d); }
  }

  /** The `len` low digits of `n`. */
  function ToLe(base: nat, n: nat, len: nat): (s: seq<nat>)
    requires base > 0
    ensures |s| == len && DigitsBelow(base, s)
    decreases len
  {
    if len == 0 then [] else
    var (q, r) := DivMod(n, base);
    [r] + ToLe(base, q, len - 1)
  }

  lemma {:induction false} ToLeVal(base: nat, n: nat, len: nat)
    requires base > 0 && n < Pow(base, len)
    ensures LeVal(base, ToLe(base, n, len)) == n
    decreases len
  {
    if len > 0 {
      var (q, r) := DivMod(n, base);
      DivBelow(q, r, base, Pow(base, len - 1));
      ToLeVal(base, q, len - 1);
      LeValCons(base, r, ToLe(base, q, len - 1));
    }
  }

  /** Equal values of equally long proper digit sequences mean equal sequences. */
  lemma {:induction false} LeValInjective(base: nat, a: seq<nat>, b: seq<nat>)
    requires base > 0 && |a| == |b| && DigitsBelow(base, a) && DigitsBelow(base, b)
    requires LeVal(base, a) == LeVal(base, b)
    ensures a == b
  {
    if |a| > 0 {
      var n := |a| - 1;
      if a[n] > b[n] { LeValOrder(base, a, b, n); }
      if a[n] < b[n] { LeValOrder(base, b, a, n); }
      LeValInjective(base, a[..n], b[..n]);
      assert a == a[..n] + [a[n]] && b == b[..n] + [b[n]];
    }
  }
}
