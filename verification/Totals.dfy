/** Sums over the values of a map. */
module Totals {
  /** The sum of `w` over the values of `m`. */
  ghost function Total<K, V>(m: map<K, V>, w: V -> nat): nat
    decreases |m|
  {
    if m == map[] then 0
    else
      var k :| k in m;
      w(m[k]) + Total(m - {k}, w)
  }

  /** Any key may be taken out first. */
  lemma {:induction false} TotalRemove<K, V>(m: map<K, V>, w: V -> nat, k: K)
    requires k in m
    ensures Total(m, w) == w(m[k]) + Total(m - {k}, w)
    decreases |m|
  {
    var first :| first in m && Total(m, w) == w(m[first]) + Total(m - {first}, w);
    if first != k {
      TotalRemove(m - {first}, w, k);
      TotalRemove(m - {k}, w, first);
      assert m - {first} - {k} == m - {k} - {first};
    }
  }

  /** Writing one key. */
  lemma TotalWrite<K, V>(m: map<K, V>, w: V -> nat, k: K, v: V)
    ensures Total(m[k := v], w) == w(v) + Total(m, w) - (if k in m then w(m[k]) else 0)
  {
    TotalRemove(m[k := v], w, k);
    if k in m {
      TotalRemove(m, w, k);
      assert m[k := v] - {k} == m - {k};
    } else {
      assert m[k := v] - {k} == m;
    }
  }

  lemma {:induction false} TotalZero<K, V>(m: map<K, V>, w: V -> nat)
    ensures Total(m, w) == 0 <==> forall k :: k in m ==> w(m[k]) == 0
    decreases |m|
  {
    if forall k :: k in m ==> w(m[k]) == 0 {
      if m != map[] {
        var k :| k in m;
        TotalRemove(m, w, k);
        TotalZero(m - {k}, w);
      }
    } else {
      var k :| k in m && w(m[k]) != 0;
      TotalRemove(m, w, k);
    }
  }

  lemma {:induction false} TotalAtMost<K, V>(m: map<K, V>, v: V -> nat, w: V -> nat)
    requires forall x :: v(x) <= w(x)
    ensures Total(m, v) <= Total(m, w)
    decreases |m|
  {
    if m != map[] {
      var k :| k in m;
      TotalRemove(m, v, k);
      TotalRemove(m, w, k);
      TotalAtMost(m - {k}, v, w);
    }
  }

  lemma {:induction false} TotalCount<K, V>(m: map<K, V>, w: V -> nat)
    requires forall k :: k in m ==> w(m[k]) >= 1
    ensures |m| <= Total(m, w)
    decreases |m|
  {
    if m != map[] {
      var k :| k in m;
      TotalRemove(m, w, k);
      TotalCount(m - {k}, w);
    }
  }

  lemma {:induction false} TotalSubmap<K, V>(small: map<K, V>, m: map<K, V>, w: V -> nat)
    requires forall k :: k in small ==> k in m && m[k] == small[k]
    ensures Total(small, w) <= Total(m, w)
    decreases |small|
  {
    if small != map[] {
      var k :| k in small;
      TotalRemove(small, w, k);
      TotalRemove(m, w, k);
      TotalSubmap(small - {k}, m - {k}, w);
    }
  }

  lemma {:induction false} TotalSame<K, V>(m: map<K, V>, v: V -> nat, w: V -> nat)
    requires forall k :: k in m ==> v(m[k]) == w(m[k])
    ensures Total(m, v) == Total(m, w)
    decreases |m|
  {
    if m != map[] {
      var k :| k in m;
      TotalRemove(m, v, k);
      TotalRemove(m, w, k);
      TotalSame(m - {k}, v, w);
    }
  }

  ghost function Chosen<K, V>(m: map<K, V>, sel: V -> bool): map<K, V> {
    map k | k in m && sel(m[k]) :: m[k]
  }

  lemma ChosenWithout<K, V>(m: map<K, V>, sel: V -> bool, k: K)
    requires k in m
    ensures if sel(m[k]) then k in Chosen(m, sel) && Chosen(m, sel)[k] == m[k] && Chosen(m - {k}, sel) == Chosen(m, sel) - {k}
            else Chosen(m - {k}, sel) == Chosen(m, sel)
  {}

  /** Values that count for nothing may be left out. */
  lemma {:induction false} TotalRestrict<K, V>(m: map<K, V>, w: V -> nat, sel: V -> bool)
    requires forall v :: !sel(v) ==> w(v) == 0
    ensures Total(m, w) == Total(Chosen(m, sel), w)
    decreases |m|
  {
    if m != map[] {
      var k :| k in m;
      TotalRemove(m, w, k);
      TotalRestrict(m - {k}, w, sel);
      ChosenWithout(m, sel, k);
      if sel(m[k]) { TotalRemove(Chosen(m, sel), w, k); }
    } else {
      assert Chosen(m, sel) == map[];
    }
  }
}
