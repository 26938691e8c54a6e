/** The median-time-past rule: the middle of up to eleven sorted timestamps. */
module MedianTime {
  import opened U256

  const WINDOW: nat := 11

  ghost predicate Sorted(s: seq<u32>) {
    forall i, j :: 0 <= i < j < |s| ==> s[i] <= s[j]
  }

  function Insert(s: seq<u32>, x: u32): (r: seq<u32>)
    ensures |r| == |s| + 1
  {
    if |s| == 0 || s[|s| - 1] <= x then s + [x]
    else Insert(s[..|s| - 1], x) + [s[|s| - 1]]
  }

  function Sort(s: seq<u32>): (r: seq<u32>)
    ensures |r| == |s|
  {
    if |s| == 0 then [] else Insert(Sort(s[..|s| - 1]), s[|s| - 1])
  }

  ghost predicate AtMost(m: multiset<u32>, y: u32) {
    forall z :: z in m ==> z <= y
  }

  lemma SortedSnoc(t: seq<u32>, y: u32)
    requires Sorted(t) && AtMost(multiset(t), y)
    ensures Sorted(t + [y]) && multiset(t + [y]) == multiset(t) + multiset{y}
  {
    forall i | 0 <= i < |t| ensures t[i] <= y { assert t[i] in multiset(t); }
  }

  /** A non-empty sorted sequence is its sorted front and its largest element. */
  lemma SortedFront(s: seq<u32>)
    requires Sorted(s) && |s| > 0
    ensures Sorted(s[..|s| - 1]) && multiset(s) == multiset(s[..|s| - 1]) + multiset{s[|s| - 1]}
    ensures AtMost(multiset(s[..|s| - 1]), s[|s| - 1])
  {
    var front := s[..|s| - 1];
    assert s == front + [s[|s| - 1]];
    forall z | z in multiset(front) ensures z <= s[|s| - 1] {
      assert z in front;
    }
  }

  lemma {:induction false} InsertSorted(s: seq<u32>, x: u32)
    requires Sorted(s)
    ensures Sorted(Insert(s, x)) && multiset(Insert(s, x)) == multiset(s) + multiset{x}
  {
    if |s| == 0 {
      SortedSnoc(s, x);
    } else {
      SortedFront(s);
      if s[|s| - 1] <= x {
        SortedSnoc(s, x);
      } else {
        InsertSorted(s[..|s| - 1], x);
        SortedSnoc(Insert(s[..|s| - 1], x), s[|s| - 1]);
      }
    }
  }

  lemma SortStep(s: seq<u32>, t: seq<u32>, n: nat)
    requires |s| == n + 1 && t == Sort(s[..n]) && Sorted(t) && multiset(t) == multiset(s[..n])
    ensures Sorted(Sort(s)) && multiset(Sort(s)) == multiset(s)
  {
    InsertSorted(t, s[n]);
    FrontMultiset(s, n);
  }

  lemma {:induction false} SortSorts(s: seq<u32>)
    ensures Sorted(Sort(s)) && multiset(Sort(s)) == multiset(s)
  {
    if |s| > 0 {
      SortSorts(s[..|s| - 1]);
      SortStep(s, Sort(s[..|s| - 1]), |s| - 1);
    }
  }

  /** A multiset has one sorted arrangement. */
  lemma {:induction false} SortedUnique(a: seq<u32>, b: seq<u32>)
    requires Sorted(a) && Sorted(b) && multiset(a) == multiset(b)
    ensures a == b
  {
    SameLength(a, b);
    if |a| > 0 {
      var n := |a| - 1;
      LastIsMax(a, b);
      LastIsMax(b, a);
      FrontMultiset(a, n);
      FrontMultiset(b, n);
      SortedUnique(a[..n], b[..n]);
      JoinLast(a, b, n);
    }
  }

  lemma SameLength(a: seq<u32>, b: seq<u32>)
    requires multiset(a) == multiset(b)
    ensures |a| == |b|
  {
    assert |a| == |multiset(a)| && |b| == |multiset(b)|;
  }

  lemma JoinLast(a: seq<u32>, b: seq<u32>, n: nat)
    requires |a| == |b| == n + 1 && a[..n] == b[..n] && a[n] == b[n]
    ensures a == b
  {
    assert a == a[..n] + [a[n]] && b == b[..n] + [b[n]];
  }

  lemma FrontMultiset(s: seq<u32>, n: nat)
    requires |s| == n + 1
    ensures multiset(s[..n]) == multiset(s) - multiset{s[n]} && multiset(s) == multiset(s[..n]) + multiset{s[n]}
  {
    assert s == s[..n] + [s[n]];
  }

  lemma LastIsMax(a: seq<u32>, b: seq<u32>)
    requires Sorted(a) && |a| > 0 && |b| > 0 && multiset(a) == multiset(b)
    ensures b[|b| - 1] <= a[|a| - 1]
  {
    assert b[|b| - 1] in multiset(b);
    assert b[|b| - 1] in a;
  }

  /** Element n/2 of the sorted timestamps. */
  function Median(window: seq<u32>): u32
    requires |window| > 0
  {
    Sort(window)[|window| / 2]
  }

  /** How many entries are at most `y`. */
  function CountUpTo(s: seq<u32>, y: u32): (n: nat)
    ensures n <= |s|
  {
    if |s| == 0 then 0 else CountUpTo(s[..|s| - 1], y) + (if s[|s| - 1] <= y then 1 else 0)
  }

  /** How many entries are at least `y`. */
  function CountFrom(s: seq<u32>, y: u32): (n: nat)
    ensures n <= |s|
  {
    if |s| == 0 then 0 else CountFrom(s[..|s| - 1], y) + (if s[|s| - 1] >= y then 1 else 0)
  }

  lemma {:induction false} CountsInsert(s: seq<u32>, x: u32, y: u32)
    ensures CountUpTo(Insert(s, x), y) == CountUpTo(s, y) + (if x <= y then 1 else 0)
    ensures CountFrom(Insert(s, x), y) == CountFrom(s, y) + (if x >= y then 1 else 0)
  {
    if |s| > 0 && s[|s| - 1] > x { CountsInsert(s[..|s| - 1], x, y); }
  }

  /** Sorting changes no count. */
  lemma {:induction false} CountsSort(s: seq<u32>, y: u32)
    ensures CountUpTo(Sort(s), y) == CountUpTo(s, y) && CountFrom(Sort(s), y) == CountFrom(s, y)
  {
    if |s| > 0 {
      CountsSort(s[..|s| - 1], y);
      CountsInsert(Sort(s[..|s| - 1]), s[|s| - 1], y);
    }
  }

  /** In a sorted sequence everything up to index `m` is at most the entry there, everything from it at least. */
  lemma {:induction false} CountsAround(s: seq<u32>, m: nat, n: nat)
    requires Sorted(s) && m < |s| && n <= |s|
    ensures CountUpTo(s[..n], s[m]) >= (if n <= m then n else m + 1)
    ensures CountFrom(s[..n], s[m]) >= (if n <= m then 0 else n - m)
    decreases n
  {
    if n > 0 {
      assert s[..n][..n - 1] == s[..n - 1];
      CountsAround(s, m, n - 1);
    }
  }

  /**
   * The median is element n/2 of any sorted arrangement: more than half of the window is at or below it, at least
   * half at or above it.
   */
  lemma MedianIs(window: seq<u32>, arranged: seq<u32>)
    requires |window| > 0 && Sorted(arranged) && multiset(arranged) == multiset(window)
    ensures |arranged| == |window| && Median(window) == arranged[|window| / 2]
    ensures Median(window) in window
    ensures 2 * CountUpTo(window, Median(window)) > |window| && 2 * CountFrom(window, Median(window)) >= |window|
  {
    SortSorts(window);
    SortedUnique(Sort(window), arranged);
    assert Median(window) in multiset(arranged);
    MedianRank(window);
  }

  lemma RankAt(s: seq<u32>, m: nat)
    requires Sorted(s) && m < |s|
    ensures CountUpTo(s, s[m]) >= m + 1 && CountFrom(s, s[m]) >= |s| - m
  {
    assert s[..|s|] == s;
    CountsAround(s, m, |s|);
  }

  lemma MedianRank(window: seq<u32>)
    requires |window| > 0
    ensures 2 * CountUpTo(window, Median(window)) > |window| && 2 * CountFrom(window, Median(window)) >= |window|
  {
    SortSorts(window);
    RankAt(Sort(window), |window| / 2);
    CountsSort(window, Median(window));
  }

  /** The prefix below `i` is in final position. */
  ghost predicate Settled(s: seq<u32>, i: nat) {
    && i <= |s|
    && (forall p, q :: 0 <= p < q < |s| && p < i ==> s[p] <= s[q])
  }

  lemma SwapKeeps(s: seq<u32>, i: nat, m: nat, t: seq<u32>)
    requires Settled(s, i) && i <= m < |s| && (forall j :: i <= j < |s| ==> s[m] <= s[j])
    requires t == s[i := s[m]][m := s[i]]
    ensures Settled(t, i + 1) && multiset(t) == multiset(s)
  {
    forall p, q | 0 <= p < q < |t| && p < i + 1 ensures t[p] <= t[q] {
      if p < i { assert t[p] == s[p]; }
    }
  }

  /** The selection sort runs in place on the copied window. */
  method SortInPlace(s: array<u32>)
    modifies s
    ensures Sorted(s[..]) && multiset(s[..]) == multiset(old(s[..]))
  {
    var n := s.Length;
    for i := 0 to n
      invariant Settled(s[..], i) && multiset(s[..]) == multiset(old(s[..]))
    {
      var m := SmallestFrom(s, i);
      ghost var before := s[..];
      s[i], s[m] := s[m], s[i];
      assert s[..] == before[i := before[m]][m := before[i]];
      SwapKeeps(before, i, m, s[..]);
    }
  }

  method SmallestFrom(s: array<u32>, i: nat) returns (m: nat)
    requires i < s.Length
    ensures i <= m < s.Length && forall k :: i <= k < s.Length ==> s[m] <= s[k]
  {
    m := i;
    for j := i + 1 to s.Length
      invariant i <= m < s.Length && forall k :: i <= k < j ==> s[m] <= s[k]
    {
      if s[j] < s[m] { m := j; }
    }
  }

  method MedianTimestamp(window: seq<u32>) returns (median: u32)
    requires 0 < |window| <= WINDOW
    ensures median == Median(window)
  {
    var n := |window|;
    var s := new u32[n](i requires 0 <= i < |window| => window[i]);
    assert s[..] == window;
    SortInPlace(s);
    MedianIs(window, s[..]);
    return s[n / 2];
  }
}
