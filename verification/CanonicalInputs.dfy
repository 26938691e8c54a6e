/** The canonical order: approvals accept the reserved records in any order, and only them. */
module CanonicalInputs {
  import opened U256
  import opened Requests
  import opened Ledgers
  import opened Reservations
  import opened LedgerRuns
  import opened Approvals

  /** Amount downwards, then transaction id upwards, then output index upwards. */
  predicate InOrder(a: ReservedInput, b: ReservedInput) {
    if a.amount != b.amount then a.amount > b.amount
    else if a.outpoint.txid != b.outpoint.txid then a.outpoint.txid < b.outpoint.txid
    else a.outpoint.vout <= b.outpoint.vout
  }

  ghost predicate Ordered(s: seq<ReservedInput>) {
    forall i, j :: 0 <= i < j < |s| ==> InOrder(s[i], s[j])
  }

  lemma BeforeIsOrder(a: ReservedInput, b: ReservedInput, c: ReservedInput)
    ensures Before(a, b) <==> InOrder(a, b)
    ensures InOrder(a, b) || InOrder(b, a)
    ensures InOrder(a, b) && InOrder(b, a) ==> a == b
    ensures InOrder(a, b) && InOrder(b, c) ==> InOrder(a, c)
  {}

  lemma {:induction false} InsertOrdered(x: ReservedInput, s: seq<ReservedInput>)
    requires Ordered(s)
    ensures Ordered(Insert(x, s))
    decreases |s|
  {
    if |s| > 0 {
      if Before(x, s[0]) {
        forall j | 0 <= j < |s| ensures InOrder(x, s[j]) { BeforeIsOrder(x, s[0], s[j]); }
      } else {
        BeforeIsOrder(x, s[0], x);
        InsertOrdered(x, s[1..]);
        var rest := Insert(x, s[1..]);
        forall j | 0 <= j < |rest| ensures InOrder(s[0], rest[j]) {
          assert rest[j] in multiset(rest);
          assert rest[j] == x || rest[j] in s[1..];
        }
      }
    }
  }

  /** The canonical list is ordered. */
  lemma {:induction false} CanonicalOrdered(s: seq<ReservedInput>)
    ensures Ordered(Canonical(s))
    decreases |s|
  {
    if |s| > 0 {
      CanonicalOrdered(s[1..]);
      InsertOrdered(s[0], Canonical(s[1..]));
    }
  }

  lemma FirstIsLeast(s: seq<ReservedInput>, x: ReservedInput)
    requires Ordered(s) && x in s
    ensures InOrder(s[0], x)
  {
    BeforeIsOrder(s[0], s[0], s[0]);
  }

  lemma {:induction false} OrderedUnique(a: seq<ReservedInput>, b: seq<ReservedInput>)
    requires Ordered(a) && Ordered(b) && multiset(a) == multiset(b)
    ensures a == b
    decreases |a|
  {
    assert |multiset(a)| == |multiset(b)|;
    if |a| > 0 {
      SameFirst(a, b);
      TailMultiset(a);
      TailMultiset(b);
      OrderedUnique(a[1..], b[1..]);
      assert a == [a[0]] + a[1..] && b == [b[0]] + b[1..];
    }
  }

  lemma SameFirst(a: seq<ReservedInput>, b: seq<ReservedInput>)
    requires Ordered(a) && Ordered(b) && multiset(a) == multiset(b) && |a| > 0 && |b| > 0
    ensures a[0] == b[0]
  {
    assert a[0] in multiset(b) && b[0] in multiset(a);
    FirstIsLeast(a, b[0]);
    FirstIsLeast(b, a[0]);
    BeforeIsOrder(a[0], b[0], a[0]);
  }

  lemma TailMultiset(s: seq<ReservedInput>)
    requires |s| > 0
    ensures multiset(s[1..]) == multiset(s) - multiset{s[0]}
  {
    assert s == [s[0]] + s[1..];
  }

  /** The canonical list depends on which inputs there are, not on how they are listed. */
  lemma CanonicalIgnoresOrder(a: seq<ReservedInput>, b: seq<ReservedInput>)
    requires multiset(a) == multiset(b)
    ensures Canonical(a) == Canonical(b)
  {
    CanonicalOrdered(a);
    CanonicalOrdered(b);
    OrderedUnique(Canonical(a), Canonical(b));
  }

  lemma FullListing(utxos: Utxos, key: nat, ops: seq<OutPoint>)
    requires Distinct(ops) && AllReserved(utxos, ops, key) && |ops| == CountOf(utxos, Reserved(key))
    ensures forall op :: HasStatus(utxos, op, Reserved(key)) <==> op in ops
    ensures SumOps(utxos, ops, |ops|) == ValueOf(utxos, Reserved(key))
    ensures Single(InputsOf(utxos, ops))
  {
    FlippableIff(utxos, ops, Reserved(key), Unspent);
    DistinctIsAll(utxos, ops, Reserved(key), Unspent);
    DistinctInputs(utxos, ops);
    DifferentIsSingle(InputsOf(utxos, ops));
  }

  lemma SingleAgree(x: seq<ReservedInput>, y: seq<ReservedInput>)
    requires Single(x) && Single(y) && forall r :: r in x <==> r in y
    ensures multiset(x) == multiset(y)
  {
    forall r ensures multiset(x)[r] == multiset(y)[r] {
      assert multiset(x)[r] <= 1 && multiset(y)[r] <= 1;
      assert r in x <==> r in y;
    }
  }

  /** Two full listings of a reservation name the same inputs. */
  lemma FullListingsAgree(utxos: Utxos, key: nat, a: seq<OutPoint>, b: seq<OutPoint>)
    requires Distinct(a) && AllReserved(utxos, a, key) && |a| == CountOf(utxos, Reserved(key))
    requires Distinct(b) && AllReserved(utxos, b, key) && |b| == CountOf(utxos, Reserved(key))
    ensures multiset(InputsOf(utxos, a)) == multiset(InputsOf(utxos, b))
    ensures SumOps(utxos, b, |b|) == ValueOf(utxos, Reserved(key))
  {
    FullListing(utxos, key, a);
    FullListing(utxos, key, b);
    forall r ensures r in InputsOf(utxos, a) <==> r in InputsOf(utxos, b) {
      ListedIff(utxos, key, a, r);
      ListedIff(utxos, key, b, r);
    }
    SingleAgree(InputsOf(utxos, a), InputsOf(utxos, b));
  }

  lemma ListedIff(utxos: Utxos, key: nat, ops: seq<OutPoint>, r: ReservedInput)
    requires forall op :: HasStatus(utxos, op, Reserved(key)) <==> op in ops
    ensures r in InputsOf(utxos, ops) <==> HasStatus(utxos, r.outpoint, Reserved(key)) && r.amount == AmountAt(utxos, r.outpoint)
  {
    var inputs := InputsOf(utxos, ops);
    if HasStatus(utxos, r.outpoint, Reserved(key)) && r.amount == AmountAt(utxos, r.outpoint) {
      var i :| 0 <= i < |ops| && ops[i] == r.outpoint;
      assert inputs[i] == r;
    }
    if r in inputs {
      var i :| 0 <= i < |inputs| && inputs[i] == r;
      assert ops[i] in ops;
    }
  }

  /** Records without a tapleaf can be spent only through a 34-byte pool script. */
  ghost predicate ScriptFits(w: World, utxos: Utxos, key: nat) {
    |w.env.poolScript| == 34 || forall op :: HasStatus(utxos, op, Reserved(key)) ==> utxos[op].leaf != NoLeaf
  }

  /** Every full listing hashes to the commitment. */
  lemma FullListingCommits(w: World, utxos: Utxos, key: nat, r: Request, ops: seq<OutPoint>)
    requires r.serviceFee <= r.amount && ProcessingOk(w, utxos, key, r)
    requires Distinct(ops) && AllReserved(utxos, ops, key) && |ops| == r.reservedCount
    ensures SumOps(utxos, ops, |ops|) == r.totalInput <= U64_MAX
    ensures w.env.commit(Canonical(InputsOf(utxos, ops))) == r.commitment
  {
    var marked :| Committed(w, utxos, key, r, marked);
    FullListingsAgree(utxos, key, marked, ops);
    CanonicalIgnoresOrder(InputsOf(utxos, marked), InputsOf(utxos, ops));
  }

  lemma FullListingAccepted(w: World, utxos: Utxos, key: nat, r: Request, ops: seq<OutPoint>)
    requires r.serviceFee <= r.amount && ProcessingOk(w, utxos, key, r) && ScriptFits(w, utxos, key)
    requires Distinct(ops) && AllReserved(utxos, ops, key) && |ops| == r.reservedCount
    ensures Listed(w.env, utxos, key, ops, r.totalInput, r.commitment).Ok?
  {
    FullListingCommits(w, utxos, key, r, ops);
    forall i | 0 <= i < |ops| && |w.env.poolScript| != 34 ensures !AtPoolScript(utxos, ops[i]) {
      assert HasStatus(utxos, ops[i], Reserved(key));
    }
  }

  /** A full listing names every record of the request, so the script must fit them all. */
  lemma AcceptedScriptFits(w: World, utxos: Utxos, key: nat, r: Request, ops: seq<OutPoint>)
    requires r.serviceFee <= r.amount && ProcessingOk(w, utxos, key, r)
    requires Distinct(ops) && AllReserved(utxos, ops, key) && |ops| == r.reservedCount
    requires Listed(w.env, utxos, key, ops, r.totalInput, r.commitment).Ok?
    ensures ScriptFits(w, utxos, key)
  {
    FullListing(utxos, key, ops);
    forall op | HasStatus(utxos, op, Reserved(key)) && |w.env.poolScript| != 34 ensures utxos[op].leaf != NoLeaf {
      var i :| 0 <= i < |ops| && ops[i] == op;
      assert !AtPoolScript(utxos, ops[i]);
    }
  }

  /**
   * An approval accepts a listing exactly when it names every reserved record once, in whatever order, and the pool
   * script fits the records that have no tapleaf.
   */
  lemma ListingAcceptedIff(w: World, utxos: Utxos, key: nat, r: Request, ops: seq<OutPoint>)
    requires WorldOk(w) && r.serviceFee <= r.amount && ProcessingOk(w, utxos, key, r) && Hashed(w, utxos, ops)
    ensures Listed(w.env, utxos, key, ops, r.totalInput, r.commitment).Ok?
            <==> Distinct(ops) && AllReserved(utxos, ops, key) && |ops| == r.reservedCount && ScriptFits(w, utxos, key)
  {
    if Listed(w.env, utxos, key, ops, r.totalInput, r.commitment).Ok? {
      ListedIsFull(w, utxos, key, r, ops);
      AcceptedScriptFits(w, utxos, key, r, ops);
    } else if Distinct(ops) && AllReserved(utxos, ops, key) && |ops| == r.reservedCount && ScriptFits(w, utxos, key) {
      FullListingAccepted(w, utxos, key, r, ops);
    }
  }
}
