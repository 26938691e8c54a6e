/** How reserving, releasing and closing records moves value and count between statuses. */
module Reservations {
  import U256
  import opened Totals
  import opened Requests
  import opened Ledgers

  /** A run's environment, the request addresses it uses and the canonical input lists it hashes. */
  datatype World = World(env: Env, ids: iset<RequestId>, lists: iset<seq<ReservedInput>>)

  /** Reservation keys tell requests apart, commitments tell input lists apart, the pool script is spendable. */
  ghost predicate WorldOk(w: World) {
    && (forall a, b :: a in w.ids && b in w.ids && w.env.key(a) == w.env.key(b) ==> a == b)
    && (forall s, t :: s in w.lists && t in w.lists && w.env.commit(s) == w.env.commit(t) ==> s == t)
    && 0 < |w.env.poolScript| && w.env.poolScript[0] != OP_RETURN
  }

  /** The canonical list of the named records is one of those the run hashes. */
  ghost predicate Hashed(w: World, utxos: Utxos, ops: seq<OutPoint>) {
    Canonical(InputsOf(utxos, ops)) in w.lists
  }

  function Amount(): Utxo -> nat {
    (u: Utxo) => u.amount
  }

  function AmountIf(s: UtxoStatus): Utxo -> nat {
    (u: Utxo) => if u.status == s then u.amount else 0
  }

  function OneIf(s: UtxoStatus): Utxo -> nat {
    (u: Utxo) => if u.status == s then 1 else 0
  }

  /** All satoshis on record. */
  ghost function Worth(utxos: Utxos): nat {
    Total(utxos, Amount())
  }

  /** Satoshis on records of one status. */
  ghost function ValueOf(utxos: Utxos, s: UtxoStatus): nat {
    Total(utxos, AmountIf(s))
  }

  /** Number of records of one status. */
  ghost function CountOf(utxos: Utxos, s: UtxoStatus): nat {
    Total(utxos, OneIf(s))
  }

  function If(c: bool, n: nat): nat {
    if c then n else 0
  }

  lemma WriteTotals(utxos: Utxos, op: OutPoint, u: Utxo, s: UtxoStatus)
    ensures var m := utxos[op := u];
            var was := if op in utxos then utxos[op] else Utxo(0, u.status, u.leaf);
            && ValueOf(m, s) == ValueOf(utxos, s) + If(u.status == s, u.amount) - If(was.status == s, was.amount)
            && CountOf(m, s) == CountOf(utxos, s) + If(u.status == s, 1) - If(op in utxos && was.status == s, 1)
            && Worth(m) == Worth(utxos) + u.amount - was.amount
  {
    TotalWrite(utxos, AmountIf(s), op, u);
    TotalWrite(utxos, OneIf(s), op, u);
    TotalWrite(utxos, Amount(), op, u);
  }

  lemma RemoveTotals(utxos: Utxos, op: OutPoint, s: UtxoStatus)
    requires op in utxos
    ensures var m, u := utxos - {op}, utxos[op];
            && ValueOf(m, s) == ValueOf(utxos, s) - If(u.status == s, u.amount)
            && CountOf(m, s) == CountOf(utxos, s) - If(u.status == s, 1)
            && Worth(m) == Worth(utxos) - u.amount
  {
    TotalRemove(utxos, AmountIf(s), op);
    TotalRemove(utxos, OneIf(s), op);
    TotalRemove(utxos, Amount(), op);
  }

  /** Changing statuses changes nothing else about a record. */
  lemma {:induction false} FlipKeeps(utxos: Utxos, ops: seq<OutPoint>, to: UtxoStatus, k: nat, op: OutPoint)
    requires k <= |ops|
    ensures var m := Flip(utxos, ops, to, k);
            && (op in m <==> op in utxos) && AmountAt(m, op) == AmountAt(utxos, op)
            && (op in m ==> m[op].leaf == utxos[op].leaf && (m[op] == utxos[op] || m[op].status == to))
            && (op in m && op !in ops[..k] ==> m[op] == utxos[op])
            && (op in m && op in ops[..k] ==> m[op].status == to)
    decreases k
  {
    if k > 0 {
      FlipKeeps(utxos, ops, to, k - 1, op);
      assert ops[..k] == ops[..k - 1] + [ops[k - 1]];
    }
  }

  /** Moving `k` records moves their count and their value, and nothing else. */
  lemma {:induction false} FlipTotals(utxos: Utxos, ops: seq<OutPoint>, from: UtxoStatus, to: UtxoStatus, k: nat, s: UtxoStatus)
    requires k <= |ops| && from != to && Flippable(utxos, ops, from, to)
    ensures var m := Flip(utxos, ops, to, k);
            && ValueOf(m, s) + If(s == from, SumOps(utxos, ops, k)) == ValueOf(utxos, s) + If(s == to, SumOps(utxos, ops, k))
            && CountOf(m, s) + If(s == from, k) == CountOf(utxos, s) + If(s == to, k)
            && Worth(m) == Worth(utxos)
    decreases k
  {
    if k > 0 {
      FlipTotals(utxos, ops, from, to, k - 1, s);
      var m, op := Flip(utxos, ops, to, k - 1), ops[k - 1];
      FlipKeeps(utxos, ops, to, k - 1, op);
      assert FlipsAt(utxos, ops, from, to, k - 1);
      WriteTotals(m, op, m[op].(status := to), s);
    }
  }

  lemma {:induction false} ClosedKeeps(utxos: Utxos, ops: seq<OutPoint>, k: nat, op: OutPoint)
    requires k <= |ops|
    ensures var m := Closed(utxos, ops, k);
            && (op in m <==> op in utxos && op !in ops[..k])
            && (op in m ==> m[op] == utxos[op])
    decreases k
  {
    if k > 0 {
      ClosedKeeps(utxos, ops, k - 1, op);
      assert ops[..k] == ops[..k - 1] + [ops[k - 1]];
    }
  }

  lemma {:induction false} ClosedTotals(utxos: Utxos, ops: seq<OutPoint>, key: nat, tx: Tx, k: nat, s: UtxoStatus)
    requires k <= |ops| && Closable(utxos, ops, key, tx)
    ensures var m := Closed(utxos, ops, k);
            && ValueOf(m, s) + If(s == Reserved(key), SumOps(utxos, ops, k)) == ValueOf(utxos, s)
            && CountOf(m, s) + If(s == Reserved(key), k) == CountOf(utxos, s)
            && Worth(m) + SumOps(utxos, ops, k) == Worth(utxos)
    decreases k
  {
    if k > 0 {
      ClosedTotals(utxos, ops, key, tx, k - 1, s);
      var m, op := Closed(utxos, ops, k - 1), ops[k - 1];
      ClosedKeeps(utxos, ops, k - 1, op);
      assert ClosesAt(utxos, ops, key, tx, k - 1);
      RemoveTotals(m, op, s);
    }
  }

  /** No record of a status is left exactly when its count is zero, and then it carries no value. */
  lemma NoneLeft(utxos: Utxos, s: UtxoStatus)
    ensures CountOf(utxos, s) == 0 <==> forall op :: op in utxos ==> utxos[op].status != s
    ensures CountOf(utxos, s) == 0 ==> ValueOf(utxos, s) == 0
  {
    TotalZero(utxos, OneIf(s));
    TotalZero(utxos, AmountIf(s));
    if CountOf(utxos, s) == 0 {
      forall op | op in utxos ensures utxos[op].status != s {
        assert OneIf(s)(utxos[op]) == 0;
      }
    }
  }

  // ---- lists of distinct records ----------------------------------------------------------------------------

  predicate Distinct(ops: seq<OutPoint>) {
    forall i, j :: 0 <= i < j < |ops| ==> ops[i] != ops[j]
  }

  /** A list accepted for a change of status names distinct records. */
  lemma FlippableDistinct(utxos: Utxos, ops: seq<OutPoint>, from: UtxoStatus, to: UtxoStatus)
    requires Flippable(utxos, ops, from, to) && from != to
    ensures Distinct(ops)
    ensures forall i :: 0 <= i < |ops| ==> HasStatus(utxos, ops[i], from)
  {
    forall i, j | 0 <= i < j < |ops| ensures ops[i] != ops[j] {
      assert FlipsAt(utxos, ops, from, to, j);
      FlipKeeps(utxos, ops, to, j, ops[j]);
      assert ops[i] in ops[..j];
    }
    forall i | 0 <= i < |ops| ensures HasStatus(utxos, ops[i], from) {
      assert FlipsAt(utxos, ops, from, to, i);
      FlipKeeps(utxos, ops, to, i, ops[i]);
    }
  }

  /** A change of status takes exactly the lists of distinct records that have the old one. */
  lemma FlippableIff(utxos: Utxos, ops: seq<OutPoint>, from: UtxoStatus, to: UtxoStatus)
    requires from != to
    ensures Flippable(utxos, ops, from, to) <==> Distinct(ops) && forall i :: 0 <= i < |ops| ==> HasStatus(utxos, ops[i], from)
  {
    if Flippable(utxos, ops, from, to) {
      FlippableDistinct(utxos, ops, from, to);
    } else if Distinct(ops) && forall i :: 0 <= i < |ops| ==> HasStatus(utxos, ops[i], from) {
      forall i | 0 <= i < |ops| ensures FlipsAt(utxos, ops, from, to, i) {
        FlipKeeps(utxos, ops, to, i, ops[i]);
        assert HasStatus(utxos, ops[i], from);
      }
    }
  }

  /** Closing takes exactly the lists of distinct records reserved under the key and spent by the transaction. */
  lemma ClosableIff(utxos: Utxos, ops: seq<OutPoint>, key: nat, tx: Tx)
    ensures Closable(utxos, ops, key, tx) <==>
            Distinct(ops) && AllReserved(utxos, ops, key) && forall i :: 0 <= i < |ops| ==> ops[i] in tx.inputs
  {
    forall i | 0 <= i < |ops| ensures ClosesAt(utxos, ops, key, tx, i) <==>
                                      HasStatus(utxos, ops[i], Reserved(key)) && ops[i] !in ops[..i] && ops[i] in tx.inputs
    {
      ClosedKeeps(utxos, ops, i, ops[i]);
    }
    if Closable(utxos, ops, key, tx) {
      forall i | 0 <= i < |ops| ensures HasStatus(utxos, ops[i], Reserved(key)) && ops[i] !in ops[..i] && ops[i] in tx.inputs {
        assert ClosesAt(utxos, ops, key, tx, i);
      }
      forall i, j | 0 <= i < j < |ops| ensures ops[i] != ops[j] { assert ops[j] !in ops[..j]; }
    }
  }

  /** An accepted list is no longer than the count of its status, and names every such record exactly when as long. */
  lemma DistinctIsAll(utxos: Utxos, ops: seq<OutPoint>, from: UtxoStatus, to: UtxoStatus)
    requires Flippable(utxos, ops, from, to) && from != to
    ensures Distinct(ops) && |ops| <= CountOf(utxos, from)
    ensures |ops| == CountOf(utxos, from) <==> forall op :: HasStatus(utxos, op, from) <==> op in ops
    ensures |ops| == CountOf(utxos, from) ==>
              SumOps(utxos, ops, |ops|) == ValueOf(utxos, from) && CountOf(Flip(utxos, ops, to, |ops|), from) == 0
  {
    var m := Flip(utxos, ops, to, |ops|);
    FlipTotals(utxos, ops, from, to, |ops|, from);
    NoneLeft(m, from);
    FlippableDistinct(utxos, ops, from, to);
    assert ops[..|ops|] == ops;
    forall op ensures HasStatus(m, op, from) <==> HasStatus(utxos, op, from) && op !in ops {
      FlipKeeps(utxos, ops, to, |ops|, op);
    }
    if |ops| == CountOf(utxos, from) {
      forall op ensures HasStatus(utxos, op, from) <==> op in ops {
        assert !HasStatus(m, op, from);
      }
    } else {
      var op :| op in m && m[op].status == from;
      assert HasStatus(m, op, from);
    }
  }

  lemma ClosedIsAll(utxos: Utxos, ops: seq<OutPoint>, key: nat, tx: Tx)
    requires Closable(utxos, ops, key, tx) && |ops| == CountOf(utxos, Reserved(key))
    ensures forall op :: HasStatus(utxos, op, Reserved(key)) <==> op in ops
    ensures SumOps(utxos, ops, |ops|) == ValueOf(utxos, Reserved(key))
    ensures CountOf(Closed(utxos, ops, |ops|), Reserved(key)) == 0
  {
    var m := Closed(utxos, ops, |ops|);
    ClosedTotals(utxos, ops, key, tx, |ops|, Reserved(key));
    NoneLeft(m, Reserved(key));
    assert ops[..|ops|] == ops;
    forall op ensures HasStatus(utxos, op, Reserved(key)) <==> op in ops {
      ClosedKeeps(utxos, ops, |ops|, op);
      if op in ops {
        var i :| 0 <= i < |ops| && ops[i] == op;
        assert ClosesAt(utxos, ops, key, tx, i);
        ClosedKeeps(utxos, ops, i, op);
      }
    }
  }

  // ---- a request's own records -----------------------------------------------------------------------------

  /** The records reserved under a key. */
  ghost function ReservedSet(utxos: Utxos, key: nat): Utxos {
    map op | op in utxos && utxos[op].status == Reserved(key) :: utxos[op]
  }

  lemma SetTotals(utxos: Utxos, key: nat)
    ensures CountOf(utxos, Reserved(key)) == CountOf(ReservedSet(utxos, key), Reserved(key))
    ensures ValueOf(utxos, Reserved(key)) == Worth(ReservedSet(utxos, key))
  {
    var s := Reserved(key);
    var sel := (u: Utxo) => u.status == s;
    TotalRestrict(utxos, OneIf(s), sel);
    TotalRestrict(utxos, AmountIf(s), sel);
    assert Chosen(utxos, sel) == ReservedSet(utxos, key);
    TotalSame(ReservedSet(utxos, key), AmountIf(s), Amount());
  }

  /** A list of all the records the request reserved, pinned by its commitment. */
  ghost predicate Committed(w: World, utxos: Utxos, key: nat, r: Request, ops: seq<OutPoint>) {
    && |ops| == r.reservedCount && Distinct(ops) && AllReserved(utxos, ops, key)
    && Hashed(w, utxos, ops) && w.env.commit(Canonical(InputsOf(utxos, ops))) == r.commitment
  }

  /** No single record is superfluous. */
  ghost predicate Slim(utxos: Utxos, key: nat, r: Request)
    requires r.serviceFee <= r.amount
  {
    forall op :: HasStatus(utxos, op, Reserved(key)) ==> r.totalInput < Required(r) + utxos[op].amount
  }

  ghost predicate ApprovalsMatch(r: Request) {
    && (r.signingApproved <==> AllApproved(r))
    && (forall i: nat {:trigger IsApproved(r, i)} :: IsApproved(r, i) ==> i < r.reservedCount)
  }

  /** A processing request owns exactly its reserved set, which funds its payout without waste. */
  ghost predicate ProcessingOk(w: World, utxos: Utxos, key: nat, r: Request)
    requires r.serviceFee <= r.amount
  {
    && 0 < r.reservedCount <= MAX_UTXOS && r.totalInput <= U64_MAX
    && CountOf(utxos, Reserved(key)) == r.reservedCount
    && ValueOf(utxos, Reserved(key)) == r.totalInput
    && Required(r) <= r.totalInput && Slim(utxos, key, r)
    && (exists ops :: Committed(w, utxos, key, r, ops))
  }

  lemma InputsAgree(a: Utxos, b: Utxos, key: nat, ops: seq<OutPoint>)
    requires ReservedSet(a, key) == ReservedSet(b, key) && AllReserved(a, ops, key)
    ensures AllReserved(b, ops, key) && InputsOf(a, ops) == InputsOf(b, ops)
  {
    forall i | 0 <= i < |ops| ensures HasStatus(b, ops[i], Reserved(key)) && AmountAt(a, ops[i]) == AmountAt(b, ops[i]) {
      assert HasStatus(a, ops[i], Reserved(key));
      assert ops[i] in ReservedSet(b, key);
    }
  }

  /** What a request owns depends only on the records reserved under its key. */
  lemma ProcessingFrame(w: World, a: Utxos, b: Utxos, key: nat, r: Request)
    requires ReservedSet(a, key) == ReservedSet(b, key) && r.serviceFee <= r.amount && ProcessingOk(w, a, key, r)
    ensures ProcessingOk(w, b, key, r)
  {
    SetTotals(a, key);
    SetTotals(b, key);
    forall op | HasStatus(b, op, Reserved(key)) ensures r.totalInput < Required(r) + b[op].amount {
      assert op in ReservedSet(a, key);
      assert HasStatus(a, op, Reserved(key));
    }
    var ops :| Committed(w, a, key, r, ops);
    InputsAgree(a, b, key, ops);
    assert Committed(w, b, key, r, ops);
  }

  // ---- who is left alone -----------------------------------------------------------------------------------

  lemma FlipOthers(utxos: Utxos, ops: seq<OutPoint>, from: UtxoStatus, to: UtxoStatus, key: nat)
    requires Flippable(utxos, ops, from, to) && from != to && from != Reserved(key) && to != Reserved(key)
    ensures ReservedSet(Flip(utxos, ops, to, |ops|), key) == ReservedSet(utxos, key)
  {
    var m := Flip(utxos, ops, to, |ops|);
    assert ops[..|ops|] == ops;
    FlippableDistinct(utxos, ops, from, to);
    forall op ensures op in ReservedSet(m, key) <==> op in ReservedSet(utxos, key)
              ensures op in ReservedSet(m, key) ==> m[op] == utxos[op] {
      FlipKeeps(utxos, ops, to, |ops|, op);
      if op in ops {
        var i :| 0 <= i < |ops| && ops[i] == op;
        assert HasStatus(utxos, ops[i], from);
      }
    }
  }

  lemma CloseOthers(utxos: Utxos, ops: seq<OutPoint>, owner: nat, tx: Tx, key: nat)
    requires Closable(utxos, ops, owner, tx) && owner != key
    ensures ReservedSet(Closed(utxos, ops, |ops|), key) == ReservedSet(utxos, key)
  {
    var m := Closed(utxos, ops, |ops|);
    assert ops[..|ops|] == ops;
    forall op ensures op in ReservedSet(m, key) <==> op in ReservedSet(utxos, key)
              ensures op in ReservedSet(m, key) ==> m[op] == utxos[op] {
      ClosedKeeps(utxos, ops, |ops|, op);
      if op in ops {
        var i :| 0 <= i < |ops| && ops[i] == op;
        assert ClosesAt(utxos, ops, owner, tx, i);
        ClosedKeeps(utxos, ops, i, op);
      }
    }
  }

  /** A new unspent record belongs to no request. */
  lemma FreshOthers(utxos: Utxos, op: OutPoint, u: Utxo, key: nat)
    requires op !in utxos && u.status == Unspent
    ensures ReservedSet(utxos[op := u], key) == ReservedSet(utxos, key)
  {}

  // ---- marking -------------------------------------------------------------------------------------------------

  lemma {:induction false} SmallestIs(utxos: Utxos, ops: seq<OutPoint>, k: nat, i: nat)
    requires 0 < k <= |ops| && i < k
    ensures Smallest(utxos, ops, k) <= AmountAt(utxos, ops[i])
    ensures exists j :: 0 <= j < k && Smallest(utxos, ops, k) == AmountAt(utxos, ops[j])
    decreases k
  {
    if k > 1 { SmallestIs(utxos, ops, k - 1, if i < k - 1 then i else 0); }
  }

  /** Marking makes the request the owner of exactly the named records. */
  lemma MarkOwns(w: World, utxos: Utxos, key: nat, r: Request, ops: seq<OutPoint>, slot: U256.u64)
    requires Flippable(utxos, ops, Unspent, Reserved(key)) && 0 < |ops| <= MAX_UTXOS && r.serviceFee <= r.amount
    requires CountOf(utxos, Reserved(key)) == 0 && Hashed(w, utxos, ops)
    requires var total := SumOps(utxos, ops, |ops|);
             Required(r) <= total <= U64_MAX && total - Min(total, Smallest(utxos, ops, |ops|)) < Required(r)
    ensures ProcessingOk(w, Flip(utxos, ops, Reserved(key), |ops|), key, Processed(w.env, utxos, r, ops, slot))
  {
    var s := Reserved(key);
    var m := Flip(utxos, ops, s, |ops|);
    var q := Processed(w.env, utxos, r, ops, slot);
    NoneLeft(utxos, s);
    FlipTotals(utxos, ops, Unspent, s, |ops|, s);
    MarkedRecords(utxos, ops, key);
    assert InputsOf(m, ops) == InputsOf(utxos, ops);
    assert Committed(w, m, key, q, ops);
    forall op | HasStatus(m, op, s) ensures q.totalInput < Required(q) + m[op].amount {
      var i :| 0 <= i < |ops| && ops[i] == op;
      SmallestIs(utxos, ops, |ops|, i);
    }
  }

  lemma MarkedRecords(utxos: Utxos, ops: seq<OutPoint>, key: nat)
    requires Flippable(utxos, ops, Unspent, Reserved(key)) && CountOf(utxos, Reserved(key)) == 0
    ensures var m := Flip(utxos, ops, Reserved(key), |ops|);
            && Distinct(ops) && AllReserved(m, ops, key)
            && (forall op :: HasStatus(m, op, Reserved(key)) ==> op in ops)
            && (forall op :: AmountAt(m, op) == AmountAt(utxos, op))
  {
    var m := Flip(utxos, ops, Reserved(key), |ops|);
    assert ops[..|ops|] == ops;
    NoneLeft(utxos, Reserved(key));
    FlippableDistinct(utxos, ops, Unspent, Reserved(key));
    forall i | 0 <= i < |ops| ensures HasStatus(m, ops[i], Reserved(key)) {
      FlipKeeps(utxos, ops, Reserved(key), |ops|, ops[i]);
      assert HasStatus(utxos, ops[i], Unspent);
    }
    forall op ensures AmountAt(m, op) == AmountAt(utxos, op) && (HasStatus(m, op, Reserved(key)) ==> op in ops) {
      FlipKeeps(utxos, ops, Reserved(key), |ops|, op);
    }
  }

  // ---- minimality ------------------------------------------------------------------------------------------------

  /** No proper part of a reservation covers the payout and the largest admissible fee. */
  lemma NoSmallerFunding(w: World, utxos: Utxos, key: nat, r: Request, part: Utxos)
    requires r.serviceFee <= r.amount && ProcessingOk(w, utxos, key, r)
    requires part != ReservedSet(utxos, key)
    requires forall op :: op in part ==> op in ReservedSet(utxos, key) && part[op] == ReservedSet(utxos, key)[op]
    ensures Worth(part) < Required(r) <= Worth(ReservedSet(utxos, key))
  {
    var all := ReservedSet(utxos, key);
    SetTotals(utxos, key);
    var left :| left in all && left !in part;
    assert HasStatus(utxos, left, Reserved(key));
    TotalRemove(all, Amount(), left);
    TotalSubmap(part, all - {left}, Amount());
  }
}
