/** Whole runs of the pool: backing, vault conservation, reservations and approvals. */
module LedgerRuns {
  import opened U256
  import opened Totals
  import opened Requests
  import opened Ledgers
  import opened Reservations
  import opened Payouts

  // ---- what every reachable state satisfies ----------------------------------------------------------

  function RequestAmount(): Request -> nat {
    (r: Request) => r.amount
  }

  /** Amounts of all live requests. */
  ghost function Owed(requests: map<RequestId, Request>): nat {
    Total(requests, RequestAmount())
  }

  /** The vault holds the notes, the fees, the live requests and what was donated. */
  ghost predicate Books(s: State, donated: nat) {
    && s.vault == s.token.shielded + s.token.fees + Owed(s.requests) + donated
    && s.vault <= U64_MAX
    && s.pool.shielded == s.token.shielded
    && s.pool.pending == |s.requests|
  }

  /** Every zkBTC outstanding is backed by a satoshi on record. */
  ghost predicate Backed(s: State) {
    Worth(s.utxos) + s.pool.burned == s.pool.minted <= U64_MAX
  }

  /** The pool's counters describe the unspent records. */
  ghost predicate Counted(s: State) {
    s.pool.held == ValueOf(s.utxos, Unspent) && s.pool.utxoCount == CountOf(s.utxos, Unspent)
  }

  ghost predicate RequestOk(w: World, utxos: Utxos, id: RequestId, r: Request) {
    && id in w.ids
    && r.serviceFee < r.amount <= U64_MAX && ScriptOk(r.script)
    && match r.status
       case Pending => r.approved == 0 && !r.signingApproved && r.reservedCount == 0
       case Processing => ProcessingOk(w, utxos, w.env.key(id), r) && ApprovalsMatch(r)
  }

  ghost predicate RequestsOk(w: World, s: State) {
    forall id {:trigger RequestOk(w, s.utxos, id, s.requests[id])} :: id in s.requests ==> RequestOk(w, s.utxos, id, s.requests[id])
  }

  /** Some live processing request holds the key. */
  ghost predicate Owned(w: World, requests: map<RequestId, Request>, key: nat) {
    exists id :: id in requests && requests[id].status == Processing && w.env.key(id) == key
  }

  ghost predicate OwnedAt(w: World, utxos: Utxos, requests: map<RequestId, Request>, op: OutPoint) {
    op in utxos && utxos[op].status.Reserved? ==> Owned(w, requests, utxos[op].status.key)
  }

  ghost predicate OwnersOk(w: World, s: State) {
    forall op {:trigger OwnedAt(w, s.utxos, s.requests, op)} :: OwnedAt(w, s.utxos, s.requests, op)
  }

  ghost predicate Inv(w: World, s: State, donated: nat) {
    Books(s, donated) && Backed(s) && Counted(s) && RequestsOk(w, s) && OwnersOk(w, s)
  }

  lemma InitialInv(w: World)
    ensures Inv(w, EMPTY, 0)
  {
    assert Worth(EMPTY.utxos) == 0 && ValueOf(EMPTY.utxos, Unspent) == 0 && CountOf(EMPTY.utxos, Unspent) == 0;
    assert Owed(EMPTY.requests) == 0;
    forall op ensures OwnedAt(w, EMPTY.utxos, EMPTY.requests, op) {}
  }

  // ---- frames ------------------------------------------------------------------------------------------

  /** Nothing reserved under other keys has changed. */
  ghost predicate LeavesOthers(a: Utxos, b: Utxos, key: nat) {
    forall k {:trigger ReservedSet(b, k)} :: k != key ==> ReservedSet(b, k) == ReservedSet(a, k)
  }

  lemma OtherKept(w: World, a: Utxos, b: Utxos, id: RequestId, other: RequestId, r: Request)
    requires WorldOk(w) && id in w.ids && other != id && RequestOk(w, a, other, r) && LeavesOthers(a, b, w.env.key(id))
    ensures RequestOk(w, b, other, r)
  {
    if r.status == Processing {
      assert ReservedSet(b, w.env.key(other)) == ReservedSet(a, w.env.key(other));
      ProcessingFrame(w, a, b, w.env.key(other), r);
    }
  }

  lemma OwnerIs(w: World, s: State, id: RequestId, op: OutPoint)
    requires WorldOk(w) && RequestsOk(w, s) && OwnersOk(w, s) && id in w.ids && HasStatus(s.utxos, op, Reserved(w.env.key(id)))
    ensures id in s.requests && s.requests[id].status == Processing
  {
    assert OwnedAt(w, s.utxos, s.requests, op);
    var owner :| owner in s.requests && s.requests[owner].status == Processing && w.env.key(owner) == w.env.key(id);
    assert RequestOk(w, s.utxos, owner, s.requests[owner]);
  }

  /** A pending request, or an address without one, has nothing reserved. */
  lemma OwnsNothing(w: World, s: State, id: RequestId)
    requires WorldOk(w) && RequestsOk(w, s) && OwnersOk(w, s) && id in w.ids
    requires id in s.requests ==> s.requests[id].status == Pending
    ensures CountOf(s.utxos, Reserved(w.env.key(id))) == 0
  {
    var key := w.env.key(id);
    forall op | op in s.utxos ensures s.utxos[op].status != Reserved(key) {
      if s.utxos[op].status == Reserved(key) { OwnerIs(w, s, id, op); }
    }
    NoneLeft(s.utxos, Reserved(key));
  }

  lemma SameRequests(w: World, s: State, t: State)
    requires RequestsOk(w, s) && OwnersOk(w, s) && t.requests == s.requests && t.utxos == s.utxos
    ensures RequestsOk(w, t) && OwnersOk(w, t)
  {
    forall id | id in t.requests ensures RequestOk(w, t.utxos, id, t.requests[id]) {
      assert RequestOk(w, s.utxos, id, s.requests[id]);
    }
    forall op ensures OwnedAt(w, t.utxos, t.requests, op) {
      assert OwnedAt(w, s.utxos, s.requests, op);
    }
  }

  // ---- deposit, shield, unshield, claim, donate -----------------------------------------------------------

  lemma DepositInv(w: World, st: Settings, s: State, donated: nat, op: OutPoint, amount: u64, leaf: Leaf)
    requires WorldOk(w) && Inv(w, s, donated) && Deposit(st, s, op, amount, leaf).Ok?
    ensures Inv(w, Deposit(st, s, op, amount, leaf).value, donated)
  {
    var u := Utxo(amount, Unspent, leaf);
    WriteTotals(s.utxos, op, u, Unspent);
    DepositRequests(w, s, Deposit(st, s, op, amount, leaf).value, op, u);
  }

  lemma DepositRequests(w: World, s: State, t: State, op: OutPoint, u: Utxo)
    requires RequestsOk(w, s) && OwnersOk(w, s) && op !in s.utxos && u.status == Unspent
    requires t.utxos == s.utxos[op := u] && t.requests == s.requests
    ensures RequestsOk(w, t) && OwnersOk(w, t)
  {
    forall id | id in t.requests ensures RequestOk(w, t.utxos, id, t.requests[id]) {
      assert RequestOk(w, s.utxos, id, s.requests[id]);
      FreshOthers(s.utxos, op, u, w.env.key(id));
      if t.requests[id].status == Processing {
        ProcessingFrame(w, s.utxos, t.utxos, w.env.key(id), t.requests[id]);
      }
    }
    forall o ensures OwnedAt(w, t.utxos, t.requests, o) {
      assert OwnedAt(w, s.utxos, s.requests, o);
    }
  }

  lemma ShieldInv(w: World, st: Settings, s: State, donated: nat, amount: u64, received: u64)
    requires Inv(w, s, donated) && Shield(st, s, amount, received).Ok?
    ensures Inv(w, Shield(st, s, amount, received).value, donated)
  {
    SameRequests(w, s, Shield(st, s, amount, received).value);
  }

  lemma UnshieldInv(w: World, st: Settings, s: State, donated: nat, amounts: seq<u64>)
    requires Inv(w, s, donated) && Unshield(st, s, amounts).Ok?
    ensures Inv(w, Unshield(st, s, amounts).value, donated)
  {
    SameRequests(w, s, Unshield(st, s, amounts).value);
  }

  lemma ClaimInv(w: World, s: State, donated: nat, amount: u64)
    requires Inv(w, s, donated) && ClaimFees(s, amount).Ok?
    ensures Inv(w, ClaimFees(s, amount).value, donated)
  {
    SameRequests(w, s, ClaimFees(s, amount).value);
  }

  lemma DonateInv(w: World, s: State, donated: nat, amount: u64)
    requires Inv(w, s, donated) && Donate(s, amount).Ok?
    ensures Inv(w, Donate(s, amount).value, donated + amount)
  {
    SameRequests(w, s, Donate(s, amount).value);
  }

  // ---- redeem ------------------------------------------------------------------------------------------------

  ghost predicate OpenedAs(st: Settings, requests: map<RequestId, Request>, requester: nat, orders: seq<Order>, k: nat, id: RequestId, r: Request)
    requires k <= |orders|
  {
    (id in requests && r == requests[id])
    || (id !in requests && exists i :: 0 <= i < k && id == RequestId(requester, orders[i].nonce) && r == NewRequest(st, orders[i])
                                        && ServiceFee(st, orders[i].amount) < orders[i].amount)
  }

  lemma {:induction false} OpenedIs(st: Settings, requests: map<RequestId, Request>, requester: nat, orders: seq<Order>, k: nat, id: RequestId)
    requires k <= |orders| && AllOpen(st, requests, requester, orders)
    ensures var m := Opened(st, requests, requester, orders, k);
            && (id in requests ==> id in m && m[id] == requests[id])
            && (id in m ==> OpenedAs(st, requests, requester, orders, k, id, m[id]))
    decreases k
  {
    if k > 0 {
      OpenedIs(st, requests, requester, orders, k - 1, id);
      assert OpensAt(st, requests, requester, orders, k - 1);
    }
  }

  lemma {:induction false} OpenedCount(st: Settings, requests: map<RequestId, Request>, requester: nat, orders: seq<Order>, k: nat)
    requires k <= |orders| && AllOpen(st, requests, requester, orders)
    ensures |Opened(st, requests, requester, orders, k)| == |requests| + k
    decreases k
  {
    if k > 0 {
      OpenedCount(st, requests, requester, orders, k - 1);
      OpensFresh(st, requests, requester, orders, k - 1);
    }
  }

  lemma {:induction false} OpenedOwed(st: Settings, requests: map<RequestId, Request>, requester: nat, orders: seq<Order>, k: nat)
    requires k <= |orders| && AllOpen(st, requests, requester, orders)
    ensures Owed(Opened(st, requests, requester, orders, k)) == Owed(requests) + OrdersTo(orders, k)
    decreases k
  {
    if k > 0 {
      OpenedOwed(st, requests, requester, orders, k - 1);
      OpensFresh(st, requests, requester, orders, k - 1);
      OpenOne(Opened(st, requests, requester, orders, k - 1), RequestId(requester, orders[k - 1].nonce), NewRequest(st, orders[k - 1]));
    }
  }

  lemma OpensFresh(st: Settings, requests: map<RequestId, Request>, requester: nat, orders: seq<Order>, i: nat)
    requires i < |orders| && AllOpen(st, requests, requester, orders)
    ensures RequestId(requester, orders[i].nonce) !in Opened(st, requests, requester, orders, i)
  {
    assert OpensAt(st, requests, requester, orders, i);
  }

  lemma OpenOne(requests: map<RequestId, Request>, id: RequestId, r: Request)
    requires id !in requests
    ensures Owed(requests[id := r]) == Owed(requests) + r.amount
  {
    TotalWrite(requests, RequestAmount(), id, r);
  }

  ghost predicate KnownOrders(w: World, requester: nat, orders: seq<Order>) {
    forall i :: 0 <= i < |orders| ==> RequestId(requester, orders[i].nonce) in w.ids
  }

  lemma RedeemRequests(w: World, st: Settings, s: State, requester: nat, orders: seq<Order>, t: State)
    requires WorldOk(w) && RequestsOk(w, s) && OwnersOk(w, s) && KnownOrders(w, requester, orders)
    requires Redeem(st, s, requester, orders) == Ok(t)
    ensures RequestsOk(w, t) && OwnersOk(w, t)
  {
    forall id | id in t.requests ensures RequestOk(w, t.utxos, id, t.requests[id]) {
      OpenedIs(st, s.requests, requester, orders, |orders|, id);
      if id in s.requests { assert RequestOk(w, s.utxos, id, s.requests[id]); }
    }
    forall op ensures OwnedAt(w, t.utxos, t.requests, op) {
      assert OwnedAt(w, s.utxos, s.requests, op);
      if op in t.utxos && t.utxos[op].status.Reserved? {
        var id :| id in s.requests && s.requests[id].status == Processing && w.env.key(id) == t.utxos[op].status.key;
        OpenedIs(st, s.requests, requester, orders, |orders|, id);
      }
    }
  }

  /** Live requests are fewer than the tokens in the vault, so their counter never saturates. */
  lemma PendingFits(w: World, t: State)
    requires RequestsOk(w, t) && Owed(t.requests) <= U64_MAX
    ensures |t.requests| <= U64_MAX
  {
    forall id | id in t.requests ensures RequestAmount()(t.requests[id]) >= 1 {
      assert RequestOk(w, t.utxos, id, t.requests[id]);
    }
    TotalCount(t.requests, RequestAmount());
  }

  lemma RedeemInv(w: World, st: Settings, s: State, donated: nat, requester: nat, orders: seq<Order>)
    requires WorldOk(w) && Inv(w, s, donated) && KnownOrders(w, requester, orders) && Redeem(st, s, requester, orders).Ok?
    ensures Inv(w, Redeem(st, s, requester, orders).value, donated)
  {
    var t := Redeem(st, s, requester, orders).value;
    RedeemRequests(w, st, s, requester, orders, t);
    OpenedCount(st, s.requests, requester, orders, |orders|);
    OpenedOwed(st, s.requests, requester, orders, |orders|);
    PendingFits(w, t);
  }

  // ---- mark ------------------------------------------------------------------------------------------------------

  /** A successful reservation, taken apart. */
  ghost predicate Marked(env: Env, s: State, id: RequestId, ops: seq<OutPoint>, slot: u64, t: State) {
    && id in s.requests && s.requests[id].status == Pending && 0 < |ops| <= MAX_UTXOS
    && var r, total := s.requests[id], SumOps(s.utxos, ops, |ops|);
    && Flippable(s.utxos, ops, Unspent, Reserved(env.key(id)))
    && r.serviceFee <= r.amount
    && Required(r) <= total <= U64_MAX && total - Min(total, Smallest(s.utxos, ops, |ops|)) < Required(r)
    && total <= s.pool.held && |ops| <= s.pool.utxoCount
    && t == s.(utxos := Flip(s.utxos, ops, Reserved(env.key(id)), |ops|),
               pool := s.pool.(held := s.pool.held - total, utxoCount := s.pool.utxoCount - |ops|),
               requests := s.requests[id := Processed(env, s.utxos, r, ops, slot)])
  }

  lemma MarkParts(env: Env, st: Settings, s: State, id: RequestId, ops: seq<OutPoint>, slot: u64)
    requires Mark(env, st, s, id, ops, slot).Ok?
    ensures Marked(env, s, id, ops, slot, Mark(env, st, s, id, ops, slot).value)
  {}

  lemma MarkRequests(w: World, s: State, id: RequestId, ops: seq<OutPoint>, slot: u64, t: State)
    requires WorldOk(w) && RequestsOk(w, s) && OwnersOk(w, s) && Marked(w.env, s, id, ops, slot, t) && Hashed(w, s.utxos, ops)
    ensures RequestsOk(w, t)
  {
    var key := w.env.key(id);
    assert RequestOk(w, s.utxos, id, s.requests[id]);
    OwnsNothing(w, s, id);
    MarkOwns(w, s.utxos, key, s.requests[id], ops, slot);
    MarkLeavesOthers(s.utxos, ops, Unspent, Reserved(key), key);
    NoApprovals(t.requests[id]);
    OthersKept(w, s, id, t);
  }

  /** A step that rewrites one request and its own records keeps the others. */
  lemma OthersKept(w: World, s: State, id: RequestId, t: State)
    requires WorldOk(w) && RequestsOk(w, s) && id in s.requests && id in t.requests && RequestOk(w, t.utxos, id, t.requests[id])
    requires t.requests == s.requests[id := t.requests[id]] && LeavesOthers(s.utxos, t.utxos, w.env.key(id))
    ensures RequestsOk(w, t)
  {
    forall other | other in t.requests ensures RequestOk(w, t.utxos, other, t.requests[other]) {
      if other != id { OtherStays(w, s, id, t.utxos, other); }
    }
  }

  lemma OtherStays(w: World, s: State, id: RequestId, utxos: Utxos, other: RequestId)
    requires WorldOk(w) && RequestsOk(w, s) && id in s.requests && other in s.requests && other != id
    requires LeavesOthers(s.utxos, utxos, w.env.key(id))
    ensures RequestOk(w, utxos, other, s.requests[other])
  {
    assert RequestOk(w, s.utxos, id, s.requests[id]) && RequestOk(w, s.utxos, other, s.requests[other]);
    OtherKept(w, s.utxos, utxos, id, other, s.requests[other]);
  }

  lemma MarkLeavesOthers(utxos: Utxos, ops: seq<OutPoint>, from: UtxoStatus, to: UtxoStatus, key: nat)
    requires Flippable(utxos, ops, from, to) && from != to
    requires (from == Unspent || from == Reserved(key)) && (to == Unspent || to == Reserved(key))
    ensures LeavesOthers(utxos, Flip(utxos, ops, to, |ops|), key)
  {
    forall k | k != key ensures ReservedSet(Flip(utxos, ops, to, |ops|), k) == ReservedSet(utxos, k) {
      FlipOthers(utxos, ops, from, to, k);
    }
  }

  lemma NoApprovals(r: Request)
    requires r.approved == 0 && !r.signingApproved && 0 < r.reservedCount <= 32
    ensures ApprovalsMatch(r)
  {
    AllApprovedIff(r);
    ZeroBits(0);
    assert !Bit(r.approved, 0);
    forall i: nat ensures !IsApproved(r, i) {
      if i < 32 {
        ApprovedIsBit(r, i);
        ZeroBits(i);
      }
    }
  }

  lemma MarkOwners(w: World, s: State, id: RequestId, ops: seq<OutPoint>, slot: u64, t: State)
    requires OwnersOk(w, s) && Marked(w.env, s, id, ops, slot, t)
    ensures OwnersOk(w, t)
  {
    var key := w.env.key(id);
    assert id in t.requests && t.requests[id].status == Processing && w.env.key(id) == key;
    forall op ensures OwnedAt(w, t.utxos, t.requests, op) {
      FlipKeeps(s.utxos, ops, Reserved(key), |ops|, op);
      assert OwnedAt(w, s.utxos, s.requests, op);
      if op in t.utxos && t.utxos[op].status.Reserved? && t.utxos[op] == s.utxos[op] {
        var owner :| owner in s.requests && s.requests[owner].status == Processing && w.env.key(owner) == t.utxos[op].status.key;
        assert owner in t.requests && t.requests[owner].status == Processing;
      }
    }
  }

  lemma MarkInv(w: World, st: Settings, s: State, donated: nat, id: RequestId, ops: seq<OutPoint>, slot: u64)
    requires WorldOk(w) && Inv(w, s, donated) && Mark(w.env, st, s, id, ops, slot).Ok? && Hashed(w, s.utxos, ops)
    ensures Inv(w, Mark(w.env, st, s, id, ops, slot).value, donated)
  {
    var t := Mark(w.env, st, s, id, ops, slot).value;
    MarkParts(w.env, st, s, id, ops, slot);
    MarkRequests(w, s, id, ops, slot, t);
    MarkOwners(w, s, id, ops, slot, t);
    FlipTotals(s.utxos, ops, Unspent, Reserved(w.env.key(id)), |ops|, Unspent);
    TotalWrite(s.requests, RequestAmount(), id, t.requests[id]);
  }

  // ---- approve -----------------------------------------------------------------------------------------------------

  /** An approval touches the bitset, the flag and, the first time, the fee. */
  lemma StampedIs(r: Request, index: nat, fee: nat)
    requires index < 32 && fee <= MAX_FEE_SATS
    ensures var q := Stamped(r, index, fee);
            && q == r.(approved := q.approved, signingApproved := q.signingApproved, approvalFee := q.approvalFee)
            && q.approved != 0
            && q.approvalFee == (if r.approved == 0 then StoreFee(fee) else r.approvalFee)
            && (q.signingApproved <==> r.signingApproved || AllApproved(q))
            && forall j: nat {:trigger IsApproved(q, j)} :: IsApproved(q, j) <==> IsApproved(r, j) || j == index
  {
    var base := if r.approved == 0 then r.(approvalFee := StoreFee(fee)) else r;
    var q := Stamped(r, index, fee);
    MarkApprovedAdds(base, index, index);
    forall j: nat ensures IsApproved(q, j) <==> IsApproved(r, j) || j == index {
      if j < 32 { MarkApprovedAdds(base, index, j); }
    }
  }

  lemma StampedMatches(r: Request, index: nat, fee: nat)
    requires index < 32 && fee <= MAX_FEE_SATS && ApprovalsMatch(r) && index < r.reservedCount && !IsApproved(r, index)
    requires r.reservedCount <= MAX_UTXOS
    ensures ApprovalsMatch(Stamped(r, index, fee)) && !r.signingApproved
  {
    StampedIs(r, index, fee);
    AllApprovedIff(r);
    ApprovedIsBit(r, index);
  }

  /** A successful approval, taken apart. */
  ghost predicate Signed(env: Env, s: State, id: RequestId, index: nat, fee: u64, ops: seq<OutPoint>, t: State, spend: Spend) {
    && id in s.requests && s.requests[id].status == Processing && index < 32 && fee <= MAX_FEE_SATS
    && var r := s.requests[id];
    && index < r.reservedCount && !IsApproved(r, index) && r.amount <= MAX_REDEMPTION_SATS
    && (r.approved != 0 ==> fee == LoadFee(r.approvalFee))
    && Rebuild(env, r, s.utxos, env.key(id), fee, ops) == Ok(spend)
    && t == s.(requests := s.requests[id := Stamped(r, index, fee)])
  }

  lemma ApproveParts(env: Env, st: Settings, s: State, id: RequestId, index: u32, fee: u64, ops: seq<OutPoint>)
    requires Approve(env, st, s, id, index, fee, ops).Ok?
    ensures id in s.requests && s.requests[id].reservedCount <= |ops|
    ensures var (t, spend) := Approve(env, st, s, id, index, fee, ops).value;
            Signed(env, s, id, index, fee, ops[..s.requests[id].reservedCount], t, spend)
  {}

  lemma SignedInv(w: World, s: State, donated: nat, id: RequestId, index: nat, fee: u64, ops: seq<OutPoint>, t: State, spend: Spend)
    requires WorldOk(w) && Inv(w, s, donated) && Signed(w.env, s, id, index, fee, ops, t, spend)
    ensures Inv(w, t, donated)
  {
    var r, q := s.requests[id], t.requests[id];
    assert RequestOk(w, s.utxos, id, r);
    StampedIs(r, index, fee);
    StampedMatches(r, index, fee);
    StampedProcessing(w, s.utxos, w.env.key(id), r, q);
    OthersKept(w, s, id, t);
    SignedOwners(w, s, id, q, t);
    TotalWrite(s.requests, RequestAmount(), id, q);
  }

  lemma SignedOwners(w: World, s: State, id: RequestId, q: Request, t: State)
    requires OwnersOk(w, s) && q.status == Processing && t.utxos == s.utxos && t.requests == s.requests[id := q]
    ensures OwnersOk(w, t)
  {
    forall op ensures OwnedAt(w, t.utxos, t.requests, op) {
      assert OwnedAt(w, s.utxos, s.requests, op);
      if op in t.utxos && t.utxos[op].status.Reserved? {
        var owner :| owner in s.requests && s.requests[owner].status == Processing && w.env.key(owner) == t.utxos[op].status.key;
        assert owner in t.requests && t.requests[owner].status == Processing;
      }
    }
  }

  lemma StampedProcessing(w: World, utxos: Utxos, key: nat, r: Request, q: Request)
    requires r.serviceFee <= r.amount && ProcessingOk(w, utxos, key, r)
    requires q == r.(approved := q.approved, signingApproved := q.signingApproved, approvalFee := q.approvalFee)
    ensures ProcessingOk(w, utxos, key, q)
  {
    var ops :| Committed(w, utxos, key, r, ops);
    assert Committed(w, utxos, key, q, ops);
  }

  // ---- cancel ---------------------------------------------------------------------------------------------------------

  /** A successful cancellation, taken apart. */
  ghost predicate Cancelled(env: Env, s: State, id: RequestId, ops: seq<OutPoint>, t: State) {
    && id in s.requests && !s.requests[id].signingApproved
    && var r := s.requests[id];
    && |ops| == (if r.status == Processing then r.reservedCount else 0)
    && Flippable(s.utxos, ops, Reserved(env.key(id)), Unspent)
    && t.utxos == Flip(s.utxos, ops, Unspent, |ops|)
    && t.requests == s.requests - {id} && t.vault == s.vault
    && t.token == s.token.(shielded := s.token.shielded + r.amount)
    && t.pool == Released(s.pool, s.token.shielded + r.amount, SumOps(s.utxos, ops, |ops|), |ops|)
  }

  lemma CancelParts(env: Env, st: Settings, s: State, caller: nat, id: RequestId, ops: seq<OutPoint>, slot: u64)
    requires Cancel(env, st, s, caller, id, ops, slot).Ok?
    ensures Cancelled(env, s, id, ops, Cancel(env, st, s, caller, id, ops, slot).value)
  {}

  /** A cancelled request gives back exactly its reserved set, and its value is never zero. */
  lemma CancelReleasesAll(w: World, s: State, id: RequestId, ops: seq<OutPoint>, t: State)
    requires WorldOk(w) && RequestsOk(w, s) && OwnersOk(w, s) && Cancelled(w.env, s, id, ops, t)
    ensures (forall op :: HasStatus(s.utxos, op, Reserved(w.env.key(id))) <==> op in ops)
    ensures s.requests[id].status == Processing ==> SumOps(s.utxos, ops, |ops|) == s.requests[id].totalInput > 0
    ensures CountOf(t.utxos, Reserved(w.env.key(id))) == 0
  {
    assert RequestOk(w, s.utxos, id, s.requests[id]);
    var key := w.env.key(id);
    if s.requests[id].status == Processing {
      DistinctIsAll(s.utxos, ops, Reserved(key), Unspent);
    } else {
      OwnsNothing(w, s, id);
      NoneLeft(s.utxos, Reserved(key));
    }
  }

  /** Closing a request that has nothing reserved any more. */
  lemma ClosedRequest(w: World, s: State, id: RequestId, utxos: Utxos)
    requires WorldOk(w) && RequestsOk(w, s) && OwnersOk(w, s) && id in s.requests
    requires LeavesOthers(s.utxos, utxos, w.env.key(id)) && CountOf(utxos, Reserved(w.env.key(id))) == 0
    ensures forall other :: other in s.requests - {id} ==> RequestOk(w, utxos, other, s.requests[other])
    ensures forall op :: OwnedAt(w, utxos, s.requests - {id}, op)
  {
    var key := w.env.key(id);
    assert RequestOk(w, s.utxos, id, s.requests[id]);
    forall other | other in s.requests - {id} ensures RequestOk(w, utxos, other, s.requests[other]) {
      OtherStays(w, s, id, utxos, other);
    }
    NoneLeft(utxos, Reserved(key));
    forall op ensures OwnedAt(w, utxos, s.requests - {id}, op) {
      if op in utxos && utxos[op].status.Reserved? {
        var k := utxos[op].status.key;
        assert op in ReservedSet(utxos, k);
        assert op in ReservedSet(s.utxos, k);
        assert OwnedAt(w, s.utxos, s.requests, op);
        var owner :| owner in s.requests && s.requests[owner].status == Processing && w.env.key(owner) == k;
        assert owner in s.requests - {id};
      }
    }
  }

  lemma CancelInv(w: World, st: Settings, s: State, donated: nat, caller: nat, id: RequestId, ops: seq<OutPoint>, slot: u64)
    requires WorldOk(w) && Inv(w, s, donated) && Cancel(w.env, st, s, caller, id, ops, slot).Ok?
    ensures Inv(w, Cancel(w.env, st, s, caller, id, ops, slot).value, donated)
  {
    var t := Cancel(w.env, st, s, caller, id, ops, slot).value;
    var key := w.env.key(id);
    CancelParts(w.env, st, s, caller, id, ops, slot);
    CancelReleasesAll(w, s, id, ops, t);
    FlipTotals(s.utxos, ops, Reserved(key), Unspent, |ops|, Unspent);
    MarkLeavesOthers(s.utxos, ops, Reserved(key), Unspent, key);
    ClosedRequest(w, s, id, t.utxos);
    TotalRemove(s.requests, RequestAmount(), id);
  }

  // ---- complete --------------------------------------------------------------------------------------------------------

  /** The script a completion tracks change for. */
  function Tracked(env: Env, tracked: bool): Script {
    if tracked then env.poolScript else []
  }

  /** Satoshis of a record the change output would overwrite. */
  function Overwritten(utxos: Utxos, tx: Tx, pool: Script): nat {
    if ChangeIndex(tx, pool) < |tx.outputs| then AmountAt(utxos, OutPoint(tx.txid, ChangeIndex(tx, pool))) else 0
  }

  predicate FreshChange(utxos: Utxos, tx: Tx, pool: Script) {
    ChangeIndex(tx, pool) < |tx.outputs| ==> OutPoint(tx.txid, ChangeIndex(tx, pool)) !in utxos
  }

  lemma ChangeTotals(utxos: Utxos, tx: Tx, pool: Script, s: UtxoStatus)
    ensures var m := WithChange(utxos, tx, pool);
            && Worth(m) == Worth(utxos) + ChangeValue(tx, pool) - Overwritten(utxos, tx, pool)
            && (s != Unspent ==> CountOf(m, s) <= CountOf(utxos, s))
            && (s != Unspent && CountOf(m, s) == CountOf(utxos, s) ==> ValueOf(m, s) == ValueOf(utxos, s))
            && (FreshChange(utxos, tx, pool) ==>
                  && ValueOf(m, s) == ValueOf(utxos, s) + If(s == Unspent, ChangeValue(tx, pool))
                  && CountOf(m, s) == CountOf(utxos, s) + If(s == Unspent && ChangeIndex(tx, pool) < |tx.outputs|, 1))
  {
    var i := ChangeIndex(tx, pool);
    if i < |tx.outputs| {
      var op := OutPoint(tx.txid, i);
      WriteTotals(utxos, op, Utxo(tx.outputs[i].value, Unspent, if op in utxos then utxos[op].leaf else NoLeaf), s);
    }
  }

  /** A successful completion, taken apart. */
  ghost predicate Completed(env: Env, st: Settings, s: State, id: RequestId, tx: Tx, pool: Script, ops: seq<OutPoint>, t: State) {
    && id in s.requests && s.requests[id].status == Processing && |ops| == s.requests[id].reservedCount
    && CheckPayout(st, s.requests[id], pool, tx).Ok?
    && Closable(WithChange(s.utxos, tx, pool), ops, env.key(id), tx)
    && t.utxos == Closed(WithChange(s.utxos, tx, pool), ops, |ops|)
    && t.requests == s.requests - {id}
    && var p := CheckPayout(st, s.requests[id], pool, tx).value;
    && p.burn <= s.vault && t.vault == s.vault - p.burn && t.token == s.token.(fees := s.token.fees + p.revenue)
    && t.pool.minted == s.pool.minted && t.pool.burned == s.pool.burned + p.burn && t.pool.shielded == s.pool.shielded
    && t.pool.pending == Less(s.pool.pending, 1) && t.pool.held == s.pool.held + ChangeValue(tx, pool)
    && t.pool.utxoCount == s.pool.utxoCount + If(ChangeIndex(tx, pool) < |tx.outputs|, 1)
  }

  lemma CompleteParts(env: Env, st: Settings, s: State, id: RequestId, tx: Tx, tracked: bool, ops: seq<OutPoint>)
    requires Complete(env, st, s, id, tx, tracked, ops).Ok?
    ensures Completed(env, st, s, id, tx, Tracked(env, tracked), ops, Complete(env, st, s, id, tx, tracked, ops).value)
  {}

  /** Completion consumes exactly the reserved set. */
  lemma CompleteConsumesAll(w: World, st: Settings, s: State, id: RequestId, tx: Tx, pool: Script, ops: seq<OutPoint>, t: State)
    requires RequestsOk(w, s) && Completed(w.env, st, s, id, tx, pool, ops, t)
    ensures var key := w.env.key(id);
            var m := WithChange(s.utxos, tx, pool);
            && SumOps(m, ops, |ops|) == s.requests[id].totalInput
            && (forall op :: HasStatus(m, op, Reserved(key)) <==> op in ops)
            && CountOf(t.utxos, Reserved(key)) == 0
  {
    assert RequestOk(w, s.utxos, id, s.requests[id]);
    ConsumesAll(s.utxos, w.env.key(id), s.requests[id].totalInput, tx, pool, ops);
  }

  lemma ConsumesAll(utxos: Utxos, key: nat, total: nat, tx: Tx, pool: Script, ops: seq<OutPoint>)
    requires CountOf(utxos, Reserved(key)) == |ops| && ValueOf(utxos, Reserved(key)) == total
    requires Closable(WithChange(utxos, tx, pool), ops, key, tx)
    ensures var m := WithChange(utxos, tx, pool);
            && SumOps(m, ops, |ops|) == total
            && (forall op :: HasStatus(m, op, Reserved(key)) <==> op in ops)
            && CountOf(Closed(m, ops, |ops|), Reserved(key)) == 0
  {
    var m := WithChange(utxos, tx, pool);
    ChangeTotals(utxos, tx, pool, Reserved(key));
    ClosedTotals(m, ops, key, tx, |ops|, Reserved(key));
    ClosedIsAll(m, ops, key, tx);
  }

  lemma CompletedBackedIff(w: World, st: Settings, s: State, id: RequestId, tx: Tx, pool: Script, ops: seq<OutPoint>, t: State)
    requires RequestsOk(w, s) && Backed(s) && Completed(w.env, st, s, id, tx, pool, ops, t)
    ensures Backed(t) <==> Overwritten(s.utxos, tx, pool) == Excess(tx)
  {
    assert RequestOk(w, s.utxos, id, s.requests[id]);
    CompleteConsumesAll(w, st, s, id, tx, pool, ops, t);
    ChangeTotals(s.utxos, tx, pool, Unspent);
    ClosedTotals(WithChange(s.utxos, tx, pool), ops, w.env.key(id), tx, |ops|, Unspent);
    PayoutBalances(st, s.requests[id], pool, tx);
  }

  /** Backing survives a completion exactly when the record overwritten by change is worth what the output sum saturates by. */
  lemma CompleteBackedIff(w: World, st: Settings, s: State, id: RequestId, tx: Tx, tracked: bool, ops: seq<OutPoint>)
    requires RequestsOk(w, s) && Backed(s) && Complete(w.env, st, s, id, tx, tracked, ops).Ok?
    ensures Backed(Complete(w.env, st, s, id, tx, tracked, ops).value)
            <==> Overwritten(s.utxos, tx, Tracked(w.env, tracked)) == Excess(tx)
  {
    CompleteParts(w.env, st, s, id, tx, tracked, ops);
    CompletedBackedIff(w, st, s, id, tx, Tracked(w.env, tracked), ops, Complete(w.env, st, s, id, tx, tracked, ops).value);
  }

  lemma CompleteLeavesOthers(utxos: Utxos, tx: Tx, pool: Script, ops: seq<OutPoint>, key: nat)
    requires Closable(WithChange(utxos, tx, pool), ops, key, tx) && FreshChange(utxos, tx, pool)
    ensures LeavesOthers(utxos, Closed(WithChange(utxos, tx, pool), ops, |ops|), key)
  {
    var m := WithChange(utxos, tx, pool);
    forall k | k != key ensures ReservedSet(Closed(m, ops, |ops|), k) == ReservedSet(utxos, k) {
      CloseOthers(m, ops, key, tx, k);
      if ChangeIndex(tx, pool) < |tx.outputs| {
        FreshOthers(utxos, OutPoint(tx.txid, ChangeIndex(tx, pool)), Utxo(ChangeValue(tx, pool), Unspent, NoLeaf), k);
      }
    }
  }

  lemma CompletedBooks(w: World, st: Settings, s: State, donated: nat, id: RequestId, tx: Tx, pool: Script, ops: seq<OutPoint>, t: State)
    requires Books(s, donated) && RequestsOk(w, s) && Completed(w.env, st, s, id, tx, pool, ops, t)
    ensures Books(t, donated)
  {
    assert RequestOk(w, s.utxos, id, s.requests[id]);
    PayoutBalances(st, s.requests[id], pool, tx);
    TotalRemove(s.requests, RequestAmount(), id);
  }

  lemma CompleteInv(w: World, st: Settings, s: State, donated: nat, id: RequestId, tx: Tx, tracked: bool, ops: seq<OutPoint>)
    requires WorldOk(w) && Inv(w, s, donated) && Complete(w.env, st, s, id, tx, tracked, ops).Ok?
    requires FreshChange(s.utxos, tx, Tracked(w.env, tracked)) && Excess(tx) == 0
    ensures Inv(w, Complete(w.env, st, s, id, tx, tracked, ops).value, donated)
  {
    var t := Complete(w.env, st, s, id, tx, tracked, ops).value;
    var pool := Tracked(w.env, tracked);
    var m := WithChange(s.utxos, tx, pool);
    CompleteParts(w.env, st, s, id, tx, tracked, ops);
    CompletedBooks(w, st, s, donated, id, tx, pool, ops, t);
    CompletedBackedIff(w, st, s, id, tx, pool, ops, t);
    CompleteConsumesAll(w, st, s, id, tx, pool, ops, t);
    CompleteLeavesOthers(s.utxos, tx, pool, ops, w.env.key(id));
    ClosedRequest(w, s, id, t.utxos);
    ChangeTotals(s.utxos, tx, pool, Unspent);
    ClosedTotals(m, ops, w.env.key(id), tx, |ops|, Unspent);
  }

  /** A record written over by change is missed: by the counters if it was unspent, by its owner if it was reserved. */
  lemma OverwritingShows(w: World, st: Settings, s: State, donated: nat, id: RequestId, tx: Tx, pool: Script, ops: seq<OutPoint>, t: State)
    requires WorldOk(w) && Inv(w, s, donated) && Completed(w.env, st, s, id, tx, pool, ops, t) && !FreshChange(s.utxos, tx, pool)
    ensures !Counted(t) || !RequestsOk(w, t)
  {
    var op := OutPoint(tx.txid, ChangeIndex(tx, pool));
    var was := s.utxos[op].status;
    var m := WithChange(s.utxos, tx, pool);
    var u := Utxo(ChangeValue(tx, pool), Unspent, s.utxos[op].leaf);
    WriteTotals(s.utxos, op, u, was);
    ClosedTotals(m, ops, w.env.key(id), tx, |ops|, was);
    if was != Unspent {
      assert was != Reserved(w.env.key(id)) by { assert RequestOk(w, s.utxos, id, s.requests[id]); }
      OwnerMisses(w, s, id, op, t);
    }
  }

  /** A request whose reserved records are fewer than before is not lawful. */
  lemma OwnerMisses(w: World, s: State, id: RequestId, op: OutPoint, t: State)
    requires WorldOk(w) && RequestsOk(w, s) && OwnersOk(w, s) && id in s.requests && s.requests[id].status == Processing
    requires op in s.utxos && s.utxos[op].status.Reserved? && t.requests == s.requests - {id}
    requires s.utxos[op].status != Reserved(w.env.key(id)) && CountOf(t.utxos, s.utxos[op].status) < CountOf(s.utxos, s.utxos[op].status)
    ensures !RequestsOk(w, t)
  {
    var was := s.utxos[op].status;
    assert OwnedAt(w, s.utxos, s.requests, op);
    var owner :| owner in s.requests && s.requests[owner].status == Processing && w.env.key(owner) == was.key;
    assert RequestOk(w, s.utxos, owner, s.requests[owner]);
    assert owner in t.requests && !RequestOk(w, t.utxos, owner, t.requests[owner]);
  }

  /** A completion keeps every law if and only if its change outpoint is fresh and its outputs add up in 64 bits. */
  lemma CompleteInvIff(w: World, st: Settings, s: State, donated: nat, id: RequestId, tx: Tx, tracked: bool, ops: seq<OutPoint>)
    requires WorldOk(w) && Inv(w, s, donated) && Complete(w.env, st, s, id, tx, tracked, ops).Ok?
    ensures Inv(w, Complete(w.env, st, s, id, tx, tracked, ops).value, donated)
            <==> FreshChange(s.utxos, tx, Tracked(w.env, tracked)) && Excess(tx) == 0
  {
    var t := Complete(w.env, st, s, id, tx, tracked, ops).value;
    var pool := Tracked(w.env, tracked);
    CompleteParts(w.env, st, s, id, tx, tracked, ops);
    if !FreshChange(s.utxos, tx, pool) {
      OverwritingShows(w, st, s, donated, id, tx, pool, ops, t);
    } else if Excess(tx) != 0 {
      CompletedBackedIff(w, st, s, id, tx, pool, ops, t);
    } else {
      CompleteInv(w, st, s, donated, id, tx, tracked, ops);
    }
  }

  // ---- runs ---------------------------------------------------------------------------------------------------------------

  datatype Step =
    | DepositStep(st: Settings, op: OutPoint, amount: u64, leaf: Leaf)
    | ShieldStep(st: Settings, amount: u64, received: u64)
    | UnshieldStep(st: Settings, amounts: seq<u64>)
    | ClaimStep(amount: u64)
    | DonateStep(amount: u64)
    | RedeemStep(st: Settings, requester: nat, orders: seq<Order>)
    | MarkStep(st: Settings, id: RequestId, ops: seq<OutPoint>, slot: u64)
    | ApproveStep(st: Settings, id: RequestId, index: u32, fee: u64, ops: seq<OutPoint>)
    | CancelStep(st: Settings, caller: nat, id: RequestId, ops: seq<OutPoint>, slot: u64)
    | CompleteStep(st: Settings, id: RequestId, tx: Tx, tracked: bool, ops: seq<OutPoint>)

  function Apply(env: Env, s: State, step: Step): Result<State> {
    match step
    case DepositStep(st, op, amount, leaf) => Deposit(st, s, op, amount, leaf)
    case ShieldStep(st, amount, received) => Shield(st, s, amount, received)
    case UnshieldStep(st, amounts) => Unshield(st, s, amounts)
    case ClaimStep(amount) => ClaimFees(s, amount)
    case DonateStep(amount) => Donate(s, amount)
    case RedeemStep(st, requester, orders) => Redeem(st, s, requester, orders)
    case MarkStep(st, id, ops, slot) => Mark(env, st, s, id, ops, slot)
    case ApproveStep(st, id, index, fee, ops) =>
      (match Approve(env, st, s, id, index, fee, ops) case Err(e) => Err(e) case Ok((t, _)) => Ok(t))
    case CancelStep(st, caller, id, ops, slot) => Cancel(env, st, s, caller, id, ops, slot)
    case CompleteStep(st, id, tx, tracked, ops) => Complete(env, st, s, id, tx, tracked, ops)
  }

  /** One approved digest: which input, of which transaction. */
  datatype Approval = Approval(index: nat, spend: Spend)

  /** The accounts, the tokens donated so far and every approval given to a live request. */
  datatype Trace = Trace(state: State, donated: nat, log: map<RequestId, seq<Approval>>)

  /** What a step adds to the approvals of a request. */
  function Approved(env: Env, s: State, step: Step, id: RequestId): seq<Approval> {
    if step.ApproveStep? && step.id == id then
      match Approve(env, step.st, s, step.id, step.index, step.fee, step.ops)
      case Err(_) => []
      case Ok((_, spend)) => [Approval(step.index, spend)]
    else []
  }

  function LogOf(t: Trace, id: RequestId): seq<Approval> {
    if id in t.state.requests && id in t.log then t.log[id] else []
  }

  /** A failing instruction leaves everything as it was. */
  function Next(env: Env, t: Trace, step: Step): Trace {
    match Apply(env, t.state, step)
    case Err(_) => t
    case Ok(s) =>
      Trace(s, if step.DonateStep? then t.donated + step.amount else t.donated,
            map id | id in s.requests :: LogOf(t, id) + Approved(env, t.state, step, id))
  }

  function Run(env: Env, steps: seq<Step>): Trace {
    if |steps| == 0 then Trace(EMPTY, 0, map[])
    else Next(env, Run(env, steps[..|steps| - 1]), steps[|steps| - 1])
  }

  /** Requests use known addresses, and the input lists hashed are known ones. */
  ghost predicate StepKnown(w: World, s: State, step: Step) {
    && (step.RedeemStep? ==> KnownOrders(w, step.requester, step.orders))
    && (step.MarkStep? ==> Hashed(w, s.utxos, step.ops))
    && (step.ApproveStep? && step.id in s.requests && s.requests[step.id].reservedCount <= |step.ops| ==>
          Hashed(w, s.utxos, step.ops[..s.requests[step.id].reservedCount]))
  }

  /** A completion that goes through has a fresh change outpoint and outputs that add up in 64 bits. */
  ghost predicate StepFresh(w: World, s: State, step: Step) {
    step.CompleteStep? && Complete(w.env, step.st, s, step.id, step.tx, step.tracked, step.ops).Ok? ==>
      FreshChange(s.utxos, step.tx, Tracked(w.env, step.tracked)) && Excess(step.tx) == 0
  }

  ghost predicate StepOk(w: World, s: State, step: Step) {
    StepKnown(w, s, step) && StepFresh(w, s, step)
  }

  ghost predicate StepsOk(w: World, steps: seq<Step>) {
    |steps| > 0 ==>
      && StepsOk(w, steps[..|steps| - 1])
      && StepOk(w, Run(w.env, steps[..|steps| - 1]).state, steps[|steps| - 1])
  }

  predicate OnRequests(step: Step) {
    step.MarkStep? || step.ApproveStep? || step.CancelStep? || step.CompleteStep?
  }

  lemma TokenStepInv(w: World, s: State, donated: nat, step: Step)
    requires WorldOk(w) && Inv(w, s, donated) && StepOk(w, s, step) && !OnRequests(step) && Apply(w.env, s, step).Ok?
    ensures Inv(w, Apply(w.env, s, step).value, if step.DonateStep? then donated + step.amount else donated)
  {
    match step {
      case DepositStep(st, op, amount, leaf) => DepositInv(w, st, s, donated, op, amount, leaf);
      case ShieldStep(st, amount, received) => ShieldInv(w, st, s, donated, amount, received);
      case UnshieldStep(st, amounts) => UnshieldInv(w, st, s, donated, amounts);
      case ClaimStep(amount) => ClaimInv(w, s, donated, amount);
      case DonateStep(amount) => DonateInv(w, s, donated, amount);
      case RedeemStep(st, requester, orders) => RedeemInv(w, st, s, donated, requester, orders);
    }
  }

  lemma RequestStepInv(w: World, s: State, donated: nat, step: Step)
    requires WorldOk(w) && Inv(w, s, donated) && StepOk(w, s, step) && OnRequests(step) && Apply(w.env, s, step).Ok?
    ensures Inv(w, Apply(w.env, s, step).value, donated)
  {
    match step {
      case MarkStep(st, id, ops, slot) => MarkInv(w, st, s, donated, id, ops, slot);
      case ApproveStep(st, id, index, fee, ops) => ApproveInv(w, st, s, donated, id, index, fee, ops);
      case CancelStep(st, caller, id, ops, slot) => CancelInv(w, st, s, donated, caller, id, ops, slot);
      case CompleteStep(st, id, tx, tracked, ops) => CompleteInv(w, st, s, donated, id, tx, tracked, ops);
    }
  }

  lemma ApproveInv(w: World, st: Settings, s: State, donated: nat, id: RequestId, index: u32, fee: u64, ops: seq<OutPoint>)
    requires WorldOk(w) && Inv(w, s, donated) && Approve(w.env, st, s, id, index, fee, ops).Ok?
    ensures Inv(w, Approve(w.env, st, s, id, index, fee, ops).value.0, donated)
  {
    ApproveParts(w.env, st, s, id, index, fee, ops);
    var (t, spend) := Approve(w.env, st, s, id, index, fee, ops).value;
    SignedInv(w, s, donated, id, index, fee, ops[..s.requests[id].reservedCount], t, spend);
  }

  lemma StepInv(w: World, t: Trace, step: Step)
    requires WorldOk(w) && Inv(w, t.state, t.donated) && StepOk(w, t.state, step)
    ensures Inv(w, Next(w.env, t, step).state, Next(w.env, t, step).donated)
  {
    if Apply(w.env, t.state, step).Ok? {
      if OnRequests(step) { RequestStepInv(w, t.state, t.donated, step); } else { TokenStepInv(w, t.state, t.donated, step); }
    }
  }

  lemma StepInvIff(w: World, t: Trace, step: Step)
    requires WorldOk(w) && Inv(w, t.state, t.donated) && StepKnown(w, t.state, step)
    ensures Inv(w, Next(w.env, t, step).state, Next(w.env, t, step).donated) <==> StepFresh(w, t.state, step)
  {
    if StepFresh(w, t.state, step) {
      StepInv(w, t, step);
    } else {
      CompleteInvIff(w, step.st, t.state, t.donated, step.id, step.tx, step.tracked, step.ops);
    }
  }

  ghost predicate StepsKnown(w: World, steps: seq<Step>) {
    |steps| > 0 ==>
      && StepsKnown(w, steps[..|steps| - 1])
      && StepKnown(w, Run(w.env, steps[..|steps| - 1]).state, steps[|steps| - 1])
  }

  ghost predicate AlwaysInv(w: World, steps: seq<Step>) {
    && Inv(w, Run(w.env, steps).state, Run(w.env, steps).donated)
    && (|steps| > 0 ==> AlwaysInv(w, steps[..|steps| - 1]))
  }

  /** Backing, conservation and reservation integrity hold after every run. */
  lemma {:induction false} RunInv(w: World, steps: seq<Step>)
    requires WorldOk(w) && StepsOk(w, steps)
    ensures Inv(w, Run(w.env, steps).state, Run(w.env, steps).donated)
  {
    if |steps| == 0 {
      InitialInv(w);
    } else {
      RunInv(w, steps[..|steps| - 1]);
      StepInv(w, Run(w.env, steps[..|steps| - 1]), steps[|steps| - 1]);
    }
  }

  lemma {:induction false} FreshKeepsLaws(w: World, steps: seq<Step>)
    requires WorldOk(w) && StepsOk(w, steps)
    ensures AlwaysInv(w, steps)
  {
    RunInv(w, steps);
    if |steps| > 0 { FreshKeepsLaws(w, steps[..|steps| - 1]); }
  }

  lemma {:induction false} LawsNeedFresh(w: World, steps: seq<Step>)
    requires WorldOk(w) && StepsKnown(w, steps) && AlwaysInv(w, steps)
    ensures StepsOk(w, steps)
  {
    if |steps| > 0 {
      LawsNeedFresh(w, steps[..|steps| - 1]);
      StepInvIff(w, Run(w.env, steps[..|steps| - 1]), steps[|steps| - 1]);
    }
  }

  /** The laws hold at every moment of a run if and only if every completion in it is fresh. */
  lemma LawsIffFresh(w: World, steps: seq<Step>)
    requires WorldOk(w) && StepsKnown(w, steps)
    ensures AlwaysInv(w, steps) <==> StepsOk(w, steps)
  {
    if StepsOk(w, steps) { FreshKeepsLaws(w, steps); } else if AlwaysInv(w, steps) { LawsNeedFresh(w, steps); }
  }

  /** One satoshi on record per zkBTC outstanding; the vault holds what it owes; counters describe the records. */
  ghost predicate Conserved(s: State, donated: nat) {
    && Worth(s.utxos) == s.pool.minted - s.pool.burned
    && s.vault == s.token.shielded + s.token.fees + Owed(s.requests) + donated
    && s.pool.shielded == s.token.shielded && s.pool.pending == |s.requests|
    && s.pool.held == ValueOf(s.utxos, Unspent) && s.pool.utxoCount == CountOf(s.utxos, Unspent)
  }

  lemma InvConserves(w: World, s: State, donated: nat)
    requires Inv(w, s, donated)
    ensures Conserved(s, donated)
  {}

  /** Conservation holds after every run. */
  lemma Conservation(w: World, steps: seq<Step>)
    requires WorldOk(w) && StepsOk(w, steps)
    ensures Conserved(Run(w.env, steps).state, Run(w.env, steps).donated)
  {
    RunInv(w, steps);
    InvConserves(w, Run(w.env, steps).state, Run(w.env, steps).donated);
  }

  /** After every run a reserved record has exactly one live owner, whose reserved set adds up to its request. */
  lemma OneOwner(w: World, steps: seq<Step>, op: OutPoint) returns (id: RequestId)
    requires WorldOk(w) && StepsOk(w, steps)
    requires var utxos := Run(w.env, steps).state.utxos; op in utxos && utxos[op].status.Reserved?
    ensures var s := Run(w.env, steps).state;
            var status := s.utxos[op].status;
            && id in s.requests && s.requests[id].status == Processing && w.env.key(id) == status.key
            && (forall other :: other in s.requests && w.env.key(other) == status.key ==> other == id)
            && CountOf(s.utxos, status) == s.requests[id].reservedCount
            && ValueOf(s.utxos, status) == s.requests[id].totalInput
  {
    RunInv(w, steps);
    var s := Run(w.env, steps).state;
    assert OwnedAt(w, s.utxos, s.requests, op);
    id :| id in s.requests && s.requests[id].status == Processing && w.env.key(id) == s.utxos[op].status.key;
    assert RequestOk(w, s.utxos, id, s.requests[id]);
    forall other | other in s.requests && w.env.key(other) == w.env.key(id) ensures other == id {
      assert RequestOk(w, s.utxos, other, s.requests[other]);
    }
  }

  /** After every run no proper part of a reservation covers the payout with the largest admissible fee; all of it does. */
  lemma MinimalFunding(w: World, steps: seq<Step>, id: RequestId, part: Utxos)
    requires WorldOk(w) && StepsOk(w, steps)
    requires var s := Run(w.env, steps).state;
             var all := ReservedSet(s.utxos, w.env.key(id));
             && id in s.requests && s.requests[id].status == Processing && part != all
             && forall op :: op in part ==> op in all && part[op] == all[op]
    ensures var s := Run(w.env, steps).state;
            var r := s.requests[id];
            && r.serviceFee <= r.amount
            && Worth(part) < Required(r) <= Worth(ReservedSet(s.utxos, w.env.key(id)))
  {
    RunInv(w, steps);
    var s := Run(w.env, steps).state;
    assert RequestOk(w, s.utxos, id, s.requests[id]);
    NoSmallerFunding(w, s.utxos, w.env.key(id), s.requests[id], part);
  }
}
