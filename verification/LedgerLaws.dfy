/** What deposit, shield, unshield, redeem and fee claims accept and do, in plain numbers. */
module LedgerLaws {
  import opened Powers
  import opened U256
  import opened Requests
  import opened Ledgers
  import opened Payouts
  import opened LedgerRuns

  // ---- fees ---------------------------------------------------------------------------------------------

  lemma ShareWithin(amount: nat, bps: nat)
    requires bps <= 10_000
    ensures amount * bps / 10_000 <= amount
  {
    MulMono(bps, 10_000, amount);
    var (q, r) := DivMod(amount * bps, 10_000);
  }

  /** Up to a rate of 100% the fee is floor(amount * bps / 10000), but at least one unit of a charged amount. */
  lemma BpsFeeIs(amount: u64, bps: u16)
    requires bps <= 10_000
    ensures BpsFee(amount, bps) == (if 0 < amount * bps < 10_000 then 1 else amount * bps / 10_000)
    ensures BpsFee(amount, bps) <= amount
  {
    ShareWithin(amount, bps);
    var (q, r) := DivMod(amount * bps, 10_000);
    DivModUnique(q, 0x1_0000_0000_0000_0000, 0, q);
    MulPositive(amount, bps);
    if q == 0 { DivModUnique(amount * bps, 10_000, 0, r); }
  }

  lemma MulPositive(x: nat, y: nat)
    ensures x * y > 0 <==> x > 0 && y > 0
  {
    if x > 0 && y > 0 { MulPos(x, y); }
  }

  /** Above 100% the quotient is cut to 64 bits first. */
  lemma BpsFeeWraps(amount: u64, bps: u16)
    ensures var low := amount * bps / 10_000 % 0x1_0000_0000_0000_0000;
            BpsFee(amount, bps) == (if low == 0 && amount > 0 && bps > 0 then 1 else low)
  {}

  /** The service fee: a share of the amount plus a base, each sum held at 2^64 - 1. */
  lemma ServiceFeeIs(st: Settings, amount: nat)
    ensures var share := amount * st.withdrawalBps / 10_000;
            var capped := if share <= 0xffff_ffff_ffff_ffff then share else 0xffff_ffff_ffff_ffff;
            ServiceFee(st, amount) == (if capped + st.serviceFeeBase <= 0xffff_ffff_ffff_ffff then capped + st.serviceFeeBase else 0xffff_ffff_ffff_ffff)
  {}

  /** Saturation holds a sum at 2^64 - 1, so an output sum has an excess exactly when it does not fit 64 bits. */
  lemma ExcessIs(tx: Tx)
    ensures var sum := SumOutputs(tx.outputs, |tx.outputs|);
            Excess(tx) == (if sum <= 0xffff_ffff_ffff_ffff then 0 else sum - 0xffff_ffff_ffff_ffff)
  {}

  // ---- deposit and shield ----------------------------------------------------------------------------------

  /** A deposit is credited exactly within all limits, with a fee below its amount, once per outpoint and under the cap. */
  lemma DepositAcceptsIff(st: Settings, s: State, op: OutPoint, amount: u64, leaf: Leaf)
    ensures var fee := BpsFee(amount, st.depositBps) + st.serviceFee;
            Deposit(st, s, op, amount, leaf).Ok? <==>
            && !st.paused && st.enabled && !st.treeFull && op !in s.utxos
            && st.poolMin <= amount <= st.poolMax && st.tokenMin <= amount <= st.tokenMax && fee < amount
            && s.token.shielded + (amount - fee) <= st.cap
            && s.pool.held + amount <= 0xffff_ffff_ffff_ffff && s.vault + amount <= 0xffff_ffff_ffff_ffff
            && s.pool.minted + amount <= 0xffff_ffff_ffff_ffff && s.token.fees + fee <= 0xffff_ffff_ffff_ffff
            && s.pool.utxoCount + 1 <= 0xffff_ffff
  {}

  /** It records the whole output, mints it, and splits it into note and fee. */
  lemma DepositDoes(st: Settings, s: State, op: OutPoint, amount: u64, leaf: Leaf)
    requires Deposit(st, s, op, amount, leaf).Ok?
    ensures var t := Deposit(st, s, op, amount, leaf).value;
            var fee := BpsFee(amount, st.depositBps) + st.serviceFee;
            && t.utxos == s.utxos[op := Utxo(amount, Unspent, leaf)] && t.vault == s.vault + amount
            && t.token.shielded == s.token.shielded + amount - fee && t.token.fees == s.token.fees + fee
            && t.pool.minted == s.pool.minted + amount && t.pool.burned == s.pool.burned && t.requests == s.requests
  {}

  /** A shield is accepted exactly within the token's limits on the nominal amount and under the cap on the note. */
  lemma ShieldAcceptsIff(st: Settings, s: State, amount: u64, received: u64)
    ensures var fee := BpsFee(received, st.depositBps);
            Shield(st, s, amount, received).Ok? <==>
            && !st.paused && st.enabled && !st.treeFull && st.tokenMin <= amount <= st.tokenMax
            && fee < received && s.token.shielded + (received - fee) <= st.cap
            && s.vault + received <= 0xffff_ffff_ffff_ffff && s.token.fees + fee <= 0xffff_ffff_ffff_ffff
  {}

  lemma ShieldDoes(st: Settings, s: State, amount: u64, received: u64)
    requires Shield(st, s, amount, received).Ok?
    ensures var t := Shield(st, s, amount, received).value;
            var fee := BpsFee(received, st.depositBps);
            && t.vault == s.vault + received && t.token.fees == s.token.fees + fee
            && t.token.shielded == s.token.shielded + received - fee
            && t.utxos == s.utxos && t.requests == s.requests && t.pool.minted == s.pool.minted
  {}

  // ---- unshield --------------------------------------------------------------------------------------------------

  /** What the first `k` recipients are paid: each amount less its own fee. */
  ghost function PaidOut(amounts: seq<u64>, bps: u16, k: nat): int
    requires k <= |amounts|
  {
    if k == 0 then 0 else PaidOut(amounts, bps, k - 1) + (amounts[k - 1] as int - BpsFee(amounts[k - 1], bps))
  }

  lemma {:induction false} PaidOutIs(amounts: seq<u64>, bps: u16, k: nat)
    requires k <= |amounts|
    ensures PaidOut(amounts, bps, k) == SumTo(amounts, k) - FeesTo(amounts, bps, k)
  {
    if k > 0 { PaidOutIs(amounts, bps, k - 1); }
  }

  /** The vault pays each of one to three recipients its amount less its fee; notes fall by the amounts, fees rise by the fees. */
  lemma UnshieldDoes(st: Settings, s: State, amounts: seq<u64>)
    requires Unshield(st, s, amounts).Ok?
    ensures var t := Unshield(st, s, amounts).value;
            && 1 <= |amounts| <= 3 && !st.paused && st.enabled && st.joinSplitOk
            && (forall i :: 0 <= i < |amounts| ==> BpsFee(amounts[i], st.withdrawalBps) <= amounts[i])
            && t.vault == s.vault - PaidOut(amounts, st.withdrawalBps, |amounts|)
            && t.token.shielded == s.token.shielded - SumTo(amounts, |amounts|)
            && t.token.fees == s.token.fees + FeesTo(amounts, st.withdrawalBps, |amounts|)
            && t.utxos == s.utxos && t.requests == s.requests
  {
    PaidOutIs(amounts, st.withdrawalBps, |amounts|);
  }

  lemma {:induction false} FeesWithin(amounts: seq<u64>, bps: u16, k: nat)
    requires FeesCovered(amounts, bps) && k <= |amounts|
    ensures FeesTo(amounts, bps, k) <= SumTo(amounts, k)
  {
    if k > 0 { FeesWithin(amounts, bps, k - 1); }
  }

  /** In a state whose books balance, an unshield is accepted exactly when the notes cover it and no fee exceeds its amount. */
  lemma UnshieldAcceptsIff(st: Settings, s: State, donated: nat, amounts: seq<u64>)
    requires Books(s, donated)
    ensures var total, fees := SumTo(amounts, |amounts|), FeesTo(amounts, st.withdrawalBps, |amounts|);
            Unshield(st, s, amounts).Ok? <==>
            && 1 <= |amounts| <= 3 && !st.paused && st.enabled && st.joinSplitOk
            && (forall i :: 0 <= i < |amounts| ==> BpsFee(amounts[i], st.withdrawalBps) <= amounts[i])
            && total <= s.token.shielded && s.token.fees + fees <= 0xffff_ffff_ffff_ffff
  {
    if FeesCovered(amounts, st.withdrawalBps) { FeesWithin(amounts, st.withdrawalBps, |amounts|); }
  }

  /** Claims are accepted exactly up to the accumulated fees, which the vault always covers. */
  lemma ClaimAcceptsIff(s: State, donated: nat, amount: u64)
    requires Books(s, donated)
    ensures ClaimFees(s, amount).Ok? <==> amount <= s.token.fees
    ensures ClaimFees(s, amount).Ok? ==>
              ClaimFees(s, amount).value == s.(vault := s.vault - amount, token := s.token.(fees := s.token.fees - amount))
  {}

  // ---- redeem -----------------------------------------------------------------------------------------------------

  predicate NoncesDiffer(orders: seq<Order>) {
    forall i, j :: 0 <= i < j < |orders| ==> orders[i].nonce != orders[j].nonce
  }

  /** Orders open exactly at free, distinct addresses, each leaving a payout after its fee. */
  lemma OpensIff(st: Settings, requests: map<RequestId, Request>, requester: nat, orders: seq<Order>)
    ensures AllOpen(st, requests, requester, orders) <==>
            && NoncesDiffer(orders)
            && forall i :: 0 <= i < |orders| ==>
                 RequestId(requester, orders[i].nonce) !in requests && ServiceFee(st, orders[i].amount) < orders[i].amount
  {
    forall i | 0 <= i < |orders|
      ensures OpensAt(st, requests, requester, orders, i) <==>
              && RequestId(requester, orders[i].nonce) !in requests && ServiceFee(st, orders[i].amount) < orders[i].amount
              && forall j :: 0 <= j < i ==> orders[j].nonce != orders[i].nonce
    {
      OpenedKeys(st, requests, requester, orders, i, RequestId(requester, orders[i].nonce));
    }
    if AllOpen(st, requests, requester, orders) {
      forall i | 0 <= i < |orders|
        ensures RequestId(requester, orders[i].nonce) !in requests && ServiceFee(st, orders[i].amount) < orders[i].amount
        ensures forall j :: 0 <= j < i ==> orders[j].nonce != orders[i].nonce
      {
        assert OpensAt(st, requests, requester, orders, i);
      }
    }
  }

  lemma {:induction false} OpenedKeys(st: Settings, requests: map<RequestId, Request>, requester: nat, orders: seq<Order>, k: nat, id: RequestId)
    requires k <= |orders|
    ensures id in Opened(st, requests, requester, orders, k) <==>
            id in requests || exists j :: 0 <= j < k && id == RequestId(requester, orders[j].nonce)
    decreases k
  {
    if k > 0 { OpenedKeys(st, requests, requester, orders, k - 1, id); }
  }

  /** The request an order opens. */
  ghost predicate Opens(st: Settings, o: Order, r: Request) {
    && r.status == Pending && r.amount == o.amount && r.serviceFee == ServiceFee(st, o.amount) && r.script == o.script
    && r.totalInput == 0 && r.reservedCount == 0 && r.approved == 0 && !r.signingApproved
  }

  lemma {:induction false} OpenedHolds(st: Settings, requests: map<RequestId, Request>, requester: nat, orders: seq<Order>, k: nat, i: nat)
    requires i < k <= |orders| && NoncesDiffer(orders)
    ensures RequestId(requester, orders[i].nonce) in Opened(st, requests, requester, orders, k)
    ensures Opens(st, orders[i], Opened(st, requests, requester, orders, k)[RequestId(requester, orders[i].nonce)])
    decreases k
  {
    if i < k - 1 { OpenedHolds(st, requests, requester, orders, k - 1, i); }
  }

  /** In a state whose books balance, a redemption of one to three orders is accepted exactly under these conditions. */
  lemma RedeemAcceptsIff(st: Settings, s: State, donated: nat, requester: nat, orders: seq<Order>)
    requires Books(s, donated)
    ensures Redeem(st, s, requester, orders).Ok? <==>
            && 1 <= |orders| <= 3 && !st.paused && st.enabled && st.joinSplitOk
            && NoncesDiffer(orders)
            && (forall i :: 0 <= i < |orders| ==>
                  && 1 <= |orders[i].script| <= 34 && orders[i].script[0] != 0x6a
                  && RequestId(requester, orders[i].nonce) !in s.requests
                  && ServiceFee(st, orders[i].amount) < orders[i].amount)
            && OrdersTo(orders, |orders|) <= s.token.shielded
  {
    OpensIff(st, s.requests, requester, orders);
    if forall i :: 0 <= i < |orders| ==> ServiceFee(st, orders[i].amount) < orders[i].amount {
      assert forall i :: 0 <= i < |orders| ==> orders[i].amount > 0;
    }
  }

  /** Each order becomes a pending request with its amount, fee and script; no other request changes; the notes fall by the sum. */
  lemma RedeemDoes(st: Settings, s: State, requester: nat, orders: seq<Order>)
    requires Redeem(st, s, requester, orders).Ok?
    ensures var t := Redeem(st, s, requester, orders).value;
            && (forall i :: 0 <= i < |orders| ==>
                  var id := RequestId(requester, orders[i].nonce);
                  id !in s.requests && id in t.requests && Opens(st, orders[i], t.requests[id]))
            && (forall id :: id in s.requests ==> id in t.requests && t.requests[id] == s.requests[id])
            && t.token.shielded == s.token.shielded - OrdersTo(orders, |orders|)
            && t.vault == s.vault && t.token.fees == s.token.fees && t.utxos == s.utxos
  {
    var t := Redeem(st, s, requester, orders).value;
    OpensIff(st, s.requests, requester, orders);
    forall i | 0 <= i < |orders|
      ensures var id := RequestId(requester, orders[i].nonce);
              id !in s.requests && id in t.requests && Opens(st, orders[i], t.requests[id])
    {
      OpenedHolds(st, s.requests, requester, orders, |orders|, i);
    }
    forall id | id in s.requests ensures id in t.requests && t.requests[id] == s.requests[id] {
      OpenedIs(st, s.requests, requester, orders, |orders|, id);
    }
  }
}
