/** Every approved transaction, once mined, completes its redemption. */
module ApprovedCompletion {
  import opened U256
  import opened Totals
  import opened Requests
  import opened Ledgers
  import opened Reservations
  import opened Payouts
  import opened LedgerRuns
  import opened Approvals

  /** The outpoints a transaction spends. */
  function Spent(inputs: seq<SpendInput>): (ops: seq<OutPoint>)
    ensures |ops| == |inputs| && forall i :: 0 <= i < |inputs| ==> ops[i] == inputs[i].outpoint
  {
    if |inputs| == 0 then [] else Spent(inputs[..|inputs| - 1]) + [inputs[|inputs| - 1].outpoint]
  }

  /** The inputs of a rebuilt transaction are all of the request's records, each once. */
  lemma SpentIsReserved(w: World, utxos: Utxos, key: nat, r: Request, fee: u64, listed: seq<OutPoint>)
    requires WorldOk(w) && r.serviceFee <= r.amount && ProcessingOk(w, utxos, key, r)
    requires Rebuild(w.env, r, utxos, key, fee, listed).Ok? && Hashed(w, utxos, listed)
    ensures var ops := Spent(Rebuild(w.env, r, utxos, key, fee, listed).value.inputs);
            |ops| == r.reservedCount && Distinct(ops) && AllReserved(utxos, ops, key)
  {
    RebuildNeedsListing(w.env, r, utxos, key, fee, listed);
    ListedIsFull(w, utxos, key, r, listed);
    CanonicalReserved(utxos, key, listed);
    var inputs := Canonical(InputsOf(utxos, listed));
    assert Rebuild(w.env, r, utxos, key, fee, listed).value.inputs == SpendInputs(utxos, inputs);
  }

  lemma CanonicalReserved(utxos: Utxos, key: nat, listed: seq<OutPoint>)
    requires Distinct(listed) && AllReserved(utxos, listed, key)
    ensures var ops := Spent(SpendInputs(utxos, Canonical(InputsOf(utxos, listed))));
            |ops| == |listed| && Distinct(ops) && AllReserved(utxos, ops, key)
  {
    var a := InputsOf(utxos, listed);
    var inputs := Canonical(a);
    DistinctInputs(utxos, listed);
    SameMultisetDistinct(a, inputs);
    var ops := Spent(SpendInputs(utxos, inputs));
    forall i | 0 <= i < |ops| ensures HasStatus(utxos, ops[i], Reserved(key)) && inputs[i].amount == AmountAt(utxos, ops[i]) {
      CanonicalFrom(utxos, listed, i);
      var j :| 0 <= j < |listed| && inputs[i] == ReservedInput(listed[j], AmountAt(utxos, listed[j]));
      assert HasStatus(utxos, listed[j], Reserved(key));
    }
    forall i, j | 0 <= i < j < |ops| ensures ops[i] != ops[j] {
      assert inputs[i] != inputs[j];
    }
  }

  lemma ChangeKeepsReserved(utxos: Utxos, tx: Tx, pool: Script, ops: seq<OutPoint>, key: nat)
    requires FreshChange(utxos, tx, pool) && AllReserved(utxos, ops, key)
    ensures AllReserved(WithChange(utxos, tx, pool), ops, key)
  {
    forall i | 0 <= i < |ops| ensures HasStatus(WithChange(utxos, tx, pool), ops[i], Reserved(key)) {
      assert HasStatus(utxos, ops[i], Reserved(key));
    }
  }

  /** Unspent records and one reservation are disjoint parts of what is on record. */
  lemma {:induction false} PartsWithinWorth(utxos: Utxos, key: nat)
    ensures ValueOf(utxos, Unspent) + ValueOf(utxos, Reserved(key)) <= Worth(utxos)
    decreases |utxos|
  {
    if utxos != map[] {
      var op :| op in utxos;
      RemoveTotals(utxos, op, Unspent);
      RemoveTotals(utxos, op, Reserved(key));
      PartsWithinWorth(utxos - {op}, key);
    }
  }

  /** Ledger counters have room for any payout the checks accept. */
  lemma RoomToComplete(w: World, st: Settings, s: State, donated: nat, id: RequestId, pool: Script, tx: Tx)
    requires Inv(w, s, donated) && id in s.requests && s.requests[id].status == Processing && Excess(tx) == 0
    requires CheckPayout(st, s.requests[id], pool, tx).Ok?
    ensures var p := CheckPayout(st, s.requests[id], pool, tx).value;
            && p.burn <= s.vault && s.pool.burned + p.burn <= U64_MAX
            && s.token.fees + p.revenue <= U64_MAX && s.pool.held + ChangeValue(tx, pool) <= U64_MAX
  {
    assert RequestOk(w, s.utxos, id, s.requests[id]);
    PayoutBalances(st, s.requests[id], pool, tx);
    TotalRemove(s.requests, RequestAmount(), id);
    PartsWithinWorth(s.utxos, w.env.key(id));
  }

  /** The mined form of an approved transaction. */
  predicate Mines(tx: Tx, spend: Spend) {
    tx.inputs == Spent(spend.inputs) && tx.outputs == spend.outputs
  }

  lemma ApprovedCloses(w: World, s: State, donated: nat, id: RequestId, fee: u64, listed: seq<OutPoint>, tx: Tx)
    requires WorldOk(w) && Inv(w, s, donated) && id in s.requests && s.requests[id].status == Processing
    requires Hashed(w, s.utxos, listed)
    requires var spend := Rebuild(w.env, s.requests[id], s.utxos, w.env.key(id), fee, listed); spend.Ok? && Mines(tx, spend.value)
    requires FreshChange(s.utxos, tx, w.env.poolScript)
    ensures |tx.inputs| == s.requests[id].reservedCount
    ensures Closable(WithChange(s.utxos, tx, w.env.poolScript), tx.inputs, w.env.key(id), tx)
  {
    var key := w.env.key(id);
    assert RequestOk(w, s.utxos, id, s.requests[id]);
    SpentIsReserved(w, s.utxos, key, s.requests[id], fee, listed);
    ChangeKeepsReserved(s.utxos, tx, w.env.poolScript, tx.inputs, key);
    ClosableIff(WithChange(s.utxos, tx, w.env.poolScript), tx.inputs, key, tx);
  }

  lemma ApprovedOutputs(env: Env, r: Request, utxos: Utxos, key: nat, fee: u64, listed: seq<OutPoint>, tx: Tx)
    requires var spend := Rebuild(env, r, utxos, key, fee, listed); spend.Ok? && tx.outputs == spend.value.outputs
    requires r.totalInput <= U64_MAX
    ensures Excess(tx) == 0
  {
    var (send, change) := Amounts(r.amount, r.serviceFee, r.totalInput, fee).value;
    SpendSum(env, r.script, send, change);
  }

  /** The parts of a completion other than the payout checks. */
  lemma CompletesIffPaid(w: World, st: Settings, s: State, id: RequestId, tx: Tx, ops: seq<OutPoint>)
    requires id in s.requests && s.requests[id].status == Processing && |w.env.poolScript| > 0 && tx.txid !in s.completed
    requires |ops| == s.requests[id].reservedCount == |tx.inputs| <= MAX_UTXOS
    requires Closable(WithChange(s.utxos, tx, w.env.poolScript), ops, w.env.key(id), tx)
    requires var check := CheckPayout(st, s.requests[id], w.env.poolScript, tx);
             check.Ok? ==>
               && check.value.burn <= s.vault && s.pool.burned + check.value.burn <= U64_MAX
               && s.token.fees + check.value.revenue <= U64_MAX && s.pool.feePool + check.value.revenue <= U64_MAX
               && s.pool.held + ChangeValue(tx, w.env.poolScript) <= U64_MAX && s.pool.utxoCount + 1 <= U32_MAX
    ensures Complete(w.env, st, s, id, tx, true, ops).Ok? <==> CheckPayout(st, s.requests[id], w.env.poolScript, tx).Ok?
  {}

  /**
   * In any run, mining an approved transaction lets the redemption complete exactly when the recipient is not the
   * pool: every payout, output-policy, fee, input and ledger check passes, whether or not dust change was dropped.
   */
  lemma ApprovedCompletes(w: World, steps: seq<Step>, id: RequestId, i: nat, st: Settings, tx: Tx)
    requires WorldOk(w) && StepsOk(w, steps) && !st.paused
    requires var t := Run(w.env, steps);
             && id in t.state.requests && t.state.requests[id].status == Processing
             && id in t.log && i < |t.log[id]| && Mines(tx, t.log[id][i].spend)
             && tx.txid !in t.state.completed && FreshChange(t.state.utxos, tx, w.env.poolScript)
             && t.state.pool.feePool + t.state.requests[id].amount <= U64_MAX && t.state.pool.utxoCount < U32_MAX
    ensures Complete(w.env, st, Run(w.env, steps).state, id, tx, true, tx.inputs).Ok?
            <==> Run(w.env, steps).state.requests[id].script != w.env.poolScript
  {
    var t := Run(w.env, steps);
    RunInv(w, steps);
    RunLogs(w, steps);
    var listed := LoggedListing(w, t, id, i);
    ApprovedAccepted(w, t.state, t.donated, id, LoadFee(t.state.requests[id].approvalFee), listed, st, tx);
  }

  lemma ApprovedAccepted(w: World, s: State, donated: nat, id: RequestId, fee: u64, listed: seq<OutPoint>, st: Settings, tx: Tx)
    requires WorldOk(w) && Inv(w, s, donated) && id in s.requests && s.requests[id].status == Processing && !st.paused
    requires s.requests[id].amount <= MAX_REDEMPTION_SATS
    requires Hashed(w, s.utxos, listed)
    requires var spend := Rebuild(w.env, s.requests[id], s.utxos, w.env.key(id), fee, listed); spend.Ok? && Mines(tx, spend.value)
    requires tx.txid !in s.completed && FreshChange(s.utxos, tx, w.env.poolScript)
    requires s.pool.feePool + s.requests[id].amount <= U64_MAX && s.pool.utxoCount < U32_MAX
    ensures Complete(w.env, st, s, id, tx, true, tx.inputs).Ok? <==> s.requests[id].script != w.env.poolScript
  {
    var r, key := s.requests[id], w.env.key(id);
    assert RequestOk(w, s.utxos, id, r);
    ApprovedCloses(w, s, donated, id, fee, listed, tx);
    ApprovedOutputs(w.env, r, s.utxos, key, fee, listed, tx);
    ApprovedPassesIff(w.env, st, r, s.utxos, key, fee, listed, tx);
    if CheckPayout(st, r, w.env.poolScript, tx).Ok? {
      RoomToComplete(w, st, s, donated, id, w.env.poolScript, tx);
      PayoutBalances(st, r, w.env.poolScript, tx);
    }
    CompletesIffPaid(w, st, s, id, tx, tx.inputs);
  }
}
