/** What a completing transaction's checks establish, and why every approved transaction passes them. */
module Payouts {
  import opened U256
  import opened Requests
  import opened Ledgers

  lemma {:induction false} FirstPayingIs(outputs: seq<Output>, script: Script, from: nat, j: nat)
    requires from <= |outputs|
    ensures from <= j < FirstPaying(outputs, script, from) ==> outputs[j].script != script
    ensures FirstPaying(outputs, script, from) < |outputs| ==> outputs[FirstPaying(outputs, script, from)].script == script
    decreases |outputs| - from
  {
    if from < |outputs| && outputs[from].script != script { FirstPayingIs(outputs, script, from + 1, j); }
  }

  predicate AllAllowed(outputs: seq<Output>, recipient: Script, pool: Script) {
    forall i :: 0 <= i < |outputs| ==> Allowed(outputs[i], recipient, pool)
  }

  /** Allowed outputs pay the recipient, the pool or nobody. */
  lemma {:induction false} OutputsSplit(outputs: seq<Output>, recipient: Script, pool: Script, k: nat)
    requires k <= |outputs| && AllAllowed(outputs, recipient, pool) && recipient != pool
    ensures SumOutputs(outputs, k) == PaidTo(outputs, recipient, k) + (if |pool| == 0 then 0 else PaidTo(outputs, pool, k))
    decreases k
  {
    if k > 0 {
      OutputsSplit(outputs, recipient, pool, k - 1);
      assert Allowed(outputs[k - 1], recipient, pool);
    }
  }

  /** With at most one change output, the first output to the pool carries all of the change. */
  lemma {:induction false} ChangeIsFirst(outputs: seq<Output>, recipient: Script, pool: Script, k: nat)
    requires k <= |outputs| && AllAllowed(outputs, recipient, pool) && recipient != pool && |pool| > 0
    requires ChangeCount(outputs, recipient, pool, k) <= 1
    ensures var first := FirstPaying(outputs, pool, 0);
            && PaidTo(outputs, pool, k) == (if first < k then outputs[first].value else 0)
            && (first < k && !IsOpReturn(Output(0, pool)) ==> ChangeCount(outputs, recipient, pool, k) == 1)
    decreases k
  {
    if k > 0 {
      ChangeIsFirst(outputs, recipient, pool, k - 1);
      FirstPayingIs(outputs, pool, 0, k - 1);
      assert Allowed(outputs[k - 1], recipient, pool);
    }
  }

  /** What the sum of outputs exceeds a 64-bit counter by. */
  function Excess(tx: Tx): nat {
    SumOutputs(tx.outputs, |tx.outputs|) - Saturated(SumOutputs(tx.outputs, |tx.outputs|))
  }

  /** Burning what left custody: inputs are burn plus recorded change, but for a saturated output sum. */
  lemma PayoutBalances(st: Settings, r: Request, pool: Script, tx: Tx)
    requires CheckPayout(st, r, pool, tx).Ok? && |r.script| > 0
    ensures var p := CheckPayout(st, r, pool, tx).value;
            && p.burn + ChangeValue(tx, pool) == r.totalInput + Excess(tx)
            && p.burn + p.revenue == r.amount
            && p.minerFee <= MAX_FEE_SATS
  {
    var n := |tx.outputs|;
    OutputsSplit(tx.outputs, r.script, pool, n);
    if |pool| > 0 { ChangeIsFirst(tx.outputs, r.script, pool, n); }
  }

  /** The outputs an approval commits to, described without reference to how they are listed. */
  lemma SpendTotals(env: Env, script: Script, send: u64, change: u64)
    requires script != env.poolScript
    ensures var outs := SpendOutputs(env, script, send, change);
            && SumOutputs(outs, |outs|) == send + (if change > DUST_SATS then change else 0)
            && PaidTo(outs, script, |outs|) == send
            && FirstPaying(outs, env.poolScript, 0) == (if change > DUST_SATS then 1 else |outs|)
  {
    var outs := SpendOutputs(env, script, send, change);
    assert SumOutputs(outs, 1) == send && PaidTo(outs, script, 1) == send;
    assert FirstPaying(outs, env.poolScript, 0) == FirstPaying(outs, env.poolScript, 1);
    if change > DUST_SATS {
      assert SumOutputs(outs, 2) == send + change;
    }
  }

  lemma SpendWithinPolicy(env: Env, script: Script, send: u64, change: u64)
    requires script != env.poolScript && |env.poolScript| > 0
    requires !IsOpReturn(Output(0, script)) && !IsOpReturn(Output(0, env.poolScript))
    ensures WithinPolicy(SpendOutputs(env, script, send, change), script, env.poolScript)
  {
    var outs := SpendOutputs(env, script, send, change);
    assert ChangeCount(outs, script, env.poolScript, 1) == 0;
    if change > DUST_SATS {
      assert ChangeCount(outs, script, env.poolScript, 2) == 1;
    }
  }

  lemma MinPayoutWithin(send: nat)
    ensures MinPayout(send) <= send
  {}

  /** An approved transaction balances, and completion accepts it exactly when the recipient is not the pool itself. */
  lemma ApprovedPassesIff(env: Env, st: Settings, r: Request, utxos: Utxos, key: nat, fee: u64, ops: seq<OutPoint>, tx: Tx)
    requires Rebuild(env, r, utxos, key, fee, ops).Ok? && tx.outputs == Rebuild(env, r, utxos, key, fee, ops).value.outputs
    requires r.serviceFee < r.amount <= MAX_REDEMPTION_SATS && !st.paused && ScriptOk(r.script)
    requires |env.poolScript| > 0 && env.poolScript[0] != OP_RETURN
    ensures var change := r.totalInput - (r.amount - r.serviceFee) - fee;
            var paid := EffectiveFee(change, fee);
            var check := CheckPayout(st, r, env.poolScript, tx);
            && paid <= r.serviceFee
            && SumOutputs(tx.outputs, |tx.outputs|) + paid == r.totalInput == SumOps(utxos, ops, |ops|)
            && (check.Ok? <==> r.script != env.poolScript)
            && (check.Ok? ==>
                  && check.value == Payout(r.amount - r.serviceFee, paid, r.amount - r.serviceFee + paid, r.serviceFee - paid)
                  && ChangeValue(tx, env.poolScript) == (if change > DUST_SATS then change else 0))
  {
    var send := r.amount - r.serviceFee;
    var change := r.totalInput - send - fee;
    assert tx.outputs == SpendOutputs(env, r.script, send, change);
    if r.script != env.poolScript {
      SpendTotals(env, r.script, send, change);
      SpendWithinPolicy(env, r.script, send, change);
      MinPayoutWithin(send);
      assert tx.outputs[0].script == r.script;
    } else {
      SpendSum(env, r.script, send, change);
    }
  }

  lemma SpendSum(env: Env, script: Script, send: u64, change: u64)
    ensures var outs := SpendOutputs(env, script, send, change);
            SumOutputs(outs, |outs|) == send + (if change > DUST_SATS then change else 0)
  {
    var outs := SpendOutputs(env, script, send, change);
    assert SumOutputs(outs, 1) == send;
    if change > DUST_SATS {
      assert SumOutputs(outs, 2) == send + change;
    }
  }
}
