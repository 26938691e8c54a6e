/** The pool's instructions, step by step over the accounts. */
module LedgerProgram {
  import opened Powers
  import opened U256
  import opened Requests
  import opened Ledgers
  import opened Reservations
  import opened LedgerRuns
  import opened RedemptionLaws

  // ---- loops over a transaction's outputs -------------------------------------------------------------

  /** Sums every output that pays a script, stopping on 64-bit overflow. */
  method ReceivedBy(outputs: seq<Output>, script: Script) returns (received: Result<nat>, matched: bool)
    ensures PaidTo(outputs, script, |outputs|) <= U64_MAX ==> received == Ok(PaidTo(outputs, script, |outputs|))
    ensures PaidTo(outputs, script, |outputs|) > U64_MAX ==> received.Err?
    ensures received.Ok? ==> (matched <==> Pays(outputs, script))
  {
    var total: nat := 0;
    matched := false;
    for i := 0 to |outputs|
      invariant total == PaidTo(outputs, script, i) <= U64_MAX
      invariant matched <==> exists j :: 0 <= j < i && outputs[j].script == script
    {
      if outputs[i].script == script {
        matched := true;
        PaidToGrows(outputs, script, i + 1, |outputs|);
        if total + outputs[i].value > U64_MAX { return Err(Overflow), matched; }
        total := total + outputs[i].value;
      }
    }
    received := Ok(total);
  }

  lemma {:induction false} PaidToGrows(outputs: seq<Output>, script: Script, i: nat, k: nat)
    requires i <= k <= |outputs|
    ensures PaidTo(outputs, script, i) <= PaidTo(outputs, script, k)
    decreases k
  {
    if i < k { PaidToGrows(outputs, script, i, k - 1); }
  }

  /** The anti-skim policy: OP_RETURN first, then recipient, then at most one change output. */
  method OutputsWithinPolicy(outputs: seq<Output>, recipient: Script, pool: Script) returns (ok: bool)
    ensures ok <==> WithinPolicy(outputs, recipient, pool)
  {
    var changeOutputs: nat := 0;
    for i := 0 to |outputs|
      invariant changeOutputs == ChangeCount(outputs, recipient, pool, i) <= 1
      invariant forall j :: 0 <= j < i ==> Allowed(outputs[j], recipient, pool)
    {
      var o := outputs[i];
      ChangeCountGrows(outputs, recipient, pool, i + 1, |outputs|);
      if IsOpReturn(o) {
        if o.value != 0 { return false; }
      } else if o.script != recipient {
        if |pool| > 0 && o.script == pool {
          changeOutputs := changeOutputs + 1;
          if changeOutputs > 1 { return false; }
        } else {
          return false;
        }
      }
    }
    return true;
  }

  lemma {:induction false} ChangeCountGrows(outputs: seq<Output>, recipient: Script, pool: Script, i: nat, k: nat)
    requires i <= k <= |outputs|
    ensures ChangeCount(outputs, recipient, pool, i) <= ChangeCount(outputs, recipient, pool, k)
    decreases k
  {
    if i < k { ChangeCountGrows(outputs, recipient, pool, i, k - 1); }
  }

  /** A saturating fold computes the exact sum, capped. */
  method SaturatingSum(outputs: seq<Output>) returns (total: nat)
    ensures total == Saturated(SumOutputs(outputs, |outputs|))
  {
    total := 0;
    for i := 0 to |outputs|
      invariant total == Saturated(SumOutputs(outputs, i))
    {
      total := Saturated(total + outputs[i].value);
    }
  }

  method FindOutput(outputs: seq<Output>, script: Script) returns (i: nat)
    ensures i == FirstPaying(outputs, script, 0)
  {
    i := 0;
    while i < |outputs| && outputs[i].script != script
      invariant i <= |outputs| && FirstPaying(outputs, script, i) == FirstPaying(outputs, script, 0)
    {
      i := i + 1;
    }
  }

  /** Payout, policy, fee and accounting checks in the program's order. */
  method VerifyPayout(st: Settings, r: Request, pool: Script, tx: Tx) returns (p: Result<Payout>)
    ensures CheckPayout(st, r, pool, tx).Ok? <==> p.Ok?
    ensures p.Ok? ==> p == CheckPayout(st, r, pool, tx)
    ensures r.serviceFee <= r.amount <= U64_MAX ==> (p.Ok? <==> MayComplete(st, r, pool, tx))
  {
    if r.serviceFee <= r.amount <= U64_MAX { PayoutAcceptsIff(st, r, pool, tx); }
    if r.amount < r.serviceFee { return Err(Overflow); }
    var send := r.amount - r.serviceFee;
    var received, matched := ReceivedBy(tx.outputs, r.script);
    if received.Err? { return Err(Overflow); }
    if !matched || received.value < MinPayout(send) || received.value > send { return Err(OutputMismatch); }
    if |pool| > 0 && r.script == pool { return Err(OutputMismatch); }
    var within := OutputsWithinPolicy(tx.outputs, r.script, pool);
    if !within { return Err(OutputMismatch); }
    if r.totalInput == 0 { return Err(ZeroAmount); }
    var outputs := SaturatingSum(tx.outputs);
    if r.totalInput < outputs { return Err(OutputMismatch); }
    var minerFee := r.totalInput - outputs;
    if minerFee > MAX_FEE_SATS { return Err(OutputMismatch); }
    if !SigningOk(st, r.amount, minerFee) { return Err(FeeExceedsLimit); }
    p := Accounting(r.amount, received.value, minerFee);
  }

  /** The burn is what left custody; the rest of the amount is revenue. */
  function Accounting(amount: nat, received: nat, minerFee: nat): (p: Result<Payout>)
    ensures p.Ok? <==> received + minerFee <= U64_MAX && received + minerFee <= amount
    ensures p.Ok? ==> p.value.burn + p.value.revenue == amount && p.value.burn == received + minerFee
  {
    if received + minerFee > U64_MAX then Err(Overflow)
    else if amount < received + minerFee then Err(OutputMismatch)
    else Ok(Payout(received, minerFee, received + minerFee, amount - (received + minerFee)))
  }

  // ---- the accounts -------------------------------------------------------------------------------------------

  /** An instruction did what its specification says, or failed and changed nothing. */
  ghost predicate Follows(spec: Result<State>, before: State, after: State, r: Result<()>) {
    match spec
    case Err(_) => r.Err? && after == before
    case Ok(s) => r.Ok? && after == s
  }

  /** The laws of runs survive the step. */
  ghost predicate Lawful(w: World, step: Step, before: State, after: State) {
    WorldOk(w) && StepOk(w, before, step) ==>
      forall donated: nat {:trigger Inv(w, before, donated)} :: Inv(w, before, donated) ==> Inv(w, after, donated)
  }

  ghost predicate LawfulIn(env: Env, step: Step, before: State, after: State) {
    forall w: World {:trigger Lawful(w, step, before, after)} :: w.env == env ==> Lawful(w, step, before, after)
  }

  ghost predicate LawfulAlways(step: Step, before: State, after: State) {
    forall w: World {:trigger Lawful(w, step, before, after)} :: Lawful(w, step, before, after)
  }

  lemma StepLawful(w: World, step: Step, s: State)
    requires !step.DonateStep?
    ensures Lawful(w, step, s, s)
    ensures Apply(w.env, s, step).Ok? ==> Lawful(w, step, s, Apply(w.env, s, step).value)
  {
    if WorldOk(w) && StepOk(w, s, step) && Apply(w.env, s, step).Ok? {
      forall donated: nat | Inv(w, s, donated) ensures Inv(w, Apply(w.env, s, step).value, donated) {
        StepInv(w, Trace(s, donated, map[]), step);
      }
    }
  }

  lemma LawfulStep(env: Env, step: Step, s: State, spec: Result<State>)
    requires !step.DonateStep? && Apply(env, s, step) == spec
    ensures LawfulIn(env, step, s, s) && (spec.Ok? ==> LawfulIn(env, step, s, spec.value))
  {
    forall w: World | w.env == env ensures Lawful(w, step, s, s) && (spec.Ok? ==> Lawful(w, step, s, spec.value)) {
      StepLawful(w, step, s);
    }
  }

  lemma ApproveLawful(env: Env, st: Settings, s: State, id: RequestId, index: u32, fee: u64, ops: seq<OutPoint>)
    ensures var step, spec := ApproveStep(st, id, index, fee, ops), Approve(env, st, s, id, index, fee, ops);
            LawfulIn(env, step, s, s) && (spec.Ok? ==> LawfulIn(env, step, s, spec.value.0))
  {
    LawfulStep(env, ApproveStep(st, id, index, fee, ops), s, Apply(env, s, ApproveStep(st, id, index, fee, ops)));
  }

  /** For steps that read no environment. */
  lemma LawfulAnywhere(step: Step, s: State, spec: Result<State>)
    requires !step.DonateStep? && forall w: World {:trigger Apply(w.env, s, step)} :: Apply(w.env, s, step) == spec
    ensures LawfulAlways(step, s, s) && (spec.Ok? ==> LawfulAlways(step, s, spec.value))
  {
    forall w: World ensures Lawful(w, step, s, s) && (spec.Ok? ==> Lawful(w, step, s, spec.value)) {
      StepLawful(w, step, s);
      assert Apply(w.env, s, step) == spec;
    }
  }

  lemma CompletePays(env: Env, st: Settings, s: State, id: RequestId, tx: Tx, tracked: bool, ops: seq<OutPoint>)
    ensures Complete(env, st, s, id, tx, tracked, ops).Ok? ==> id in s.requests
    ensures Complete(env, st, s, id, tx, tracked, ops).Ok? && s.requests[id].amount <= U64_MAX ==>
              MayComplete(st, s.requests[id], Tracked(env, tracked), tx)
  {
    if Complete(env, st, s, id, tx, tracked, ops).Ok? && s.requests[id].amount <= U64_MAX {
      CompleteNeeds(env, st, s, id, tx, tracked, ops);
    }
  }

  /** The pool's accounts. A failing instruction leaves them as they were. */
  class PoolLedger {
    var pool: Pool
    var token: Token
    var vault: nat
    var utxos: Utxos
    var requests: map<RequestId, Request>
    var completed: set<nat>

    ghost function View(): State
      reads this
    {
      State(pool, token, vault, utxos, requests, completed)
    }

    constructor ()
      ensures View() == EMPTY
    {
      pool, token, vault := Pool(0, 0, 0, 0, 0, 0, 0), Token(0, 0), 0;
      utxos, requests, completed := map[], map[], {};
    }

    method CompleteDeposit(st: Settings, op: OutPoint, amount: u64, leaf: Leaf) returns (r: Result<()>)
      modifies this
      ensures Follows(Deposit(st, old(View()), op, amount, leaf), old(View()), View(), r)
      ensures LawfulAlways(DepositStep(st, op, amount, leaf), old(View()), View())
    {
      LawfulAnywhere(DepositStep(st, op, amount, leaf), View(), Deposit(st, View(), op, amount, leaf));
      if st.paused { return Err(PoolPaused); }
      if !st.enabled { return Err(TokenDisabled); }
      var split := DepositSplit(st, amount);
      if split.Err? { return Err(split.error); }
      var (fee, shielded) := split.value;
      if st.treeFull { return Err(TreeIsFull); }
      if op in utxos { return Err(DuplicateDeposit); }
      if pool.held + amount > U64_MAX || pool.utxoCount + 1 > U32_MAX || vault + amount > U64_MAX { return Err(Overflow); }
      if token.shielded + shielded > U64_MAX { return Err(Overflow); }
      if token.shielded + shielded > st.cap { return Err(DepositCapExceeded); }
      if token.fees + fee > U64_MAX || pool.minted + amount > U64_MAX { return Err(Overflow); }
      utxos := utxos[op := Utxo(amount, Unspent, leaf)];
      pool := pool.(held := pool.held + amount, utxoCount := pool.utxoCount + 1);
      vault := vault + amount;
      token := Token(token.shielded + shielded, token.fees + fee);
      pool := pool.(minted := pool.minted + amount, shielded := token.shielded);
      return Ok(());
    }

    method ShieldTokens(st: Settings, amount: u64, received: u64) returns (r: Result<()>)
      modifies this
      ensures Follows(Shield(st, old(View()), amount, received), old(View()), View(), r)
      ensures LawfulAlways(ShieldStep(st, amount, received), old(View()), View())
    {
      LawfulAnywhere(ShieldStep(st, amount, received), View(), Shield(st, View(), amount, received));
      if st.paused { return Err(PoolPaused); }
      if !st.enabled { return Err(TokenDisabled); }
      if amount < st.tokenMin || amount > st.tokenMax { return Err(AmountOutOfRange); }
      if vault + received > U64_MAX { return Err(Overflow); }
      var fee := BpsFee(received, st.depositBps);
      if fee > received { return Err(Overflow); }
      if fee == received { return Err(ZeroAmount); }
      if token.shielded + (received - fee) > U64_MAX { return Err(Overflow); }
      if token.shielded + (received - fee) > st.cap { return Err(DepositCapExceeded); }
      if st.treeFull { return Err(TreeIsFull); }
      if token.fees + fee > U64_MAX { return Err(Overflow); }
      vault := vault + received;
      token := Token(token.shielded + (received - fee), token.fees + fee);
      pool := pool.(shielded := token.shielded);
      return Ok(());
    }

    /** Sums amounts and fees output by output. */
    method Payouts(amounts: seq<u64>, bps: u16) returns (r: Result<(nat, nat)>)
      ensures var total, fees := SumTo(amounts, |amounts|), FeesTo(amounts, bps, |amounts|);
              if FeesCovered(amounts, bps) && total <= U64_MAX && fees <= U64_MAX then r == Ok((total, fees)) else r.Err?
    {
      var total: nat, fees: nat := 0, 0;
      for k := 0 to |amounts|
        invariant total == SumTo(amounts, k) <= U64_MAX && fees == FeesTo(amounts, bps, k) <= U64_MAX
        invariant forall i :: 0 <= i < k ==> BpsFee(amounts[i], bps) <= amounts[i]
      {
        SumsGrow(amounts, bps, k + 1, |amounts|);
        var fee := BpsFee(amounts[k], bps);
        if fee > amounts[k] { return Err(Overflow); }
        if total + amounts[k] > U64_MAX || fees + fee > U64_MAX { return Err(Overflow); }
        total, fees := total + amounts[k], fees + fee;
      }
      return Ok((total, fees));
    }

    method UnshieldTokens(st: Settings, amounts: seq<u64>) returns (r: Result<()>)
      modifies this
      ensures Follows(Unshield(st, old(View()), amounts), old(View()), View(), r)
      ensures LawfulAlways(UnshieldStep(st, amounts), old(View()), View())
    {
      LawfulAnywhere(UnshieldStep(st, amounts), View(), Unshield(st, View(), amounts));
      if |amounts| == 0 || |amounts| > MAX_PUBLIC_OUTPUTS { return Err(InvalidInstruction); }
      if st.paused { return Err(PoolPaused); }
      if !st.enabled { return Err(TokenDisabled); }
      if !st.joinSplitOk { return Err(InvalidJoinSplit); }
      var sums := Payouts(amounts, st.withdrawalBps);
      if sums.Err? { return Err(sums.error); }
      var (total, fees) := sums.value;
      if total < fees || vault < total - fees { return Err(InsufficientFunds); }
      if token.shielded < total || token.fees + fees > U64_MAX { return Err(Overflow); }
      vault := vault - (total - fees);
      token := Token(token.shielded - total, token.fees + fees);
      pool := pool.(shielded := token.shielded);
      return Ok(());
    }

    method Claim(amount: u64) returns (r: Result<()>)
      modifies this
      ensures Follows(ClaimFees(old(View()), amount), old(View()), View(), r)
      ensures LawfulAlways(ClaimStep(amount), old(View()), View())
    {
      LawfulAnywhere(ClaimStep(amount), View(), ClaimFees(View(), amount));
      if amount > token.fees || amount > vault { return Err(InsufficientFunds); }
      vault := vault - amount;
      token := token.(fees := token.fees - amount);
      return Ok(());
    }

    // ---- redeem ----

    method CheckOrders(orders: seq<Order>) returns (r: Result<nat>)
      ensures var total := OrdersTo(orders, |orders|);
              if (forall i :: 0 <= i < |orders| ==> orders[i].amount > 0) && total <= U64_MAX then r == Ok(total) else r.Err?
    {
      var total: nat := 0;
      for k := 0 to |orders|
        invariant total == OrdersTo(orders, k) <= U64_MAX
        invariant forall i :: 0 <= i < k ==> orders[i].amount > 0
      {
        OrdersGrow(orders, k + 1, |orders|);
        if orders[k].amount == 0 { return Err(ZeroAmount); }
        if total + orders[k].amount > U64_MAX { return Err(Overflow); }
        total := total + orders[k].amount;
      }
      return Ok(total);
    }

    /** Creates the requests one by one; each sees the ones before it. */
    method OpenRequests(st: Settings, requester: nat, orders: seq<Order>) returns (r: Result<map<RequestId, Request>>)
      ensures if AllOpen(st, requests, requester, orders) then r == Ok(Opened(st, requests, requester, orders, |orders|)) else r.Err?
    {
      var m := requests;
      for k := 0 to |orders|
        invariant m == Opened(st, requests, requester, orders, k)
        invariant forall i {:trigger OpensAt(st, requests, requester, orders, i)} :: 0 <= i < k ==> OpensAt(st, requests, requester, orders, i)
      {
        var o := orders[k];
        var id := RequestId(requester, o.nonce);
        assert OpensAt(st, requests, requester, orders, k) <==> CanOpen(st, m, requester, o);
        if id in m { return Err(AlreadyInitialized); }
        if ServiceFee(st, o.amount) >= o.amount { return Err(AmountOutOfRange); }
        m := m[id := NewRequest(st, o)];
      }
      return Ok(m);
    }

    method RedeemNotes(st: Settings, requester: nat, orders: seq<Order>) returns (r: Result<()>)
      modifies this
      ensures Follows(Redeem(st, old(View()), requester, orders), old(View()), View(), r)
      ensures LawfulAlways(RedeemStep(st, requester, orders), old(View()), View())
    {
      LawfulAnywhere(RedeemStep(st, requester, orders), View(), Redeem(st, View(), requester, orders));
      if |orders| == 0 || |orders| > MAX_PUBLIC_OUTPUTS { return Err(InvalidInstruction); }
      if !(forall i :: 0 <= i < |orders| ==> ScriptOk(orders[i].script)) { return Err(InvalidInstruction); }
      if st.paused { return Err(PoolPaused); }
      if !st.enabled { return Err(TokenDisabled); }
      var total := CheckOrders(orders);
      if total.Err? { return Err(total.error); }
      if total.value > pool.shielded { return Err(InsufficientFunds); }
      if !st.joinSplitOk { return Err(InvalidJoinSplit); }
      var created := OpenRequests(st, requester, orders);
      if created.Err? { return Err(created.error); }
      if total.value > token.shielded { return Err(Overflow); }
      requests := created.value;
      token := token.(shielded := token.shielded - total.value);
      pool := pool.(shielded := token.shielded, pending := Saturated(pool.pending + |orders|));
      return Ok(());
    }

    // ---- reservations ----

    /** Moves the named records from one status to another, summing their amounts. */
    method MoveRecords(ops: seq<OutPoint>, from: UtxoStatus, to: UtxoStatus) returns (r: Result<(Utxos, nat)>)
      requires from != to
      ensures if Flippable(utxos, ops, from, to) && SumOps(utxos, ops, |ops|) <= U64_MAX
              then r == Ok((Flip(utxos, ops, to, |ops|), SumOps(utxos, ops, |ops|))) else r.Err?
    {
      var m := utxos;
      var total: nat := 0;
      for i := 0 to |ops|
        invariant m == Flip(utxos, ops, to, i) && total == SumOps(utxos, ops, i) <= U64_MAX
        invariant forall j {:trigger FlipsAt(utxos, ops, from, to, j)} :: 0 <= j < i ==> FlipsAt(utxos, ops, from, to, j)
      {
        FlipKeeps(utxos, ops, to, i, ops[i]);
        SumOpsGrows(utxos, ops, i + 1, |ops|);
        assert FlipsAt(utxos, ops, from, to, i) <==> HasStatus(m, ops[i], from);
        if ops[i] !in m || m[ops[i]].status != from { return Err(InvalidUtxo); }
        if total + m[ops[i]].amount > U64_MAX { return Err(Overflow); }
        total := total + m[ops[i]].amount;
        m := m[ops[i] := m[ops[i]].(status := to)];
      }
      return Ok((m, total));
    }

    method SmallestInput(ops: seq<OutPoint>) returns (smallest: nat)
      requires |ops| > 0
      ensures smallest == Smallest(utxos, ops, |ops|)
    {
      smallest := AmountAt(utxos, ops[0]);
      for i := 1 to |ops|
        invariant smallest == Smallest(utxos, ops, i)
      {
        if AmountAt(utxos, ops[i]) < smallest { smallest := AmountAt(utxos, ops[i]); }
      }
    }

    /** Takes the records off the pool's counters one at a time. */
    method RemoveUtxos(p: Pool, ops: seq<OutPoint>) returns (r: Result<Pool>)
      ensures var total := SumOps(utxos, ops, |ops|);
              if total <= p.held && |ops| <= p.utxoCount
              then r == Ok(p.(held := p.held - total, utxoCount := p.utxoCount - |ops|)) else r.Err?
    {
      var q := p;
      for i := 0 to |ops|
        invariant SumOps(utxos, ops, i) <= p.held && i <= p.utxoCount
        invariant q == p.(held := p.held - SumOps(utxos, ops, i), utxoCount := p.utxoCount - i)
      {
        SumOpsGrows(utxos, ops, i + 1, |ops|);
        if q.held < AmountAt(utxos, ops[i]) || q.utxoCount < 1 { return Err(Overflow); }
        q := q.(held := q.held - AmountAt(utxos, ops[i]), utxoCount := q.utxoCount - 1);
      }
      return Ok(q);
    }

    method MarkProcessing(env: Env, st: Settings, id: RequestId, ops: seq<OutPoint>, slot: u64) returns (res: Result<()>)
      modifies this
      ensures Follows(Mark(env, st, old(View()), id, ops, slot), old(View()), View(), res)
      ensures LawfulIn(env, MarkStep(st, id, ops, slot), old(View()), View())
    {
      LawfulStep(env, MarkStep(st, id, ops, slot), View(), Mark(env, st, View(), id, ops, slot));
      if id !in requests { return Err(InvalidState); }
      if st.paused { return Err(PoolPaused); }
      if |ops| == 0 || |ops| > MAX_UTXOS { return Err(InvalidInstruction); }
      var r := requests[id];
      if r.status != Pending { return Err(InvalidState); }
      var moved := MoveRecords(ops, Unspent, Reserved(env.key(id)));
      if moved.Err? { return Err(moved.error); }
      var (records, total) := moved.value;
      if r.amount < r.serviceFee || Required(r) > U64_MAX { return Err(Overflow); }
      if total < Required(r) { return Err(InsufficientInputs); }
      var smallest := SmallestInput(ops);
      if Less(total, smallest) >= Required(r) { return Err(ExcessiveInputs); }
      var left := RemoveUtxos(pool, ops);
      if left.Err? { return Err(left.error); }
      requests := requests[id := Processed(env, utxos, r, ops, slot)];
      utxos := records;
      pool := left.value;
      return Ok(());
    }

    method CancelRedemption(env: Env, st: Settings, caller: nat, id: RequestId, ops: seq<OutPoint>, slot: u64) returns (res: Result<()>)
      modifies this
      ensures Follows(Cancel(env, st, old(View()), caller, id, ops, slot), old(View()), View(), res)
      ensures LawfulIn(env, CancelStep(st, caller, id, ops, slot), old(View()), View())
      ensures res.Ok? ==> !st.paused && MayCancel(old(View()), caller, id, slot)
    {
      if Cancel(env, st, View(), caller, id, ops, slot).Ok? { CancelNeeds(env, st, View(), caller, id, ops, slot); }
      LawfulStep(env, CancelStep(st, caller, id, ops, slot), View(), Cancel(env, st, View(), caller, id, ops, slot));
      if id !in requests { return Err(InvalidState); }
      if st.paused { return Err(PoolPaused); }
      if caller != id.requester { return Err(Unauthorized); }
      var r := requests[id];
      if !CanCancel(r, slot) { return Err(CancelNotAllowed); }
      if r.status == Processing && |ops| != r.reservedCount { return Err(InvalidUtxo); }
      if r.status == Pending && |ops| != 0 { return Err(InvalidInstruction); }
      var moved := MoveRecords(ops, Reserved(env.key(id)), Unspent);
      if moved.Err? { return Err(moved.error); }
      var (records, total) := moved.value;
      if st.treeFull { return Err(TreeIsFull); }
      if token.shielded + r.amount > U64_MAX { return Err(Overflow); }
      if total > 0 && (pool.held + total > U64_MAX || pool.utxoCount + |ops| > U32_MAX) { return Err(Overflow); }
      utxos := records;
      token := token.(shielded := token.shielded + r.amount);
      pool := Released(pool, token.shielded, total, |ops|);
      requests := requests - {id};
      return Ok(());
    }

    // ---- approval ----

    /** Reads the named records: each must be reserved for the request. */
    method ReadReserved(ops: seq<OutPoint>, key: nat) returns (r: Result<nat>)
      ensures if AllReserved(utxos, ops, key) && SumOps(utxos, ops, |ops|) <= U64_MAX then r == Ok(SumOps(utxos, ops, |ops|)) else r.Err?
    {
      var total: nat := 0;
      for j := 0 to |ops|
        invariant total == SumOps(utxos, ops, j) <= U64_MAX
        invariant forall i :: 0 <= i < j ==> HasStatus(utxos, ops[i], Reserved(key))
      {
        SumOpsGrows(utxos, ops, j + 1, |ops|);
        assert HasStatus(utxos, ops[j], Reserved(key)) || !AllReserved(utxos, ops, key);
        if ops[j] !in utxos || utxos[ops[j]].status != Reserved(key) { return Err(InvalidUtxo); }
        if total + utxos[ops[j]].amount > U64_MAX { return Err(Overflow); }
        total := total + utxos[ops[j]].amount;
      }
      return Ok(total);
    }

    method ListInputs(env: Env, r: Request, key: nat, ops: seq<OutPoint>) returns (l: Result<seq<ReservedInput>>)
      ensures var spec := Listed(env, utxos, key, ops, r.totalInput, r.commitment);
              if spec.Ok? then l == spec else l.Err?
    {
      var total := ReadReserved(ops, key);
      if total.Err? { return Err(total.error); }
      if total.value != r.totalInput { return Err(InvalidUtxo); }
      var inputs := Canonical(InputsOf(utxos, ops));
      if env.commit(inputs) != r.commitment { return Err(InvalidUtxo); }
      if |env.poolScript| != 34 && exists i :: 0 <= i < |ops| && AtPoolScript(utxos, ops[i]) { return Err(InvalidUtxo); }
      return Ok(inputs);
    }

    /** Rebuilds the transaction at a fee. */
    method RebuildSpend(env: Env, r: Request, key: nat, fee: u64, ops: seq<OutPoint>) returns (res: Result<Spend>)
      ensures var spec := Rebuild(env, r, utxos, key, fee, ops);
              if spec.Ok? then res == spec else res.Err?
    {
      var inputs := ListInputs(env, r, key, ops);
      if inputs.Err? { return Err(inputs.error); }
      var amounts := Amounts(r.amount, r.serviceFee, r.totalInput, fee);
      if amounts.Err? { return Err(amounts.error); }
      var (send, change) := amounts.value;
      return Ok(Spend(SpendInputs(utxos, inputs.value), SpendOutputs(env, r.script, send, change)));
    }

    /** Approves one input and returns the transaction whose digest was approved. */
    method ApproveRedemptionSigning(env: Env, st: Settings, id: RequestId, index: u32, fee: u64, ops: seq<OutPoint>) returns (res: Result<Spend>)
      modifies this`requests
      ensures match Approve(env, st, old(View()), id, index, fee, ops)
              case Err(_) => res.Err? && View() == old(View())
              case Ok((s, spend)) => res == Ok(spend) && View() == s
      ensures LawfulIn(env, ApproveStep(st, id, index, fee, ops), old(View()), View())
    {
      ApproveLawful(env, st, View(), id, index, fee, ops);
      if id !in requests { return Err(InvalidState); }
      var r := requests[id];
      if r.status != Processing || r.totalInput == 0 || r.reservedCount == 0 { return Err(InvalidState); }
      if !SigningOk(st, r.amount, fee) { return Err(FeeExceedsLimit); }
      if r.approved != 0 && fee != LoadFee(r.approvalFee) { return Err(FeeMismatch); }
      if index >= r.reservedCount || |ops| < r.reservedCount { return Err(InvalidInstruction); }
      if index >= 32 || IsApproved(r, index) || |env.poolScript| == 0 { return Err(InvalidState); }
      var spend := RebuildSpend(env, r, env.key(id), fee, ops[..r.reservedCount]);
      if spend.Err? { return Err(spend.error); }
      requests := requests[id := Stamped(r, index, fee)];
      return spend;
    }

    // ---- completion ----

    /** Closes the consumed records one by one. */
    method CloseRecords(records: Utxos, ops: seq<OutPoint>, key: nat, tx: Tx) returns (r: Result<Utxos>)
      ensures if Closable(records, ops, key, tx) then r == Ok(Closed(records, ops, |ops|)) else r.Err?
    {
      var m := records;
      for i := 0 to |ops|
        invariant m == Closed(records, ops, i)
        invariant forall j {:trigger ClosesAt(records, ops, key, tx, j)} :: 0 <= j < i ==> ClosesAt(records, ops, key, tx, j)
      {
        assert ClosesAt(records, ops, key, tx, i) <==> HasStatus(m, ops[i], Reserved(key)) && ops[i] in tx.inputs;
        if ops[i] !in m || m[ops[i]].status != Reserved(key) { return Err(InvalidUtxo); }
        if ops[i] !in tx.inputs { return Err(InvalidUtxo); }
        m := m - {ops[i]};
      }
      return Ok(m);
    }

    method RecordChange(tx: Tx, script: Script) returns (records: Utxos, change: nat, added: nat)
      ensures records == WithChange(utxos, tx, script) && change == ChangeValue(tx, script)
      ensures added == if ChangeIndex(tx, script) < |tx.outputs| then 1 else 0
    {
      records, change, added := utxos, 0, 0;
      if |script| > 0 {
        var i := FindOutput(tx.outputs, script);
        if i < |tx.outputs| {
          var op := OutPoint(tx.txid, i);
          records := utxos[op := Utxo(tx.outputs[i].value, Unspent, if op in utxos then utxos[op].leaf else NoLeaf)];
          change, added := tx.outputs[i].value, 1;
        }
      }
    }

    method CompleteRedemption(env: Env, st: Settings, id: RequestId, tx: Tx, tracked: bool, ops: seq<OutPoint>) returns (res: Result<()>)
      modifies this
      ensures Follows(Complete(env, st, old(View()), id, tx, tracked, ops), old(View()), View(), res)
      ensures LawfulIn(env, CompleteStep(st, id, tx, tracked, ops), old(View()), View())
      ensures res.Ok? && old(requests)[id].amount <= U64_MAX ==> MayComplete(st, old(requests)[id], Tracked(env, tracked), tx)
    {
      CompletePays(env, st, View(), id, tx, tracked, ops);
      LawfulStep(env, CompleteStep(st, id, tx, tracked, ops), View(), Complete(env, st, View(), id, tx, tracked, ops));
      var script := if tracked then env.poolScript else [];
      if id !in requests { return Err(InvalidState); }
      if tracked && |script| == 0 { return Err(InvalidInstruction); }
      if tx.txid in completed { return Err(DuplicateDeposit); }
      var r := requests[id];
      if r.status != Processing { return Err(InvalidState); }
      var paid := VerifyPayout(st, r, script, tx);
      if paid.Err? { return Err(paid.error); }
      res := ConsumeInputs(id, env.key(id), tx, script, paid.value, ops);
    }

    method ConsumeInputs(id: RequestId, key: nat, tx: Tx, script: Script, p: Payout, ops: seq<OutPoint>) returns (res: Result<()>)
      requires id in requests
      modifies this
      ensures Follows(Consume(old(View()), id, key, tx, script, p, ops), old(View()), View(), res)
    {
      if vault < p.burn { return Err(InsufficientFunds); }
      var records, change, added := RecordChange(tx, script);
      if |ops| > MAX_UTXOS || |ops| != requests[id].reservedCount { return Err(InvalidUtxo); }
      var closed := CloseRecords(records, ops, key, tx);
      if closed.Err? { return Err(closed.error); }
      if |tx.inputs| != |ops| { return Err(OutputMismatch); }
      if pool.burned + p.burn > U64_MAX || pool.feePool + p.revenue > U64_MAX || token.fees + p.revenue > U64_MAX { return Err(Overflow); }
      if pool.held + change > U64_MAX || pool.utxoCount + added > U32_MAX { return Err(Overflow); }
      vault := vault - p.burn;
      utxos := closed.value;
      pool := pool.(burned := pool.burned + p.burn, feePool := pool.feePool + p.revenue, held := pool.held + change,
                    utxoCount := pool.utxoCount + added, pending := Less(pool.pending, 1));
      token := token.(fees := token.fees + p.revenue);
      requests := requests - {id};
      completed := completed + {tx.txid};
      return Ok(());
    }
  }

  // ---- partial sums grow ----------------------------------------------------------------------------------------

  lemma {:induction false} SumsGrow(amounts: seq<u64>, bps: u16, i: nat, k: nat)
    requires i <= k <= |amounts|
    ensures SumTo(amounts, i) <= SumTo(amounts, k) && FeesTo(amounts, bps, i) <= FeesTo(amounts, bps, k)
    decreases k
  {
    if i < k { SumsGrow(amounts, bps, i, k - 1); }
  }

  lemma {:induction false} OrdersGrow(orders: seq<Order>, i: nat, k: nat)
    requires i <= k <= |orders|
    ensures OrdersTo(orders, i) <= OrdersTo(orders, k)
    decreases k
  {
    if i < k { OrdersGrow(orders, i, k - 1); }
  }

  lemma {:induction false} SumOpsGrows(utxos: Utxos, ops: seq<OutPoint>, i: nat, k: nat)
    requires i <= k <= |ops|
    ensures SumOps(utxos, ops, i) <= SumOps(utxos, ops, k)
    decreases k
  {
    if i < k { SumOpsGrows(utxos, ops, i, k - 1); }
  }
}
