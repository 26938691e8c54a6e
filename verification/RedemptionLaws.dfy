/** What reserving, approving, cancelling and completing a redemption accept, in plain numbers. */
module RedemptionLaws {
  import opened U256
  import opened Requests
  import opened Ledgers
  import opened Reservations
  import opened Payouts
  import opened LedgerRuns
  import opened Approvals
  import opened CanonicalInputs
  import ApprovedCompletion
  import Powers
  import Totals

  // ---- reserving -----------------------------------------------------------------------------------------

  /** The payout, and what it may cost: the payout plus the smaller of 50000 and the service fee. */
  function Send(r: Request): int {
    r.amount as int - r.serviceFee
  }

  function Needed(r: Request): int {
    Send(r) + (if r.serviceFee < 50_000 then r.serviceFee else 50_000)
  }

  /** Every one of the named records is needed: without it the rest is too little. */
  predicate NoneSpare(utxos: Utxos, ops: seq<OutPoint>, needed: int) {
    forall i :: 0 <= i < |ops| ==> SumOps(utxos, ops, |ops|) as int - AmountAt(utxos, ops[i]) < needed
  }

  lemma SmallestDecides(utxos: Utxos, ops: seq<OutPoint>, needed: int)
    requires |ops| > 0
    ensures Smallest(utxos, ops, |ops|) <= SumOps(utxos, ops, |ops|)
    ensures SumOps(utxos, ops, |ops|) as int - Smallest(utxos, ops, |ops|) < needed <==> NoneSpare(utxos, ops, needed)
  {
    SmallestIs(utxos, ops, |ops|, 0);
    var j :| 0 <= j < |ops| && Smallest(utxos, ops, |ops|) == AmountAt(utxos, ops[j]);
    PartOfSum(utxos, ops, |ops|, j);
    forall i | 0 <= i < |ops| ensures Smallest(utxos, ops, |ops|) <= AmountAt(utxos, ops[i]) {
      SmallestIs(utxos, ops, |ops|, i);
    }
  }

  lemma {:induction false} PartOfSum(utxos: Utxos, ops: seq<OutPoint>, k: nat, i: nat)
    requires i < k <= |ops|
    ensures AmountAt(utxos, ops[i]) <= SumOps(utxos, ops, k)
    decreases k
  {
    if i < k - 1 { PartOfSum(utxos, ops, k - 1, i); }
  }

  /** In a lawful state distinct unspent records are within the pool's counters. */
  lemma UnspentWithin(w: World, s: State, donated: nat, ops: seq<OutPoint>, to: UtxoStatus)
    requires Inv(w, s, donated) && Flippable(s.utxos, ops, Unspent, to) && to != Unspent
    ensures SumOps(s.utxos, ops, |ops|) <= s.pool.held <= 0xffff_ffff_ffff_ffff && |ops| <= s.pool.utxoCount
  {
    FlipTotals(s.utxos, ops, Unspent, to, |ops|, Unspent);
    Totals.TotalAtMost(s.utxos, AmountIf(Unspent), Amount());
  }

  /** The checks of a marking, in a lawful state. */
  lemma MarkChecks(w: World, s: State, donated: nat, id: RequestId, ops: seq<OutPoint>)
    requires Inv(w, s, donated) && id in s.requests && |ops| > 0
    ensures var r, to, total := s.requests[id], Reserved(w.env.key(id)), SumOps(s.utxos, ops, |ops|);
            && r.serviceFee <= r.amount && Required(r) == Needed(r) <= U64_MAX
            && (Flippable(s.utxos, ops, Unspent, to)
                <==> Distinct(ops) && forall i :: 0 <= i < |ops| ==> HasStatus(s.utxos, ops[i], Unspent))
            && (Flippable(s.utxos, ops, Unspent, to) ==> total <= s.pool.held <= U64_MAX && |ops| <= s.pool.utxoCount)
            && (total - Min(total, Smallest(s.utxos, ops, |ops|)) < Required(r) <==> NoneSpare(s.utxos, ops, Needed(r)))
  {
    var to := Reserved(w.env.key(id));
    assert RequestOk(w, s.utxos, id, s.requests[id]);
    FlippableIff(s.utxos, ops, Unspent, to);
    if Flippable(s.utxos, ops, Unspent, to) { UnspentWithin(w, s, donated, ops, to); }
    SmallestDecides(s.utxos, ops, Needed(s.requests[id]));
  }

  /**
   * A pending request is marked exactly with one to twenty distinct unspent records that cover the payout and the
   * largest admissible fee and of which none is spare.
   */
  lemma MarkAcceptsIff(w: World, st: Settings, s: State, donated: nat, id: RequestId, ops: seq<OutPoint>, slot: u64)
    requires Inv(w, s, donated)
    ensures Mark(w.env, st, s, id, ops, slot).Ok? <==>
            && id in s.requests && s.requests[id].status == Pending && !st.paused
            && 1 <= |ops| <= 20 && Distinct(ops) && (forall i :: 0 <= i < |ops| ==> HasStatus(s.utxos, ops[i], Unspent))
            && SumOps(s.utxos, ops, |ops|) >= Needed(s.requests[id]) && NoneSpare(s.utxos, ops, Needed(s.requests[id]))
  {
    if id in s.requests && 1 <= |ops| <= 20 { MarkChecks(w, s, donated, id, ops); }
  }

  /** Marking reserves the records for the request and starts its clock. */
  lemma MarkDoes(env: Env, st: Settings, s: State, id: RequestId, ops: seq<OutPoint>, slot: u64)
    requires Mark(env, st, s, id, ops, slot).Ok?
    ensures var t := Mark(env, st, s, id, ops, slot).value;
            && (forall op :: op in s.utxos ==>
                  op in t.utxos && t.utxos[op] == if op in ops then s.utxos[op].(status := Reserved(env.key(id))) else s.utxos[op])
            && id in s.requests && id in t.requests && t.requests == s.requests[id := t.requests[id]]
            && var r, q := s.requests[id], t.requests[id];
            && q.status == Processing && q.processingSlot == slot % 0x1_0000_0000 && q.reservedCount == |ops|
            && q.totalInput == SumOps(s.utxos, ops, |ops|)
            && q.amount == r.amount && q.serviceFee == r.serviceFee && q.script == r.script && q.approved == r.approved
  {
    var t := Mark(env, st, s, id, ops, slot).value;
    FlippableIff(s.utxos, ops, Unspent, Reserved(env.key(id)));
    assert ops[..|ops|] == ops;
    forall op | op in s.utxos
      ensures op in t.utxos && t.utxos[op] == if op in ops then s.utxos[op].(status := Reserved(env.key(id))) else s.utxos[op]
    {
      FlipKeeps(s.utxos, ops, Reserved(env.key(id)), |ops|, op);
      FlipAmount(s.utxos, ops, Reserved(env.key(id)), |ops|, op);
    }
  }

  lemma {:induction false} FlipAmount(utxos: Utxos, ops: seq<OutPoint>, to: UtxoStatus, k: nat, op: OutPoint)
    requires k <= |ops| && op in utxos
    ensures op in Flip(utxos, ops, to, k) && Flip(utxos, ops, to, k)[op].amount == utxos[op].amount
    decreases k
  {
    if k > 0 { FlipAmount(utxos, ops, to, k - 1, op); }
  }

  // ---- approving ----------------------------------------------------------------------------------------------

  /** What the miner gets: the fee asked for, and change of up to 330 satoshis that is not worth an output. */
  function MinerFee(r: Request, fee: nat): int {
    var change := r.totalInput as int - Send(r) - fee;
    if change <= 330 then fee + change else fee
  }

  /** The amounts of an approved transaction exist exactly when its inputs cover it and its real fee is within both limits. */
  lemma AmountsIff(r: Request, fee: u64)
    requires r.serviceFee <= r.amount <= 0xffff_ffff_ffff_ffff && r.totalInput <= 0xffff_ffff_ffff_ffff
    ensures Amounts(r.amount, r.serviceFee, r.totalInput, fee).Ok? <==>
            r.totalInput >= Send(r) + fee && MinerFee(r, fee) <= 50_000 && MinerFee(r, fee) <= r.serviceFee
  {}

  lemma RebuildIff(env: Env, r: Request, utxos: Utxos, key: nat, fee: u64, ops: seq<OutPoint>)
    ensures Rebuild(env, r, utxos, key, fee, ops).Ok? <==>
            Listed(env, utxos, key, ops, r.totalInput, r.commitment).Ok? && Amounts(r.amount, r.serviceFee, r.totalInput, fee).Ok?
  {}

  lemma ApproveIff(env: Env, st: Settings, s: State, id: RequestId, index: u32, fee: u64, ops: seq<OutPoint>)
    requires id in s.requests && s.requests[id].status == Processing && s.requests[id].totalInput > 0 && |env.poolScript| > 0
    requires 0 < s.requests[id].reservedCount <= 20
    ensures var r := s.requests[id];
            Approve(env, st, s, id, index, fee, ops).Ok? <==>
            && !st.paused && r.amount <= 100_000_000 && fee <= 50_000
            && (r.approved != 0 ==> fee == LoadFee(r.approvalFee))
            && index < r.reservedCount <= |ops| && !IsApproved(r, index)
            && Rebuild(env, r, s.utxos, env.key(id), fee, ops[..r.reservedCount]).Ok?
  {}

  /**
   * Of a processing request, one input is approved exactly when the pool is not paused, the amount is at most one
   * bitcoin, the fee is the pinned one and within limits, the input is not approved yet, and the first records named are
   * the reserved ones, each once.
   */
  lemma ApproveAcceptsIff(w: World, st: Settings, s: State, donated: nat, id: RequestId, index: u32, fee: u64, ops: seq<OutPoint>)
    requires WorldOk(w) && Inv(w, s, donated) && id in s.requests && s.requests[id].status == Processing
    requires s.requests[id].reservedCount <= |ops| ==> Hashed(w, s.utxos, ops[..s.requests[id].reservedCount])
    ensures var r, key := s.requests[id], w.env.key(id);
            Approve(w.env, st, s, id, index, fee, ops).Ok? <==>
            && !st.paused && r.amount <= 100_000_000 && fee <= 50_000
            && (r.approved != 0 ==> fee == LoadFee(r.approvalFee))
            && index < r.reservedCount <= |ops| && !IsApproved(r, index)
            && r.totalInput >= Send(r) + fee && MinerFee(r, fee) <= 50_000 && MinerFee(r, fee) <= r.serviceFee
            && var named := ops[..r.reservedCount];
            Distinct(named) && AllReserved(s.utxos, named, key) && ScriptFits(w, s.utxos, key)
  {
    var r, key := s.requests[id], w.env.key(id);
    assert RequestOk(w, s.utxos, id, r);
    ApproveIff(w.env, st, s, id, index, fee, ops);
    if r.reservedCount <= |ops| {
      RebuildIff(w.env, r, s.utxos, key, fee, ops[..r.reservedCount]);
      AmountsIff(r, fee);
      ListingAcceptedIff(w, s.utxos, key, r, ops[..r.reservedCount]);
    }
  }

  /** An approved transaction, whatever the run: payout first, then change to the pool if it is above 330 satoshis, and nothing else. */
  lemma ApprovedSpendIs(w: World, steps: seq<Step>, id: RequestId, i: nat)
    requires WorldOk(w) && StepsOk(w, steps)
    requires var t := Run(w.env, steps); id in t.state.requests && id in t.log && i < |t.log[id]|
    ensures var t := Run(w.env, steps);
            var r, outs := t.state.requests[id], t.log[id][i].spend.outputs;
            var fee := LoadFee(r.approvalFee);
            var change := r.totalInput as int - Send(r) - fee;
            && r.amount <= 100_000_000 && MinerFee(r, fee) <= 50_000 && MinerFee(r, fee) <= r.serviceFee
            && |outs| == (if change > 330 then 2 else 1)
            && outs[0].value == Send(r) && outs[0].script == r.script
            && (change > 330 ==> outs[1].value == change && outs[1].script == w.env.poolScript)
  {
    var t := Run(w.env, steps);
    var r := t.state.requests[id];
    RunLogs(w, steps);
    var ops := LoggedListing(w, t, id, i);
    RebuiltOutputs(w.env, r, t.state.utxos, w.env.key(id), LoadFee(r.approvalFee), ops);
  }

  lemma RebuiltOutputs(env: Env, r: Request, utxos: Utxos, key: nat, fee: u64, ops: seq<OutPoint>)
    requires Rebuild(env, r, utxos, key, fee, ops).Ok?
    ensures var outs := Rebuild(env, r, utxos, key, fee, ops).value.outputs;
            var change := r.totalInput as int - Send(r) - fee;
            && MinerFee(r, fee) <= 50_000 && MinerFee(r, fee) <= r.serviceFee
            && |outs| == (if change > 330 then 2 else 1)
            && outs[0].value == Send(r) && outs[0].script == r.script
            && (change > 330 ==> outs[1].value == change && outs[1].script == env.poolScript)
  {}

  // ---- cancelling -------------------------------------------------------------------------------------------------

  /** Slots passed on a 32-bit clock. */
  function Passed(since: nat, now: nat): nat {
    (now as int - since) % 0x1_0000_0000
  }

  lemma ElapsedIsPassed(slot: u64, since: u32)
    ensures Elapsed(slot, since) == Passed(since, slot)
  {
    var q, r := slot / 0x1_0000_0000, slot % 0x1_0000_0000;
    var d := r + 0x1_0000_0000 - since;
    if r >= since {
      Powers.DivModUnique(d, 0x1_0000_0000, 1, r - since);
      Powers.DivModUnique(slot - since, 0x1_0000_0000, q, r - since);
    } else {
      Powers.DivModUnique(d, 0x1_0000_0000, 0, d);
      Powers.DivModUnique(slot - since, 0x1_0000_0000, q - 1, d);
    }
  }

  /** Only its requester cancels a request, never once fully approved, and a processing one not within 216000 slots. */
  ghost predicate MayCancel(s: State, caller: nat, id: RequestId, slot: nat) {
    && id in s.requests && caller == id.requester && !s.requests[id].signingApproved
    && (s.requests[id].status == Processing ==> Passed(s.requests[id].processingSlot, slot) >= 216_000)
  }

  lemma CancelNeeds(env: Env, st: Settings, s: State, caller: nat, id: RequestId, ops: seq<OutPoint>, slot: u64)
    requires Cancel(env, st, s, caller, id, ops, slot).Ok?
    ensures !st.paused && !st.treeFull && MayCancel(s, caller, id, slot)
  {
    ElapsedIsPassed(slot, s.requests[id].processingSlot);
  }

  /** A cancellation is accepted exactly when allowed and given the whole reserved set, once each, while the record count has room. */
  lemma CancelAcceptsIff(w: World, st: Settings, s: State, donated: nat, caller: nat, id: RequestId, ops: seq<OutPoint>, slot: u64)
    requires WorldOk(w) && Inv(w, s, donated)
    ensures Cancel(w.env, st, s, caller, id, ops, slot).Ok? <==>
            && !st.paused && !st.treeFull && MayCancel(s, caller, id, slot)
            && Distinct(ops) && AllReserved(s.utxos, ops, w.env.key(id))
            && |ops| == (if s.requests[id].status == Processing then s.requests[id].reservedCount else 0)
            && (s.requests[id].status == Processing ==> s.pool.utxoCount + |ops| <= 0xffff_ffff)
  {
    if id in s.requests {
      var r, key := s.requests[id], w.env.key(id);
      assert RequestOk(w, s.utxos, id, r);
      ElapsedIsPassed(slot, r.processingSlot);
      FlippableIff(s.utxos, ops, Reserved(key), Unspent);
      RoomToCancel(w, s, donated, id, ops);
    }
  }

  lemma RoomToCancel(w: World, s: State, donated: nat, id: RequestId, ops: seq<OutPoint>)
    requires Inv(w, s, donated) && id in s.requests
    ensures s.token.shielded + s.requests[id].amount <= 0xffff_ffff_ffff_ffff
    ensures Flippable(s.utxos, ops, Reserved(w.env.key(id)), Unspent) ==>
              SumOps(s.utxos, ops, |ops|) + s.pool.held <= 0xffff_ffff_ffff_ffff
    ensures Flippable(s.utxos, ops, Reserved(w.env.key(id)), Unspent) && s.requests[id].status == Processing
            && |ops| == s.requests[id].reservedCount ==>
              SumOps(s.utxos, ops, |ops|) > 0
  {
    var key := w.env.key(id);
    Totals.TotalRemove(s.requests, RequestAmount(), id);
    assert RequestOk(w, s.utxos, id, s.requests[id]);
    if Flippable(s.utxos, ops, Reserved(key), Unspent) {
      FlipTotals(s.utxos, ops, Reserved(key), Unspent, |ops|, Unspent);
      Totals.TotalAtMost(Flip(s.utxos, ops, Unspent, |ops|), AmountIf(Unspent), Amount());
      DistinctIsAll(s.utxos, ops, Reserved(key), Unspent);
    }
  }

  // ---- the timeout over runs ------------------------------------------------------------------------------------------

  datatype Slot = Never | At(slot: u64)

  /** The slot of the last step that put the request into processing. */
  ghost function LastMark(env: Env, steps: seq<Step>, id: RequestId): Slot {
    if |steps| == 0 then Never
    else
      var before, last := steps[..|steps| - 1], steps[|steps| - 1];
      if last.MarkStep? && last.id == id && Apply(env, Run(env, before).state, last).Ok? then At(last.slot)
      else LastMark(env, before, id)
  }

  /** Only marking makes a request processing or sets its slot. */
  lemma ProcessingBefore(env: Env, s: State, step: Step, id: RequestId)
    requires Apply(env, s, step).Ok? && id in Apply(env, s, step).value.requests
    requires Apply(env, s, step).value.requests[id].status == Processing && !(step.MarkStep? && step.id == id)
    ensures id in s.requests && s.requests[id].status == Processing
    ensures s.requests[id].processingSlot == Apply(env, s, step).value.requests[id].processingSlot
  {
    match step {
      case RedeemStep(st, requester, orders) => OpenedIs(st, s.requests, requester, orders, |orders|, id);
      case MarkStep(st, other, ops, slot) => MarkParts(env, st, s, other, ops, slot);
      case ApproveStep(st, other, index, fee, ops) =>
        ApproveParts(env, st, s, other, index, fee, ops);
        if other == id { StampedIs(s.requests[id], index, fee); }
      case CancelStep(st, caller, other, ops, slot) => CancelParts(env, st, s, caller, other, ops, slot);
      case CompleteStep(st, other, tx, tracked, ops) => CompleteParts(env, st, s, other, tx, tracked, ops);
      case _ =>
    }
  }

  lemma {:induction false} ProcessingSince(env: Env, steps: seq<Step>, id: RequestId)
    requires id in Run(env, steps).state.requests && Run(env, steps).state.requests[id].status == Processing
    ensures LastMark(env, steps, id).At?
    ensures Run(env, steps).state.requests[id].processingSlot == LastMark(env, steps, id).slot % 0x1_0000_0000
  {
    var before, last := steps[..|steps| - 1], steps[|steps| - 1];
    var s := Run(env, before).state;
    if last.MarkStep? && last.id == id && Apply(env, s, last).Ok? {
      MarkDoes(env, last.st, s, id, last.ops, last.slot);
    } else {
      if Apply(env, s, last).Ok? { ProcessingBefore(env, s, last, id); }
      ProcessingSince(env, before, id);
    }
  }

  lemma PassedMod(since: u64, now: u64)
    ensures Passed(since % 0x1_0000_0000, now) == Passed(since, now)
  {
    var q, r := since / 0x1_0000_0000, since % 0x1_0000_0000;
    var k, m := (now - r) / 0x1_0000_0000, (now - r) % 0x1_0000_0000;
    Powers.DivModUnique(now - since, 0x1_0000_0000, k - q, m);
  }

  /** 216000 slots have passed on the 32-bit clock; within one turn of it, 216000 slots. */
  predicate Late(a: u64, slot: u64) {
    && (slot as int - a) % 0x1_0000_0000 >= 216_000
    && (a <= slot < a + 0x1_0000_0000 ==> slot >= a + 216_000)
  }

  lemma Waited(a: u64, slot: u64)
    requires Passed(a % 0x1_0000_0000, slot) >= 216_000
    ensures Late(a, slot)
  {
    PassedMod(a, slot);
    if a <= slot < a + 0x1_0000_0000 { Powers.DivModUnique(slot - a, 0x1_0000_0000, 0, slot - a); }
  }

  lemma WaitsSince(env: Env, steps: seq<Step>, caller: nat, id: RequestId, slot: u64)
    requires MayCancel(Run(env, steps).state, caller, id, slot) && Run(env, steps).state.requests[id].status == Processing
    ensures LastMark(env, steps, id).At?
    ensures Late(LastMark(env, steps, id).slot, slot)
  {
    ProcessingSince(env, steps, id);
    Waited(LastMark(env, steps, id).slot, slot);
  }

  /**
   * In any run only its requester cancels a request, and one that is processing only when at least 216000 slots have
   * passed on the 32-bit clock since the step that marked it; within one turn of that clock, not before slot a + 216000.
   */
  lemma CancelWaits(env: Env, steps: seq<Step>, st: Settings, caller: nat, id: RequestId, ops: seq<OutPoint>, slot: u64)
    requires Cancel(env, st, Run(env, steps).state, caller, id, ops, slot).Ok?
    ensures id in Run(env, steps).state.requests && caller == id.requester
    ensures Run(env, steps).state.requests[id].status == Processing ==>
              LastMark(env, steps, id).At? && Late(LastMark(env, steps, id).slot, slot)
  {
    var s := Run(env, steps).state;
    CancelNeeds(env, st, s, caller, id, ops, slot);
    if s.requests[id].status == Processing { WaitsSince(env, steps, caller, id, slot); }
  }

  // ---- completing ------------------------------------------------------------------------------------------------------

  /** Received: at most the payout, at least 99% of it, and at least the payout less 50000. */
  predicate PaidEnough(send: int, received: nat) {
    received <= send && 100 * received >= 99 * send && received + 50_000 >= send
  }

  lemma MinPayoutIs(send: nat, received: nat)
    requires received <= send
    ensures received >= MinPayout(send) <==> PaidEnough(send, received)
  {
    var (q, r) := Powers.DivMod(send, 100);
  }

  /** Every output is an empty OP_RETURN, pays the recipient or pays the pool. */
  predicate OutputsAllowed(outputs: seq<Output>, recipient: Script, pool: Script) {
    forall i :: 0 <= i < |outputs| ==>
      if |outputs[i].script| > 0 && outputs[i].script[0] == 0x6a then outputs[i].value == 0
      else outputs[i].script == recipient || (|pool| > 0 && outputs[i].script == pool)
  }

  predicate PaysPool(o: Output, recipient: Script, pool: Script) {
    !(|o.script| > 0 && o.script[0] == 0x6a) && o.script != recipient && |pool| > 0 && o.script == pool
  }

  /** At most one output is change. */
  predicate OneChange(outputs: seq<Output>, recipient: Script, pool: Script) {
    forall i, j :: 0 <= i < j < |outputs| ==> !(PaysPool(outputs[i], recipient, pool) && PaysPool(outputs[j], recipient, pool))
  }

  lemma {:induction false} ChangeCountIs(outputs: seq<Output>, recipient: Script, pool: Script, k: nat)
    requires k <= |outputs|
    ensures ChangeCount(outputs, recipient, pool, k) == 0 <==> forall i :: 0 <= i < k ==> !PaysPool(outputs[i], recipient, pool)
    ensures ChangeCount(outputs, recipient, pool, k) <= 1 <==>
            forall i, j :: 0 <= i < j < k ==> !(PaysPool(outputs[i], recipient, pool) && PaysPool(outputs[j], recipient, pool))
    decreases k
  {
    if k > 0 {
      ChangeCountIs(outputs, recipient, pool, k - 1);
      var last := PaysPool(outputs[k - 1], recipient, pool);
      assert IsChange(outputs[k - 1], recipient, pool) <==> last;
      if last && ChangeCount(outputs, recipient, pool, k - 1) == 1 {
        var i :| 0 <= i < k - 1 && PaysPool(outputs[i], recipient, pool);
        assert !(forall a, b :: 0 <= a < b < k ==> !(PaysPool(outputs[a], recipient, pool) && PaysPool(outputs[b], recipient, pool)));
      }
    }
  }

  lemma PolicyIs(outputs: seq<Output>, recipient: Script, pool: Script)
    ensures WithinPolicy(outputs, recipient, pool) <==> OutputsAllowed(outputs, recipient, pool) && OneChange(outputs, recipient, pool)
  {
    ChangeCountIs(outputs, recipient, pool, |outputs|);
    forall i | 0 <= i < |outputs|
      ensures Allowed(outputs[i], recipient, pool) <==>
              if |outputs[i].script| > 0 && outputs[i].script[0] == 0x6a then outputs[i].value == 0
              else outputs[i].script == recipient || (|pool| > 0 && outputs[i].script == pool)
    {}
  }

  /** What leaves custody in fees: inputs less outputs, the output sum held at 2^64 - 1. */
  function FeeOf(r: Request, tx: Tx): int {
    var sum := SumOutputs(tx.outputs, |tx.outputs|);
    r.totalInput as int - (if sum <= 0xffff_ffff_ffff_ffff then sum else 0xffff_ffff_ffff_ffff)
  }

  /** A transaction that may complete a request. */
  ghost predicate MayComplete(st: Settings, r: Request, pool: Script, tx: Tx) {
    var received := PaidTo(tx.outputs, r.script, |tx.outputs|);
    && !st.paused && r.amount <= 100_000_000 && r.totalInput > 0
    && Pays(tx.outputs, r.script) && PaidEnough(Send(r), received)
    && !(|pool| > 0 && r.script == pool)
    && OutputsAllowed(tx.outputs, r.script, pool) && OneChange(tx.outputs, r.script, pool)
    && 0 <= FeeOf(r, tx) <= 50_000 && received + FeeOf(r, tx) <= r.amount
  }

  /** The payout checks pass exactly then, and yield what was received, the fee, and the split of the amount. */
  lemma PayoutAcceptsIff(st: Settings, r: Request, pool: Script, tx: Tx)
    requires r.serviceFee <= r.amount <= 0xffff_ffff_ffff_ffff
    ensures CheckPayout(st, r, pool, tx).Ok? <==> MayComplete(st, r, pool, tx)
    ensures CheckPayout(st, r, pool, tx).Ok? ==>
              var p := CheckPayout(st, r, pool, tx).value;
              && p.received == PaidTo(tx.outputs, r.script, |tx.outputs|) && p.minerFee == FeeOf(r, tx)
              && p.burn == p.received + p.minerFee && p.revenue == r.amount - p.burn
  {
    var received := PaidTo(tx.outputs, r.script, |tx.outputs|);
    PolicyIs(tx.outputs, r.script, pool);
    if received <= r.amount - r.serviceFee { MinPayoutIs(r.amount - r.serviceFee, received); }
  }

  /**
   * A completion that goes through pays the recipient at most the payout, at least 99% of it and at least the payout
   * less 50000 satoshis, from the request's own reserved inputs and no others, for a fee of at most 50000.
   */
  lemma CompleteNeeds(env: Env, st: Settings, s: State, id: RequestId, tx: Tx, tracked: bool, ops: seq<OutPoint>)
    requires Complete(env, st, s, id, tx, tracked, ops).Ok?
    requires s.requests[id].amount <= 0xffff_ffff_ffff_ffff
    ensures s.requests[id].status == Processing && MayComplete(st, s.requests[id], Tracked(env, tracked), tx)
    ensures |tx.inputs| == |ops| == s.requests[id].reservedCount <= 20 && Distinct(ops) && forall i :: 0 <= i < |ops| ==> ops[i] in tx.inputs
    ensures tx.txid !in s.completed && tx.txid in Complete(env, st, s, id, tx, tracked, ops).value.completed
  {
    PayoutAcceptsIff(st, s.requests[id], Tracked(env, tracked), tx);
    ClosableIff(WithChange(s.utxos, tx, Tracked(env, tracked)), ops, env.key(id), tx);
  }

  /** A transaction that pays too little, too much, or elsewhere is refused. */
  lemma UnderpaymentFails(env: Env, st: Settings, s: State, id: RequestId, tx: Tx, tracked: bool, ops: seq<OutPoint>)
    requires id in s.requests && s.requests[id].serviceFee <= s.requests[id].amount <= 0xffff_ffff_ffff_ffff
    requires !PaidEnough(Send(s.requests[id]), PaidTo(tx.outputs, s.requests[id].script, |tx.outputs|))
             || !OutputsAllowed(tx.outputs, s.requests[id].script, Tracked(env, tracked))
    ensures Complete(env, st, s, id, tx, tracked, ops).Err?
  {
    PayoutAcceptsIff(st, s.requests[id], Tracked(env, tracked), tx);
  }

  /**
   * In a lawful state, with a fresh change outpoint and room in the two counters nothing else bounds, a completion is
   * accepted exactly when its transaction may complete the request and spends its reserved inputs, each once, and no other.
   */
  lemma CompleteAcceptsIff(w: World, st: Settings, s: State, donated: nat, id: RequestId, tx: Tx, ops: seq<OutPoint>)
    requires WorldOk(w) && Inv(w, s, donated) && id in s.requests
    requires FreshChange(s.utxos, tx, w.env.poolScript) && SumOutputs(tx.outputs, |tx.outputs|) <= 0xffff_ffff_ffff_ffff
    requires s.pool.feePool + s.requests[id].amount <= 0xffff_ffff_ffff_ffff && s.pool.utxoCount < 0xffff_ffff
    ensures Complete(w.env, st, s, id, tx, true, ops).Ok? <==>
            && s.requests[id].status == Processing && tx.txid !in s.completed
            && MayComplete(st, s.requests[id], w.env.poolScript, tx)
            && Distinct(ops) && AllReserved(s.utxos, ops, w.env.key(id)) && |ops| == s.requests[id].reservedCount == |tx.inputs|
            && forall i :: 0 <= i < |ops| ==> ops[i] in tx.inputs
  {
    var r, key, pool := s.requests[id], w.env.key(id), w.env.poolScript;
    assert RequestOk(w, s.utxos, id, r);
    PayoutAcceptsIff(st, r, pool, tx);
    ClosableIff(WithChange(s.utxos, tx, pool), ops, key, tx);
    ReservedUnchanged(s.utxos, tx, pool, ops, key);
    if r.status == Processing && CheckPayout(st, r, pool, tx).Ok? {
      ApprovedCompletion.RoomToComplete(w, st, s, donated, id, pool, tx);
    }
  }

  lemma ReservedUnchanged(utxos: Utxos, tx: Tx, pool: Script, ops: seq<OutPoint>, key: nat)
    requires FreshChange(utxos, tx, pool)
    ensures AllReserved(WithChange(utxos, tx, pool), ops, key) <==> AllReserved(utxos, ops, key)
  {
    forall i | 0 <= i < |ops| ensures HasStatus(WithChange(utxos, tx, pool), ops[i], Reserved(key)) <==> HasStatus(utxos, ops[i], Reserved(key)) {}
  }
}
