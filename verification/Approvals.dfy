/** All approvals of one redemption are of one transaction, and full approval is final. */
module Approvals {
  import opened U256
  import opened Requests
  import opened Ledgers
  import opened Reservations
  import opened Payouts
  import opened LedgerRuns

  // ---- rebuilding depends on the request's own records only ------------------------------------------------

  lemma {:induction false} SumOpsAgree(a: Utxos, b: Utxos, ops: seq<OutPoint>, k: nat)
    requires k <= |ops| && forall i :: 0 <= i < |ops| ==> AmountAt(a, ops[i]) == AmountAt(b, ops[i])
    ensures SumOps(a, ops, k) == SumOps(b, ops, k)
    decreases k
  {
    if k > 0 { SumOpsAgree(a, b, ops, k - 1); }
  }

  lemma CanonicalFrom(utxos: Utxos, ops: seq<OutPoint>, i: nat)
    requires i < |ops|
    ensures |Canonical(InputsOf(utxos, ops))| == |ops|
    ensures exists j :: 0 <= j < |ops| && Canonical(InputsOf(utxos, ops))[i] == ReservedInput(ops[j], AmountAt(utxos, ops[j]))
  {
    var inputs := InputsOf(utxos, ops);
    assert Canonical(inputs)[i] in multiset(Canonical(inputs));
    assert Canonical(inputs)[i] in inputs;
  }

  ghost predicate SameRecords(a: Utxos, b: Utxos, ops: seq<OutPoint>) {
    forall i :: 0 <= i < |ops| ==> ops[i] in a && ops[i] in b && a[ops[i]] == b[ops[i]]
  }

  lemma SpendInputsAgree(a: Utxos, b: Utxos, ops: seq<OutPoint>, inputs: seq<ReservedInput>)
    requires SameRecords(a, b, ops) && inputs == Canonical(InputsOf(a, ops))
    ensures SpendInputs(a, inputs) == SpendInputs(b, inputs)
  {
    forall i | 0 <= i < |inputs| ensures SpendInputs(a, inputs)[i] == SpendInputs(b, inputs)[i] {
      CanonicalFrom(a, ops, i);
      var j :| 0 <= j < |ops| && inputs[i] == ReservedInput(ops[j], AmountAt(a, ops[j]));
      assert ops[j] in a && ops[j] in b;
    }
  }

  lemma ListedFrame(env: Env, a: Utxos, b: Utxos, key: nat, ops: seq<OutPoint>, totalInput: nat, commitment: nat)
    requires ReservedSet(a, key) == ReservedSet(b, key) && Listed(env, a, key, ops, totalInput, commitment).Ok?
    ensures Listed(env, b, key, ops, totalInput, commitment) == Listed(env, a, key, ops, totalInput, commitment)
    ensures SameRecords(a, b, ops)
  {
    InputsAgree(a, b, key, ops);
    RecordsAgree(a, b, key, ops);
    SumOpsAgree(a, b, ops, |ops|);
    forall i | 0 <= i < |ops| ensures AtPoolScript(a, ops[i]) == AtPoolScript(b, ops[i]) {
      assert a[ops[i]] == b[ops[i]];
    }
  }

  lemma RecordsAgree(a: Utxos, b: Utxos, key: nat, ops: seq<OutPoint>)
    requires ReservedSet(a, key) == ReservedSet(b, key) && AllReserved(a, ops, key)
    ensures SameRecords(a, b, ops)
  {
    forall i | 0 <= i < |ops| ensures ops[i] in a && ops[i] in b && a[ops[i]] == b[ops[i]] {
      assert HasStatus(a, ops[i], Reserved(key));
      assert ops[i] in ReservedSet(a, key) && ReservedSet(a, key)[ops[i]] == ReservedSet(b, key)[ops[i]];
    }
  }

  lemma RebuildFrame(env: Env, r: Request, a: Utxos, b: Utxos, key: nat, fee: u64, ops: seq<OutPoint>)
    requires ReservedSet(a, key) == ReservedSet(b, key) && Rebuild(env, r, a, key, fee, ops).Ok?
    ensures Rebuild(env, r, b, key, fee, ops) == Rebuild(env, r, a, key, fee, ops)
  {
    ListedFrame(env, a, b, key, ops, r.totalInput, r.commitment);
    SpendInputsAgree(a, b, ops, Canonical(InputsOf(a, ops)));
  }

  // ---- the log of a live request ----------------------------------------------------------------------------

  /** The transaction rebuilt at the pinned fee from some listing of the reserved records. */
  ghost predicate SpendOk(w: World, utxos: Utxos, key: nat, r: Request, spend: Spend) {
    exists ops :: Rebuild(w.env, r, utxos, key, LoadFee(r.approvalFee), ops) == Ok(spend) && Hashed(w, utxos, ops)
  }

  ghost predicate EntryOk(w: World, utxos: Utxos, key: nat, r: Request, a: Approval) {
    IsApproved(r, a.index) && r.amount <= MAX_REDEMPTION_SATS && SpendOk(w, utxos, key, r, a.spend)
  }

  predicate Logged(log: seq<Approval>, index: nat) {
    exists i :: 0 <= i < |log| && log[i].index == index
  }

  /** Entries and bits correspond. */
  ghost predicate LogOk(w: World, utxos: Utxos, key: nat, r: Request, log: seq<Approval>) {
    && (forall i {:trigger EntryOk(w, utxos, key, r, log[i])} :: 0 <= i < |log| ==> EntryOk(w, utxos, key, r, log[i]))
    && (forall j: nat {:trigger IsApproved(r, j)} :: IsApproved(r, j) ==> Logged(log, j))
    && (r.approved == 0 ==> log == [])
  }

  ghost predicate RequestLogOk(w: World, t: Trace, id: RequestId)
    requires id in t.state.requests
  {
    id in t.log && LogOk(w, t.state.utxos, w.env.key(id), t.state.requests[id], t.log[id])
  }

  ghost predicate LogsOk(w: World, t: Trace) {
    forall id {:trigger RequestLogOk(w, t, id)} :: id in t.state.requests ==> RequestLogOk(w, t, id)
  }

  lemma NothingApproved(w: World, utxos: Utxos, key: nat, r: Request)
    requires r.approved == 0
    ensures LogOk(w, utxos, key, r, [])
  {
    forall j: nat ensures !IsApproved(r, j) {
      if j < 32 {
        ApprovedIsBit(r, j);
        ZeroBits(j);
      }
    }
  }

  lemma LogFrame(w: World, a: Utxos, b: Utxos, key: nat, r: Request, log: seq<Approval>)
    requires ReservedSet(a, key) == ReservedSet(b, key) && LogOk(w, a, key, r, log)
    ensures LogOk(w, b, key, r, log)
  {
    forall i | 0 <= i < |log| ensures EntryOk(w, b, key, r, log[i]) {
      assert EntryOk(w, a, key, r, log[i]);
      var ops :| Rebuild(w.env, r, a, key, LoadFee(r.approvalFee), ops) == Ok(log[i].spend) && Hashed(w, a, ops);
      RebuildFrame(w.env, r, a, b, key, LoadFee(r.approvalFee), ops);
      RebuildNeedsListing(w.env, r, a, key, LoadFee(r.approvalFee), ops);
      InputsAgree(a, b, key, ops);
    }
  }

  /** Rebuilding reads neither the bitset, the flag nor the stored fee. */
  lemma RebuildIgnoresApprovals(env: Env, r: Request, q: Request, utxos: Utxos, key: nat, fee: u64, ops: seq<OutPoint>)
    requires q == r.(approved := q.approved, signingApproved := q.signingApproved, approvalFee := q.approvalFee)
    ensures Rebuild(env, q, utxos, key, fee, ops) == Rebuild(env, r, utxos, key, fee, ops)
  {}

  lemma SignedLog(w: World, s: State, id: RequestId, index: nat, fee: u64, ops: seq<OutPoint>, t: State, spend: Spend, log: seq<Approval>)
    requires Signed(w.env, s, id, index, fee, ops, t, spend) && Hashed(w, s.utxos, ops)
    requires LogOk(w, s.utxos, w.env.key(id), s.requests[id], log)
    ensures LogOk(w, t.utxos, w.env.key(id), t.requests[id], log + [Approval(index, spend)])
  {
    var key, r, q := w.env.key(id), s.requests[id], t.requests[id];
    var more := log + [Approval(index, spend)];
    StampedIs(r, index, fee);
    assert LoadFee(q.approvalFee) == fee;
    forall i | 0 <= i < |more| ensures EntryOk(w, t.utxos, key, q, more[i]) {
      if i < |log| {
        assert EntryOk(w, s.utxos, key, r, log[i]);
        var listed :| Rebuild(w.env, r, s.utxos, key, LoadFee(r.approvalFee), listed) == Ok(log[i].spend) && Hashed(w, s.utxos, listed);
        RebuildIgnoresApprovals(w.env, r, q, s.utxos, key, fee, listed);
        assert IsApproved(q, log[i].index);
      } else {
        RebuildIgnoresApprovals(w.env, r, q, s.utxos, key, fee, ops);
        assert IsApproved(q, index);
      }
    }
    forall j: nat | IsApproved(q, j) ensures Logged(more, j) {
      if j == index {
        assert more[|log|].index == j;
      } else {
        assert IsApproved(r, j) && Logged(log, j);
        var i :| 0 <= i < |log| && log[i].index == j;
        assert more[i].index == j;
      }
    }
  }

  // ---- steps ------------------------------------------------------------------------------------------------

  predicate Touches(step: Step, id: RequestId) {
    (step.MarkStep? || step.ApproveStep?) && step.id == id
  }

  /** The request and its records are as they were. */
  ghost predicate Spared(w: World, s: State, t: State, id: RequestId) {
    && id in s.requests && id in t.requests && t.requests[id] == s.requests[id]
    && ReservedSet(t.utxos, w.env.key(id)) == ReservedSet(s.utxos, w.env.key(id))
  }

  /** A step that is not about a request leaves it and its records alone. */
  lemma StepLeaves(w: World, t: Trace, step: Step, id: RequestId)
    requires WorldOk(w) && Inv(w, t.state, t.donated) && StepOk(w, t.state, step) && Apply(w.env, t.state, step).Ok?
    requires var s := Apply(w.env, t.state, step).value; id in s.requests && id in t.state.requests && !Touches(step, id)
    ensures Spared(w, t.state, Apply(w.env, t.state, step).value, id)
  {
    if OnRequests(step) {
      StillLive(w.env, t.state, step, id);
      RequestStepLeaves(w, t.state, step, id);
    } else {
      TokenStepLeaves(w, t.state, step, id);
    }
  }

  /** A request that survives a cancellation or completion is not the one closed. */
  lemma StillLive(env: Env, s: State, step: Step, id: RequestId)
    requires OnRequests(step) && Apply(env, s, step).Ok? && id in Apply(env, s, step).value.requests && !Touches(step, id)
    ensures id != step.id
  {
    match step {
      case CancelStep(st, caller, other, ops, slot) => CancelParts(env, st, s, caller, other, ops, slot);
      case CompleteStep(st, other, tx, tracked, ops) => CompleteParts(env, st, s, other, tx, tracked, ops);
      case _ =>
    }
  }

  lemma TokenStepLeaves(w: World, s: State, step: Step, id: RequestId)
    requires !OnRequests(step) && Apply(w.env, s, step).Ok? && id in s.requests
    ensures Spared(w, s, Apply(w.env, s, step).value, id)
  {
    match step {
      case DepositStep(st, op, amount, leaf) => DepositLeaves(w, st, s, op, amount, leaf, id);
      case ShieldStep(st, amount, received) => ShieldLeaves(w, st, s, amount, received, id);
      case UnshieldStep(st, amounts) => UnshieldLeaves(w, st, s, amounts, id);
      case ClaimStep(amount) =>
      case DonateStep(amount) =>
      case RedeemStep(st, requester, orders) => RedeemLeaves(w, st, s, requester, orders, id);
    }
  }

  lemma RequestStepLeaves(w: World, s: State, step: Step, id: RequestId)
    requires WorldOk(w) && RequestsOk(w, s) && StepOk(w, s, step) && OnRequests(step) && Apply(w.env, s, step).Ok?
    requires id in s.requests && id != step.id
    ensures Spared(w, s, Apply(w.env, s, step).value, id)
  {
    match step {
      case MarkStep(st, other, ops, slot) => MarkLeaves(w, st, s, other, ops, slot, id);
      case ApproveStep(st, other, index, fee, ops) => ApproveLeaves(w, st, s, other, index, fee, ops, id);
      case CancelStep(st, caller, other, ops, slot) => CancelLeaves(w, st, s, caller, other, ops, slot, id);
      case CompleteStep(st, other, tx, tracked, ops) => CompleteLeaves(w, st, s, other, tx, tracked, ops, id);
    }
  }

  lemma DepositLeaves(w: World, st: Settings, s: State, op: OutPoint, amount: u64, leaf: Leaf, id: RequestId)
    requires Deposit(st, s, op, amount, leaf).Ok? && id in s.requests
    ensures Spared(w, s, Deposit(st, s, op, amount, leaf).value, id)
  {
    FreshOthers(s.utxos, op, Utxo(amount, Unspent, leaf), w.env.key(id));
  }

  lemma ShieldLeaves(w: World, st: Settings, s: State, amount: u64, received: u64, id: RequestId)
    requires Shield(st, s, amount, received).Ok? && id in s.requests
    ensures Spared(w, s, Shield(st, s, amount, received).value, id)
  {}

  lemma UnshieldLeaves(w: World, st: Settings, s: State, amounts: seq<u64>, id: RequestId)
    requires Unshield(st, s, amounts).Ok? && id in s.requests
    ensures Spared(w, s, Unshield(st, s, amounts).value, id)
  {}

  lemma RedeemLeaves(w: World, st: Settings, s: State, requester: nat, orders: seq<Order>, id: RequestId)
    requires Redeem(st, s, requester, orders).Ok? && id in s.requests
    ensures Spared(w, s, Redeem(st, s, requester, orders).value, id)
  {
    OpenedIs(st, s.requests, requester, orders, |orders|, id);
  }

  lemma ApproveLeaves(w: World, st: Settings, s: State, other: RequestId, index: u32, fee: u64, ops: seq<OutPoint>, id: RequestId)
    requires Approve(w.env, st, s, other, index, fee, ops).Ok? && id in s.requests && id != other
    ensures Spared(w, s, Approve(w.env, st, s, other, index, fee, ops).value.0, id)
  {
    ApproveParts(w.env, st, s, other, index, fee, ops);
  }

  lemma MarkLeaves(w: World, st: Settings, s: State, other: RequestId, ops: seq<OutPoint>, slot: u64, id: RequestId)
    requires WorldOk(w) && RequestsOk(w, s) && Mark(w.env, st, s, other, ops, slot).Ok? && id in s.requests && id != other
    ensures var t := Mark(w.env, st, s, other, ops, slot).value;
            Spared(w, s, t, id)
  {
    MarkParts(w.env, st, s, other, ops, slot);
    KeysDiffer(w, s, id, other);
    FlipOthers(s.utxos, ops, Unspent, Reserved(w.env.key(other)), w.env.key(id));
  }

  lemma CancelLeaves(w: World, st: Settings, s: State, caller: nat, other: RequestId, ops: seq<OutPoint>, slot: u64, id: RequestId)
    requires WorldOk(w) && RequestsOk(w, s) && Cancel(w.env, st, s, caller, other, ops, slot).Ok? && id in s.requests && id != other
    ensures var t := Cancel(w.env, st, s, caller, other, ops, slot).value;
            Spared(w, s, t, id)
  {
    CancelParts(w.env, st, s, caller, other, ops, slot);
    KeysDiffer(w, s, id, other);
    FlipOthers(s.utxos, ops, Reserved(w.env.key(other)), Unspent, w.env.key(id));
  }

  lemma CompleteLeaves(w: World, st: Settings, s: State, other: RequestId, tx: Tx, tracked: bool, ops: seq<OutPoint>, id: RequestId)
    requires WorldOk(w) && RequestsOk(w, s) && Complete(w.env, st, s, other, tx, tracked, ops).Ok? && id in s.requests && id != other
    requires FreshChange(s.utxos, tx, Tracked(w.env, tracked))
    ensures var t := Complete(w.env, st, s, other, tx, tracked, ops).value;
            Spared(w, s, t, id)
  {
    CompleteParts(w.env, st, s, other, tx, tracked, ops);
    KeysDiffer(w, s, id, other);
    CompleteLeavesOthers(s.utxos, tx, Tracked(w.env, tracked), ops, w.env.key(other));
  }

  lemma KeysDiffer(w: World, s: State, id: RequestId, other: RequestId)
    requires WorldOk(w) && RequestsOk(w, s) && id in s.requests && other in s.requests && id != other
    ensures w.env.key(id) != w.env.key(other)
  {
    assert RequestOk(w, s.utxos, id, s.requests[id]) && RequestOk(w, s.utxos, other, s.requests[other]);
  }

  /** Only redeeming creates requests, and they start without approvals. */
  lemma NewIsPending(w: World, t: Trace, step: Step, id: RequestId)
    requires Apply(w.env, t.state, step).Ok? && id in Apply(w.env, t.state, step).value.requests && id !in t.state.requests
    ensures Apply(w.env, t.state, step).value.requests[id].approved == 0
  {
    match step {
      case RedeemStep(st, requester, orders) => OpenedIs(st, t.state.requests, requester, orders, |orders|, id);
      case ApproveStep(st, other, index, fee, ops) => ApproveParts(w.env, st, t.state, other, index, fee, ops);
      case MarkStep(st, other, ops, slot) => MarkParts(w.env, st, t.state, other, ops, slot);
      case CancelStep(st, caller, other, ops, slot) => CancelParts(w.env, st, t.state, caller, other, ops, slot);
      case CompleteStep(st, other, tx, tracked, ops) => CompleteParts(w.env, st, t.state, other, tx, tracked, ops);
      case _ =>
    }
  }

  lemma StepLog(w: World, t: Trace, step: Step, id: RequestId)
    requires WorldOk(w) && Inv(w, t.state, t.donated) && LogsOk(w, t) && StepOk(w, t.state, step)
    requires Apply(w.env, t.state, step).Ok? && id in Next(w.env, t, step).state.requests
    ensures RequestLogOk(w, Next(w.env, t, step), id)
  {
    var s := Apply(w.env, t.state, step).value;
    var key := w.env.key(id);
    var n := Next(w.env, t, step);
    assert id in n.log && n.log[id] == LogOf(t, id) + Approved(w.env, t.state, step, id);
    if id !in t.state.requests {
      NewIsPending(w, t, step, id);
      NothingApproved(w, s.utxos, key, s.requests[id]);
      NothingAdded(w, t, step, id);
    } else {
      assert RequestLogOk(w, t, id);
      if !Touches(step, id) {
        StepLeaves(w, t, step, id);
        LogFrame(w, t.state.utxos, s.utxos, key, s.requests[id], t.log[id]);
        assert n.log[id] == t.log[id];
      } else if step.MarkStep? {
        MarkParts(w.env, step.st, t.state, id, step.ops, step.slot);
        assert RequestOk(w, t.state.utxos, id, t.state.requests[id]);
        NothingApproved(w, s.utxos, key, s.requests[id]);
        assert n.log[id] == [];
      } else {
        ApproveParts(w.env, step.st, t.state, id, step.index, step.fee, step.ops);
        var spend := Approve(w.env, step.st, t.state, id, step.index, step.fee, step.ops).value.1;
        SignedLog(w, t.state, id, step.index, step.fee, step.ops[..t.state.requests[id].reservedCount], s, spend, t.log[id]);
      }
    }
  }

  lemma NothingAdded(w: World, t: Trace, step: Step, id: RequestId)
    requires id !in t.state.requests
    ensures Approved(w.env, t.state, step, id) == []
  {}

  lemma {:induction false} RunLogs(w: World, steps: seq<Step>)
    requires WorldOk(w) && StepsOk(w, steps)
    ensures LogsOk(w, Run(w.env, steps))
  {
    if |steps| > 0 {
      var before := steps[..|steps| - 1];
      var t, step := Run(w.env, before), steps[|steps| - 1];
      RunLogs(w, before);
      RunInv(w, before);
      if Apply(w.env, t.state, step).Ok? {
        forall id | id in Next(w.env, t, step).state.requests ensures RequestLogOk(w, Next(w.env, t, step), id) {
          StepLog(w, t, step, id);
        }
      }
    }
  }

  // ---- what the approvals of a redemption say ------------------------------------------------------------------

  lemma SameListing(w: World, utxos: Utxos, key: nat, total: nat, commitment: nat, x: seq<OutPoint>, y: seq<OutPoint>)
    requires WorldOk(w) && Hashed(w, utxos, x) && Hashed(w, utxos, y)
    requires Listed(w.env, utxos, key, x, total, commitment).Ok? && Listed(w.env, utxos, key, y, total, commitment).Ok?
    ensures Listed(w.env, utxos, key, x, total, commitment) == Listed(w.env, utxos, key, y, total, commitment)
  {
    var a, b := Canonical(InputsOf(utxos, x)), Canonical(InputsOf(utxos, y));
    assert w.env.commit(a) == w.env.commit(b);
  }

  lemma RebuildNeedsListing(env: Env, r: Request, utxos: Utxos, key: nat, fee: u64, ops: seq<OutPoint>)
    requires Rebuild(env, r, utxos, key, fee, ops).Ok?
    ensures Listed(env, utxos, key, ops, r.totalInput, r.commitment).Ok?
  {}

  lemma SpendListing(w: World, utxos: Utxos, key: nat, r: Request, spend: Spend) returns (ops: seq<OutPoint>)
    requires SpendOk(w, utxos, key, r, spend)
    ensures Rebuild(w.env, r, utxos, key, LoadFee(r.approvalFee), ops) == Ok(spend) && Hashed(w, utxos, ops)
  {
    ops :| Rebuild(w.env, r, utxos, key, LoadFee(r.approvalFee), ops) == Ok(spend) && Hashed(w, utxos, ops);
  }

  /** Whatever the listings, one transaction is rebuilt. */
  lemma RebuildSame(w: World, r: Request, utxos: Utxos, key: nat, fee: u64, x: seq<OutPoint>, y: seq<OutPoint>, a: Spend, b: Spend)
    requires WorldOk(w) && Hashed(w, utxos, x) && Hashed(w, utxos, y)
    requires Rebuild(w.env, r, utxos, key, fee, x) == Ok(a) && Rebuild(w.env, r, utxos, key, fee, y) == Ok(b)
    ensures a == b
  {
    RebuildNeedsListing(w.env, r, utxos, key, fee, x);
    RebuildNeedsListing(w.env, r, utxos, key, fee, y);
    SameListing(w, utxos, key, r.totalInput, r.commitment, x, y);
    RebuildFrom(w.env, r, utxos, key, fee, x);
    RebuildFrom(w.env, r, utxos, key, fee, y);
  }

  lemma RebuildFrom(env: Env, r: Request, utxos: Utxos, key: nat, fee: u64, ops: seq<OutPoint>)
    requires Rebuild(env, r, utxos, key, fee, ops).Ok?
    ensures Listed(env, utxos, key, ops, r.totalInput, r.commitment).Ok? && Amounts(r.amount, r.serviceFee, r.totalInput, fee).Ok?
    ensures var (send, change) := Amounts(r.amount, r.serviceFee, r.totalInput, fee).value;
            var inputs := Listed(env, utxos, key, ops, r.totalInput, r.commitment).value;
            Rebuild(env, r, utxos, key, fee, ops).value == Spend(SpendInputs(utxos, inputs), SpendOutputs(env, r.script, send, change))
  {}

  lemma LoggedListing(w: World, t: Trace, id: RequestId, i: nat) returns (ops: seq<OutPoint>)
    requires LogsOk(w, t) && id in t.state.requests && id in t.log && i < |t.log[id]|
    ensures var r := t.state.requests[id];
            && r.amount <= MAX_REDEMPTION_SATS && Hashed(w, t.state.utxos, ops)
            && Rebuild(w.env, r, t.state.utxos, w.env.key(id), LoadFee(r.approvalFee), ops) == Ok(t.log[id][i].spend)
  {
    var key, r := w.env.key(id), t.state.requests[id];
    assert RequestLogOk(w, t, id);
    assert EntryOk(w, t.state.utxos, key, r, t.log[id][i]);
    ops := SpendListing(w, t.state.utxos, key, r, t.log[id][i].spend);
  }

  lemma SameLogged(w: World, t: Trace, id: RequestId, i: nat, j: nat)
    requires WorldOk(w) && LogsOk(w, t) && id in t.state.requests && id in t.log && i < |t.log[id]| && j < |t.log[id]|
    ensures t.log[id][i].spend == t.log[id][j].spend
  {
    var r := t.state.requests[id];
    var x := LoggedListing(w, t, id, i);
    var y := LoggedListing(w, t, id, j);
    RebuildSame(w, r, t.state.utxos, w.env.key(id), LoadFee(r.approvalFee), x, y, t.log[id][i].spend, t.log[id][j].spend);
  }

  /** In any run all digests approved for one redemption are digests of one transaction. */
  lemma OneTransaction(w: World, steps: seq<Step>, id: RequestId, i: nat, j: nat)
    requires WorldOk(w) && StepsOk(w, steps)
    requires var t := Run(w.env, steps); id in t.state.requests && id in t.log && i < |t.log[id]| && j < |t.log[id]|
    ensures Run(w.env, steps).log[id][i].spend == Run(w.env, steps).log[id][j].spend
  {
    RunLogs(w, steps);
    SameLogged(w, Run(w.env, steps), id, i, j);
  }

  /** The global flag is set exactly when every reserved input has been approved. */
  lemma FlagMeansAllInputs(w: World, steps: seq<Step>, id: RequestId)
    requires WorldOk(w) && StepsOk(w, steps)
    requires var s := Run(w.env, steps).state; id in s.requests && s.requests[id].status == Processing
    ensures var t := Run(w.env, steps);
            && id in t.log
            && (t.state.requests[id].signingApproved <==>
                  forall index: nat :: index < t.state.requests[id].reservedCount ==> Logged(t.log[id], index))
  {
    var t := Run(w.env, steps);
    RunInv(w, steps);
    RunLogs(w, steps);
    var key, r := w.env.key(id), t.state.requests[id];
    assert RequestLogOk(w, t, id) && RequestOk(w, t.state.utxos, id, r);
    AllApprovedIff(r);
    forall index: nat | index < r.reservedCount
      ensures Logged(t.log[id], index) <==> Bit(r.approved, index)
    {
      ApprovedIsBit(r, index);
      if Logged(t.log[id], index) {
        var i :| 0 <= i < |t.log[id]| && t.log[id][i].index == index;
        assert EntryOk(w, t.state.utxos, key, r, t.log[id][i]);
      }
    }
  }

  /** A fully approved redemption is never cancelled: whatever else happens, it stays until it is completed. */
  lemma FullyApprovedStays(w: World, t: Trace, step: Step, id: RequestId)
    requires WorldOk(w) && Inv(w, t.state, t.donated) && StepOk(w, t.state, step)
    requires id in t.state.requests && t.state.requests[id].signingApproved && !(step.CompleteStep? && step.id == id)
    ensures id in Next(w.env, t, step).state.requests && Next(w.env, t, step).state.requests[id] == t.state.requests[id]
  {
    var s := t.state;
    if Apply(w.env, s, step).Ok? {
      if Touches(step, id) || (step.CancelStep? && step.id == id) {
        ApprovedIsRefused(w, s, step, id);
      } else {
        StillThere(w, t, step, id);
        StepLeaves(w, t, step, id);
      }
    }
  }

  /** Only closing a request removes it. */
  lemma StillThere(w: World, t: Trace, step: Step, id: RequestId)
    requires id in t.state.requests && Apply(w.env, t.state, step).Ok?
    requires !((step.CancelStep? || step.CompleteStep?) && step.id == id)
    ensures id in Apply(w.env, t.state, step).value.requests
  {
    match step {
      case RedeemStep(st, requester, orders) => RedeemLeaves(w, st, t.state, requester, orders, id);
      case MarkStep(st, other, ops, slot) => MarkParts(w.env, st, t.state, other, ops, slot);
      case ApproveStep(st, other, index, fee, ops) => ApproveParts(w.env, st, t.state, other, index, fee, ops);
      case CancelStep(st, caller, other, ops, slot) => CancelParts(w.env, st, t.state, caller, other, ops, slot);
      case CompleteStep(st, other, tx, tracked, ops) => CompleteParts(w.env, st, t.state, other, tx, tracked, ops);
      case _ =>
    }
  }

  lemma MarkRefused(w: World, st: Settings, s: State, id: RequestId, ops: seq<OutPoint>, slot: u64)
    requires RequestsOk(w, s) && id in s.requests && s.requests[id].signingApproved
    ensures Mark(w.env, st, s, id, ops, slot).Err?
  {
    assert RequestOk(w, s.utxos, id, s.requests[id]);
  }

  lemma CancelRefused(env: Env, st: Settings, s: State, caller: nat, id: RequestId, ops: seq<OutPoint>, slot: u64)
    requires id in s.requests && s.requests[id].signingApproved
    ensures Cancel(env, st, s, caller, id, ops, slot).Err?
  {}

  lemma ApproveRefused(w: World, st: Settings, s: State, id: RequestId, index: u32, fee: u64, ops: seq<OutPoint>)
    requires RequestsOk(w, s) && id in s.requests && s.requests[id].signingApproved
    ensures Approve(w.env, st, s, id, index, fee, ops).Err?
  {
    var r := s.requests[id];
    assert RequestOk(w, s.utxos, id, r);
    if r.status == Processing && index < r.reservedCount { ApprovedThroughout(r, index); }
  }

  lemma ApprovedThroughout(r: Request, index: nat)
    requires ApprovalsMatch(r) && r.signingApproved && index < r.reservedCount <= MAX_UTXOS
    ensures IsApproved(r, index)
  {
    AllApprovedIff(r);
    ApprovedIsBit(r, index);
  }

  /** Marking, approving or cancelling a fully approved request fails. */
  lemma ApprovedIsRefused(w: World, s: State, step: Step, id: RequestId)
    requires RequestsOk(w, s) && id in s.requests && s.requests[id].signingApproved
    requires (step.MarkStep? || step.ApproveStep? || step.CancelStep?) && step.id == id
    ensures Apply(w.env, s, step).Err?
  {
    match step {
      case MarkStep(st, _, ops, slot) => MarkRefused(w, st, s, id, ops, slot);
      case ApproveStep(st, _, index, fee, ops) => ApproveRefused(w, st, s, id, index, fee, ops);
      case CancelStep(st, caller, _, ops, slot) => CancelRefused(w.env, st, s, caller, id, ops, slot);
    }
  }

  predicate NotCompleted(steps: seq<Step>, from: nat, id: RequestId) {
    forall i :: from <= i < |steps| ==> !(steps[i].CompleteStep? && steps[i].id == id)
  }

  lemma {:induction false} FullyApprovedForever(w: World, steps: seq<Step>, i: nat, id: RequestId)
    requires WorldOk(w) && StepsOk(w, steps) && i <= |steps| && NotCompleted(steps, i, id)
    requires var s := Run(w.env, steps[..i]).state; id in s.requests && s.requests[id].signingApproved
    ensures id in Run(w.env, steps).state.requests
            && Run(w.env, steps).state.requests[id] == Run(w.env, steps[..i]).state.requests[id]
    decreases |steps|
  {
    if i == |steps| {
      assert steps[..i] == steps;
    } else {
      var before := steps[..|steps| - 1];
      assert before[..i] == steps[..i];
      FullyApprovedForever(w, before, i, id);
      RunInv(w, before);
      FullyApprovedStays(w, Run(w.env, before), steps[|steps| - 1], id);
    }
  }

  // ---- the approved transaction completes ---------------------------------------------------------------------------

  /** A reservation funds its payout at every admissible fee, and an approval never fails for lack of inputs. */
  lemma ChangeNeverUnderflows(w: World, s: State, donated: nat, id: RequestId, fee: nat)
    requires Inv(w, s, donated) && id in s.requests && s.requests[id].status == Processing
    requires fee <= MAX_FEE_SATS && fee <= s.requests[id].serviceFee
    ensures var r := s.requests[id]; r.serviceFee <= r.amount && r.totalInput >= r.amount - r.serviceFee + fee
  {
    assert RequestOk(w, s.utxos, id, s.requests[id]);
  }

  /** The listing an approval accepts names every reserved record once. */
  lemma ListedIsFull(w: World, utxos: Utxos, key: nat, r: Request, ops: seq<OutPoint>)
    requires WorldOk(w) && r.serviceFee <= r.amount && ProcessingOk(w, utxos, key, r) && Hashed(w, utxos, ops)
    requires Listed(w.env, utxos, key, ops, r.totalInput, r.commitment).Ok?
    ensures Distinct(ops) && AllReserved(utxos, ops, key) && |ops| == r.reservedCount
  {
    var marked :| Committed(w, utxos, key, r, marked);
    assert w.env.commit(Canonical(InputsOf(utxos, marked))) == w.env.commit(Canonical(InputsOf(utxos, ops)));
    SameInputsDistinct(utxos, marked, ops);
  }

  lemma SameInputsDistinct(utxos: Utxos, marked: seq<OutPoint>, ops: seq<OutPoint>)
    requires Distinct(marked) && Canonical(InputsOf(utxos, marked)) == Canonical(InputsOf(utxos, ops))
    ensures |ops| == |marked| && Distinct(ops)
  {
    var a, b := InputsOf(utxos, marked), InputsOf(utxos, ops);
    assert multiset(a) == multiset(b);
    DistinctInputs(utxos, marked);
    SameMultisetDistinct(a, b);
    forall i, j | 0 <= i < j < |ops| ensures ops[i] != ops[j] {
      assert b[i] != b[j];
    }
  }

  predicate AllDifferent(s: seq<ReservedInput>) {
    forall i, j :: 0 <= i < j < |s| ==> s[i] != s[j]
  }

  lemma DistinctInputs(utxos: Utxos, ops: seq<OutPoint>)
    requires Distinct(ops)
    ensures AllDifferent(InputsOf(utxos, ops))
  {}

  ghost predicate Single(s: seq<ReservedInput>) {
    forall x {:trigger multiset(s)[x]} :: multiset(s)[x] <= 1
  }

  lemma {:induction false} DifferentIsSingle(s: seq<ReservedInput>)
    ensures AllDifferent(s) <==> Single(s)
  {
    if |s| > 0 {
      var n := |s| - 1;
      assert s == s[..n] + [s[n]];
      DifferentIsSingle(s[..n]);
      if AllDifferent(s) {
        assert AllDifferent(s[..n]);
        assert s[n] !in s[..n];
        assert multiset(s[..n])[s[n]] == 0;
      }
      if Single(s) {
        assert multiset(s)[s[n]] <= 1;
        assert multiset(s[..n])[s[n]] == 0;
        assert s[n] !in s[..n];
        forall x ensures multiset(s[..n])[x] <= 1 { assert multiset(s)[x] <= 1; }
      }
    }
  }

  lemma SameMultisetDistinct(a: seq<ReservedInput>, b: seq<ReservedInput>)
    requires multiset(a) == multiset(b) && AllDifferent(a)
    ensures |a| == |b| && AllDifferent(b)
  {
    assert |multiset(a)| == |multiset(b)|;
    DifferentIsSingle(a);
    assert Single(b);
    DifferentIsSingle(b);
  }
}
