/**
 * A completion whose change outpoint was credited as a deposit first loses that deposit's backing. The settlement
 * carries a deposit marker, so its output to the pool can be credited directly; the completion policy allows the
 * marker, and the program does not require the settlement to be one it approved.
 */
module OverwrittenChange {
  import opened U256
  import opened Totals
  import opened Requests
  import opened Ledgers
  import opened Reservations
  import opened Payouts
  import opened LedgerRuns

  const FREE: Settings := Settings(false, true, 0, U64_MAX, 0, U64_MAX, U64_MAX, 0, 0, 0, 1_000, false, true)
  const FUNDING: OutPoint := OutPoint(1, 0)
  const CHANGE: OutPoint := OutPoint(2, 1)
  const ID: RequestId := RequestId(0, 0)

  /** Any environment, recipient and deposit payload. */
  datatype Case = Case(env: Env, recipient: Script, payload: seq<u8>)

  predicate Taproot(script: Script) {
    |script| == 34 && script[0] == 0x51 && script[1] == 0x20
  }

  predicate CaseOk(c: Case) {
    Taproot(c.env.poolScript) && Taproot(c.recipient) && c.recipient != c.env.poolScript && |c.payload| == 73
  }

  /** The OP_RETURN script that announces a deposit. */
  function Marker(c: Case): (script: Script)
    ensures |script| == 2 + |c.payload| && script[0] == OP_RETURN
  {
    [OP_RETURN, 73] + c.payload
  }

  function Outputs(c: Case): seq<Output> {
    [Output(4_000, c.recipient), Output(5_000, c.env.poolScript), Output(0, Marker(c))]
  }

  function SettlementTx(c: Case): Tx {
    Tx(2, [FUNDING], Outputs(c))
  }

  // ---- the steps ------------------------------------------------------------------------------------------

  function Funding(): Step {
    DepositStep(FREE, FUNDING, 10_000, NoLeaf)
  }

  function Redemption(c: Case): Step {
    RedeemStep(FREE, 0, [Order(5_000, c.recipient, 0)])
  }

  function Reservation(): Step {
    MarkStep(FREE, ID, [FUNDING], 0)
  }

  /** The settlement's output to the pool, credited as the deposit its marker announces. */
  function Credit(): Step {
    DepositStep(FREE, CHANGE, 5_000, NoLeaf)
  }

  function Settlement(c: Case): Step {
    CompleteStep(FREE, ID, SettlementTx(c), true, [FUNDING])
  }

  function StepAt(c: Case, n: nat): Step {
    if n == 0 then Funding() else if n == 1 then Redemption(c) else if n == 2 then Reservation()
    else if n == 3 then Credit() else Settlement(c)
  }

  /** The run, one step at a time. */
  function Steps(c: Case, n: nat): seq<Step>
    requires n <= 5
  {
    if n == 0 then [] else Steps(c, n - 1) + [StepAt(c, n - 1)]
  }

  // ---- the states -----------------------------------------------------------------------------------------

  function Requested(c: Case): Request {
    Request(Pending, 5_000, 1_000, c.recipient, 0, 0, 0, 0, 0, [0, 0, 0], false)
  }

  function Funded(): State {
    State(Pool(10_000, 0, 10_000, 10_000, 1, 0, 0), Token(10_000, 0), 10_000, map[FUNDING := Utxo(10_000, Unspent, NoLeaf)], map[], {})
  }

  function Redeemed(c: Case): State {
    Funded().(pool := Pool(10_000, 0, 5_000, 10_000, 1, 1, 0), token := Token(5_000, 0), requests := map[ID := Requested(c)])
  }

  /** The one list of inputs the run hashes. */
  function Inputs(): seq<ReservedInput> {
    Canonical(InputsOf(Funded().utxos, [FUNDING]))
  }

  function Held(c: Case): Utxo {
    Utxo(10_000, Reserved(c.env.key(ID)), NoLeaf)
  }

  function Reserving(c: Case): State {
    Redeemed(c).(pool := Pool(10_000, 0, 5_000, 0, 0, 1, 0), utxos := map[FUNDING := Held(c)],
                 requests := map[ID := Requested(c).(status := Processing, totalInput := 10_000, reservedCount := 1,
                                                     commitment := c.env.commit(Inputs()))])
  }

  function Doubled(c: Case): State {
    Reserving(c).(pool := Pool(15_000, 0, 10_000, 5_000, 1, 1, 0), token := Token(10_000, 0), vault := 15_000,
                  utxos := map[FUNDING := Held(c), CHANGE := Utxo(5_000, Unspent, NoLeaf)])
  }

  // ---- each step leads to the next state ------------------------------------------------------------------

  lemma NoFee(amount: u64)
    requires 0 < amount
    ensures DepositSplit(FREE, amount).Ok? && DepositSplit(FREE, amount).value.0 == 0 && DepositSplit(FREE, amount).value.1 == amount
  {
    assert amount * FREE.depositBps == 0;
  }

  /** A deposit without fees, while every counter has room. */
  lemma FreeDeposit(s: State, op: OutPoint, amount: u64)
    requires 0 < amount && op !in s.utxos && s.vault + amount <= U64_MAX && s.token.shielded + amount <= U64_MAX && s.token.fees <= U64_MAX
    requires s.pool.minted + amount <= U64_MAX && s.pool.held + amount <= U64_MAX && s.pool.utxoCount < U32_MAX
    ensures Deposit(FREE, s, op, amount, NoLeaf)
            == Ok(s.(utxos := s.utxos[op := Utxo(amount, Unspent, NoLeaf)], vault := s.vault + amount,
                     token := s.token.(shielded := s.token.shielded + amount),
                     pool := s.pool.(minted := s.pool.minted + amount, shielded := s.token.shielded + amount,
                                     held := s.pool.held + amount, utxoCount := s.pool.utxoCount + 1)))
  {
    NoFee(amount);
  }

  lemma FundingIs(s: State)
    requires s == State(Pool(0, 0, 0, 0, 0, 0, 0), Token(0, 0), 0, map[], map[], {})
    ensures Deposit(FREE, s, FUNDING, 10_000, NoLeaf) == Ok(Funded())
  {
    FreeDeposit(s, FUNDING, 10_000);
    assert s.utxos[FUNDING := Utxo(10_000, Unspent, NoLeaf)] == Funded().utxos;
  }

  lemma RedemptionIs(c: Case)
    requires CaseOk(c)
    ensures Apply(c.env, Funded(), Redemption(c)) == Ok(Redeemed(c))
  {
    var orders := [Order(5_000, c.recipient, 0)];
    assert OrdersTo(orders, 1) == 5_000;
    assert Opened(FREE, map[], 0, orders, 0) == map[];
    assert OpensAt(FREE, map[], 0, orders, 0);
    assert Opened(FREE, map[], 0, orders, 1) == map[ID := Requested(c)];
  }

  lemma ReservedRecord(c: Case)
    ensures var utxos, ops, to := Funded().utxos, [FUNDING], Reserved(c.env.key(ID));
            && SumOps(utxos, ops, 1) == 10_000 && Smallest(utxos, ops, 1) == 10_000
            && Flippable(utxos, ops, Unspent, to) && Flip(utxos, ops, to, 1) == map[FUNDING := Held(c)]
  {
    var utxos, ops, to := Funded().utxos, [FUNDING], Reserved(c.env.key(ID));
    assert Flip(utxos, ops, to, 0) == utxos;
    assert FlipsAt(utxos, ops, Unspent, to, 0);
    assert SumOps(utxos, ops, 0) == 0;
  }

  lemma ReservationIs(c: Case)
    ensures Apply(c.env, Redeemed(c), Reservation()) == Ok(Reserving(c))
  {
    var ops := [FUNDING];
    ReservedRecord(c);
    assert Required(Requested(c)) == 5_000;
    var t := Mark(c.env, FREE, Redeemed(c), ID, ops, 0).value;
    assert t.pool == Reserving(c).pool && t.utxos == Reserving(c).utxos;
    assert t.requests == Reserving(c).requests;
  }

  lemma CreditIs(c: Case)
    ensures Deposit(FREE, Reserving(c), CHANGE, 5_000, NoLeaf) == Ok(Doubled(c))
  {
    FreeDeposit(Reserving(c), CHANGE, 5_000);
    assert Reserving(c).utxos[CHANGE := Utxo(5_000, Unspent, NoLeaf)] == Doubled(c).utxos;
  }

  lemma OutputSums(c: Case)
    requires CaseOk(c)
    ensures PaidTo(Outputs(c), c.recipient, 3) == 4_000 && SumOutputs(Outputs(c), 3) == 9_000
    ensures FirstPaying(Outputs(c), c.env.poolScript, 0) == 1
  {
    var outs := Outputs(c);
    assert PaidTo(outs, c.recipient, 1) == 4_000 && PaidTo(outs, c.recipient, 2) == 4_000;
    assert SumOutputs(outs, 1) == 4_000 && SumOutputs(outs, 2) == 9_000;
    assert FirstPaying(outs, c.env.poolScript, 0) == FirstPaying(outs, c.env.poolScript, 1) == 1;
  }

  lemma OutputsAllowed(c: Case)
    requires CaseOk(c)
    ensures WithinPolicy(Outputs(c), c.recipient, c.env.poolScript)
  {
    var outs, recipient, pool := Outputs(c), c.recipient, c.env.poolScript;
    assert !IsChange(outs[0], recipient, pool) && IsChange(outs[1], recipient, pool) && !IsChange(outs[2], recipient, pool);
    assert ChangeCount(outs, recipient, pool, 0) == 0;
    assert ChangeCount(outs, recipient, pool, 1) == 0;
    assert ChangeCount(outs, recipient, pool, 2) == 1;
    assert ChangeCount(outs, recipient, pool, 3) == 1;
  }

  lemma PayoutIs(c: Case)
    requires CaseOk(c)
    ensures CheckPayout(FREE, Doubled(c).requests[ID], c.env.poolScript, SettlementTx(c)) == Ok(Payout(4_000, 1_000, 5_000, 0))
    ensures ChangeIndex(SettlementTx(c), c.env.poolScript) == 1 && Excess(SettlementTx(c)) == 0
  {
    OutputSums(c);
    OutputsAllowed(c);
    assert Outputs(c)[0].script == c.recipient;
  }

  lemma SettlementIs(c: Case)
    requires CaseOk(c)
    ensures var r := Apply(c.env, Doubled(c), Settlement(c));
            && r.Ok? && r.value.pool.minted == 15_000 && r.value.pool.burned == 5_000
            && r.value.utxos == map[CHANGE := Utxo(5_000, Unspent, NoLeaf)]
  {
    PayoutIs(c);
    var ops, tx, key := [FUNDING], SettlementTx(c), c.env.key(ID);
    var utxos := WithChange(Doubled(c).utxos, tx, c.env.poolScript);
    assert utxos == Doubled(c).utxos;
    assert Closed(utxos, ops, 0) == utxos;
    assert ClosesAt(utxos, ops, key, tx, 0);
    assert Closed(utxos, ops, 1) == map[CHANGE := Utxo(5_000, Unspent, NoLeaf)];
  }

  // ---- the run ----------------------------------------------------------------------------------------------

  lemma ApplyDeposit(env: Env, s: State, st: Settings, op: OutPoint, amount: u64, leaf: Leaf)
    ensures Apply(env, s, DepositStep(st, op, amount, leaf)) == Deposit(st, s, op, amount, leaf)
  {}

  lemma RunGrows(w: World, steps: seq<Step>, step: Step, before: State, after: State)
    requires Run(w.env, steps).state == before && Apply(w.env, before, step) == Ok(after)
    ensures Run(w.env, steps + [step]).state == after
    ensures StepsOk(w, steps) && StepOk(w, before, step) ==> StepsOk(w, steps + [step])
  {
    assert (steps + [step])[..|steps|] == steps;
  }

  /** One request address and one input list: nothing to tell apart. */
  ghost function Small(c: Case): World {
    World(c.env, iset{ID}, iset{Inputs()})
  }

  lemma RunStep(c: Case, n: nat, before: State, after: State)
    requires n < 5 && Run(c.env, Steps(c, n)).state == before && Apply(c.env, before, StepAt(c, n)) == Ok(after)
    ensures Run(c.env, Steps(c, n + 1)).state == after
    ensures StepsOk(Small(c), Steps(c, n)) && StepOk(Small(c), before, StepAt(c, n)) ==> StepsOk(Small(c), Steps(c, n + 1))
  {
    RunGrows(Small(c), Steps(c, n), StepAt(c, n), before, after);
  }

  lemma RunFunding(c: Case)
    ensures Run(c.env, Steps(c, 1)).state == Funded() && StepsOk(Small(c), Steps(c, 1))
  {
    var empty := Run(c.env, Steps(c, 0)).state;
    FundingIs(empty);
    ApplyDeposit(c.env, empty, FREE, FUNDING, 10_000, NoLeaf);
    RunStep(c, 0, empty, Funded());
  }

  lemma RunRedeemed(c: Case)
    requires CaseOk(c)
    ensures Run(c.env, Steps(c, 2)).state == Redeemed(c) && StepsOk(Small(c), Steps(c, 2))
  {
    RunFunding(c);
    RedemptionIs(c);
    RunStep(c, 1, Funded(), Redeemed(c));
  }

  lemma RunReserving(c: Case)
    requires CaseOk(c)
    ensures Run(c.env, Steps(c, 3)).state == Reserving(c) && StepsOk(Small(c), Steps(c, 3))
  {
    RunRedeemed(c);
    ReservationIs(c);
    assert Hashed(Small(c), Redeemed(c).utxos, [FUNDING]);
    RunStep(c, 2, Redeemed(c), Reserving(c));
  }

  lemma RunDoubled(c: Case)
    requires CaseOk(c)
    ensures Run(c.env, Steps(c, 4)).state == Doubled(c) && StepsOk(Small(c), Steps(c, 4))
  {
    RunReserving(c);
    CreditIs(c);
    ApplyDeposit(c.env, Reserving(c), FREE, CHANGE, 5_000, NoLeaf);
    RunStep(c, 3, Reserving(c), Doubled(c));
  }

  lemma WorthOfOne(op: OutPoint, u: Utxo)
    ensures Worth(map[op := u]) == u.amount
  {
    TotalWrite(map[], Amount(), op, u);
    assert map[][op := u] == map[op := u];
  }

  lemma AllButFresh(c: Case)
    requires CaseOk(c)
    ensures WorldOk(Small(c)) && StepKnown(Small(c), Doubled(c), Settlement(c))
    ensures Excess(SettlementTx(c)) == 0 && !FreshChange(Doubled(c).utxos, SettlementTx(c), c.env.poolScript)
  {
    PayoutIs(c);
  }

  lemma RunSettled(c: Case)
    requires CaseOk(c)
    ensures var s := Run(c.env, Steps(c, 5)).state;
            s.pool.minted == 15_000 && s.pool.burned == 5_000 && s.utxos == map[CHANGE := Utxo(5_000, Unspent, NoLeaf)]
  {
    RunDoubled(c);
    SettlementIs(c);
    RunStep(c, 4, Doubled(c), Apply(c.env, Doubled(c), Settlement(c)).value);
  }

  /**
   * Freshness of the change outpoint is needed, and is all that is missing: every other assumption of a run holds,
   * and after five accepted steps 15000 are minted, 5000 burned and 5000 on record.
   */
  lemma BackingLost(c: Case, before: State, s: State)
    requires CaseOk(c) && before == Run(c.env, Steps(c, 4)).state && s == Run(c.env, Steps(c, 5)).state
    ensures WorldOk(Small(c)) && StepsOk(Small(c), Steps(c, 4)) && StepKnown(Small(c), before, Settlement(c))
    ensures Excess(SettlementTx(c)) == 0 && !FreshChange(before.utxos, SettlementTx(c), c.env.poolScript)
    ensures s.pool.minted == 15_000 && s.pool.burned == 5_000 && Worth(s.utxos) == 5_000 && !Backed(s)
  {
    RunDoubled(c);
    AllButFresh(c);
    RunSettled(c);
    WorthOfOne(CHANGE, Utxo(5_000, Unspent, NoLeaf));
  }
}
