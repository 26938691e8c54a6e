/** The pool's ledgers: deposits, shielded balances, UTXO records, redemption requests and the vault. */
module Ledgers {
  import opened Powers
  import opened U256
  import opened Requests

  const U64_MAX: nat := 0xffff_ffff_ffff_ffff
  const U32_MAX: nat := 0xffff_ffff
  const U32_RANGE: nat := 0x1_0000_0000
  const MAX_UTXOS: nat := 20
  const MAX_FEE_SATS: nat := 50_000
  const DUST_SATS: nat := 330
  const MAX_REDEMPTION_SATS: nat := 100_000_000
  const TIMEOUT_SLOTS: nat := 216_000
  const MAX_SCRIPT: nat := 34
  const MAX_PUBLIC_OUTPUTS: nat := 3
  const OP_RETURN: u8 := 0x6a

  // ---- entities ------------------------------------------------------------------------------------

  datatype OutPoint = OutPoint(txid: nat, vout: nat)

  datatype UtxoStatus = Unspent | Reserved(key: nat)

  datatype Leaf = NoLeaf | TapLeaf(commitment: nat)

  datatype Utxo = Utxo(amount: nat, status: UtxoStatus, leaf: Leaf)

  type Utxos = map<OutPoint, Utxo>

  /** The seeds of a request's address. */
  datatype RequestId = RequestId(requester: nat, nonce: nat)

  datatype Pool = Pool(minted: nat, burned: nat, shielded: nat, held: nat, utxoCount: nat, pending: nat, feePool: nat)

  datatype Token = Token(shielded: nat, fees: nat)

  datatype State = State(pool: Pool, token: Token, vault: nat, utxos: Utxos, requests: map<RequestId, Request>, completed: set<nat>)

  const EMPTY: State := State(Pool(0, 0, 0, 0, 0, 0, 0), Token(0, 0), 0, map[], map[], {})

  /**
   * What an instruction reads besides the ledgers: configured values, whether the active commitment tree is full, and
   * whether the join-split of a spend (root, proof, nullifiers, tree outputs) goes through.
   */
  datatype Settings = Settings(
    paused: bool, enabled: bool, poolMin: u64, poolMax: u64, tokenMin: u64, tokenMax: u64, cap: u64,
    depositBps: u16, withdrawalBps: u16, serviceFee: u64, serviceFeeBase: u64, treeFull: bool, joinSplitOk: bool)

  datatype ReservedInput = ReservedInput(outpoint: OutPoint, amount: nat)

  /** What is fixed for a run: the reservation key of an address, the input commitment and the pool script. */
  datatype Env = Env(key: RequestId -> nat, commit: seq<ReservedInput> -> nat, poolScript: Script)

  datatype Output = Output(value: u64, script: Script)

  /** A parsed bitcoin transaction. */
  datatype Tx = Tx(txid: nat, inputs: seq<OutPoint>, outputs: seq<Output>)

  datatype SpendInput = SpendInput(outpoint: OutPoint, amount: nat, leaf: Leaf)

  /** The transaction an approval commits to. */
  datatype Spend = Spend(inputs: seq<SpendInput>, outputs: seq<Output>)

  datatype Error =
    | PoolPaused | TokenDisabled | InvalidInstruction | InvalidUtxo | InvalidState | AlreadyInitialized | Unauthorized
    | AmountOutOfRange | ZeroAmount | Overflow | DepositCapExceeded | DuplicateDeposit | InsufficientFunds
    | InsufficientInputs | ExcessiveInputs | FeeMismatch | FeeExceedsLimit | OutputMismatch | CancelNotAllowed
    | TreeIsFull | InvalidJoinSplit

  datatype Result<T> = Ok(value: T) | Err(error: Error)

  // ---- fees ------------------------------------------------------------------------------------------

  /** A basis-point fee, truncated to 64 bits, at least one unit when amount and rate are not zero. */
  function BpsFee(amount: u64, bps: u16): (fee: u64) {
    var fee := amount * bps / 10_000 % (U64_MAX + 1);
    if fee == 0 && amount > 0 && bps > 0 then 1 else fee
  }

  function Saturated(n: nat): nat {
    if n > U64_MAX then U64_MAX else n
  }

  function ServiceFee(st: Settings, amount: nat): nat {
    Saturated(Saturated(amount * st.withdrawalBps / 10_000) + st.serviceFeeBase)
  }

  // ---- deposit, shield, unshield, claim -----------------------------------------------------------------

  /** Fee and shielded amount of a deposit. */
  function DepositSplit(st: Settings, amount: u64): Result<(nat, nat)> {
    if amount < st.poolMin || amount > st.poolMax || amount < st.tokenMin || amount > st.tokenMax then Err(AmountOutOfRange)
    else
      var fee := BpsFee(amount, st.depositBps) + st.serviceFee;
      if fee > U64_MAX || fee > amount then Err(Overflow)
      else if fee == amount then Err(ZeroAmount)
      else Ok((fee, amount - fee))
  }

  function Deposit(st: Settings, s: State, op: OutPoint, amount: u64, leaf: Leaf): Result<State> {
    if st.paused then Err(PoolPaused)
    else if !st.enabled then Err(TokenDisabled)
    else
      match DepositSplit(st, amount)
      case Err(e) => Err(e)
      case Ok((fee, shielded)) =>
        if st.treeFull then Err(TreeIsFull)
        else if op in s.utxos then Err(DuplicateDeposit)
        else if s.pool.held + amount > U64_MAX || s.pool.utxoCount + 1 > U32_MAX || s.vault + amount > U64_MAX then Err(Overflow)
        else if s.token.shielded + shielded > U64_MAX then Err(Overflow)
        else if s.token.shielded + shielded > st.cap then Err(DepositCapExceeded)
        else if s.token.fees + fee > U64_MAX || s.pool.minted + amount > U64_MAX then Err(Overflow)
        else
          Ok(s.(utxos := s.utxos[op := Utxo(amount, Unspent, leaf)],
                vault := s.vault + amount,
                token := Token(s.token.shielded + shielded, s.token.fees + fee),
                pool := s.pool.(minted := s.pool.minted + amount, shielded := s.token.shielded + shielded,
                                held := s.pool.held + amount, utxoCount := s.pool.utxoCount + 1)))
  }

  /** Shields what the vault measurably received. */
  function Shield(st: Settings, s: State, amount: u64, received: u64): Result<State> {
    if st.paused then Err(PoolPaused)
    else if !st.enabled then Err(TokenDisabled)
    else if amount < st.tokenMin || amount > st.tokenMax then Err(AmountOutOfRange)
    else if s.vault + received > U64_MAX then Err(Overflow)
    else
      var fee := BpsFee(received, st.depositBps);
      if fee > received then Err(Overflow)
      else if fee == received then Err(ZeroAmount)
      else if s.token.shielded + (received - fee) > U64_MAX then Err(Overflow)
      else if s.token.shielded + (received - fee) > st.cap then Err(DepositCapExceeded)
      else if st.treeFull then Err(TreeIsFull)
      else if s.token.fees + fee > U64_MAX then Err(Overflow)
      else
        Ok(s.(vault := s.vault + received,
              token := Token(s.token.shielded + (received - fee), s.token.fees + fee),
              pool := s.pool.(shielded := s.token.shielded + (received - fee))))
  }

  /** Sum of the first `k` amounts. */
  function SumTo(amounts: seq<u64>, k: nat): nat
    requires k <= |amounts|
  {
    if k == 0 then 0 else SumTo(amounts, k - 1) + amounts[k - 1]
  }

  function FeesTo(amounts: seq<u64>, bps: u16, k: nat): nat
    requires k <= |amounts|
  {
    if k == 0 then 0 else FeesTo(amounts, bps, k - 1) + BpsFee(amounts[k - 1], bps)
  }

  predicate FeesCovered(amounts: seq<u64>, bps: u16) {
    forall i :: 0 <= i < |amounts| ==> BpsFee(amounts[i], bps) <= amounts[i]
  }

  function Unshield(st: Settings, s: State, amounts: seq<u64>): Result<State> {
    if |amounts| == 0 || |amounts| > MAX_PUBLIC_OUTPUTS then Err(InvalidInstruction)
    else if st.paused then Err(PoolPaused)
    else if !st.enabled then Err(TokenDisabled)
    else if !st.joinSplitOk then Err(InvalidJoinSplit)
    else
      var total, fees := SumTo(amounts, |amounts|), FeesTo(amounts, st.withdrawalBps, |amounts|);
      if !FeesCovered(amounts, st.withdrawalBps) || total > U64_MAX || fees > U64_MAX then Err(Overflow)
      else if total < fees || s.vault < total - fees then Err(InsufficientFunds)
      else if s.token.shielded < total || s.token.fees + fees > U64_MAX then Err(Overflow)
      else
        Ok(s.(vault := s.vault - (total - fees),
              token := Token(s.token.shielded - total, s.token.fees + fees),
              pool := s.pool.(shielded := s.token.shielded - total)))
  }

  function ClaimFees(s: State, amount: u64): Result<State> {
    if amount > s.token.fees || amount > s.vault then Err(InsufficientFunds)
    else Ok(s.(vault := s.vault - amount, token := s.token.(fees := s.token.fees - amount)))
  }

  /** Anyone may send tokens to the vault. */
  function Donate(s: State, amount: u64): Result<State> {
    if s.vault + amount > U64_MAX then Err(Overflow) else Ok(s.(vault := s.vault + amount))
  }

  // ---- redeem ---------------------------------------------------------------------------------------------

  datatype Order = Order(amount: u64, script: Script, nonce: nat)

  predicate ScriptOk(script: Script) {
    0 < |script| <= MAX_SCRIPT && script[0] != OP_RETURN
  }

  function NewRequest(st: Settings, o: Order): Request {
    Request(Pending, o.amount, ServiceFee(st, o.amount), o.script, 0, 0, 0, 0, 0, [0, 0, 0], false)
  }

  function OrdersTo(orders: seq<Order>, k: nat): nat
    requires k <= |orders|
  {
    if k == 0 then 0 else OrdersTo(orders, k - 1) + orders[k - 1].amount
  }

  /** The requests with the first `k` orders added. */
  function Opened(st: Settings, requests: map<RequestId, Request>, requester: nat, orders: seq<Order>, k: nat): map<RequestId, Request>
    requires k <= |orders|
  {
    if k == 0 then requests
    else Opened(st, requests, requester, orders, k - 1)[RequestId(requester, orders[k - 1].nonce) := NewRequest(st, orders[k - 1])]
  }

  /** An order is accepted when its address is free at its turn and its fee leaves a payout. */
  predicate CanOpen(st: Settings, requests: map<RequestId, Request>, requester: nat, o: Order) {
    RequestId(requester, o.nonce) !in requests && ServiceFee(st, o.amount) < o.amount
  }

  predicate OpensAt(st: Settings, requests: map<RequestId, Request>, requester: nat, orders: seq<Order>, i: nat)
    requires i < |orders|
  {
    CanOpen(st, Opened(st, requests, requester, orders, i), requester, orders[i])
  }

  predicate AllOpen(st: Settings, requests: map<RequestId, Request>, requester: nat, orders: seq<Order>) {
    forall i {:trigger OpensAt(st, requests, requester, orders, i)} :: 0 <= i < |orders| ==> OpensAt(st, requests, requester, orders, i)
  }

  function Redeem(st: Settings, s: State, requester: nat, orders: seq<Order>): Result<State> {
    if |orders| == 0 || |orders| > MAX_PUBLIC_OUTPUTS then Err(InvalidInstruction)
    else if !(forall i :: 0 <= i < |orders| ==> ScriptOk(orders[i].script)) then Err(InvalidInstruction)
    else if st.paused then Err(PoolPaused)
    else if !st.enabled then Err(TokenDisabled)
    else if !(forall i :: 0 <= i < |orders| ==> orders[i].amount > 0) then Err(ZeroAmount)
    else
      var total := OrdersTo(orders, |orders|);
      if total > U64_MAX then Err(Overflow)
      else if total > s.pool.shielded then Err(InsufficientFunds)
      else if !st.joinSplitOk then Err(InvalidJoinSplit)
      else if !AllOpen(st, s.requests, requester, orders) then Err(AlreadyInitialized)
      else if total > s.token.shielded then Err(Overflow)
      else
        Ok(s.(requests := Opened(st, s.requests, requester, orders, |orders|),
              token := s.token.(shielded := s.token.shielded - total),
              pool := s.pool.(shielded := s.token.shielded - total, pending := Saturated(s.pool.pending + |orders|))))
  }

  // ---- reserving and releasing records -----------------------------------------------------------------------

  /** The records with the first `k` named ones moved to status `to`. */
  function Flip(utxos: Utxos, ops: seq<OutPoint>, to: UtxoStatus, k: nat): Utxos
    requires k <= |ops|
  {
    if k == 0 then utxos
    else
      var m := Flip(utxos, ops, to, k - 1);
      if ops[k - 1] in m then m[ops[k - 1] := m[ops[k - 1]].(status := to)] else m
  }

  predicate HasStatus(utxos: Utxos, op: OutPoint, from: UtxoStatus) {
    op in utxos && utxos[op].status == from
  }

  predicate FlipsAt(utxos: Utxos, ops: seq<OutPoint>, from: UtxoStatus, to: UtxoStatus, i: nat)
    requires i < |ops|
  {
    HasStatus(Flip(utxos, ops, to, i), ops[i], from)
  }

  /** Each named record has status `from` when its turn comes. */
  predicate Flippable(utxos: Utxos, ops: seq<OutPoint>, from: UtxoStatus, to: UtxoStatus) {
    forall i {:trigger FlipsAt(utxos, ops, from, to, i)} :: 0 <= i < |ops| ==> FlipsAt(utxos, ops, from, to, i)
  }

  function AmountAt(utxos: Utxos, op: OutPoint): nat {
    if op in utxos then utxos[op].amount else 0
  }

  function SumOps(utxos: Utxos, ops: seq<OutPoint>, k: nat): nat
    requires k <= |ops|
  {
    if k == 0 then 0 else SumOps(utxos, ops, k - 1) + AmountAt(utxos, ops[k - 1])
  }

  function Smallest(utxos: Utxos, ops: seq<OutPoint>, k: nat): nat
    requires 0 < k <= |ops|
  {
    if k == 1 then AmountAt(utxos, ops[0])
    else
      var m := Smallest(utxos, ops, k - 1);
      if AmountAt(utxos, ops[k - 1]) < m then AmountAt(utxos, ops[k - 1]) else m
  }

  function Min(x: nat, y: nat): nat {
    if x < y then x else y
  }

  /** What the reserved inputs must cover: the payout and the largest admissible miner fee. */
  function Required(r: Request): nat
    requires r.serviceFee <= r.amount
  {
    r.amount - r.serviceFee + Min(MAX_FEE_SATS, r.serviceFee)
  }

  // ---- canonical input lists ------------------------------------------------------------------------------------

  /** Larger amounts first, then by transaction id, then by output index. */
  predicate Before(a: ReservedInput, b: ReservedInput) {
    a.amount > b.amount
    || (a.amount == b.amount && (a.outpoint.txid < b.outpoint.txid
                                 || (a.outpoint.txid == b.outpoint.txid && a.outpoint.vout <= b.outpoint.vout)))
  }

  function Insert(x: ReservedInput, s: seq<ReservedInput>): (r: seq<ReservedInput>)
    ensures multiset(r) == multiset(s) + multiset{x} && |r| == |s| + 1
  {
    if |s| == 0 then [x]
    else if Before(x, s[0]) then
      assert [x] + s == [x] + s;
      [x] + s
    else
      assert s == [s[0]] + s[1..];
      [s[0]] + Insert(x, s[1..])
  }

  function Canonical(s: seq<ReservedInput>): (r: seq<ReservedInput>)
    ensures multiset(r) == multiset(s) && |r| == |s|
  {
    if |s| == 0 then []
    else
      assert s == [s[0]] + s[1..];
      Insert(s[0], Canonical(s[1..]))
  }

  /** The named records as reserved inputs. */
  function InputsOf(utxos: Utxos, ops: seq<OutPoint>): (r: seq<ReservedInput>)
    ensures |r| == |ops| && forall i :: 0 <= i < |ops| ==> r[i] == ReservedInput(ops[i], AmountAt(utxos, ops[i]))
  {
    if |ops| == 0 then []
    else InputsOf(utxos, ops[..|ops| - 1]) + [ReservedInput(ops[|ops| - 1], AmountAt(utxos, ops[|ops| - 1]))]
  }

  // ---- mark_processing -----------------------------------------------------------------------------------------

  function Mark(env: Env, st: Settings, s: State, id: RequestId, ops: seq<OutPoint>, slot: u64): Result<State> {
    if id !in s.requests then Err(InvalidState)
    else if st.paused then Err(PoolPaused)
    else if |ops| == 0 || |ops| > MAX_UTXOS then Err(InvalidInstruction)
    else
      var r := s.requests[id];
      var to := Reserved(env.key(id));
      var total := SumOps(s.utxos, ops, |ops|);
      if r.status != Pending then Err(InvalidState)
      else if !Flippable(s.utxos, ops, Unspent, to) then Err(InvalidUtxo)
      else if total > U64_MAX then Err(Overflow)
      else if r.amount < r.serviceFee || Required(r) > U64_MAX then Err(Overflow)
      else if total < Required(r) then Err(InsufficientInputs)
      else if total - Min(total, Smallest(s.utxos, ops, |ops|)) >= Required(r) then Err(ExcessiveInputs)
      else if s.pool.held < total || s.pool.utxoCount < |ops| then Err(Overflow)
      else
        Ok(s.(utxos := Flip(s.utxos, ops, to, |ops|),
              pool := s.pool.(held := s.pool.held - total, utxoCount := s.pool.utxoCount - |ops|),
              requests := s.requests[id := Processed(env, s.utxos, r, ops, slot)]))
  }

  function Processed(env: Env, utxos: Utxos, r: Request, ops: seq<OutPoint>, slot: u64): Request {
    r.(status := Processing, processingSlot := slot % U32_RANGE, totalInput := SumOps(utxos, ops, |ops|),
       reservedCount := |ops|, commitment := env.commit(Canonical(InputsOf(utxos, ops))))
  }

  // ---- approve_redemption_signing -------------------------------------------------------------------------------

  predicate SigningOk(st: Settings, amount: nat, fee: nat) {
    !st.paused && amount <= MAX_REDEMPTION_SATS && fee <= MAX_FEE_SATS
  }

  /** Dropped dust change is miner fee too. */
  function EffectiveFee(change: nat, fee: nat): nat {
    if change <= DUST_SATS then fee + change else fee
  }

  function SpendOutputs(env: Env, script: Script, send: u64, change: u64): seq<Output> {
    [Output(send, script)] + (if change > DUST_SATS then [Output(change, env.poolScript)] else [])
  }

  function SpendInputs(utxos: Utxos, inputs: seq<ReservedInput>): (r: seq<SpendInput>)
    ensures |r| == |inputs|
    ensures forall i :: 0 <= i < |inputs| ==> r[i].outpoint == inputs[i].outpoint && r[i].amount == inputs[i].amount
    ensures forall i :: 0 <= i < |inputs| && inputs[i].outpoint in utxos ==> r[i].leaf == utxos[inputs[i].outpoint].leaf
  {
    if |inputs| == 0 then []
    else
      var last := inputs[|inputs| - 1];
      SpendInputs(utxos, inputs[..|inputs| - 1])
      + [SpendInput(last.outpoint, last.amount, if last.outpoint in utxos then utxos[last.outpoint].leaf else NoLeaf)]
  }

  predicate AllReserved(utxos: Utxos, ops: seq<OutPoint>, key: nat) {
    forall i :: 0 <= i < |ops| ==> HasStatus(utxos, ops[i], Reserved(key))
  }

  /** A record without a tapleaf sits at the pool script itself. */
  predicate AtPoolScript(utxos: Utxos, op: OutPoint) {
    op in utxos && utxos[op].leaf == NoLeaf
  }

  /** The canonical input list, if the named records are the committed ones. */
  function Listed(env: Env, utxos: Utxos, key: nat, ops: seq<OutPoint>, totalInput: nat, commitment: nat): Result<seq<ReservedInput>> {
    if !AllReserved(utxos, ops, key) then Err(InvalidUtxo)
    else if SumOps(utxos, ops, |ops|) > U64_MAX then Err(Overflow)
    else if SumOps(utxos, ops, |ops|) != totalInput then Err(InvalidUtxo)
    else if env.commit(Canonical(InputsOf(utxos, ops))) != commitment then Err(InvalidUtxo)
    else if |env.poolScript| != 34 && exists i :: 0 <= i < |ops| && AtPoolScript(utxos, ops[i]) then Err(InvalidUtxo)
    else Ok(Canonical(InputsOf(utxos, ops)))
  }

  /** Payout and change at a given fee. */
  function Amounts(amount: nat, serviceFee: nat, totalInput: nat, fee: u64): Result<(u64, u64)> {
    if amount < serviceFee || totalInput < amount - serviceFee + fee then Err(Overflow)
    else
      var change := totalInput - (amount - serviceFee) - fee;
      if EffectiveFee(change, fee) > MAX_FEE_SATS || EffectiveFee(change, fee) > serviceFee then Err(FeeExceedsLimit)
      else if amount - serviceFee > U64_MAX || change > U64_MAX then Err(Overflow)
      else Ok((amount - serviceFee, change))
  }

  /** The transaction rebuilt for a request from its records at a given fee. */
  function Rebuild(env: Env, r: Request, utxos: Utxos, key: nat, fee: u64, ops: seq<OutPoint>): Result<Spend> {
    match Listed(env, utxos, key, ops, r.totalInput, r.commitment)
    case Err(e) => Err(e)
    case Ok(inputs) =>
      match Amounts(r.amount, r.serviceFee, r.totalInput, fee)
      case Err(e) => Err(e)
      case Ok((send, change)) => Ok(Spend(SpendInputs(utxos, inputs), SpendOutputs(env, r.script, send, change)))
  }

  /** Approves one input of the transaction rebuilt from the first `reserved_count` records named. */
  function Approve(env: Env, st: Settings, s: State, id: RequestId, index: u32, fee: u64, ops: seq<OutPoint>): Result<(State, Spend)> {
    if id !in s.requests then Err(InvalidState)
    else
      var r := s.requests[id];
      if r.status != Processing || r.totalInput == 0 || r.reservedCount == 0 then Err(InvalidState)
      else if !SigningOk(st, r.amount, fee) then Err(FeeExceedsLimit)
      else if r.approved != 0 && fee != LoadFee(r.approvalFee) then Err(FeeMismatch)
      else if index >= r.reservedCount || |ops| < r.reservedCount then Err(InvalidInstruction)
      else if index >= 32 || IsApproved(r, index) || |env.poolScript| == 0 then Err(InvalidState)
      else
        match Rebuild(env, r, s.utxos, env.key(id), fee, ops[..r.reservedCount])
        case Err(e) => Err(e)
        case Ok(spend) => Ok((s.(requests := s.requests[id := Stamped(r, index, fee)]), spend))
  }

  /** The first approval pins the fee. */
  function Stamped(r: Request, index: nat, fee: nat): Request
    requires index < 32 && fee <= MAX_FEE_SATS
  {
    MarkApproved(if r.approved == 0 then r.(approvalFee := StoreFee(fee)) else r, index)
  }

  // ---- cancel_redemption ---------------------------------------------------------------------------------------

  function Elapsed(slot: u64, since: u32): nat {
    (slot % U32_RANGE + U32_RANGE - since) % U32_RANGE
  }

  function Less(n: nat, k: nat): nat {
    if n >= k then n - k else 0
  }

  predicate CanCancel(r: Request, slot: u64) {
    !r.signingApproved && (r.status == Processing ==> Elapsed(slot, r.processingSlot) >= TIMEOUT_SLOTS)
  }

  /** Releases the reserved records and re-mints the note. */
  function Cancel(env: Env, st: Settings, s: State, caller: nat, id: RequestId, ops: seq<OutPoint>, slot: u64): Result<State> {
    if id !in s.requests then Err(InvalidState)
    else if st.paused then Err(PoolPaused)
    else if caller != id.requester then Err(Unauthorized)
    else
      var r := s.requests[id];
      var from := Reserved(env.key(id));
      var total := SumOps(s.utxos, ops, |ops|);
      if !CanCancel(r, slot) then Err(CancelNotAllowed)
      else if r.status == Processing && |ops| != r.reservedCount then Err(InvalidUtxo)
      else if r.status == Pending && |ops| != 0 then Err(InvalidInstruction)
      else if !Flippable(s.utxos, ops, from, Unspent) then Err(InvalidUtxo)
      else if st.treeFull then Err(TreeIsFull)
      else if total > U64_MAX || s.token.shielded + r.amount > U64_MAX then Err(Overflow)
      else if total > 0 && (s.pool.held + total > U64_MAX || s.pool.utxoCount + |ops| > U32_MAX) then Err(Overflow)
      else
        Ok(s.(utxos := Flip(s.utxos, ops, Unspent, |ops|),
              requests := s.requests - {id},
              token := s.token.(shielded := s.token.shielded + r.amount),
              pool := Released(s.pool, s.token.shielded + r.amount, total, |ops|)))
  }

  /** Records go back to the pool's counters only if they carry value. */
  function Released(p: Pool, shielded: nat, total: nat, count: nat): Pool {
    var back := p.(shielded := shielded, pending := Less(p.pending, 1));
    if total > 0 then back.(held := p.held + total, utxoCount := p.utxoCount + count) else back
  }

  // ---- complete_redemption -------------------------------------------------------------------------------------

  predicate IsOpReturn(o: Output) {
    |o.script| > 0 && o.script[0] == OP_RETURN
  }

  function PaidTo(outputs: seq<Output>, script: Script, k: nat): nat
    requires k <= |outputs|
  {
    if k == 0 then 0 else PaidTo(outputs, script, k - 1) + (if outputs[k - 1].script == script then outputs[k - 1].value else 0)
  }

  predicate Pays(outputs: seq<Output>, script: Script) {
    exists i :: 0 <= i < |outputs| && outputs[i].script == script
  }

  predicate IsChange(o: Output, recipient: Script, pool: Script) {
    !IsOpReturn(o) && o.script != recipient && |pool| > 0 && o.script == pool
  }

  predicate Allowed(o: Output, recipient: Script, pool: Script) {
    if IsOpReturn(o) then o.value == 0 else o.script == recipient || IsChange(o, recipient, pool)
  }

  function ChangeCount(outputs: seq<Output>, recipient: Script, pool: Script, k: nat): nat
    requires k <= |outputs|
  {
    if k == 0 then 0 else ChangeCount(outputs, recipient, pool, k - 1) + (if IsChange(outputs[k - 1], recipient, pool) then 1 else 0)
  }

  predicate WithinPolicy(outputs: seq<Output>, recipient: Script, pool: Script) {
    && (forall i :: 0 <= i < |outputs| ==> Allowed(outputs[i], recipient, pool))
    && ChangeCount(outputs, recipient, pool, |outputs|) <= 1
  }

  function SumOutputs(outputs: seq<Output>, k: nat): nat
    requires k <= |outputs|
  {
    if k == 0 then 0 else SumOutputs(outputs, k - 1) + outputs[k - 1].value
  }

  /** Index of the first output paying `script`, or the number of outputs. */
  function FirstPaying(outputs: seq<Output>, script: Script, from: nat): (i: nat)
    requires from <= |outputs|
    ensures from <= i <= |outputs|
    decreases |outputs| - from
  {
    if from == |outputs| || outputs[from].script == script then from else FirstPaying(outputs, script, from + 1)
  }

  datatype Payout = Payout(received: nat, minerFee: nat, burn: nat, revenue: nat)

  function MinPayout(send: nat): nat {
    var flat, percent := Less(send, MAX_FEE_SATS), send - send / 100;
    if flat > percent then flat else percent
  }

  /** Payout, output-policy, fee and accounting checks of a completing transaction. */
  function CheckPayout(st: Settings, r: Request, pool: Script, tx: Tx): Result<Payout> {
    if r.amount < r.serviceFee then Err(Overflow)
    else
      var send := r.amount - r.serviceFee;
      var received := PaidTo(tx.outputs, r.script, |tx.outputs|);
      var outputs := Saturated(SumOutputs(tx.outputs, |tx.outputs|));
      if received > U64_MAX then Err(Overflow)
      else if !Pays(tx.outputs, r.script) || received < MinPayout(send) || received > send then Err(OutputMismatch)
      else if |pool| > 0 && r.script == pool then Err(OutputMismatch)
      else if !WithinPolicy(tx.outputs, r.script, pool) then Err(OutputMismatch)
      else if r.totalInput == 0 then Err(ZeroAmount)
      else if r.totalInput < outputs || r.totalInput - outputs > MAX_FEE_SATS then Err(OutputMismatch)
      else if !SigningOk(st, r.amount, r.totalInput - outputs) then Err(FeeExceedsLimit)
      else
        var burn := received + (r.totalInput - outputs);
        if burn > U64_MAX then Err(Overflow)
        else if r.amount < burn then Err(OutputMismatch)
        else Ok(Payout(received, r.totalInput - outputs, burn, r.amount - burn))
  }

  /** The change output a completion records, if the pool script is tracked. */
  function ChangeIndex(tx: Tx, pool: Script): nat {
    if |pool| == 0 then |tx.outputs| else FirstPaying(tx.outputs, pool, 0)
  }

  /** Writes the change record; an existing record keeps its tapleaf tail. */
  function WithChange(utxos: Utxos, tx: Tx, pool: Script): Utxos {
    var i := ChangeIndex(tx, pool);
    if i >= |tx.outputs| then utxos
    else
      var op := OutPoint(tx.txid, i);
      utxos[op := Utxo(tx.outputs[i].value, Unspent, if op in utxos then utxos[op].leaf else NoLeaf)]
  }

  function ChangeValue(tx: Tx, pool: Script): nat {
    var i := ChangeIndex(tx, pool);
    if i >= |tx.outputs| then 0 else tx.outputs[i].value
  }

  function Closed(utxos: Utxos, ops: seq<OutPoint>, k: nat): Utxos
    requires k <= |ops|
  {
    if k == 0 then utxos else Closed(utxos, ops, k - 1) - {ops[k - 1]}
  }

  predicate ClosesAt(utxos: Utxos, ops: seq<OutPoint>, key: nat, tx: Tx, i: nat)
    requires i < |ops|
  {
    HasStatus(Closed(utxos, ops, i), ops[i], Reserved(key)) && ops[i] in tx.inputs
  }

  /** Each named record is still there, reserved under `key` and spent by the transaction. */
  predicate Closable(utxos: Utxos, ops: seq<OutPoint>, key: nat, tx: Tx) {
    forall i {:trigger ClosesAt(utxos, ops, key, tx, i)} :: 0 <= i < |ops| ==> ClosesAt(utxos, ops, key, tx, i)
  }

  function Complete(env: Env, st: Settings, s: State, id: RequestId, tx: Tx, tracked: bool, ops: seq<OutPoint>): Result<State> {
    var pool := if tracked then env.poolScript else [];
    if id !in s.requests then Err(InvalidState)
    else if tracked && |pool| == 0 then Err(InvalidInstruction)
    else if tx.txid in s.completed then Err(DuplicateDeposit)
    else if s.requests[id].status != Processing then Err(InvalidState)
    else
      match CheckPayout(st, s.requests[id], pool, tx)
      case Err(e) => Err(e)
      case Ok(p) => Consume(s, id, env.key(id), tx, pool, p, ops)
  }

  /** Burns the payout, records the change, closes the inputs and the request. */
  function Consume(s: State, id: RequestId, key: nat, tx: Tx, pool: Script, p: Payout, ops: seq<OutPoint>): Result<State>
    requires id in s.requests
  {
    var utxos := WithChange(s.utxos, tx, pool);
    var change := ChangeValue(tx, pool);
    var added := if ChangeIndex(tx, pool) < |tx.outputs| then 1 else 0;
    if s.vault < p.burn then Err(InsufficientFunds)
    else if |ops| > MAX_UTXOS || |ops| != s.requests[id].reservedCount then Err(InvalidUtxo)
    else if !Closable(utxos, ops, key, tx) then Err(InvalidUtxo)
    else if |tx.inputs| != |ops| then Err(OutputMismatch)
    else if s.pool.burned + p.burn > U64_MAX || s.pool.feePool + p.revenue > U64_MAX || s.token.fees + p.revenue > U64_MAX then Err(Overflow)
    else if s.pool.held + change > U64_MAX || s.pool.utxoCount + added > U32_MAX then Err(Overflow)
    else
      Ok(State(s.pool.(burned := s.pool.burned + p.burn, feePool := s.pool.feePool + p.revenue,
                       held := s.pool.held + change, utxoCount := s.pool.utxoCount + added,
                       pending := Less(s.pool.pending, 1)),
               s.token.(fees := s.token.fees + p.revenue),
               s.vault - p.burn, Closed(utxos, ops, |ops|), s.requests - {id}, s.completed + {tx.txid}))
  }
}
