/** Commitment trees of a pool: spends, deferred leaves, merging and rotation. */
module Queues {
  import opened CommitmentTrees

  const MAX_JOINSPLIT: nat := 10
  const MAX_MERGE: nat := 24
  const U32_MAX: nat := 0xffff_ffff

  // ---- accounts ------------------------------------------------------------------------------------

  /** The seeds of a nullifier record: tree 0 keeps the original, unscoped form. */
  datatype Address = Legacy(nullifier: Node) | Scoped(tree: nat, nullifier: Node)

  function AddressOf(tree: nat, nullifier: Node): Address {
    if tree == 0 then Legacy(nullifier) else Scoped(tree, nullifier)
  }

  /** A commitment waiting for a place, with the nullifiers its spend still owes to the counter. */
  datatype Queued = Queued(tree: nat, debt: nat)

  datatype State = State(active: nat, trees: map<nat, TreeView>, nullifiers: set<Address>, queued: map<Node, Queued>, count: nat)

  const START: State := State(0, map[0 := EMPTY_TREE], {}, map[], 0)

  datatype Error = InvalidInstruction | InvalidMerkleProof | NullifierAlreadyUsed | InvalidLeaf | TreeIsFull | TreeNotFull

  datatype Result<T> = Ok(value: T) | Err(error: Error)

  datatype Source = ActiveTree | FrozenTree(index: nat)

  function Saturated(n: nat): nat {
    if n > U32_MAX then U32_MAX else n
  }

  // ---- nullifiers -----------------------------------------------------------------------------------

  /** The records after the first `k` nullifiers of a spend. */
  function Recorded(records: set<Address>, tree: nat, ns: seq<Node>, k: nat): set<Address>
    requires k <= |ns|
  {
    if k == 0 then records else Recorded(records, tree, ns, k - 1) + {AddressOf(tree, ns[k - 1])}
  }

  predicate RecordsAt(records: set<Address>, tree: nat, ns: seq<Node>, i: nat)
    requires i < |ns|
  {
    AddressOf(tree, ns[i]) !in Recorded(records, tree, ns, i)
  }

  /** No nullifier of the spend is on record when its turn comes. */
  predicate AllUnused(records: set<Address>, tree: nat, ns: seq<Node>) {
    forall i {:trigger RecordsAt(records, tree, ns, i)} :: 0 <= i < |ns| ==> RecordsAt(records, tree, ns, i)
  }

  /** The tree a proof's root belongs to: the active one first, else a frozen one the caller names. */
  function SourceTree(h: Hasher, s: State, root: Node, source: Source): Result<nat> {
    if s.active in s.trees && AcceptsRoot(h, s.trees[s.active], root) then Ok(s.active)
    else
      match source
      case ActiveTree => Err(InvalidMerkleProof)
      case FrozenTree(i) =>
        if i in s.trees && i < s.active && AcceptsRoot(h, s.trees[i], root) then Ok(i) else Err(InvalidMerkleProof)
  }

  // ---- spends ------------------------------------------------------------------------------------------

  /** The queue with the first `k` outputs written; the first output carries the whole debt. */
  function Enqueued(queued: map<Node, Queued>, tree: nat, outs: seq<Node>, debt: nat, k: nat): map<Node, Queued>
    requires k <= |outs|
  {
    if k == 0 then queued
    else Enqueued(queued, tree, outs, debt, k - 1)[outs[k - 1] := Queued(tree, if k == 1 then debt else 0)]
  }

  /** Appends a batch to the active tree. */
  function Appended(h: Hasher, s: State, cs: seq<Node>): Result<State> {
    if |cs| == 0 then Ok(s)
    else if s.active !in s.trees || |s.trees[s.active].leaves| + |cs| > MAX_LEAVES then Err(TreeIsFull)
    else Ok(s.(trees := s.trees[s.active := Inserted(h, s.trees[s.active], cs)]))
  }

  /** What a spend's instruction carries: outputs for the tree, and how many go outside. */
  datatype Spend = Spend(root: Node, source: Source, nullifiers: seq<Node>, outputs: seq<Node>, publicOutputs: nat)

  predicate WellFormed(sp: Spend, queued: bool) {
    && 0 < |sp.nullifiers| && 0 < |sp.outputs| + sp.publicOutputs
    && |sp.nullifiers| + |sp.outputs| + sp.publicOutputs <= MAX_JOINSPLIT
    && (queued ==> sp.publicOutputs == 0)
  }

  /** A spend places its outputs now and counts its nullifiers, or queues the outputs and defers the count. */
  function Spending(h: Hasher, s: State, sp: Spend, queued: bool): Result<State> {
    if !WellFormed(sp, queued) then Err(InvalidInstruction)
    else
      match SourceTree(h, s, sp.root, sp.source)
      case Err(e) => Err(e)
      case Ok(tree) =>
        var n := |sp.nullifiers|;
        if !AllUnused(s.nullifiers, tree, sp.nullifiers) then Err(NullifierAlreadyUsed)
        else
          var spent := s.(nullifiers := Recorded(s.nullifiers, tree, sp.nullifiers, n));
          if queued then Ok(spent.(queued := Enqueued(s.queued, s.active, sp.outputs, n, |sp.outputs|)))
          else Appended(h, spent.(count := Saturated(s.count + n)), sp.outputs)
  }

  /** Deposits, shields and cancellations insert one leaf directly. */
  function Place(h: Hasher, s: State, c: Node): Result<State> {
    Appended(h, s, [c])
  }

  // ---- merge and rotation ---------------------------------------------------------------------------------

  predicate MergesAt(s: State, cs: seq<Node>, i: nat)
    requires i < |cs|
  {
    cs[i] in s.queued && s.queued[cs[i]].tree == s.active && cs[i] !in cs[..i]
  }

  predicate Mergeable(s: State, cs: seq<Node>) {
    forall i {:trigger MergesAt(s, cs, i)} :: 0 <= i < |cs| ==> MergesAt(s, cs, i)
  }

  function DebtTo(queued: map<Node, Queued>, cs: seq<Node>, k: nat): nat
    requires k <= |cs|
  {
    if k == 0 then 0 else DebtTo(queued, cs, k - 1) + (if cs[k - 1] in queued then queued[cs[k - 1]].debt else 0)
  }

  function Dequeued(queued: map<Node, Queued>, cs: seq<Node>, k: nat): map<Node, Queued>
    requires k <= |cs|
  {
    if k == 0 then queued else Dequeued(queued, cs, k - 1) - {cs[k - 1]}
  }

  /** Inserts queued leaves of the active tree as one batch, settles their debt and closes them. */
  function Merge(h: Hasher, s: State, cs: seq<Node>): Result<State> {
    if |cs| == 0 || |cs| > MAX_MERGE then Err(InvalidInstruction)
    else if !Mergeable(s, cs) then Err(InvalidLeaf)
    else
      match Appended(h, s, cs)
      case Err(e) => Err(e)
      case Ok(t) =>
        Ok(t.(count := Saturated(s.count + DebtTo(s.queued, cs, |cs|)), queued := Dequeued(s.queued, cs, |cs|)))
  }

  /** Starts the next tree once the active one is full. The index wraps at 32 bits. */
  function Rotate(s: State): Result<State> {
    if s.active !in s.trees || |s.trees[s.active].leaves| < MAX_LEAVES then Err(TreeNotFull)
    else
      var next := (s.active + 1) % U32_RANGE;
      Ok(s.(trees := s.trees[next := EMPTY_TREE], active := next))
  }
}
