/** The note pool's instructions, step by step over its accounts. */
module NotePools {
  import opened CommitmentTrees
  import opened Queues
  import opened QueueRuns

  /** What a spend finds besides the accounts below: the pause switch, and whether its proof verifies. */
  datatype Gate = Gate(paused: bool, proofOk: bool)

  /** An instruction did what its specification says, or failed and changed nothing. */
  ghost predicate Follows(spec: Result<State>, before: State, after: State, r: Result<()>) {
    match spec
    case Err(_) => r.Err? && after == before
    case Ok(s) => r.Ok? && after == s
  }

  /** Whatever the history, a step that goes through extends it lawfully; one that fails changes nothing. */
  ghost predicate Lawful(h: Hasher, step: Step, done: bool, before: State, after: State) {
    if !done then after == before
    else forall t: Trace {:trigger Next(h, t, step)} :: t.state == before && Inv(t) && StepOk(h, before, step) ==>
        Next(h, t, step).state == after && Inv(Next(h, t, step)) && Keeps(before, after)
  }

  lemma StepLawful(h: Hasher, step: Step, s: State)
    ensures Lawful(h, step, false, s, s)
    ensures Apply(h, s, step).Ok? ==> Lawful(h, step, true, s, Apply(h, s, step).value)
  {
    forall t: Trace | t.state == s && Inv(t) && StepOk(h, s, step) && Apply(h, s, step).Ok?
      ensures Next(h, t, step).state == Apply(h, s, step).value && Inv(Next(h, t, step)) && Keeps(s, Next(h, t, step).state)
    {
      StepInv(h, t, step);
    }
  }

  /** A spend that goes through records its nullifiers, and no others, under the tree its notes are in. */
  ghost predicate SpendsFromItsTree(h: Hasher, sp: Spend, done: bool, before: State, after: State) {
    TreesOk(before) && done ==>
      var k := NoteTree(h, before, sp);
      && SpentFrom(h, before, sp, k) && Records(k, sp.nullifiers) !! before.nullifiers
      && after.nullifiers == before.nullifiers + Records(k, sp.nullifiers)
  }

  lemma SpendRight(h: Hasher, sp: Spend, deferred: bool, s: State)
    ensures Spending(h, s, sp, deferred).Ok? ==> SpendsFromItsTree(h, sp, true, s, Spending(h, s, sp, deferred).value)
  {
    if TreesOk(s) { SpendAcceptsIff(h, s, sp, deferred); }
  }

  ghost predicate RotatesLawfully(done: bool, before: State, after: State) {
    forall h: Hasher {:trigger Lawful(h, RotateStep, done, before, after)} :: Lawful(h, RotateStep, done, before, after)
  }

  lemma RotateLawful(s: State)
    ensures RotatesLawfully(false, s, s)
    ensures Rotate(s).Ok? ==> RotatesLawfully(true, s, Rotate(s).value)
    ensures Rotate(s).Ok? && TreesOk(s) ==> (Keeps(s, Rotate(s).value) <==> s.active != U32_MAX)
  {
    forall h: Hasher ensures Lawful(h, RotateStep, false, s, s) && (Rotate(s).Ok? ==> Lawful(h, RotateStep, true, s, Rotate(s).value)) {
      StepLawful(h, RotateStep, s);
    }
    if Rotate(s).Ok? && TreesOk(s) { RotateKeepsIff(s); }
  }

  // ---- the accounts -----------------------------------------------------------------------------------------

  /** The pool's tree, queue and nullifier accounts. A failing instruction leaves them as they were. */
  class NotePool {
    var active: nat
    var trees: map<nat, TreeView>
    var nullifiers: set<Address>
    var queued: map<Node, Queued>
    var count: nat

    ghost function View(): State
      reads this
    {
      State(active, trees, nullifiers, queued, count)
    }

    constructor ()
      ensures View() == START
    {
      active, trees, nullifiers, queued, count := 0, map[0 := EMPTY_TREE], {}, map[], 0;
    }

    /** Creates the spend's nullifier records, refusing one that exists. */
    method CreateNullifierRecords(tree: nat, ns: seq<Node>) returns (r: Result<set<Address>>)
      ensures if AllUnused(nullifiers, tree, ns) then r == Ok(Recorded(nullifiers, tree, ns, |ns|)) else r.Err?
    {
      var records := nullifiers;
      for i := 0 to |ns|
        invariant records == Recorded(nullifiers, tree, ns, i)
        invariant forall j {:trigger RecordsAt(nullifiers, tree, ns, j)} :: 0 <= j < i ==> RecordsAt(nullifiers, tree, ns, j)
      {
        assert RecordsAt(nullifiers, tree, ns, i) <==> AddressOf(tree, ns[i]) !in records;
        if AddressOf(tree, ns[i]) in records { return Err(NullifierAlreadyUsed); }
        records := records + {AddressOf(tree, ns[i])};
      }
      return Ok(records);
    }

    /** Writes one queued-leaf account per output, over whatever is at its address. */
    method QueueOutputs(outs: seq<Node>, debt: nat) returns (q: map<Node, Queued>)
      ensures q == Enqueued(queued, active, outs, debt, |outs|)
    {
      q := queued;
      for i := 0 to |outs|
        invariant q == Enqueued(queued, active, outs, debt, i)
      {
        q := q[outs[i] := Queued(active, if i == 0 then debt else 0)];
      }
    }

    method Transact(h: Hasher, gate: Gate, sp: Spend, deferred: bool) returns (r: Result<()>)
      modifies this
      ensures gate.paused || !gate.proofOk ==> r.Err? && View() == old(View())
      ensures !gate.paused && gate.proofOk ==> Follows(Spending(h, old(View()), sp, deferred), old(View()), View(), r)
      ensures Lawful(h, SpendStep(sp, deferred), r.Ok?, old(View()), View())
      ensures SpendsFromItsTree(h, sp, r.Ok?, old(View()), View())
    {
      StepLawful(h, SpendStep(sp, deferred), View());
      SpendRight(h, sp, deferred, View());
      if gate.paused { return Err(InvalidInstruction); }
      if !WellFormed(sp, deferred) { return Err(InvalidInstruction); }
      var source := SourceTree(h, State(active, trees, nullifiers, queued, count), sp.root, sp.source);
      if source.Err? { return Err(source.error); }
      if !gate.proofOk { return Err(InvalidMerkleProof); }
      var records := CreateNullifierRecords(source.value, sp.nullifiers);
      if records.Err? { return Err(records.error); }
      if deferred {
        queued := QueueOutputs(sp.outputs, |sp.nullifiers|);
      } else if |sp.outputs| > 0 {
        if active !in trees || |trees[active].leaves| + |sp.outputs| > MAX_LEAVES { return Err(TreeIsFull); }
        trees := trees[active := Inserted(h, trees[active], sp.outputs)];
        count := Saturated(count + |sp.nullifiers|);
      } else {
        count := Saturated(count + |sp.nullifiers|);
      }
      nullifiers := records.value;
      return Ok(());
    }

    /** First pass: every leaf is queued for the active tree and named once; the debt adds up. */
    method CheckLeaves(cs: seq<Node>) returns (r: Result<nat>)
      ensures if Mergeable(View(), cs) then r == Ok(DebtTo(queued, cs, |cs|)) else r.Err?
    {
      var debt: nat := 0;
      for i := 0 to |cs|
        invariant debt == DebtTo(queued, cs, i)
        invariant forall j {:trigger MergesAt(View(), cs, j)} :: 0 <= j < i ==> MergesAt(View(), cs, j)
      {
        assert MergesAt(View(), cs, i) <==> cs[i] in queued && queued[cs[i]].tree == active && cs[i] !in cs[..i];
        if cs[i] !in queued || queued[cs[i]].tree != active { return Err(InvalidLeaf); }
        for prior := 0 to i
          invariant cs[i] !in cs[..prior]
        {
          if cs[prior] == cs[i] { return Err(InvalidLeaf); }
        }
        debt := debt + queued[cs[i]].debt;
      }
      return Ok(debt);
    }

    /** Last pass: closes the merged leaves. */
    method CloseLeaves(cs: seq<Node>) returns (q: map<Node, Queued>)
      ensures q == Dequeued(queued, cs, |cs|)
    {
      q := queued;
      for i := 0 to |cs|
        invariant q == Dequeued(queued, cs, i)
      {
        q := q - {cs[i]};
      }
    }

    method MergeQueuedLeaves(h: Hasher, paused: bool, cs: seq<Node>) returns (r: Result<()>)
      modifies this
      ensures paused ==> r.Err? && View() == old(View())
      ensures !paused ==> Follows(Merge(h, old(View()), cs), old(View()), View(), r)
      ensures Lawful(h, MergeStep(cs), r.Ok?, old(View()), View())
    {
      StepLawful(h, MergeStep(cs), View());
      if paused { return Err(InvalidInstruction); }
      if |cs| == 0 || |cs| > MAX_MERGE { return Err(InvalidInstruction); }
      var debt := CheckLeaves(cs);
      if debt.Err? { return Err(debt.error); }
      if active !in trees || |trees[active].leaves| + |cs| > MAX_LEAVES { return Err(TreeIsFull); }
      var left := CloseLeaves(cs);
      trees := trees[active := Inserted(h, trees[active], cs)];
      count := Saturated(count + debt.value);
      queued := left;
      return Ok(());
    }

    method RotateTree() returns (r: Result<()>)
      modifies this`trees, this`active
      ensures Follows(Rotate(old(View())), old(View()), View(), r)
      ensures RotatesLawfully(r.Ok?, old(View()), View())
      ensures r.Ok? && TreesOk(old(View())) ==> (Keeps(old(View()), View()) <==> old(active) != U32_MAX)
    {
      RotateLawful(View());
      if active !in trees || |trees[active].leaves| < MAX_LEAVES { return Err(TreeNotFull); }
      var next := (active + 1) % U32_RANGE;
      trees := trees[next := EMPTY_TREE];
      active := next;
      return Ok(());
    }
  }
}
