/** Whole runs of spends, merges and rotations: every queued leaf lands once, nothing placed is lost, the counter adds up. */
module QueueRuns {
  import opened Totals
  import opened CommitmentTrees
  import opened Queues

  datatype Step = SpendStep(spend: Spend, deferred: bool) | PlaceStep(commitment: Node) | MergeStep(commitments: seq<Node>) | RotateStep

  function Apply(h: Hasher, s: State, step: Step): Result<State> {
    match step
    case SpendStep(spend, deferred) => Spending(h, s, spend, deferred)
    case PlaceStep(c) => Place(h, s, c)
    case MergeStep(cs) => Merge(h, s, cs)
    case RotateStep => Rotate(s)
  }

  // ---- history --------------------------------------------------------------------------------------------

  datatype Where = Waiting | At(index: nat)

  /** One queueing of one output. */
  datatype Event = Event(commitment: Node, tree: nat, place: Where)

  /**
   * The accounts with their history: nullifiers spent, nullifiers counted so far without a 32-bit bound, every
   * queueing, and which queueing each queued account holds.
   */
  datatype Trace = Trace(state: State, log: seq<(nat, Node)>, counted: nat, events: seq<Event>, holder: map<Node, nat>)

  function Logged(tree: nat, ns: seq<Node>): (l: seq<(nat, Node)>)
    ensures |l| == |ns| && forall i :: 0 <= i < |ns| ==> l[i] == (tree, ns[i])
  {
    if |ns| == 0 then [] else Logged(tree, ns[..|ns| - 1]) + [(tree, ns[|ns| - 1])]
  }

  function NewEvents(tree: nat, outs: seq<Node>): (l: seq<Event>)
    ensures |l| == |outs| && forall i :: 0 <= i < |outs| ==> l[i] == Event(outs[i], tree, Waiting)
  {
    if |outs| == 0 then [] else NewEvents(tree, outs[..|outs| - 1]) + [Event(outs[|outs| - 1], tree, Waiting)]
  }

  function Held(holder: map<Node, nat>, base: nat, outs: seq<Node>, k: nat): map<Node, nat>
    requires k <= |outs|
  {
    if k == 0 then holder else Held(holder, base, outs, k - 1)[outs[k - 1] := base + k - 1]
  }

  /** The events with the first `k` merged leaves placed from `first` on. */
  function Placed(events: seq<Event>, holder: map<Node, nat>, cs: seq<Node>, first: nat, k: nat): (r: seq<Event>)
    requires k <= |cs|
    ensures |r| == |events|
  {
    if k == 0 then events
    else
      var done := Placed(events, holder, cs, first, k - 1);
      if cs[k - 1] in holder && holder[cs[k - 1]] < |done|
      then done[holder[cs[k - 1]] := done[holder[cs[k - 1]]].(place := At(first + k - 1))]
      else done
  }

  function Released(holder: map<Node, nat>, cs: seq<Node>, k: nat): map<Node, nat>
    requires k <= |cs|
  {
    if k == 0 then holder else Released(holder, cs, k - 1) - {cs[k - 1]}
  }

  /** The tree a spent note is in: the active one if it accepts the root, else the frozen one the caller names. */
  function NoteTree(h: Hasher, s: State, sp: Spend): nat {
    if s.active in s.trees && AcceptsRoot(h, s.trees[s.active], sp.root) then s.active
    else if sp.source.FrozenTree? then sp.source.index
    else s.active
  }

  function Next(h: Hasher, t: Trace, step: Step): Trace {
    match Apply(h, t.state, step)
    case Err(_) => t
    case Ok(s) =>
      match step
      case SpendStep(sp, deferred) =>
        var log := t.log + Logged(NoteTree(h, t.state, sp), sp.nullifiers);
        if deferred then
          Trace(s, log, t.counted, t.events + NewEvents(t.state.active, sp.outputs),
                Held(t.holder, |t.events|, sp.outputs, |sp.outputs|))
        else t.(state := s, log := log, counted := t.counted + |sp.nullifiers|)
      case PlaceStep(_) => t.(state := s)
      case MergeStep(cs) =>
        var first := if t.state.active in t.state.trees then |t.state.trees[t.state.active].leaves| else 0;
        t.(state := s, counted := t.counted + DebtTo(t.state.queued, cs, |cs|),
           events := Placed(t.events, t.holder, cs, first, |cs|), holder := Released(t.holder, cs, |cs|))
      case RotateStep => t.(state := s)
  }

  function Run(h: Hasher, steps: seq<Step>): Trace {
    if |steps| == 0 then Trace(START, [], 0, [], map[])
    else Next(h, Run(h, steps[..|steps| - 1]), steps[|steps| - 1])
  }

  // ---- trees -------------------------------------------------------------------------------------------------

  /** Trees are numbered up to the active one; those below it are full. */
  ghost predicate TreesOk(s: State) {
    && s.active <= U32_MAX
    && (forall k: nat :: k in s.trees <==> k <= s.active)
    && (forall k: nat :: k < s.active ==> k in s.trees && |s.trees[k].leaves| == MAX_LEAVES)
    && |s.trees[s.active].leaves| <= MAX_LEAVES
  }

  /** Every leaf stays where it is, and only the active tree grows. */
  ghost predicate Keeps(s: State, t: State) {
    && s.active <= t.active
    && (forall k: nat :: k in s.trees ==>
          && k in t.trees
          && s.trees[k].leaves <= t.trees[k].leaves
          && (k != s.active ==> t.trees[k] == s.trees[k]))
  }

  lemma AppendedTrees(h: Hasher, s: State, cs: seq<Node>, t: State)
    requires TreesOk(s) && Appended(h, s, cs) == Ok(t)
    ensures TreesOk(t) && Keeps(s, t) && t.active == s.active
    ensures t.trees[t.active].leaves == s.trees[s.active].leaves + cs
    ensures t == s.(trees := t.trees)
  {
    if |cs| == 0 { assert s.trees[s.active].leaves + cs == s.trees[s.active].leaves; }
  }

  /** Rotation keeps every tree exactly when the 32-bit index does not wrap. */
  lemma RotateKeepsIff(s: State)
    requires TreesOk(s) && Rotate(s).Ok?
    ensures Keeps(s, Rotate(s).value) <==> s.active != U32_MAX
    ensures s.active != U32_MAX ==> TreesOk(Rotate(s).value)
  {
    if s.active == U32_MAX {
      assert 0 in s.trees && |s.trees[0].leaves| == MAX_LEAVES;
      assert Rotate(s).value.trees[0] == EMPTY_TREE;
    }
  }

  ghost predicate Wraps(s: State, step: Step) {
    step.RotateStep? && Rotate(s).Ok? && s.active == U32_MAX
  }

  lemma StepTrees(h: Hasher, s: State, step: Step)
    requires TreesOk(s) && !Wraps(s, step) && Apply(h, s, step).Ok?
    ensures TreesOk(Apply(h, s, step).value) && Keeps(s, Apply(h, s, step).value)
  {
    match step {
      case SpendStep(sp, deferred) => SpendTrees(h, s, sp, deferred);
      case PlaceStep(c) => AppendedTrees(h, s, [c], Place(h, s, c).value);
      case MergeStep(cs) => MergeTrees(h, s, cs);
      case RotateStep => RotateKeepsIff(s);
    }
  }

  /** The state before outputs are placed. */
  function Spent(h: Hasher, s: State, sp: Spend, deferred: bool): State
    requires SourceTree(h, s, sp.root, sp.source).Ok?
  {
    var n := |sp.nullifiers|;
    var spent := s.(nullifiers := Recorded(s.nullifiers, SourceTree(h, s, sp.root, sp.source).value, sp.nullifiers, n));
    if deferred then spent else spent.(count := Saturated(s.count + n))
  }

  lemma SpendParts(h: Hasher, s: State, sp: Spend, deferred: bool)
    requires Spending(h, s, sp, deferred).Ok?
    ensures SourceTree(h, s, sp.root, sp.source).Ok? && WellFormed(sp, deferred)
    ensures AllUnused(s.nullifiers, SourceTree(h, s, sp.root, sp.source).value, sp.nullifiers)
    ensures deferred ==>
              Spending(h, s, sp, deferred).value
              == Spent(h, s, sp, deferred).(queued := Enqueued(s.queued, s.active, sp.outputs, |sp.nullifiers|, |sp.outputs|))
    ensures !deferred ==> Appended(h, Spent(h, s, sp, deferred), sp.outputs) == Spending(h, s, sp, deferred)
  {}

  /** Root and note belong to one tree, below the active one unless it is the active one. */
  ghost predicate SpentFrom(h: Hasher, s: State, sp: Spend, k: nat) {
    && k in s.trees && AcceptsRoot(h, s.trees[k], sp.root)
    && (k == s.active || (k < s.active && sp.source == FrozenTree(k) && !(s.active in s.trees && AcceptsRoot(h, s.trees[s.active], sp.root))))
  }

  /** The tree is determined: a spend goes through only if its root is one of the tree its notes are in. */
  lemma SourceIs(h: Hasher, s: State, sp: Spend)
    ensures SourceTree(h, s, sp.root, sp.source).Ok? <==> SpentFrom(h, s, sp, NoteTree(h, s, sp))
    ensures SourceTree(h, s, sp.root, sp.source).Ok? ==> SourceTree(h, s, sp.root, sp.source).value == NoteTree(h, s, sp)
    ensures forall k :: SpentFrom(h, s, sp, k) ==> k == NoteTree(h, s, sp)
  {}

  lemma SpendTrees(h: Hasher, s: State, sp: Spend, deferred: bool)
    requires TreesOk(s) && Spending(h, s, sp, deferred).Ok?
    ensures TreesOk(Spending(h, s, sp, deferred).value) && Keeps(s, Spending(h, s, sp, deferred).value)
  {
    SpendParts(h, s, sp, deferred);
    var spent := Spent(h, s, sp, deferred);
    if !deferred { AppendedTrees(h, spent, sp.outputs, Spending(h, s, sp, deferred).value); }
  }

  lemma MergeParts(h: Hasher, s: State, cs: seq<Node>)
    requires Merge(h, s, cs).Ok?
    ensures Mergeable(s, cs) && 0 < |cs| <= MAX_MERGE && Appended(h, s, cs).Ok?
    ensures Merge(h, s, cs).value == Appended(h, s, cs).value.(count := Saturated(s.count + DebtTo(s.queued, cs, |cs|)),
                                                              queued := Dequeued(s.queued, cs, |cs|))
  {}

  lemma MergeTrees(h: Hasher, s: State, cs: seq<Node>)
    requires TreesOk(s) && Merge(h, s, cs).Ok?
    ensures TreesOk(Merge(h, s, cs).value) && Keeps(s, Merge(h, s, cs).value)
    ensures Merge(h, s, cs).value.active == s.active
    ensures Merge(h, s, cs).value.trees[s.active].leaves == s.trees[s.active].leaves + cs
  {
    MergeParts(h, s, cs);
    AppendedTrees(h, s, cs, Appended(h, s, cs).value);
  }

  // ---- the counter -----------------------------------------------------------------------------------------

  function DebtWeight(): Queued -> nat {
    (q: Queued) => q.debt
  }

  /** Nullifiers the queue still owes to the counter. */
  ghost function Debt(queued: map<Node, Queued>): nat {
    Total(queued, DebtWeight())
  }

  /** Debt on accounts a queueing writes over, its own earlier ones included. */
  function Lost(queued: map<Node, Queued>, tree: nat, outs: seq<Node>, debt: nat, k: nat): nat
    requires k <= |outs|
  {
    if k == 0 then 0
    else
      var q := Enqueued(queued, tree, outs, debt, k - 1);
      Lost(queued, tree, outs, debt, k - 1) + (if outs[k - 1] in q then q[outs[k - 1]].debt else 0)
  }

  lemma {:induction false} EnqueuedDebt(queued: map<Node, Queued>, tree: nat, outs: seq<Node>, debt: nat, k: nat)
    requires k <= |outs|
    ensures Debt(Enqueued(queued, tree, outs, debt, k)) + Lost(queued, tree, outs, debt, k) == Debt(queued) + (if k == 0 then 0 else debt)
    decreases k
  {
    if k > 0 {
      EnqueuedDebt(queued, tree, outs, debt, k - 1);
      TotalWrite(Enqueued(queued, tree, outs, debt, k - 1), DebtWeight(), outs[k - 1], Queued(tree, if k == 1 then debt else 0));
    }
  }

  lemma {:induction false} DequeuedKeeps(queued: map<Node, Queued>, cs: seq<Node>, k: nat, c: Node)
    requires k <= |cs|
    ensures var q := Dequeued(queued, cs, k);
            && (c in q <==> c in queued && c !in cs[..k]) && (c in q ==> q[c] == queued[c])
    decreases k
  {
    if k > 0 {
      DequeuedKeeps(queued, cs, k - 1, c);
      assert cs[..k] == cs[..k - 1] + [cs[k - 1]];
    }
  }

  lemma {:induction false} DequeuedDebt(s: State, cs: seq<Node>, k: nat)
    requires Mergeable(s, cs) && k <= |cs|
    ensures Debt(Dequeued(s.queued, cs, k)) + DebtTo(s.queued, cs, k) == Debt(s.queued)
    decreases k
  {
    if k > 0 {
      DequeuedDebt(s, cs, k - 1);
      DequeuedKeeps(s.queued, cs, k - 1, cs[k - 1]);
      assert MergesAt(s, cs, k - 1);
      TotalRemove(Dequeued(s.queued, cs, k - 1), DebtWeight(), cs[k - 1]);
    }
  }

  /** The counter is what has been counted, capped at 32 bits; what is missing from the log is owed by the queue. */
  ghost predicate CountOk(t: Trace) {
    t.state.count == Saturated(t.counted) && t.counted + Debt(t.state.queued) == |t.log|
  }

  /** A queued spend keeps the counter reconcilable exactly when it writes over no debt. */
  lemma QueueCountIff(h: Hasher, t: Trace, sp: Spend)
    requires CountOk(t) && Spending(h, t.state, sp, true).Ok?
    ensures CountOk(Next(h, t, SpendStep(sp, true)))
            <==> Lost(t.state.queued, t.state.active, sp.outputs, |sp.nullifiers|, |sp.outputs|) == 0
  {
    SpendParts(h, t.state, sp, true);
    EnqueuedDebt(t.state.queued, t.state.active, sp.outputs, |sp.nullifiers|, |sp.outputs|);
  }

  // ---- nullifiers ----------------------------------------------------------------------------------------------

  ghost predicate NoRepeat(log: seq<(nat, Node)>) {
    forall i, j :: 0 <= i < j < |log| ==> log[i] != log[j]
  }

  ghost predicate OnRecord(log: seq<(nat, Node)>, a: Address) {
    exists i :: 0 <= i < |log| && a == AddressOf(log[i].0, log[i].1)
  }

  /** The records are those of the log, and the log has no repetition. */
  ghost predicate LogOk(t: Trace) {
    NoRepeat(t.log) && forall a {:trigger OnRecord(t.log, a)} :: a in t.state.nullifiers <==> OnRecord(t.log, a)
  }

  lemma {:induction false} RecordedIs(records: set<Address>, tree: nat, ns: seq<Node>, k: nat, a: Address)
    requires k <= |ns|
    ensures a in Recorded(records, tree, ns, k) <==> a in records || exists i :: 0 <= i < k && a == AddressOf(tree, ns[i])
    decreases k
  {
    if k > 0 { RecordedIs(records, tree, ns, k - 1, a); }
  }

  lemma LogGrows(t: Trace, tree: nat, ns: seq<Node>)
    requires LogOk(t) && AllUnused(t.state.nullifiers, tree, ns)
    ensures NoRepeat(t.log + Logged(tree, ns))
  {
    var log := t.log + Logged(tree, ns);
    var n := |t.log|;
    forall i, j | 0 <= i < j < |log| ensures log[i] != log[j] {
      if j >= n {
        assert RecordsAt(t.state.nullifiers, tree, ns, j - n);
        RecordedIs(t.state.nullifiers, tree, ns, j - n, AddressOf(tree, ns[j - n]));
        assert log[j] == (tree, ns[j - n]);
        if i < n {
          assert OnRecord(t.log, AddressOf(t.log[i].0, t.log[i].1));
        } else {
          assert log[i] == (tree, ns[i - n]);
        }
      }
    }
  }

  lemma RecordsGrow(t: Trace, tree: nat, ns: seq<Node>, a: Address)
    requires LogOk(t)
    ensures a in Recorded(t.state.nullifiers, tree, ns, |ns|) <==> OnRecord(t.log + Logged(tree, ns), a)
  {
    var log := t.log + Logged(tree, ns);
    var n := |t.log|;
    RecordedIs(t.state.nullifiers, tree, ns, |ns|, a);
    assert a in t.state.nullifiers <==> OnRecord(t.log, a);
    if OnRecord(t.log, a) {
      var i :| 0 <= i < n && a == AddressOf(t.log[i].0, t.log[i].1);
      assert log[i] == t.log[i];
    }
    if i :| 0 <= i < |ns| && a == AddressOf(tree, ns[i]) {
      assert log[n + i] == (tree, ns[i]);
    }
    if OnRecord(log, a) {
      var i :| 0 <= i < |log| && a == AddressOf(log[i].0, log[i].1);
      if i < n { assert log[i] == t.log[i]; } else { assert log[i] == (tree, ns[i - n]); }
    }
  }

  // ---- deferred leaves ----------------------------------------------------------------------------------------------

  /** A queued account holds the event that wrote it. */
  ghost predicate HolderAt(t: Trace, c: Node) {
    && (c in t.state.queued <==> c in t.holder)
    && (c in t.holder ==> t.holder[c] < |t.events| && t.events[t.holder[c]] == Event(c, t.state.queued[c].tree, Waiting))
  }

  ghost predicate HoldersOk(t: Trace) {
    forall c {:trigger HolderAt(t, c)} :: HolderAt(t, c)
  }

  /** The output is still queued, or sits at its index of the tree it was queued for. */
  ghost predicate EventOk(t: Trace, e: nat)
    requires e < |t.events|
  {
    var v := t.events[e];
    match v.place
    case Waiting => v.commitment in t.holder && t.holder[v.commitment] == e
    case At(i) => v.tree in t.state.trees && i < |t.state.trees[v.tree].leaves| && t.state.trees[v.tree].leaves[i] == v.commitment
  }

  ghost predicate EventsOk(t: Trace) {
    forall e {:trigger EventOk(t, e)} :: 0 <= e < |t.events| ==> EventOk(t, e)
  }

  /** No two queueings share a place. */
  ghost predicate PlacesDiffer(t: Trace) {
    forall e, f :: 0 <= e < f < |t.events| && t.events[e].place.At? && t.events[f].place.At? ==>
      t.events[e].tree != t.events[f].tree || t.events[e].place != t.events[f].place
  }

  ghost predicate LeavesOk(t: Trace) {
    HoldersOk(t) && EventsOk(t) && PlacesDiffer(t)
  }

  /** Outputs whose queue addresses are all new. */
  predicate FreshOutputs(queued: map<Node, Queued>, outs: seq<Node>) {
    forall i :: 0 <= i < |outs| ==> outs[i] !in queued && outs[i] !in outs[..i]
  }

  lemma {:induction false} EnqueuedIs(queued: map<Node, Queued>, tree: nat, outs: seq<Node>, debt: nat, k: nat, c: Node)
    requires k <= |outs|
    ensures var q := Enqueued(queued, tree, outs, debt, k);
            && (c in q <==> c in queued || c in outs[..k])
            && (c in outs[..k] ==> q[c].tree == tree)
            && (c in queued && c !in outs[..k] ==> q[c] == queued[c])
    decreases k
  {
    if k > 0 {
      EnqueuedIs(queued, tree, outs, debt, k - 1, c);
      assert outs[..k] == outs[..k - 1] + [outs[k - 1]];
    }
  }

  lemma {:induction false} HeldIs(holder: map<Node, nat>, base: nat, outs: seq<Node>, k: nat, c: Node)
    requires k <= |outs|
    ensures var m := Held(holder, base, outs, k);
            && (c in m <==> c in holder || c in outs[..k])
            && (c in outs[..k] ==> base <= m[c] < base + k && outs[m[c] - base] == c)
            && (c in holder && c !in outs[..k] ==> m[c] == holder[c])
    decreases k
  {
    if k > 0 {
      HeldIs(holder, base, outs, k - 1, c);
      assert outs[..k] == outs[..k - 1] + [outs[k - 1]];
    }
  }

  /** What a deferred spend does to the history. */
  lemma QueueNext(h: Hasher, t: Trace, sp: Spend)
    requires Spending(h, t.state, sp, true).Ok?
    ensures var n := Next(h, t, SpendStep(sp, true));
            && n.events == t.events + NewEvents(t.state.active, sp.outputs)
            && n.holder == Held(t.holder, |t.events|, sp.outputs, |sp.outputs|)
            && n.state.trees == t.state.trees && n.state.active == t.state.active
            && n.state.queued == Enqueued(t.state.queued, t.state.active, sp.outputs, |sp.nullifiers|, |sp.outputs|)
  {
    SpendParts(h, t.state, sp, true);
  }

  lemma QueueHolders(h: Hasher, t: Trace, sp: Spend)
    requires HoldersOk(t) && Spending(h, t.state, sp, true).Ok?
    ensures HoldersOk(Next(h, t, SpendStep(sp, true)))
  {
    var n := Next(h, t, SpendStep(sp, true));
    var outs := sp.outputs;
    QueueNext(h, t, sp);
    assert outs[..|outs|] == outs;
    forall c ensures HolderAt(n, c) {
      assert HolderAt(t, c);
      EnqueuedIs(t.state.queued, t.state.active, outs, |sp.nullifiers|, |outs|, c);
      HeldIs(t.holder, |t.events|, outs, |outs|, c);
      if c in outs { assert n.events[n.holder[c]] == NewEvents(t.state.active, outs)[n.holder[c] - |t.events|]; }
    }
  }

  lemma QueueEvents(h: Hasher, t: Trace, sp: Spend)
    requires HoldersOk(t) && EventsOk(t) && Spending(h, t.state, sp, true).Ok? && FreshOutputs(t.state.queued, sp.outputs)
    ensures EventsOk(Next(h, t, SpendStep(sp, true)))
  {
    var n := Next(h, t, SpendStep(sp, true));
    var outs, base := sp.outputs, |t.events|;
    QueueNext(h, t, sp);
    assert outs[..|outs|] == outs;
    forall e | 0 <= e < |n.events| ensures EventOk(n, e) {
      if e < base {
        assert EventOk(t, e) && n.events[e] == t.events[e];
        var c := t.events[e].commitment;
        assert HolderAt(t, c);
        HeldIs(t.holder, base, outs, |outs|, c);
        if c in outs { FreshMeansNew(t.state.queued, outs, c); }
      } else {
        var c := outs[e - base];
        assert n.events[e] == Event(c, t.state.active, Waiting);
        HeldIs(t.holder, base, outs, |outs|, c);
        OnlyOnce(t.state.queued, outs, e - base, n.holder[c] - base);
      }
    }
  }

  lemma FreshMeansNew(queued: map<Node, Queued>, outs: seq<Node>, c: Node)
    requires FreshOutputs(queued, outs) && c in outs
    ensures c !in queued
  {}

  lemma OnlyOnce(queued: map<Node, Queued>, outs: seq<Node>, i: nat, j: nat)
    requires FreshOutputs(queued, outs) && i < |outs| && j < |outs| && outs[i] == outs[j]
    ensures i == j
  {}

  /** A queued spend keeps every deferred leaf accounted for exactly when its queue addresses are fresh. */
  lemma QueueLeavesIff(h: Hasher, t: Trace, sp: Spend)
    requires LeavesOk(t) && Spending(h, t.state, sp, true).Ok?
    ensures LeavesOk(Next(h, t, SpendStep(sp, true))) <==> FreshOutputs(t.state.queued, sp.outputs)
  {
    var n := Next(h, t, SpendStep(sp, true));
    var outs, base := sp.outputs, |t.events|;
    QueueNext(h, t, sp);
    QueueHolders(h, t, sp);
    if FreshOutputs(t.state.queued, outs) {
      QueueEvents(h, t, sp);
      assert PlacesDiffer(n) by {
        forall e, f | 0 <= e < f < |n.events| && n.events[e].place.At? && n.events[f].place.At?
          ensures n.events[e].tree != n.events[f].tree || n.events[e].place != n.events[f].place
        {
          assert f < base && n.events[e] == t.events[e] && n.events[f] == t.events[f];
        }
      }
    } else {
      var i :| 0 <= i < |outs| && (outs[i] in t.state.queued || outs[i] in outs[..i]);
      StaleEvent(h, t, sp, i);
    }
  }

  /** Writing over a queued account leaves an event that no account holds. */
  lemma StaleEvent(h: Hasher, t: Trace, sp: Spend, i: nat)
    requires LeavesOk(t) && Spending(h, t.state, sp, true).Ok? && i < |sp.outputs|
    requires sp.outputs[i] in t.state.queued || sp.outputs[i] in sp.outputs[..i]
    ensures !EventsOk(Next(h, t, SpendStep(sp, true)))
  {
    if sp.outputs[i] in t.state.queued {
      StaleQueued(h, t, sp, i);
    } else {
      var j :| 0 <= j < i && sp.outputs[j] == sp.outputs[i];
      StaleTwin(h, t, sp, j, i);
    }
  }

  lemma StaleQueued(h: Hasher, t: Trace, sp: Spend, i: nat)
    requires LeavesOk(t) && Spending(h, t.state, sp, true).Ok? && i < |sp.outputs| && sp.outputs[i] in t.state.queued
    ensures !EventsOk(Next(h, t, SpendStep(sp, true)))
  {
    var n := Next(h, t, SpendStep(sp, true));
    var outs, c := sp.outputs, sp.outputs[i];
    QueueNext(h, t, sp);
    assert outs[..|outs|] == outs;
    HeldIs(t.holder, |t.events|, outs, |outs|, c);
    assert HolderAt(t, c);
    var e := t.holder[c];
    assert n.events[e] == t.events[e];
    assert !EventOk(n, e);
  }

  lemma StaleTwin(h: Hasher, t: Trace, sp: Spend, j: nat, i: nat)
    requires LeavesOk(t) && Spending(h, t.state, sp, true).Ok? && j < i < |sp.outputs| && sp.outputs[j] == sp.outputs[i]
    ensures !EventsOk(Next(h, t, SpendStep(sp, true)))
  {
    var n := Next(h, t, SpendStep(sp, true));
    var c, base := sp.outputs[i], |t.events|;
    QueueNext(h, t, sp);
    var e := if c in n.holder && n.holder[c] == base + i then base + j else base + i;
    assert n.events[e] == Event(c, t.state.active, Waiting);
    assert !EventOk(n, e);
  }

  // ---- merging -------------------------------------------------------------------------------------------------------

  lemma HeldApart(t: Trace, c: Node, d: Node)
    requires HoldersOk(t) && c in t.holder && d in t.holder && c != d
    ensures t.holder[c] != t.holder[d]
  {
    assert HolderAt(t, c) && HolderAt(t, d);
  }

  lemma MergedHeld(t: Trace, cs: seq<Node>, i: nat)
    requires HoldersOk(t) && Mergeable(t.state, cs) && i < |cs|
    ensures cs[i] in t.holder && t.holder[cs[i]] < |t.events| && t.events[t.holder[cs[i]]] == Event(cs[i], t.state.active, Waiting)
    ensures cs[i] !in cs[..i]
  {
    assert MergesAt(t.state, cs, i) && HolderAt(t, cs[i]);
  }

  /** Events of other leaves are untouched. */
  lemma {:induction false} PlacedElse(t: Trace, cs: seq<Node>, first: nat, k: nat, e: nat)
    requires HoldersOk(t) && k <= |cs| && e < |t.events|
    requires t.events[e].commitment in t.holder && t.holder[t.events[e].commitment] == e ==> t.events[e].commitment !in cs[..k]
    ensures Placed(t.events, t.holder, cs, first, k)[e] == t.events[e]
    decreases k
  {
    if k > 0 {
      assert cs[..k] == cs[..k - 1] + [cs[k - 1]];
      PlacedElse(t, cs, first, k - 1, e);
      assert HolderAt(t, cs[k - 1]);
    }
  }

  /** The event of merged leaf `i` gets the index the leaf lands at. */
  lemma {:induction false} PlacedAt(t: Trace, cs: seq<Node>, first: nat, k: nat, i: nat)
    requires HoldersOk(t) && Mergeable(t.state, cs) && i < k <= |cs|
    ensures cs[i] in t.holder && t.holder[cs[i]] < |t.events|
    ensures Placed(t.events, t.holder, cs, first, k)[t.holder[cs[i]]] == Event(cs[i], t.state.active, At(first + i))
    decreases k
  {
    MergedHeld(t, cs, i);
    if i < k - 1 {
      PlacedAt(t, cs, first, k - 1, i);
      MergedHeld(t, cs, k - 1);
      assert cs[i] in cs[..k - 1];
      HeldApart(t, cs[k - 1], cs[i]);
    } else {
      PlacedElse(t, cs, first, k - 1, t.holder[cs[i]]);
    }
  }

  lemma {:induction false} ReleasedIs(holder: map<Node, nat>, cs: seq<Node>, k: nat, c: Node)
    requires k <= |cs|
    ensures var m := Released(holder, cs, k);
            && (c in m <==> c in holder && c !in cs[..k]) && (c in m ==> m[c] == holder[c])
    decreases k
  {
    if k > 0 {
      ReleasedIs(holder, cs, k - 1, c);
      assert cs[..k] == cs[..k - 1] + [cs[k - 1]];
    }
  }

  /** What a merge does to the history. */
  lemma MergeNext(h: Hasher, t: Trace, cs: seq<Node>)
    requires TreesOk(t.state) && Merge(h, t.state, cs).Ok?
    ensures var n := Next(h, t, MergeStep(cs));
            var first := |t.state.trees[t.state.active].leaves|;
            && Mergeable(t.state, cs) && Keeps(t.state, n.state)
            && n.events == Placed(t.events, t.holder, cs, first, |cs|)
            && n.holder == Released(t.holder, cs, |cs|)
            && n.state.queued == Dequeued(t.state.queued, cs, |cs|)
            && n.state.active == t.state.active
            && t.state.active in n.state.trees && n.state.trees[t.state.active].leaves == t.state.trees[t.state.active].leaves + cs
  {
    MergeParts(h, t.state, cs);
    MergeTrees(h, t.state, cs);
  }

  lemma MergeHolders(h: Hasher, t: Trace, cs: seq<Node>)
    requires TreesOk(t.state) && HoldersOk(t) && Merge(h, t.state, cs).Ok?
    ensures HoldersOk(Next(h, t, MergeStep(cs)))
  {
    var n := Next(h, t, MergeStep(cs));
    MergeNext(h, t, cs);
    assert cs[..|cs|] == cs;
    forall c ensures HolderAt(n, c) {
      assert HolderAt(t, c);
      DequeuedKeeps(t.state.queued, cs, |cs|, c);
      ReleasedIs(t.holder, cs, |cs|, c);
      if c in n.holder { PlacedElse(t, cs, |t.state.trees[t.state.active].leaves|, |cs|, t.holder[c]); }
    }
  }

  /** After a merge an event is as before, or it is one of the merged leaves at its new index. */
  lemma MergedEvent(h: Hasher, t: Trace, cs: seq<Node>, e: nat) returns (i: nat)
    requires TreesOk(t.state) && HoldersOk(t) && Merge(h, t.state, cs).Ok? && e < |t.events|
    ensures var n := Next(h, t, MergeStep(cs));
            var first := |t.state.trees[t.state.active].leaves|;
            && |n.events| == |t.events|
            && if i < |cs|
               then cs[i] in t.holder && t.holder[cs[i]] == e && n.events[e] == Event(cs[i], t.state.active, At(first + i))
               else n.events[e] == t.events[e] && (EventOk(t, e) && t.events[e].place == Waiting ==> t.events[e].commitment !in cs)
  {
    var first := |t.state.trees[t.state.active].leaves|;
    var c := t.events[e].commitment;
    MergeNext(h, t, cs);
    assert cs[..|cs|] == cs;
    if c in t.holder && t.holder[c] == e && c in cs {
      i :| 0 <= i < |cs| && cs[i] == c;
      PlacedAt(t, cs, first, |cs|, i);
    } else {
      i := |cs|;
      PlacedElse(t, cs, first, |cs|, e);
    }
  }

  lemma MergeEvents(h: Hasher, t: Trace, cs: seq<Node>)
    requires TreesOk(t.state) && HoldersOk(t) && EventsOk(t) && Merge(h, t.state, cs).Ok?
    ensures EventsOk(Next(h, t, MergeStep(cs)))
  {
    var n := Next(h, t, MergeStep(cs));
    MergeNext(h, t, cs);
    assert cs[..|cs|] == cs;
    forall e | 0 <= e < |n.events| ensures EventOk(n, e) {
      assert EventOk(t, e);
      var i := MergedEvent(h, t, cs, e);
      if i >= |cs| { ReleasedIs(t.holder, cs, |cs|, t.events[e].commitment); }
    }
  }

  lemma MergePlaces(h: Hasher, t: Trace, cs: seq<Node>)
    requires TreesOk(t.state) && LeavesOk(t) && Merge(h, t.state, cs).Ok?
    ensures PlacesDiffer(Next(h, t, MergeStep(cs)))
  {
    var n := Next(h, t, MergeStep(cs));
    MergeNext(h, t, cs);
    forall e, f | 0 <= e < f < |n.events| && n.events[e].place.At? && n.events[f].place.At?
      ensures n.events[e].tree != n.events[f].tree || n.events[e].place != n.events[f].place
    {
      var i := MergedEvent(h, t, cs, e);
      var j := MergedEvent(h, t, cs, f);
      assert EventOk(t, e) && EventOk(t, f);
    }
  }

  /** A merge keeps every deferred leaf accounted for. */
  lemma MergeLeaves(h: Hasher, t: Trace, cs: seq<Node>)
    requires TreesOk(t.state) && LeavesOk(t) && Merge(h, t.state, cs).Ok?
    ensures LeavesOk(Next(h, t, MergeStep(cs)))
  {
    MergeHolders(h, t, cs);
    MergeEvents(h, t, cs);
    MergePlaces(h, t, cs);
  }

  lemma LeavesFrame(t: Trace, n: Trace)
    requires LeavesOk(t) && Keeps(t.state, n.state)
    requires n.events == t.events && n.holder == t.holder && n.state.queued == t.state.queued
    ensures LeavesOk(n)
  {
    forall c ensures HolderAt(n, c) { assert HolderAt(t, c); }
    forall e | 0 <= e < |n.events| ensures EventOk(n, e) { assert EventOk(t, e); }
  }

  // ---- runs ------------------------------------------------------------------------------------------------------------

  /** A queued spend that goes through has fresh queue addresses, and no rotation is the 2^32nd. */
  ghost predicate StepOk(h: Hasher, s: State, step: Step) {
    && (step.SpendStep? && step.deferred && Spending(h, s, step.spend, true).Ok? ==> FreshOutputs(s.queued, step.spend.outputs))
    && !Wraps(s, step)
  }

  ghost predicate StepsOk(h: Hasher, steps: seq<Step>) {
    |steps| > 0 ==>
      StepsOk(h, steps[..|steps| - 1]) && StepOk(h, Run(h, steps[..|steps| - 1]).state, steps[|steps| - 1])
  }

  ghost predicate Inv(t: Trace) {
    TreesOk(t.state) && LeavesOk(t) && LogOk(t) && CountOk(t)
  }

  lemma {:induction false} FreshLosesNothing(queued: map<Node, Queued>, tree: nat, outs: seq<Node>, debt: nat, k: nat)
    requires k <= |outs| && FreshOutputs(queued, outs)
    ensures Lost(queued, tree, outs, debt, k) == 0
    decreases k
  {
    if k > 0 {
      FreshLosesNothing(queued, tree, outs, debt, k - 1);
      EnqueuedIs(queued, tree, outs, debt, k - 1, outs[k - 1]);
    }
  }

  lemma SpendLog(h: Hasher, t: Trace, sp: Spend, deferred: bool)
    requires LogOk(t) && Spending(h, t.state, sp, deferred).Ok?
    ensures LogOk(Next(h, t, SpendStep(sp, deferred)))
  {
    var n := Next(h, t, SpendStep(sp, deferred));
    SpendParts(h, t.state, sp, deferred);
    SourceIs(h, t.state, sp);
    var tree := NoteTree(h, t.state, sp);
    assert n.log == t.log + Logged(tree, sp.nullifiers);
    assert n.state.nullifiers == Recorded(t.state.nullifiers, tree, sp.nullifiers, |sp.nullifiers|) by {
      if !deferred { AppendedKeeps(h, Spent(h, t.state, sp, deferred), sp.outputs); }
    }
    LogGrows(t, tree, sp.nullifiers);
    forall a ensures a in n.state.nullifiers <==> OnRecord(n.log, a) {
      RecordsGrow(t, tree, sp.nullifiers, a);
    }
  }

  lemma AppendedKeeps(h: Hasher, s: State, cs: seq<Node>)
    requires Appended(h, s, cs).Ok?
    ensures Appended(h, s, cs).value == s.(trees := Appended(h, s, cs).value.trees)
  {}

  /** An inline spend counts its nullifiers and touches no queued leaf. */
  lemma InlineSpend(h: Hasher, t: Trace, sp: Spend)
    requires Inv(t) && Spending(h, t.state, sp, false).Ok?
    ensures Inv(Next(h, t, SpendStep(sp, false)))
  {
    var n := Next(h, t, SpendStep(sp, false));
    SpendParts(h, t.state, sp, false);
    SpendTrees(h, t.state, sp, false);
    SpendLog(h, t, sp, false);
    AppendedKeeps(h, Spent(h, t.state, sp, false), sp.outputs);
    LeavesFrame(t, n);
  }

  lemma DeferredSpend(h: Hasher, t: Trace, sp: Spend)
    requires Inv(t) && Spending(h, t.state, sp, true).Ok? && FreshOutputs(t.state.queued, sp.outputs)
    ensures Inv(Next(h, t, SpendStep(sp, true)))
  {
    SpendTrees(h, t.state, sp, true);
    SpendLog(h, t, sp, true);
    QueueLeavesIff(h, t, sp);
    FreshLosesNothing(t.state.queued, t.state.active, sp.outputs, |sp.nullifiers|, |sp.outputs|);
    QueueCountIff(h, t, sp);
  }

  lemma MergeInv(h: Hasher, t: Trace, cs: seq<Node>)
    requires Inv(t) && Merge(h, t.state, cs).Ok?
    ensures Inv(Next(h, t, MergeStep(cs)))
  {
    MergeParts(h, t.state, cs);
    MergeTrees(h, t.state, cs);
    MergeLeaves(h, t, cs);
    DequeuedDebt(t.state, cs, |cs|);
    AppendedKeeps(h, t.state, cs);
    assert Next(h, t, MergeStep(cs)).state.nullifiers == t.state.nullifiers;
  }

  lemma StepInv(h: Hasher, t: Trace, step: Step)
    requires Inv(t) && StepOk(h, t.state, step)
    ensures Inv(Next(h, t, step)) && Keeps(t.state, Next(h, t, step).state)
  {
    if Apply(h, t.state, step).Ok? {
      StepTrees(h, t.state, step);
      match step {
        case SpendStep(sp, deferred) => if deferred { DeferredSpend(h, t, sp); } else { InlineSpend(h, t, sp); }
        case PlaceStep(c) =>
          AppendedKeeps(h, t.state, [c]);
          LeavesFrame(t, Next(h, t, step));
        case MergeStep(cs) => MergeInv(h, t, cs);
        case RotateStep => LeavesFrame(t, Next(h, t, step));
      }
    }
  }

  lemma StartInv(h: Hasher)
    ensures Inv(Run(h, []))
  {
    var t := Run(h, []);
    assert Debt(t.state.queued) == 0;
    forall c ensures HolderAt(t, c) {}
    forall a ensures a in t.state.nullifiers <==> OnRecord(t.log, a) {}
  }

  /** After every run: trees below the active one full, every queued leaf accounted for, no repeated nullifier, the count exact. */
  lemma {:induction false} RunInv(h: Hasher, steps: seq<Step>)
    requires StepsOk(h, steps)
    ensures Inv(Run(h, steps))
  {
    if |steps| == 0 {
      StartInv(h);
    } else {
      RunInv(h, steps[..|steps| - 1]);
      StepInv(h, Run(h, steps[..|steps| - 1]), steps[|steps| - 1]);
    }
  }

  lemma StepInvIff(h: Hasher, t: Trace, step: Step)
    requires Inv(t)
    ensures Inv(Next(h, t, step)) <==> StepOk(h, t.state, step)
  {
    if StepOk(h, t.state, step) {
      StepInv(h, t, step);
    } else if step.SpendStep? {
      QueueLeavesIff(h, t, step.spend);
    } else {
      assert 1 in Next(h, t, step).state.trees;
    }
  }

  ghost predicate AlwaysInv(h: Hasher, steps: seq<Step>) {
    Inv(Run(h, steps)) && (|steps| > 0 ==> AlwaysInv(h, steps[..|steps| - 1]))
  }

  /** The laws hold at every moment of a run if and only if queue addresses are fresh and the tree index never wraps. */
  lemma {:induction false} LawsIffFresh(h: Hasher, steps: seq<Step>)
    ensures AlwaysInv(h, steps) <==> StepsOk(h, steps)
  {
    if |steps| == 0 {
      StartInv(h);
    } else {
      var before := steps[..|steps| - 1];
      LawsIffFresh(h, before);
      if AlwaysInv(h, before) { StepInvIff(h, Run(h, before), steps[|steps| - 1]); }
    }
  }

  /** Between any two moments of a run, no leaf moves and no frozen tree changes. */
  lemma {:induction false} FrozenForever(h: Hasher, steps: seq<Step>, i: nat)
    requires StepsOk(h, steps) && i <= |steps|
    ensures StepsOk(h, steps[..i]) && Keeps(Run(h, steps[..i]).state, Run(h, steps).state)
    decreases |steps|
  {
    RunInv(h, steps);
    if i == |steps| {
      assert steps[..i] == steps;
    } else {
      var before := steps[..|steps| - 1];
      assert before[..i] == steps[..i];
      FrozenForever(h, before, i);
      RunInv(h, before);
      RunInv(h, steps[..i]);
      StepInv(h, Run(h, before), steps[|steps| - 1]);
      KeepsChain(Run(h, steps[..i]).state, Run(h, before).state, Run(h, steps).state);
    }
  }

  lemma KeepsChain(a: State, b: State, c: State)
    requires TreesOk(a) && TreesOk(b) && Keeps(a, b) && Keeps(b, c)
    ensures Keeps(a, c)
  {
    forall k: nat | k in a.trees
      ensures k in c.trees && a.trees[k].leaves <= c.trees[k].leaves && (k != a.active ==> c.trees[k] == a.trees[k])
    {
      assert k in b.trees && k <= a.active <= b.active;
    }
  }

  /** The counter is the nullifiers on record less what the queue owes, held at 2^32 - 1. */
  lemma CounterReconciles(h: Hasher, steps: seq<Step>)
    requires StepsOk(h, steps)
    ensures var t := Run(h, steps);
            && Debt(t.state.queued) <= |t.log|
            && var settled := |t.log| - Debt(t.state.queued);
            t.state.count == if settled <= 0xffff_ffff then settled else 0xffff_ffff
  {
    RunInv(h, steps);
  }

  /** A queued output is still waiting under its own address, or at one index of its tree that no other queueing shares. */
  lemma LandsOnce(h: Hasher, steps: seq<Step>, e: nat)
    requires StepsOk(h, steps) && e < |Run(h, steps).events|
    ensures var t := Run(h, steps);
            var v := t.events[e];
            v.place == Waiting ==>
              && v.commitment in t.state.queued && t.state.queued[v.commitment].tree == v.tree
              && v.commitment in t.holder && t.holder[v.commitment] == e
    ensures var t := Run(h, steps);
            var v := t.events[e];
            v.place.At? ==>
              && v.tree in t.state.trees && v.place.index < |t.state.trees[v.tree].leaves|
              && t.state.trees[v.tree].leaves[v.place.index] == v.commitment
              && forall f :: 0 <= f < |t.events| && f != e ==> !(t.events[f].tree == v.tree && t.events[f].place == v.place)
  {
    RunInv(h, steps);
    var t := Run(h, steps);
    assert EventOk(t, e) && HolderAt(t, t.events[e].commitment);
  }

  /** What a step leaves of an event: its commitment and tree always, its place once it has one. */
  lemma StepKeepsPlace(h: Hasher, t: Trace, step: Step, e: nat)
    requires Inv(t) && e < |t.events|
    ensures e < |Next(h, t, step).events|
    ensures var v, n := t.events[e], Next(h, t, step).events[e];
            n.commitment == v.commitment && n.tree == v.tree && (v.place.At? ==> n == v)
  {
    if Apply(h, t.state, step).Ok? {
      match step {
        case SpendStep(sp, deferred) => if deferred { QueueNext(h, t, sp); }
        case MergeStep(cs) =>
          MergeNext(h, t, cs);
          var i := MergedEvent(h, t, cs, e);
          assert HolderAt(t, t.events[e].commitment);
          if i < |cs| { MergedHeld(t, cs, i); }
        case PlaceStep(_) =>
        case RotateStep =>
      }
    }
  }

  /** Landing is permanent: an output placed at some moment of a run is at that place of that tree ever after. */
  lemma {:induction false} LandedForever(h: Hasher, steps: seq<Step>, i: nat, e: nat)
    requires StepsOk(h, steps) && i <= |steps| && e < |Run(h, steps[..i]).events|
    ensures e < |Run(h, steps).events|
    ensures var v, n := Run(h, steps[..i]).events[e], Run(h, steps).events[e];
            n.commitment == v.commitment && n.tree == v.tree && (v.place.At? ==> n == v)
    decreases |steps|
  {
    if i == |steps| {
      assert steps[..i] == steps;
    } else {
      var before := steps[..|steps| - 1];
      assert before[..i] == steps[..i];
      LandedForever(h, before, i, e);
      RunInv(h, before);
      StepKeepsPlace(h, Run(h, before), steps[|steps| - 1], e);
    }
  }

  // ---- exactly what is accepted -------------------------------------------------------------------------------------

  /** The records of a spend's nullifiers: unscoped for tree 0, scoped to the tree otherwise. */
  ghost function Records(k: nat, ns: seq<Node>): set<Address> {
    set n | n in ns :: if k == 0 then Legacy(n) else Scoped(k, n)
  }

  predicate Different(ns: seq<Node>) {
    forall i, j :: 0 <= i < j < |ns| ==> ns[i] != ns[j]
  }

  /** The recorder accepts exactly distinct nullifiers of which none is on record for the tree. */
  lemma UnusedIff(records: set<Address>, k: nat, ns: seq<Node>)
    ensures AllUnused(records, k, ns) <==> Different(ns) && Records(k, ns) !! records
    ensures Recorded(records, k, ns, |ns|) == records + Records(k, ns)
  {
    forall a ensures a in Recorded(records, k, ns, |ns|) <==> a in records + Records(k, ns) {
      RecordedIs(records, k, ns, |ns|, a);
    }
    if Different(ns) && Records(k, ns) !! records {
      forall i | 0 <= i < |ns| ensures RecordsAt(records, k, ns, i) {
        RecordedIs(records, k, ns, i, AddressOf(k, ns[i]));
        assert AddressOf(k, ns[i]) in Records(k, ns);
      }
    } else if AllUnused(records, k, ns) {
      UnusedIsDifferent(records, k, ns);
    }
  }

  lemma UnusedIsDifferent(records: set<Address>, k: nat, ns: seq<Node>)
    requires AllUnused(records, k, ns)
    ensures Different(ns) && Records(k, ns) !! records
  {
    forall i, j | 0 <= i < j < |ns| ensures ns[i] != ns[j] {
      assert RecordsAt(records, k, ns, j);
      RecordedIs(records, k, ns, j, AddressOf(k, ns[j]));
    }
    forall a | a in Records(k, ns) ensures a !in records {
      var i :| 0 <= i < |ns| && a == AddressOf(k, ns[i]);
      assert RecordsAt(records, k, ns, i);
      RecordedIs(records, k, ns, i, a);
    }
  }

  /**
   * A spend of up to ten notes and outputs goes through exactly when its root is one of the tree its notes are in, its
   * nullifiers are distinct and none is on record for that tree, and its outputs fit a tree of 65536 leaves unless they
   * are queued; and it then records exactly those nullifiers, under that tree.
   */
  lemma SpendAcceptsIff(h: Hasher, s: State, sp: Spend, deferred: bool)
    requires TreesOk(s)
    ensures var k := NoteTree(h, s, sp);
            Spending(h, s, sp, deferred).Ok? <==>
            && 1 <= |sp.nullifiers| && 1 <= |sp.outputs| + sp.publicOutputs
            && |sp.nullifiers| + |sp.outputs| + sp.publicOutputs <= 10
            && SpentFrom(h, s, sp, k)
            && Different(sp.nullifiers) && Records(k, sp.nullifiers) !! s.nullifiers
            && (if deferred then sp.publicOutputs == 0 else |sp.outputs| == 0 || |s.trees[s.active].leaves| + |sp.outputs| <= 65536)
    ensures Spending(h, s, sp, deferred).Ok? ==>
              Spending(h, s, sp, deferred).value.nullifiers == s.nullifiers + Records(NoteTree(h, s, sp), sp.nullifiers)
  {
    SourceIs(h, s, sp);
    UnusedIff(s.nullifiers, NoteTree(h, s, sp), sp.nullifiers);
    if Spending(h, s, sp, deferred).Ok? {
      SpendParts(h, s, sp, deferred);
      if !deferred { AppendedKeeps(h, Spent(h, s, sp, deferred), sp.outputs); }
    }
  }

  /** A spend whose root neither the active tree nor the named frozen tree accepts fails. */
  lemma UnknownRootFails(h: Hasher, s: State, sp: Spend, deferred: bool)
    requires forall k :: !SpentFrom(h, s, sp, k)
    ensures Spending(h, s, sp, deferred).Err?
  {
    SourceIs(h, s, sp);
  }

  /** A merge takes one to twenty-four distinct leaves queued for the active tree that fit its 65536 leaves, and nothing else. */
  lemma MergeAcceptsIff(h: Hasher, s: State, cs: seq<Node>)
    requires TreesOk(s)
    ensures Merge(h, s, cs).Ok? <==>
            && 1 <= |cs| <= 24 && Different(cs)
            && (forall i :: 0 <= i < |cs| ==> cs[i] in s.queued && s.queued[cs[i]].tree == s.active)
            && |s.trees[s.active].leaves| + |cs| <= 65536
  {
    if Mergeable(s, cs) {
      forall i, j | 0 <= i < j < |cs| ensures cs[i] != cs[j] { assert MergesAt(s, cs, j); }
      forall i | 0 <= i < |cs| ensures cs[i] in s.queued && s.queued[cs[i]].tree == s.active { assert MergesAt(s, cs, i); }
    }
    if Different(cs) && forall i :: 0 <= i < |cs| ==> cs[i] in s.queued && s.queued[cs[i]].tree == s.active {
      forall i | 0 <= i < |cs| ensures MergesAt(s, cs, i) {}
    }
  }

  /** A rotation goes through exactly when the active tree holds 65536 leaves, and opens an empty tree at the next index. */
  lemma RotateAcceptsIff(s: State)
    requires TreesOk(s)
    ensures Rotate(s).Ok? <==> |s.trees[s.active].leaves| == 65536
    ensures Rotate(s).Ok? && s.active < 0xffff_ffff ==>
              && Rotate(s).value.active == s.active + 1
              && s.active + 1 in Rotate(s).value.trees && Rotate(s).value.trees[s.active + 1] == TreeView([], [])
  {}
}
