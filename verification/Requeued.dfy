/** Queueing the same output twice leaves one queued account for two spends. */
module Requeued {
  import opened Totals
  import opened CommitmentTrees
  import opened Queues
  import opened QueueRuns

  const NOTE: Node := 5

  function Again(nullifier: Node, root: Node): Step {
    SpendStep(Spend(root, ActiveTree, [nullifier], [NOTE], 0), true)
  }

  function Once(): State {
    State(0, map[0 := EMPTY_TREE], {Legacy(1)}, map[NOTE := Queued(0, 1)], 0)
  }

  lemma FirstQueueing(h: Hasher, root: Node)
    requires AcceptsRoot(h, EMPTY_TREE, root)
    ensures Spending(h, START, Again(1, root).spend, true) == Ok(Once())
  {
    var ns := [1];
    assert RecordsAt({}, 0, ns, 0);
    assert Recorded({}, 0, ns, 1) == {Legacy(1)};
    assert Enqueued(map[], 0, [NOTE], 1, 1) == map[NOTE := Queued(0, 1)];
  }

  lemma SecondQueueing(h: Hasher, root: Node)
    requires AcceptsRoot(h, EMPTY_TREE, root)
    ensures var r := Spending(h, Once(), Again(2, root).spend, true);
            r.Ok? && r.value.queued == map[NOTE := Queued(0, 1)] && r.value.count == 0
  {
    var ns := [2];
    assert Recorded({Legacy(1)}, 0, ns, 0) == {Legacy(1)};
    assert RecordsAt({Legacy(1)}, 0, ns, 0);
    assert Enqueued(Once().queued, 0, [NOTE], 1, 1) == Once().queued[NOTE := Queued(0, 1)];
  }

  /** Freshness is needed: two spends recorded, one queued leaf with a debt of one, and the first output held by nothing. */
  lemma OutputLost(h: Hasher, root: Node)
    requires AcceptsRoot(h, EMPTY_TREE, root)
    ensures var t := Run(h, [Again(1, root)] + [Again(2, root)]);
            && |t.log| == 2 && |t.events| == 2 && t.state.queued == map[NOTE := Queued(0, 1)]
            && !EventsOk(t) && !CountOk(t)
  {
    var first := Run(h, [Again(1, root)]);
    assert [Again(1, root)][..0] == [];
    FirstQueueing(h, root);
    QueueNext(h, Run(h, []), Again(1, root).spend);
    assert first.state == Once();
    SecondQueueing(h, root);
    assert ([Again(1, root)] + [Again(2, root)])[..1] == [Again(1, root)];
    var t := Run(h, [Again(1, root)] + [Again(2, root)]);
    QueueNext(h, first, Again(2, root).spend);
    assert Held(first.holder, 1, [NOTE], 1) == first.holder[NOTE := 1];
    assert t.events[0] == Event(NOTE, 0, Waiting) && t.holder[NOTE] == 1;
    assert !EventOk(t, 0);
    DebtOfOne();
  }

  lemma DebtOfOne()
    ensures Debt(map[NOTE := Queued(0, 1)]) == 1
  {
    TotalWrite(map[], DebtWeight(), NOTE, Queued(0, 1));
    assert map[][NOTE := Queued(0, 1)] == map[NOTE := Queued(0, 1)];
  }
}
