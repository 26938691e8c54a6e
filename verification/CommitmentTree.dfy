/** The incremental Merkle tree of commitments: frontier walk, root ring and batch insertion. */
module CommitmentTrees {
  import opened Powers

  const TREE_DEPTH: nat := 16
  const MAX_LEAVES: nat := 65536
  const ROOT_HISTORY_SIZE: nat := 256
  const U32_RANGE: nat := 0x1_0000_0000

  /** A field element; 0 is the all-zero byte string. */
  type Node = nat

  /** Poseidon on two elements, with the table of empty-subtree hashes. */
  datatype Hasher = Hasher(hash: (Node, Node) -> Node, zeros: seq<Node>)

  /** The table the program hard-codes: entry 0 is the empty leaf, each entry hashes the one before with itself. */
  ghost predicate ZerosOk(h: Hasher) {
    && |h.zeros| == TREE_DEPTH + 1 && h.zeros[0] == 0
    && forall i :: 0 <= i < TREE_DEPTH ==> h.zeros[i + 1] == h.hash(h.zeros[i], h.zeros[i])
  }

  // ---- the full padded tree -------------------------------------------------------------

  /** Node `i` at `level` of the full binary tree whose leaves are `leaves` padded with empty leaves. */
  function NodeAt(h: Hasher, leaves: seq<Node>, level: nat, i: nat): Node {
    if level == 0 then (if i < |leaves| then leaves[i] else 0)
    else h.hash(NodeAt(h, leaves, level - 1, 2 * i), NodeAt(h, leaves, level - 1, 2 * i + 1))
  }

  function Root(h: Hasher, leaves: seq<Node>): Node {
    NodeAt(h, leaves, TREE_DEPTH, 0)
  }

  lemma {:induction false} EmptyNode(h: Hasher, leaves: seq<Node>, level: nat, i: nat)
    requires ZerosOk(h) && level <= TREE_DEPTH && i * Pow2(level) >= |leaves|
    ensures NodeAt(h, leaves, level, i) == h.zeros[level]
    decreases level
  {
    if level > 0 {
      Pow2Succ(level - 1);
      HalfScale(i, Pow2(level - 1));
      EmptyNode(h, leaves, level - 1, 2 * i);
      EmptyNode(h, leaves, level - 1, 2 * i + 1);
    }
  }

  lemma HalfScale(i: nat, p: nat)
    ensures i * (2 * p) == (2 * i) * p && (i + 1) * (2 * p) == (2 * i + 2) * p
    ensures (2 * i) * p <= (2 * i + 1) * p <= (2 * i + 2) * p
  {}

  /** A node whose leaves are all present does not change when a leaf is appended. */
  lemma {:induction false} StableNode(h: Hasher, leaves: seq<Node>, c: Node, level: nat, i: nat)
    requires (i + 1) * Pow2(level) <= |leaves|
    ensures NodeAt(h, leaves + [c], level, i) == NodeAt(h, leaves, level, i)
    decreases level
  {
    if level > 0 {
      Pow2Succ(level - 1);
      HalfScale(i, Pow2(level - 1));
      StableNode(h, leaves, c, level - 1, 2 * i);
      StableNode(h, leaves, c, level - 1, 2 * i + 1);
    }
  }

  // ---- the frontier walk --------------------------------------------------------------------

  /** The walk from `level` upwards: the frontier it leaves and the root it reaches. */
  function Walk(h: Hasher, frontier: seq<Node>, index: nat, current: Node, level: nat): (seq<Node>, Node)
    requires level <= |frontier| <= |h.zeros|
    decreases |frontier| - level
  {
    if level == |frontier| then (frontier, current)
    else if index % 2 == 0 then
      Walk(h, frontier[level := current], index / 2, h.hash(current, h.zeros[level]), level + 1)
    else
      Walk(h, frontier, index / 2, h.hash(frontier[level], current), level + 1)
  }

  lemma {:induction false} WalkLength(h: Hasher, frontier: seq<Node>, index: nat, current: Node, level: nat)
    requires level <= |frontier| <= |h.zeros|
    ensures |Walk(h, frontier, index, current, level).0| == |frontier|
    decreases |frontier| - level
  {
    if level < |frontier| {
      if index % 2 == 0 {
        WalkLength(h, frontier[level := current], index / 2, h.hash(current, h.zeros[level]), level + 1);
      } else {
        WalkLength(h, frontier, index / 2, h.hash(frontier[level], current), level + 1);
      }
    }
  }

  function EmptyFrontier(n: nat): (f: seq<Node>)
    ensures |f| == n && forall i :: 0 <= i < n ==> f[i] == 0
  {
    if n == 0 then [] else EmptyFrontier(n - 1) + [0]
  }

  /** The frontier after appending `leaves` one by one to an empty tree. */
  function FrontierOf(h: Hasher, leaves: seq<Node>): (f: seq<Node>)
    requires ZerosOk(h)
    ensures |f| == TREE_DEPTH
  {
    if |leaves| == 0 then EmptyFrontier(TREE_DEPTH)
    else
      var n := |leaves| - 1;
      WalkLength(h, FrontierOf(h, leaves[..n]), n, leaves[n], 0);
      Walk(h, FrontierOf(h, leaves[..n]), n, leaves[n], 0).0
  }

  lemma FrontierPush(h: Hasher, leaves: seq<Node>, c: Node)
    requires ZerosOk(h)
    ensures FrontierOf(h, leaves + [c]) == Walk(h, FrontierOf(h, leaves), |leaves|, c, 0).0
  {
    assert (leaves + [c])[..|leaves|] == leaves;
  }

  /** Position of the node above leaf number `n` at a level. */
  function Above(n: nat, level: nat): (i: nat)
    ensures i * Pow2(level) <= n < (i + 1) * Pow2(level)
  {
    var (q, r) := DivMod(n, Pow2(level));
    q
  }

  lemma AboveStep(n: nat, level: nat)
    ensures Above(n, level + 1) == Above(n, level) / 2
  {
    DivDiv(n, Pow2(level), 2);
  }

  /** Counting one more leaf moves the position at a level by at most one. */
  lemma AboveNext(n: nat, level: nat)
    ensures Above(n + 1, level) == Above(n, level) || Above(n + 1, level) == Above(n, level) + 1
  {
    var p := Pow2(level);
    var (q, r) := DivMod(n, p);
    if r + 1 < p { DivModUnique(n + 1, p, q, r + 1); } else { DivModUnique(n + 1, p, q + 1, 0); }
  }

  /** Wherever bit `l` of the leaf count is set, slot `l` holds the completed left sibling. */
  ghost predicate FrontierOk(h: Hasher, leaves: seq<Node>, f: seq<Node>, from: nat) {
    forall l :: from <= l < |f| && Above(|leaves|, l) % 2 == 1 ==> f[l] == NodeAt(h, leaves, l, Above(|leaves|, l) - 1)
  }

  /** One level of the walk keeps `current` the node of the extended tree and refreshes the slot. */
  lemma WalkLevel(h: Hasher, leaves: seq<Node>, c: Node, f: seq<Node>, level: nat, current: Node)
    requires ZerosOk(h) && |f| == TREE_DEPTH && level < TREE_DEPTH
    requires FrontierOk(h, leaves, f, level)
    requires current == NodeAt(h, leaves + [c], level, Above(|leaves|, level))
    ensures var i := Above(|leaves|, level);
            NodeAt(h, leaves + [c], level + 1, Above(|leaves|, level + 1))
            == if i % 2 == 0 then h.hash(current, h.zeros[level]) else h.hash(f[level], current)
    ensures var i, m := Above(|leaves|, level), Above(|leaves| + 1, level);
            m % 2 == 1 ==> NodeAt(h, leaves + [c], level, m - 1) == if i % 2 == 0 then current else f[level]
  {
    var i := Above(|leaves|, level);
    AboveStep(|leaves|, level);
    AboveNext(|leaves|, level);
    Neighbours(h, leaves, c, level, i);
    Parent(h, leaves + [c], level, i);
  }

  lemma Parent(h: Hasher, leaves: seq<Node>, level: nat, i: nat)
    ensures NodeAt(h, leaves, level + 1, i / 2)
            == if i % 2 == 0 then h.hash(NodeAt(h, leaves, level, i), NodeAt(h, leaves, level, i + 1))
               else h.hash(NodeAt(h, leaves, level, i - 1), NodeAt(h, leaves, level, i))
  {
    if i % 2 == 0 { assert 2 * (i / 2) == i; } else { assert 2 * (i / 2) == i - 1; }
  }

  /** Right of the new leaf's node the tree is empty; the node to its left is complete. */
  lemma Neighbours(h: Hasher, leaves: seq<Node>, c: Node, level: nat, i: nat)
    requires ZerosOk(h) && level < TREE_DEPTH && i * Pow2(level) <= |leaves| < (i + 1) * Pow2(level)
    ensures NodeAt(h, leaves + [c], level, i + 1) == h.zeros[level]
    ensures i > 0 ==> NodeAt(h, leaves + [c], level, i - 1) == NodeAt(h, leaves, level, i - 1)
  {
    EmptyNode(h, leaves + [c], level, i + 1);
    if i > 0 {
      assert i - 1 + 1 == i;
      StableNode(h, leaves, c, level, i - 1);
    }
  }

  lemma {:induction false} WalkCorrect(h: Hasher, leaves: seq<Node>, c: Node, f: seq<Node>, level: nat, current: Node)
    requires ZerosOk(h) && |f| == TREE_DEPTH && level <= TREE_DEPTH
    requires FrontierOk(h, leaves, f, level)
    requires current == NodeAt(h, leaves + [c], level, Above(|leaves|, level))
    requires forall l :: 0 <= l < level && Above(|leaves| + 1, l) % 2 == 1 ==>
               f[l] == NodeAt(h, leaves + [c], l, Above(|leaves| + 1, l) - 1)
    ensures var w := Walk(h, f, Above(|leaves|, level), current, level);
            && |w.0| == TREE_DEPTH && FrontierOk(h, leaves + [c], w.0, 0)
            && w.1 == NodeAt(h, leaves + [c], TREE_DEPTH, Above(|leaves|, TREE_DEPTH))
    decreases TREE_DEPTH - level
  {
    if level < TREE_DEPTH {
      var i := Above(|leaves|, level);
      AboveStep(|leaves|, level);
      WalkLevel(h, leaves, c, f, level, current);
      if i % 2 == 0 {
        WalkCorrect(h, leaves, c, f[level := current], level + 1, h.hash(current, h.zeros[level]));
      } else {
        WalkCorrect(h, leaves, c, f, level + 1, h.hash(f[level], current));
      }
    } else {
      WalkEnds(h, leaves, c, f);
    }
  }

  lemma WalkEnds(h: Hasher, leaves: seq<Node>, c: Node, f: seq<Node>)
    requires |f| == TREE_DEPTH
    requires forall l :: 0 <= l < TREE_DEPTH && Above(|leaves| + 1, l) % 2 == 1 ==>
               f[l] == NodeAt(h, leaves + [c], l, Above(|leaves| + 1, l) - 1)
    ensures FrontierOk(h, leaves + [c], f, 0)
  {
    assert |leaves + [c]| == |leaves| + 1;
  }

  /** The frontier invariant holds after any sequence of appends. */
  lemma {:induction false} FrontierInvariant(h: Hasher, leaves: seq<Node>)
    requires ZerosOk(h)
    ensures FrontierOk(h, leaves, FrontierOf(h, leaves), 0)
  {
    if |leaves| == 0 {
      forall l: nat ensures Above(0, l) == 0 { DivModUnique(0, Pow2(l), 0, 0); }
    } else {
      var n := |leaves| - 1;
      FrontierInvariant(h, leaves[..n]);
      assert leaves[..n] + [leaves[n]] == leaves;
      StartWalk(h, leaves[..n], leaves[n]);
    }
  }

  lemma StartWalk(h: Hasher, leaves: seq<Node>, c: Node)
    requires ZerosOk(h) && FrontierOk(h, leaves, FrontierOf(h, leaves), 0)
    ensures var w := Walk(h, FrontierOf(h, leaves), |leaves|, c, 0);
            && |w.0| == TREE_DEPTH && FrontierOk(h, leaves + [c], w.0, 0)
            && w.1 == NodeAt(h, leaves + [c], TREE_DEPTH, Above(|leaves|, TREE_DEPTH))
  {
    DivModUnique(|leaves|, 1, |leaves|, 0);
    assert Above(|leaves|, 0) == |leaves|;
    WalkCorrect(h, leaves, c, FrontierOf(h, leaves), 0, c);
  }

  /** For every leaf sequence with room, the frontier walk reaches the root of the full padded tree. */
  lemma WalkReachesRoot(h: Hasher, leaves: seq<Node>, c: Node)
    requires ZerosOk(h) && |leaves| < 65536
    ensures Walk(h, FrontierOf(h, leaves), |leaves|, c, 0).1 == Root(h, leaves + [c]) == NodeAt(h, leaves + [c], 16, 0)
  {
    FrontierInvariant(h, leaves);
    StartWalk(h, leaves, c);
    Pow2To64();
    DivModUnique(|leaves|, MAX_LEAVES, 0, |leaves|);
  }

  lemma EmptyRoot(h: Hasher)
    requires ZerosOk(h)
    ensures Root(h, []) == h.zeros[TREE_DEPTH]
  {
    EmptyNode(h, [], TREE_DEPTH, 0);
  }

  // ---- the root ring ----------------------------------------------------------------------------

  /** The ring after superseding `roots` in order. */
  function RingOf(roots: seq<Node>): (r: seq<Node>)
    ensures |r| == ROOT_HISTORY_SIZE
  {
    if |roots| == 0 then EmptyFrontier(ROOT_HISTORY_SIZE)
    else
      var n := |roots| - 1;
      RingOf(roots[..n])[n % ROOT_HISTORY_SIZE := roots[n]]
  }

  lemma RingPush(roots: seq<Node>, x: Node)
    ensures RingOf(roots + [x]) == RingOf(roots)[|roots| % ROOT_HISTORY_SIZE := x]
  {
    assert (roots + [x])[..|roots|] == roots;
  }

  /** The last 256 superseded roots. */
  function Window(roots: seq<Node>): seq<Node> {
    if |roots| <= ROOT_HISTORY_SIZE then roots else roots[|roots| - ROOT_HISTORY_SIZE..]
  }

  /** The latest position below `n` that lands in slot `j`. */
  function Latest(n: nat, j: nat): (k: nat)
    requires j < ROOT_HISTORY_SIZE && j < n
    ensures k < n && k % ROOT_HISTORY_SIZE == j && n <= k + ROOT_HISTORY_SIZE
  {
    n - 1 - (n - 1 - j) % ROOT_HISTORY_SIZE
  }

  lemma SameSlot(a: nat, b: nat)
    requires a % ROOT_HISTORY_SIZE == b % ROOT_HISTORY_SIZE && a < b + ROOT_HISTORY_SIZE && b < a + ROOT_HISTORY_SIZE
    ensures a == b
  {
    var (p, r) := DivMod(a, ROOT_HISTORY_SIZE);
    var (q, t) := DivMod(b, ROOT_HISTORY_SIZE);
  }

  lemma LatestIs(n: nat, k: nat)
    requires k < n <= k + ROOT_HISTORY_SIZE
    ensures k % ROOT_HISTORY_SIZE < n && Latest(n, k % ROOT_HISTORY_SIZE) == k
  {
    SameSlot(Latest(n, k % ROOT_HISTORY_SIZE), k);
  }

  lemma LatestKeeps(n: nat, j: nat)
    requires j < ROOT_HISTORY_SIZE && j < n && n % ROOT_HISTORY_SIZE != j
    ensures Latest(n + 1, j) == Latest(n, j)
  {
    var k := Latest(n, j);
    if n == k + ROOT_HISTORY_SIZE { DivModUnique(n, ROOT_HISTORY_SIZE, k / ROOT_HISTORY_SIZE + 1, j); }
    LatestIs(n + 1, k);
  }

  lemma {:induction false} RingSlot(roots: seq<Node>, j: nat)
    requires j < ROOT_HISTORY_SIZE
    ensures RingOf(roots)[j] == if j < |roots| then roots[Latest(|roots|, j)] else 0
  {
    if |roots| > 0 {
      var n := |roots| - 1;
      RingSlot(roots[..n], j);
      if n % ROOT_HISTORY_SIZE == j {
        LatestIs(n + 1, n);
      } else if j < n {
        LatestKeeps(n, j);
      } else {
        DivModUnique(n, ROOT_HISTORY_SIZE, 0, n);
      }
    }
  }

  /** A nonzero root sits in the ring exactly when it is among the last 256 superseded roots. */
  lemma RingIsWindow(roots: seq<Node>, x: Node)
    requires x != 0
    ensures x in RingOf(roots) <==> x in Window(roots)
  {
    if x in RingOf(roots) {
      var j :| 0 <= j < ROOT_HISTORY_SIZE && RingOf(roots)[j] == x;
      RingSlot(roots, j);
      InWindow(roots, Latest(|roots|, j));
    }
    if x in Window(roots) {
      var k := WindowPosition(roots, x);
      RingSlot(roots, k % ROOT_HISTORY_SIZE);
      LatestIs(|roots|, k);
    }
  }

  lemma InWindow(roots: seq<Node>, k: nat)
    requires k < |roots| <= k + ROOT_HISTORY_SIZE
    ensures roots[k] in Window(roots)
  {
    assert Window(roots)[k - (|roots| - |Window(roots)|)] == roots[k];
  }

  lemma WindowPosition(roots: seq<Node>, x: Node) returns (k: nat)
    requires x in Window(roots)
    ensures k < |roots| <= k + ROOT_HISTORY_SIZE && roots[k] == x
  {
    var w := Window(roots);
    var i :| 0 <= i < |w| && w[i] == x;
    k := |roots| - |w| + i;
  }

  // ---- the abstract tree and its runs --------------------------------------------------------------

  /** What a tree account stands for: its leaves and the roots it has superseded, oldest first. */
  datatype TreeView = TreeView(leaves: seq<Node>, superseded: seq<Node>)

  const EMPTY_TREE := TreeView([], [])

  predicate AcceptsRoot(h: Hasher, t: TreeView, root: Node) {
    root != 0 && (root == Root(h, t.leaves) || root in Window(t.superseded))
  }

  function Inserted(h: Hasher, t: TreeView, cs: seq<Node>): TreeView {
    TreeView(t.leaves + cs, t.superseded + [Root(h, t.leaves)])
  }

  /** The tree after each instruction of a run, every instruction inserting one non-empty batch. */
  function RunTree(h: Hasher, batches: seq<seq<Node>>): TreeView {
    if |batches| == 0 then EMPTY_TREE
    else Inserted(h, RunTree(h, batches[..|batches| - 1]), batches[|batches| - 1])
  }

  lemma {:induction false} RunSuperseded(h: Hasher, batches: seq<seq<Node>>, k: nat)
    requires k < |batches|
    ensures |RunTree(h, batches).superseded| == |batches|
    ensures RunTree(h, batches).superseded[k] == Root(h, RunTree(h, batches[..k]).leaves)
  {
    var n := |batches| - 1;
    if n > 0 { RunSuperseded(h, batches[..n], if k < n then k else 0); }
    if k < n { assert batches[..n][..k] == batches[..k]; }
  }

  /**
   * After any run of inserts, single or batched, the tree accepts a nonzero root exactly when it
   * was the root after one of the last 256 instructions or is the root now.
   */
  lemma AcceptedRootsOfRun(h: Hasher, batches: seq<seq<Node>>, root: Node)
    requires root != 0
    ensures AcceptsRoot(h, RunTree(h, batches), root) <==>
            exists k :: 0 <= k <= |batches| <= k + 256 && root == Root(h, RunTree(h, batches[..k]).leaves)
  {
    var t, n := RunTree(h, batches), |batches|;
    assert batches[..n] == batches;
    forall k | 0 <= k < n
      ensures |t.superseded| == n && t.superseded[k] == Root(h, RunTree(h, batches[..k]).leaves)
    {
      RunSuperseded(h, batches, k);
    }
    if root in Window(t.superseded) {
      var k := WindowPosition(t.superseded, root);
      assert root == Root(h, RunTree(h, batches[..k]).leaves);
    }
    if k :| 0 <= k <= n <= k + ROOT_HISTORY_SIZE && root == Root(h, RunTree(h, batches[..k]).leaves) {
      if k < n { InWindow(t.superseded, k); }
    }
  }

  /** One-leaf batches for the same commitments. */
  function Singles(cs: seq<Node>): seq<seq<Node>> {
    if |cs| == 0 then [] else Singles(cs[..|cs| - 1]) + [[cs[|cs| - 1]]]
  }

  function RunFrom(h: Hasher, t: TreeView, batches: seq<seq<Node>>): TreeView {
    if |batches| == 0 then t
    else Inserted(h, RunFrom(h, t, batches[..|batches| - 1]), batches[|batches| - 1])
  }

  /** A batch leaves the leaves, and so root and frontier, of the same single inserts, for one history slot. */
  lemma {:induction false} BatchMatchesSingles(h: Hasher, t: TreeView, cs: seq<Node>)
    ensures RunFrom(h, t, Singles(cs)).leaves == Inserted(h, t, cs).leaves
    ensures |RunFrom(h, t, Singles(cs)).superseded| == |t.superseded| + |cs|
    ensures |Inserted(h, t, cs).superseded| == |t.superseded| + 1
    ensures cs != [] ==> RunFrom(h, t, Singles(cs)).superseded[|t.superseded|] == Inserted(h, t, cs).superseded[|t.superseded|]
  {
    if |cs| == 0 {
      assert t.leaves + cs == t.leaves;
    } else {
      var n := |cs| - 1;
      var s := Singles(cs);
      assert s[..|s| - 1] == Singles(cs[..n]);
      BatchMatchesSingles(h, t, cs[..n]);
      assert t.leaves + cs == t.leaves + cs[..n] + [cs[n]];
    }
  }

  /** The 32-bit counter picks the slot of the unbounded count, and keeps doing so when it wraps. */
  lemma SlotOf(n: nat)
    ensures n % U32_RANGE % ROOT_HISTORY_SIZE == n % ROOT_HISTORY_SIZE
    ensures (n % U32_RANGE + 1) % U32_RANGE == (n + 1) % U32_RANGE
  {
    var (q, r) := DivMod(n, U32_RANGE);
    var (p, t) := DivMod(r, ROOT_HISTORY_SIZE);
    DivModUnique(n, ROOT_HISTORY_SIZE, q * 0x100_0000 + p, t);
    if r + 1 < U32_RANGE { DivModUnique(n + 1, U32_RANGE, q, r + 1); }
    else { DivModUnique(n + 1, U32_RANGE, q + 1, 0); }
  }

  // ---- the account ------------------------------------------------------------------------------------

  datatype Outcome<T> = Done(value: T) | TreeFull | EmptyBatch

  class CommitmentTree {
    const hasher: Hasher
    const frontier: array<Node>
    const rootHistory: array<Node>
    var currentRoot: Node
    var nextIndex: nat
    var rootHistoryIndex: nat
    ghost var leaves: seq<Node>
    ghost var superseded: seq<Node>

    /** Everything but the current root matches the leaves appended so far. */
    ghost predicate Consistent()
      reads this, frontier, rootHistory
    {
      && ZerosOk(hasher)
      && frontier.Length == TREE_DEPTH && rootHistory.Length == ROOT_HISTORY_SIZE && frontier != rootHistory
      && nextIndex == |leaves| <= MAX_LEAVES
      && frontier[..] == FrontierOf(hasher, leaves)
      && rootHistory[..] == RingOf(superseded)
      && rootHistoryIndex == |superseded| % U32_RANGE
    }

    ghost predicate Valid()
      reads this, frontier, rootHistory
    {
      Consistent() && currentRoot == Root(hasher, leaves)
    }

    ghost function View(): TreeView
      reads this
    {
      TreeView(leaves, superseded)
    }

    constructor (h: Hasher)
      requires ZerosOk(h)
      ensures Valid() && View() == EMPTY_TREE && hasher == h && fresh(frontier) && fresh(rootHistory)
    {
      hasher := h;
      frontier := new Node[TREE_DEPTH](i => 0);
      rootHistory := new Node[ROOT_HISTORY_SIZE](i => 0);
      currentRoot := h.zeros[TREE_DEPTH];
      nextIndex := 0;
      rootHistoryIndex := 0;
      leaves := [];
      superseded := [];
      new;
      EmptyRoot(h);
    }

    method IsValidRoot(root: Node) returns (valid: bool)
      requires Valid()
      ensures valid <==> AcceptsRoot(hasher, View(), root)
    {
      if root == 0 { return false; }
      if currentRoot == root { return true; }
      RingIsWindow(superseded, root);
      for i := 0 to ROOT_HISTORY_SIZE
        invariant root !in rootHistory[..i]
      {
        if rootHistory[i] == root {
          assert rootHistory[..][i] == root;
          return true;
        }
        assert rootHistory[..i + 1] == rootHistory[..i] + [rootHistory[i]];
      }
      assert rootHistory[..ROOT_HISTORY_SIZE] == rootHistory[..];
      return false;
    }

    method UpdateRoot(newRoot: Node)
      requires Consistent() && newRoot == Root(hasher, leaves)
      modifies this`currentRoot, this`rootHistoryIndex, this`superseded, rootHistory
      ensures Valid() && superseded == old(superseded) + [old(currentRoot)]
    {
      RingPush(superseded, currentRoot);
      SlotOf(|superseded|);
      var slot := rootHistoryIndex % ROOT_HISTORY_SIZE;
      rootHistory[slot] := currentRoot;
      assert rootHistory[..] == old(rootHistory[..])[slot := currentRoot];
      rootHistoryIndex := (rootHistoryIndex + 1) % U32_RANGE;
      superseded := superseded + [currentRoot];
      currentRoot := newRoot;
    }

    method AppendLeaf(commitment: Node) returns (r: Outcome<(Node, nat)>)
      requires Consistent()
      modifies this`nextIndex, this`leaves, frontier
      ensures Consistent()
      ensures r.Done? <==> |old(leaves)| < MAX_LEAVES
      ensures r.Done? ==> leaves == old(leaves) + [commitment] && r.value == (Root(hasher, leaves), |old(leaves)|)
      ensures !r.Done? ==> r.TreeFull? && leaves == old(leaves) && frontier[..] == old(frontier[..])
    {
      var leafIndex := nextIndex;
      if leafIndex >= MAX_LEAVES { return TreeFull; }
      var currentHash := commitment;
      var currentIndex: nat := leafIndex;
      ghost var goal := Walk(hasher, frontier[..], leafIndex, commitment, 0);
      for level := 0 to TREE_DEPTH
        invariant goal == Walk(hasher, frontier[..], currentIndex, currentHash, level)
        invariant rootHistory[..] == old(rootHistory[..]) && leaves == old(leaves)
      {
        ghost var before := frontier[..];
        if currentIndex % 2 == 0 {
          frontier[level] := currentHash;
          assert frontier[..] == before[level := currentHash];
          currentHash := hasher.hash(currentHash, hasher.zeros[level]);
        } else {
          currentHash := hasher.hash(frontier[level], currentHash);
        }
        currentIndex := currentIndex / 2;
      }
      WalkReachesRoot(hasher, leaves, commitment);
      FrontierPush(hasher, leaves, commitment);
      nextIndex := leafIndex + 1;
      leaves := leaves + [commitment];
      return Done((currentHash, leafIndex));
    }

    method InsertLeaf(commitment: Node) returns (r: Outcome<nat>)
      requires Valid()
      modifies this, frontier, rootHistory
      ensures Valid()
      ensures r.Done? <==> |old(leaves)| < MAX_LEAVES
      ensures r.Done? ==> View() == Inserted(hasher, old(View()), [commitment]) && r.value == |old(leaves)|
      ensures !r.Done? ==> r.TreeFull? && View() == old(View())
    {
      var appended := AppendLeaf(commitment);
      if appended.TreeFull? { return TreeFull; }
      UpdateRoot(appended.value.0);
      return Done(appended.value.1);
    }

    /** A batch that overruns the tree fails part-way; the runtime then discards the whole instruction. */
    method InsertLeavesBatch(commitments: seq<Node>) returns (r: Outcome<nat>)
      requires Valid()
      modifies this, frontier, rootHistory
      ensures Consistent()
      ensures r.EmptyBatch? <==> commitments == []
      ensures r.Done? <==> commitments != [] && |old(leaves)| + |commitments| <= MAX_LEAVES
      ensures r.Done? ==> Valid() && View() == Inserted(hasher, old(View()), commitments) && r.value == |old(leaves)|
      ensures r.EmptyBatch? ==> Valid() && View() == old(View())
    {
      if |commitments| == 0 { return EmptyBatch; }
      var firstIndex := nextIndex;
      var root := currentRoot;
      assert leaves == leaves + commitments[..0];
      for i := 0 to |commitments|
        invariant Consistent() && superseded == old(superseded) && currentRoot == old(currentRoot)
        invariant leaves == old(leaves) + commitments[..i]
        invariant i > 0 ==> root == Root(hasher, leaves)
      {
        var appended := AppendLeaf(commitments[i]);
        if appended.TreeFull? { return TreeFull; }
        root := appended.value.0;
        assert old(leaves) + commitments[..i + 1] == old(leaves) + commitments[..i] + [commitments[i]];
      }
      assert commitments[..|commitments|] == commitments;
      UpdateRoot(root);
      return Done(firstIndex);
    }
  }
}
