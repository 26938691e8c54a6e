/** Transaction inclusion against Bitcoin's Merkle tree, which repeats the last node of an odd row. */
module Inclusion {
  import opened Powers
  import opened U256

  type Bytes = seq<u8>

  /** A 32-byte digest. */
  datatype Hash = Hash(bytes: Bytes32)

  /** Double SHA-256. */
  type Digest = Bytes -> Hash

  /** The 64 bytes an inner node hashes. */
  function Pair(left: Hash, right: Hash): (s: Bytes)
    ensures |s| == 64
  {
    left.bytes + right.bytes
  }

  lemma PairInjective(a: Hash, b: Hash, c: Hash, d: Hash)
    requires Pair(a, b) == Pair(c, d)
    ensures a == c && b == d
  {
    assert a.bytes == Pair(a, b)[..32] && c.bytes == Pair(c, d)[..32];
    assert b.bytes == Pair(a, b)[32..] && d.bytes == Pair(c, d)[32..];
  }

  const MAX_PATH: nat := 20

  // ---- the block's tree ---------------------------------------------------------------------

  /** The node paired with node `i` of a row: its neighbour, or itself past an odd end. */
  function RightOf(row: seq<Hash>, i: nat): Hash
    requires 2 * i < |row|
  {
    if 2 * i + 1 < |row| then row[2 * i + 1] else row[2 * i]
  }

  /** The 64 bytes hashed into node `i` of the row above. */
  function PairAt(row: seq<Hash>, i: nat): (s: Bytes)
    requires 2 * i < |row|
    ensures |s| == 64
  {
    Pair(row[2 * i], RightOf(row, i))
  }

  function Up(h: Digest, row: seq<Hash>): (up: seq<Hash>)
    ensures |up| == (|row| + 1) / 2
  {
    UpTo(h, row, (|row| + 1) / 2)
  }

  function UpTo(h: Digest, row: seq<Hash>, n: nat): (up: seq<Hash>)
    requires 2 * n <= |row| + 1
    ensures |up| == n
  {
    if n == 0 then [] else UpTo(h, row, n - 1) + [h(PairAt(row, n - 1))]
  }

  lemma {:induction false} UpToAt(h: Digest, row: seq<Hash>, n: nat, i: nat)
    requires 2 * n <= |row| + 1 && i < n
    ensures UpTo(h, row, n)[i] == h(PairAt(row, i))
  {
    if i < n - 1 { UpToAt(h, row, n - 1, i); }
  }

  lemma UpAt(h: Digest, row: seq<Hash>, i: nat)
    requires 2 * i < |row|
    ensures Up(h, row)[i] == h(PairAt(row, i))
  {
    UpToAt(h, row, (|row| + 1) / 2, i);
  }

  /** Bitcoin's Merkle root of a non-empty row of transaction ids. */
  function MerkleRoot(h: Digest, row: seq<Hash>): Hash
    requires |row| > 0
    decreases |row|
  {
    if |row| == 1 then row[0] else MerkleRoot(h, Up(h, row))
  }

  function TxIds(h: Digest, block: seq<Bytes>): (ids: seq<Hash>)
    ensures |ids| == |block| && forall i :: 0 <= i < |ids| ==> ids[i] == h(block[i])
  {
    if |block| == 0 then [] else TxIds(h, block[..|block| - 1]) + [h(block[|block| - 1])]
  }

  function Row(h: Digest, ids: seq<Hash>, level: nat): seq<Hash> {
    if level == 0 then ids else Up(h, Row(h, ids, level - 1))
  }

  function Height(n: nat): nat {
    if n <= 1 then 0 else 1 + Height((n + 1) / 2)
  }

  lemma {:induction false} RowShift(h: Digest, ids: seq<Hash>, level: nat)
    ensures Row(h, Up(h, ids), level) == Row(h, ids, level + 1)
  {
    if level > 0 { RowShift(h, ids, level - 1); }
  }

  lemma {:induction false} RootIsTopRow(h: Digest, ids: seq<Hash>)
    requires |ids| > 0
    ensures Row(h, ids, Height(|ids|)) == [MerkleRoot(h, ids)]
    decreases |ids|
  {
    if |ids| > 1 {
      RootIsTopRow(h, Up(h, ids));
      RowShift(h, ids, Height((|ids| + 1) / 2));
    }
  }

  // ---- the path -----------------------------------------------------------------------------------

  /** The two hashes joined at step `k`, in the order bit `k` of the path selects. */
  function PathPair(h: Digest, txid: Hash, siblings: seq<Hash>, bits: nat, k: nat): (s: Bytes)
    requires k < |siblings|
    ensures |s| == 64
    decreases k, 1
  {
    var current := PathNode(h, txid, siblings, bits, k);
    if (bits / Pow2(k)) % 2 == 1 then Pair(siblings[k], current) else Pair(current, siblings[k])
  }

  /** The hash after `k` steps. */
  function PathNode(h: Digest, txid: Hash, siblings: seq<Hash>, bits: nat, k: nat): Hash
    requires k <= |siblings|
    decreases k, 0
  {
    if k == 0 then txid else h(PathPair(h, txid, siblings, bits, k - 1))
  }

  /** What the program accepts as proof that `raw` is in the block with Merkle root `root`. */
  predicate Accepts(h: Digest, raw: Bytes, siblings: seq<Hash>, bits: u32, root: Hash) {
    && |siblings| <= MAX_PATH && |raw| != 64
    && PathNode(h, h(raw), siblings, bits, |siblings|) == root
  }

  method VerifyPath(h: Digest, raw: Bytes, siblings: seq<Hash>, bits: u32, root: Hash) returns (ok: bool)
    ensures ok <==> Accepts(h, raw, siblings, bits, root)
    ensures ok ==> |siblings| <= 20 && |raw| != 64
  {
    if |siblings| > MAX_PATH { return false; }
    if |raw| == 64 { return false; }
    var txid := h(raw);
    var current := txid;
    for i := 0 to |siblings|
      invariant current == PathNode(h, txid, siblings, bits, i)
    {
      var sibling := siblings[i];
      var isRight := (bits / Pow2(i)) % 2 == 1;
      current := if isRight then h(Pair(sibling, current)) else h(Pair(current, sibling));
    }
    return current == root;
  }

  // ---- soundness --------------------------------------------------------------------------------------

  /** No two different strings among `inputs` collide. */
  ghost predicate CollisionFree(h: Digest, inputs: iset<Bytes>) {
    forall s, t :: s in inputs && t in inputs && h(s) == h(t) ==> s == t
  }

  /** `inputs` holds every string hashed while building the block's tree, up to its root, and while checking the path. */
  ghost predicate Covers(h: Digest, block: seq<Bytes>, raw: Bytes, siblings: seq<Hash>, bits: nat, inputs: iset<Bytes>) {
    && (forall level: nat, i: nat :: level <= Height(|block|) && i < |Row(h, TxIds(h, block), level)| ==>
          NodeString(h, block, level, i) in inputs)
    && (forall k: nat :: k <= |siblings| ==> StepString(h, raw, siblings, bits, k) in inputs)
  }

  /** The string whose hash is node `i` of a row. */
  function NodeString(h: Digest, block: seq<Bytes>, level: nat, i: nat): Bytes
    requires i < |Row(h, TxIds(h, block), level)|
  {
    if level == 0 then block[i] else PairAt(Row(h, TxIds(h, block), level - 1), i)
  }

  lemma NodeStringHash(h: Digest, block: seq<Bytes>, level: nat, i: nat)
    requires i < |Row(h, TxIds(h, block), level)|
    ensures h(NodeString(h, block, level, i)) == Row(h, TxIds(h, block), level)[i]
  {
    if level > 0 { UpAt(h, Row(h, TxIds(h, block), level - 1), i); }
  }

  /** The string whose hash is the path's value after `k` steps. */
  function StepString(h: Digest, raw: Bytes, siblings: seq<Hash>, bits: nat, k: nat): Bytes
    requires k <= |siblings|
  {
    if k == 0 then raw else PathPair(h, h(raw), siblings, bits, k - 1)
  }

  /** A path value found in a row was hashed from the same string as that node. */
  lemma SameString(h: Digest, block: seq<Bytes>, raw: Bytes, siblings: seq<Hash>, bits: nat,
                   inputs: iset<Bytes>, k: nat, level: nat) returns (i: nat)
    requires CollisionFree(h, inputs) && Covers(h, block, raw, siblings, bits, inputs)
    requires k <= |siblings| && level <= Height(|block|)
    requires PathNode(h, h(raw), siblings, bits, k) in Row(h, TxIds(h, block), level)
    ensures i < |Row(h, TxIds(h, block), level)|
    ensures StepString(h, raw, siblings, bits, k) == NodeString(h, block, level, i)
  {
    i :| 0 <= i < |Row(h, TxIds(h, block), level)|
         && Row(h, TxIds(h, block), level)[i] == PathNode(h, h(raw), siblings, bits, k);
    NodeStringHash(h, block, level, i);
    assert h(StepString(h, raw, siblings, bits, k)) == h(NodeString(h, block, level, i));
  }

  /** Equal inner strings put the path's previous value among the two children. */
  lemma ChildOf(h: Digest, raw: Bytes, siblings: seq<Hash>, bits: nat, k: nat, row: seq<Hash>, i: nat)
    requires k < |siblings| && 2 * i < |row| && PathPair(h, h(raw), siblings, bits, k) == PairAt(row, i)
    ensures PathNode(h, h(raw), siblings, bits, k) in row
  {
    var current := PathNode(h, h(raw), siblings, bits, k);
    if (bits / Pow2(k)) % 2 == 1 {
      PairInjective(siblings[k], current, row[2 * i], RightOf(row, i));
    } else {
      PairInjective(current, siblings[k], row[2 * i], RightOf(row, i));
    }
  }

  /** Only a leaf can match a leaf: inner strings are 64 bytes and transactions are not. */
  lemma LeafOrInner(h: Digest, block: seq<Bytes>, raw: Bytes, siblings: seq<Hash>, bits: nat, k: nat, level: nat, i: nat)
    requires |raw| != 64 && (forall j :: 0 <= j < |block| ==> |block[j]| != 64)
    requires k <= |siblings| && i < |Row(h, TxIds(h, block), level)|
    requires StepString(h, raw, siblings, bits, k) == NodeString(h, block, level, i)
    ensures k == 0 <==> level == 0
    ensures k == 0 ==> raw in block
    ensures k > 0 ==> 2 * i < |Row(h, TxIds(h, block), level - 1)|
    ensures k > 0 ==> PathPair(h, h(raw), siblings, bits, k - 1) == PairAt(Row(h, TxIds(h, block), level - 1), i)
  {}

  /** Descending from a match at path step `k` and tree row `level` ends at the transaction itself. */
  lemma {:induction false} Descend(h: Digest, block: seq<Bytes>, raw: Bytes, siblings: seq<Hash>, bits: nat,
                                   inputs: iset<Bytes>, k: nat, level: nat)
    requires |raw| != 64 && (forall i :: 0 <= i < |block| ==> |block[i]| != 64)
    requires CollisionFree(h, inputs) && Covers(h, block, raw, siblings, bits, inputs)
    requires k <= |siblings| && level <= Height(|block|)
    requires PathNode(h, h(raw), siblings, bits, k) in Row(h, TxIds(h, block), level)
    ensures raw in block
    decreases k
  {
    var i := SameString(h, block, raw, siblings, bits, inputs, k, level);
    LeafOrInner(h, block, raw, siblings, bits, k, level, i);
    if k > 0 {
      ChildOf(h, raw, siblings, bits, k - 1, Row(h, TxIds(h, block), level - 1), i);
      Descend(h, block, raw, siblings, bits, inputs, k - 1, level - 1);
    }
  }

  /** An accepted path, of whatever length, means the transaction is in the block. */
  lemma InclusionSound(h: Digest, block: seq<Bytes>, raw: Bytes, siblings: seq<Hash>, bits: u32, inputs: iset<Bytes>)
    requires |block| > 0 && forall i :: 0 <= i < |block| ==> |block[i]| != 64
    requires CollisionFree(h, inputs) && Covers(h, block, raw, siblings, bits, inputs)
    requires Accepts(h, raw, siblings, bits, MerkleRoot(h, TxIds(h, block)))
    ensures raw in block
  {
    RootIsTopRow(h, TxIds(h, block));
    Descend(h, block, raw, siblings, bits, inputs, |siblings|, Height(|block|));
  }

  // ---- completeness ------------------------------------------------------------------------------------

  /** The sibling of node `i` in a row: the other child of its parent, itself past an odd end. */
  function SiblingOf(row: seq<Hash>, i: nat): Hash
    requires i < |row|
  {
    if i % 2 == 1 then row[i - 1] else RightOf(row, i / 2)
  }

  function Ancestor(i: nat, level: nat): nat {
    i / Pow2(level)
  }

  lemma AncestorStep(i: nat, level: nat)
    ensures Ancestor(i, level + 1) == Ancestor(i, level) / 2
  {
    DivDiv(i, Pow2(level), 2);
  }

  lemma {:induction false} AncestorInRow(h: Digest, ids: seq<Hash>, i: nat, level: nat)
    requires i < |ids|
    ensures Ancestor(i, level) < |Row(h, ids, level)|
  {
    if level == 0 {
      DivModUnique(i, 1, i, 0);
    } else {
      AncestorStep(i, level - 1);
      AncestorInRow(h, ids, i, level - 1);
    }
  }

  /** The path an honest prover sends for transaction `i`. */
  function HonestPath(h: Digest, ids: seq<Hash>, i: nat, n: nat): (siblings: seq<Hash>)
    requires i < |ids|
    ensures |siblings| == n
  {
    if n == 0 then [] else
    AncestorInRow(h, ids, i, n - 1);
    HonestPath(h, ids, i, n - 1) + [SiblingOf(Row(h, ids, n - 1), Ancestor(i, n - 1))]
  }

  lemma {:induction false} HonestSibling(h: Digest, ids: seq<Hash>, i: nat, n: nat, k: nat)
    requires i < |ids| && k < n
    ensures Ancestor(i, k) < |Row(h, ids, k)|
    ensures HonestPath(h, ids, i, n)[k] == SiblingOf(Row(h, ids, k), Ancestor(i, k))
  {
    AncestorInRow(h, ids, i, k);
    if k < n - 1 { HonestSibling(h, ids, i, n - 1, k); }
  }

  lemma {:induction false} HonestClimb(h: Digest, ids: seq<Hash>, i: nat, n: nat, k: nat)
    requires i < |ids| && k <= n
    ensures Ancestor(i, k) < |Row(h, ids, k)|
    ensures PathNode(h, ids[i], HonestPath(h, ids, i, n), i, k) == Row(h, ids, k)[Ancestor(i, k)]
    decreases k
  {
    AncestorInRow(h, ids, i, k);
    if k == 0 {
      DivModUnique(i, 1, i, 0);
    } else {
      HonestClimb(h, ids, i, n, k - 1);
      HonestSibling(h, ids, i, n, k - 1);
      AncestorStep(i, k - 1);
      HonestStep(h, Row(h, ids, k - 1), Ancestor(i, k - 1));
    }
  }

  lemma HonestStep(h: Digest, row: seq<Hash>, a: nat)
    requires a < |row|
    ensures a / 2 < |Up(h, row)|
    ensures Up(h, row)[a / 2] == if a % 2 == 1 then h(Pair(SiblingOf(row, a), row[a])) else h(Pair(row[a], SiblingOf(row, a)))
  {
    UpAt(h, row, a / 2);
  }

  lemma {:induction false} HeightBound(n: nat, e: nat)
    requires n <= Pow2(e)
    ensures Height(n) <= e
    decreases n
  {
    if n > 1 {
      assert e > 0;
      HeightBound((n + 1) / 2, e - 1);
    }
  }

  lemma TopAncestor(h: Digest, ids: seq<Hash>, i: nat)
    requires i < |ids|
    ensures Ancestor(i, Height(|ids|)) == 0 && Row(h, ids, Height(|ids|)) == [MerkleRoot(h, ids)]
  {
    RootIsTopRow(h, ids);
    AncestorInRow(h, ids, i, Height(|ids|));
  }

  /**
   * In a block of up to 2^20 transactions the honest path of every transaction, odd tails included,
   * is accepted exactly when the transaction is not 64 bytes long.
   */
  lemma InclusionComplete(h: Digest, block: seq<Bytes>, i: nat)
    requires i < |block| <= Pow2(20)
    ensures i < 0x1_0000_0000
    ensures Accepts(h, block[i], HonestPath(h, TxIds(h, block), i, Height(|block|)), i, MerkleRoot(h, TxIds(h, block)))
            <==> |block[i]| != 64
  {
    Pow2To64();
    Pow2Mono(MAX_PATH, 32);
    HeightBound(|block|, MAX_PATH);
    HonestClimb(h, TxIds(h, block), i, Height(|block|), Height(|block|));
    TopAncestor(h, TxIds(h, block), i);
  }

  // ---- the assumptions of soundness can be met -----------------------------------------------------------

  /** The strings hashed for the block itself. */
  ghost function BlockStrings(h: Digest, block: seq<Bytes>): iset<Bytes> {
    iset level: nat, i: nat | level <= Height(|block|) && i < |Row(h, TxIds(h, block), level)| :: NodeString(h, block, level, i)
  }

  /** Each step of an honest path hashes the string of some node of that row. */
  lemma HonestString(h: Digest, block: seq<Bytes>, i: nat, n: nat, k: nat) returns (a: nat)
    requires i < |block| && k <= n
    ensures a < |Row(h, TxIds(h, block), k)|
    ensures StepString(h, block[i], HonestPath(h, TxIds(h, block), i, n), i, k) == NodeString(h, block, k, a)
  {
    if k == 0 {
      a := i;
    } else {
      a := HonestInner(h, TxIds(h, block), i, n, k - 1);
    }
  }

  lemma HonestInner(h: Digest, ids: seq<Hash>, i: nat, n: nat, k: nat) returns (a: nat)
    requires i < |ids| && k < n
    ensures 2 * a < |Row(h, ids, k)|
    ensures PathPair(h, ids[i], HonestPath(h, ids, i, n), i, k) == PairAt(Row(h, ids, k), a)
  {
    HonestPairing(h, ids, i, n, k);
    HonestPair(Row(h, ids, k), Ancestor(i, k));
    a := Ancestor(i, k) / 2;
  }

  lemma HonestPair(row: seq<Hash>, a: nat)
    requires a < |row|
    ensures PairAt(row, a / 2) == if a % 2 == 1 then Pair(SiblingOf(row, a), row[a]) else Pair(row[a], SiblingOf(row, a))
  {}

  lemma HonestPairing(h: Digest, ids: seq<Hash>, i: nat, n: nat, k: nat)
    requires i < |ids| && k < n
    ensures Ancestor(i, k) < |Row(h, ids, k)|
    ensures var row, a := Row(h, ids, k), Ancestor(i, k);
            PathPair(h, ids[i], HonestPath(h, ids, i, n), i, k)
            == if a % 2 == 1 then Pair(SiblingOf(row, a), row[a]) else Pair(row[a], SiblingOf(row, a))
  {
    HonestClimb(h, ids, i, n, k);
    HonestSibling(h, ids, i, n, k);
  }

  /** An honest path hashes nothing but the block's own strings, so it is covered by them. */
  lemma HonestCovered(h: Digest, block: seq<Bytes>, i: nat)
    requires i < |block|
    ensures Covers(h, block, block[i], HonestPath(h, TxIds(h, block), i, Height(|block|)), i, BlockStrings(h, block))
  {
    var n := Height(|block|);
    var siblings := HonestPath(h, TxIds(h, block), i, n);
    forall k: nat | k <= |siblings| ensures StepString(h, block[i], siblings, i, k) in BlockStrings(h, block) {
      var a := HonestString(h, block, i, n, k);
    }
  }

  /** A block of one transaction meets every assumption of soundness, whatever the hash. */
  lemma OneTransactionBlock(h: Digest, raw: Bytes)
    requires |raw| != 64
    ensures CollisionFree(h, iset{raw}) && Covers(h, [raw], raw, [], 0, iset{raw})
    ensures Accepts(h, raw, [], 0, MerkleRoot(h, TxIds(h, [raw])))
  {
    assert Height(1) == 0 && Row(h, TxIds(h, [raw]), 0) == TxIds(h, [raw]);
  }
}
