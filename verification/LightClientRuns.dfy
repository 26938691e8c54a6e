/** Whole runs of the light client: the index as a path, the heaviest tip, finality and attestations. */
module LightClientRuns {
  import opened Powers
  import opened U256
  import opened ProofOfWork
  import opened Difficulty
  import opened LightClients
  import opened BlockTrees
  import Inclusion

  datatype Step =
    | ExtendStep(clock: int, raws: seq<RawHeader>, ancestors: seq<BlockHash>)
    | PruneStep(hash: BlockHash)
    | AttestStep(clock: int, blockHash: BlockHash, proof: Proof)

  function Apply(x: Chain, sha: Inclusion.Digest, s: State, step: Step): Result<State> {
    match step
    case ExtendStep(clock, raws, ancestors) => Extend(s, x.rules, clock, raws, ancestors)
    case PruneStep(hash) => Prune(s, hash)
    case AttestStep(clock, blockHash, proof) => Attest(s, sha, clock, blockHash, proof)
  }

  /** A failing instruction leaves the state as it was. */
  function After(x: Chain, sha: Inclusion.Digest, s: State, step: Step): State {
    match Apply(x, sha, s, step)
    case Err(_) => s
    case Ok(t) => t
  }

  /** The accounts, with every header ever written. */
  datatype Trace = Trace(state: State, ever: Headers)

  function Next(x: Chain, sha: Inclusion.Digest, t: Trace, step: Step): Trace {
    var s := After(x, sha, t.state, step);
    Trace(s, t.ever + s.headers)
  }

  function Run(x: Chain, sha: Inclusion.Digest, steps: seq<Step>): Trace
    requires Initial(x.seed).Ok?
  {
    if |steps| == 0 then Trace(Initial(x.seed).value, Initial(x.seed).value.headers)
    else Next(x, sha, Run(x, sha, steps[..|steps| - 1]), steps[|steps| - 1])
  }

  ghost predicate StepOk(x: Chain, step: Step) {
    (step.ExtendStep? ==> Submitted(x, step.raws)) && (step.AttestStep? ==> step.proof in x.proofs)
  }

  ghost predicate StepsOk(x: Chain, steps: seq<Step>) {
    forall i :: 0 <= i < |steps| ==> StepOk(x, steps[i])
  }

  // ---- what every reachable state satisfies ------------------------------------------------------

  /** An index entry names a stored header of that height, and the heights below it are indexed too. */
  ghost predicate EntryOk(x: Chain, s: State, n: nat)
    requires n in s.index
  {
    && s.index[n] in s.headers
    && s.headers[s.index[n]].height == n
    && x.seed.startHeight <= n
    && (x.seed.startHeight < n ==> n - 1 in s.index)
  }

  ghost predicate IndexOk(x: Chain, s: State) {
    && x.seed.startHeight in s.index && s.index[x.seed.startHeight] == x.seed.startHash
    && (forall n {:trigger EntryOk(x, s, n)} :: n in s.index ==> EntryOk(x, s, n))
  }

  ghost predicate ClientOk(x: Chain, s: State) {
    var c := s.client;
    && c.network == x.seed.network && c.genesisHash == x.seed.startHash
    && c.tipHeight in s.index && s.index[c.tipHeight] == c.tipHash
    && c.tipHash in s.headers && c.totalChainwork == s.headers[c.tipHash].chainwork
    && c.finalizedHeight <= c.tipHeight
    && (!Production(x.seed.network) ==> c.expectedBits == x.seed.initialBits && c.epochStartTime == x.seed.epochStart)
  }

  /** Some accepted path leads from a transaction with this id to the root. */
  ghost predicate Included(x: Chain, sha: Inclusion.Digest, txid: Inclusion.Hash, root: Inclusion.Hash) {
    exists proof :: proof in x.proofs && sha(proof.raw) == txid && Inclusion.Accepts(sha, proof.raw, proof.siblings, proof.bits, root)
  }

  /** An attestation is for a stored, finalized, indexed block that includes the transaction. */
  ghost predicate AttestedOk(x: Chain, sha: Inclusion.Digest, s: State, key: (BlockHash, Inclusion.Hash)) {
    && key.0 in s.headers
    && var b := s.headers[key.0];
    && b.height <= s.client.finalizedHeight
    && b.height in s.index && s.index[b.height] == key.0
    && Included(x, sha, key.1, b.raw.merkleRoot)
  }

  ghost predicate AttestationsOk(x: Chain, sha: Inclusion.Digest, s: State) {
    forall key {:trigger AttestedOk(x, sha, s, key)} :: key in s.attested ==> AttestedOk(x, sha, s, key)
  }

  ghost predicate Inv(x: Chain, sha: Inclusion.Digest, t: Trace) {
    && TreeOk(x, t.ever) && Within(t.state.headers, t.ever)
    && IndexOk(x, t.state) && ClientOk(x, t.state) && AttestationsOk(x, sha, t.state)
  }

  // ---- extend ------------------------------------------------------------------------------------

  ghost predicate Chosen(x: Chain, s: State, raws: seq<RawHeader>)
  {
    && 0 < |raws| && ParentOf(s, raws).Ok?
    && BatchWork(x.rules, ParentOf(s, raws).value.chainwork, raws, |raws|) > s.client.totalChainwork
  }

  /** A batch heavy enough to be promoted that ends below the current tip. */
  ghost predicate Shortens(x: Chain, s: State, raws: seq<RawHeader>) {
    Chosen(x, s, raws) && ParentOf(s, raws).value.height + |raws| < s.client.tipHeight
  }

  /** A successful batch, taken apart. */
  ghost predicate Extended(x: Chain, t: Trace, raws: seq<RawHeader>, parent: BlockHeader, base: Cursor, end: Cursor, s: State) {
    && 0 < |raws| && ParentOf(t.state, raws) == Ok(parent)
    && base == At(parent, base.window)
    && BatchOk(x, t.ever, base, t.state.headers, raws, |raws|, s.headers, end)
    && Settle(t.state, x.rules, raws, parent, end, s.headers) == Ok(s)
  }

  lemma ExtendParts(x: Chain, sha: Inclusion.Digest, t: Trace, clock: int, raws: seq<RawHeader>, ancestors: seq<BlockHash>)
    returns (parent: BlockHeader, base: Cursor, end: Cursor)
    requires SeedOk(x) && Inv(x, sha, t) && Submitted(x, raws)
    requires Extend(t.state, x.rules, clock, raws, ancestors).Ok?
    ensures Extended(x, t, raws, parent, base, end, Extend(t.state, x.rules, clock, raws, ancestors).value)
  {
    parent := ParentOf(t.state, raws).value;
    var window := StartWindow(t.state, parent, ancestors).value;
    base := StartCursor(t.state.client, parent, window);
    assert LinkOk(x, t.ever, parent.blockHash);
    assert CursorAt(x, t.ever, base) by {
      if Production(x.seed.network) { StartWindowExact(x, t.state, t.ever, parent, ancestors); }
    }
    BatchGrows(x, t.ever, clock, base, t.state.headers, raws, |raws|);
    end := Batch(x.seed.network, x.rules, clock, base, t.state.headers, raws, |raws|).value.0;
  }

  lemma {:induction false} ReindexAt(rules: Rules, index: map<nat, BlockHash>, base: nat, raws: seq<RawHeader>, k: nat, n: nat)
    requires k <= |raws|
    ensures var r := Reindex(rules, index, base, raws, k);
            && (n in r <==> n in index || base < n <= base + k)
            && (n in r ==> r[n] == if base < n <= base + k then rules.hash(raws[n - base - 1]) else index[n])
    decreases k
  {
    if k > 0 { ReindexAt(rules, index, base, raws, k - 1, n); }
  }

  /** The index after a batch: either as it was, or rewritten above a parent the old index names. */
  ghost predicate Reindexed(x: Chain, s: State, base: Cursor, raws: seq<RawHeader>, t: State) {
    && Within(s.headers, t.headers)
    && x.seed.startHeight <= base.height && base.height in s.index && s.index[base.height] == base.prevHash
    && (forall i {:trigger StoredAt(x, base, raws, i, t.headers)} :: 0 <= i < |raws| ==> StoredAt(x, base, raws, i, t.headers))
    && t.index == Reindex(x.rules, s.index, base.height, raws, |raws|)
  }

  lemma ExtendedIndex(x: Chain, sha: Inclusion.Digest, t: Trace, raws: seq<RawHeader>, parent: BlockHeader, base: Cursor, end: Cursor, s: State)
    requires SeedOk(x) && Inv(x, sha, t) && Extended(x, t, raws, parent, base, end, s)
    ensures Within(t.state.headers, s.headers)
    ensures if end.chainwork > t.state.client.totalChainwork then Reindexed(x, t.state, base, raws, s) else s.index == t.state.index
  {
    HeightFromStart(x, t.ever, parent.blockHash);
  }

  lemma ExtendKeepsIndex(x: Chain, sha: Inclusion.Digest, t: Trace, raws: seq<RawHeader>, parent: BlockHeader, base: Cursor, end: Cursor, s: State)
    requires SeedOk(x) && Inv(x, sha, t) && Extended(x, t, raws, parent, base, end, s)
    ensures IndexOk(x, s)
  {
    ExtendedIndex(x, sha, t, raws, parent, base, end, s);
    if end.chainwork > t.state.client.totalChainwork {
      forall n | n in s.index ensures EntryOk(x, s, n) { EntryKept(x, t.state, base, raws, s, n); }
      ReindexAt(x.rules, t.state.index, base.height, raws, |raws|, x.seed.startHeight);
    } else {
      forall n | n in s.index ensures EntryOk(x, s, n) { assert EntryOk(x, t.state, n); }
    }
  }

  lemma EntryKept(x: Chain, s: State, base: Cursor, raws: seq<RawHeader>, t: State, n: nat)
    requires IndexOk(x, s) && Reindexed(x, s, base, raws, t) && n in t.index
    ensures EntryOk(x, t, n)
  {
    ReindexAt(x.rules, s.index, base.height, raws, |raws|, n);
    if n > 0 { ReindexAt(x.rules, s.index, base.height, raws, |raws|, n - 1); }
    if base.height < n <= base.height + |raws| {
      assert StoredAt(x, base, raws, n - base.height - 1, t.headers);
    } else {
      assert EntryOk(x, s, n);
    }
  }

  lemma ExtendKeepsClient(x: Chain, sha: Inclusion.Digest, t: Trace, raws: seq<RawHeader>, parent: BlockHeader, base: Cursor, end: Cursor, s: State)
    requires SeedOk(x) && Inv(x, sha, t) && Extended(x, t, raws, parent, base, end, s)
    ensures ClientOk(x, s)
  {
    if end.chainwork > t.state.client.totalChainwork {
      ReindexAt(x.rules, t.state.index, parent.height, raws, |raws|, end.height);
    }
  }

  /** What an instruction never takes back. */
  ghost predicate Keeps(s: State, t: State) {
    && s.client.finalizedHeight <= t.client.finalizedHeight
    && (forall n :: n in s.index && n <= s.client.finalizedHeight ==> n in t.index && t.index[n] == s.index[n])
    && (forall key :: key in s.attested ==> key in t.attested && t.attested[key] == s.attested[key])
  }

  lemma ExtendKeeps(x: Chain, t: Trace, raws: seq<RawHeader>, parent: BlockHeader, base: Cursor, end: Cursor, s: State)
    requires Extended(x, t, raws, parent, base, end, s)
    ensures Keeps(t.state, s) && s.attested == t.state.attested
  {
    if end.chainwork > t.state.client.totalChainwork {
      forall n | n in t.state.index && n <= t.state.client.finalizedHeight ensures n in s.index && s.index[n] == t.state.index[n] {
        ReindexAt(x.rules, t.state.index, parent.height, raws, |raws|, n);
      }
    }
  }

  lemma ExtendInv(x: Chain, sha: Inclusion.Digest, t: Trace, raws: seq<RawHeader>, parent: BlockHeader, base: Cursor, end: Cursor, s: State)
    requires SeedOk(x) && Inv(x, sha, t) && Extended(x, t, raws, parent, base, end, s)
    ensures Inv(x, sha, Trace(s, t.ever + s.headers))
  {
    ExtendKeepsIndex(x, sha, t, raws, parent, base, end, s);
    ExtendKeepsClient(x, sha, t, raws, parent, base, end, s);
    ExtendKeeps(x, t, raws, parent, base, end, s);
    forall key | key in s.attested ensures AttestedOk(x, sha, s, key) {
      assert AttestedOk(x, sha, t.state, key);
    }
  }

  // ---- prune and attest ----------------------------------------------------------------------------

  lemma PruneInv(x: Chain, sha: Inclusion.Digest, t: Trace, hash: BlockHash)
    requires Inv(x, sha, t) && Prune(t.state, hash).Ok?
    ensures Inv(x, sha, Trace(Prune(t.state, hash).value, t.ever))
  {
    var s := Prune(t.state, hash).value;
    forall n | n in s.index ensures EntryOk(x, s, n) {
      assert EntryOk(x, t.state, n);
    }
    assert EntryOk(x, t.state, t.state.client.tipHeight);
    forall key | key in s.attested ensures AttestedOk(x, sha, s, key) {
      assert AttestedOk(x, sha, t.state, key);
    }
  }

  lemma AttestInv(x: Chain, sha: Inclusion.Digest, t: Trace, clock: int, blockHash: BlockHash, proof: Proof)
    requires Inv(x, sha, t) && Attest(t.state, sha, clock, blockHash, proof).Ok? && proof in x.proofs
    ensures Inv(x, sha, Trace(Attest(t.state, sha, clock, blockHash, proof).value, t.ever))
  {
    var s := Attest(t.state, sha, clock, blockHash, proof).value;
    forall n | n in s.index ensures EntryOk(x, s, n) {
      assert EntryOk(x, t.state, n);
    }
    forall key | key in s.attested ensures AttestedOk(x, sha, s, key) {
      if key in t.state.attested { assert AttestedOk(x, sha, t.state, key); }
    }
  }

  // ---- every reachable state -------------------------------------------------------------------------

  lemma NothingNew(ever: Headers, headers: Headers)
    requires Within(headers, ever)
    ensures ever + headers == ever
  {}

  lemma StepInv(x: Chain, sha: Inclusion.Digest, t: Trace, step: Step)
    requires SeedOk(x) && Inv(x, sha, t) && StepOk(x, step)
    ensures Inv(x, sha, Next(x, sha, t, step))
    ensures Keeps(t.state, Next(x, sha, t, step).state) && Within(t.ever, Next(x, sha, t, step).ever)
  {
    NothingNew(t.ever, t.state.headers);
    if Apply(x, sha, t.state, step).Ok? {
      var s := Apply(x, sha, t.state, step).value;
      match step {
        case ExtendStep(clock, raws, ancestors) =>
          var parent, base, end := ExtendParts(x, sha, t, clock, raws, ancestors);
          ExtendInv(x, sha, t, raws, parent, base, end, s);
          ExtendKeeps(x, t, raws, parent, base, end, s);
        case PruneStep(hash) =>
          PruneInv(x, sha, t, hash);
          NothingNew(t.ever, s.headers);
        case AttestStep(clock, blockHash, proof) =>
          AttestInv(x, sha, t, clock, blockHash, proof);
          NothingNew(t.ever, s.headers);
      }
    }
  }

  lemma InitialInv(x: Chain, sha: Inclusion.Digest)
    requires SeedOk(x)
    ensures Inv(x, sha, Run(x, sha, []))
  {
    GenesisTree(x);
    var s := Initial(x.seed).value;
    assert EntryOk(x, s, x.seed.startHeight);
  }

  /** Every reachable state satisfies the invariant. */
  lemma {:induction false} RunInv(x: Chain, sha: Inclusion.Digest, steps: seq<Step>)
    requires SeedOk(x) && StepsOk(x, steps)
    ensures Inv(x, sha, Run(x, sha, steps))
  {
    if |steps| == 0 {
      InitialInv(x, sha);
    } else {
      RunInv(x, sha, steps[..|steps| - 1]);
      StepInv(x, sha, Run(x, sha, steps[..|steps| - 1]), steps[|steps| - 1]);
    }
  }

  /** Finality: between any two moments of a run nothing at or below the earlier line changes. */
  lemma {:induction false} FinalityHolds(x: Chain, sha: Inclusion.Digest, steps: seq<Step>, i: nat)
    requires SeedOk(x) && StepsOk(x, steps) && i <= |steps|
    ensures Keeps(Run(x, sha, steps[..i]).state, Run(x, sha, steps).state)
    ensures Run(x, sha, steps).state.client.finalizedHeight <= Run(x, sha, steps).state.client.tipHeight
    decreases |steps|
  {
    RunInv(x, sha, steps);
    if i == |steps| {
      assert steps[..i] == steps;
    } else {
      var before := steps[..|steps| - 1];
      FinalityHolds(x, sha, before, i);
      assert before[..i] == steps[..i];
      RunInv(x, sha, before);
      StepInv(x, sha, Run(x, sha, before), steps[|steps| - 1]);
    }
  }

  /** A block once attested stays stored and indexed, and the transaction really is on an accepted path. */
  lemma AttestedForever(x: Chain, sha: Inclusion.Digest, steps: seq<Step>, i: nat, key: (BlockHash, Inclusion.Hash))
    requires SeedOk(x) && StepsOk(x, steps) && i <= |steps| && key in Run(x, sha, steps[..i]).state.attested
    ensures key in Run(x, sha, steps).state.attested && AttestedOk(x, sha, Run(x, sha, steps).state, key)
  {
    FinalityHolds(x, sha, steps, i);
    RunInv(x, sha, steps);
    assert key in Run(x, sha, steps).state.attested;
  }

  /** Nothing hashed for the block or for a submitted proof collides. */
  ghost predicate ProofsSound(x: Chain, sha: Inclusion.Digest, block: seq<Inclusion.Bytes>, inputs: iset<Inclusion.Bytes>) {
    && Inclusion.CollisionFree(sha, inputs)
    && |block| > 0 && (forall i :: 0 <= i < |block| ==> |block[i]| != 64)
    && (forall proof {:trigger proof in x.proofs} :: proof in x.proofs ==>
          Inclusion.Covers(sha, block, proof.raw, proof.siblings, proof.bits, inputs))
  }

  /** An attested transaction is one of the block's transactions. */
  lemma AttestedInBlock(x: Chain, sha: Inclusion.Digest, steps: seq<Step>, key: (BlockHash, Inclusion.Hash),
                        block: seq<Inclusion.Bytes>, inputs: iset<Inclusion.Bytes>) returns (raw: Inclusion.Bytes)
    requires SeedOk(x) && StepsOk(x, steps) && key in Run(x, sha, steps).state.attested && ProofsSound(x, sha, block, inputs)
    requires var headers := Run(x, sha, steps).state.headers;
             key.0 in headers ==> headers[key.0].raw.merkleRoot == Inclusion.MerkleRoot(sha, Inclusion.TxIds(sha, block))
    ensures raw in block && sha(raw) == key.1
    ensures key.0 in Run(x, sha, steps).state.headers
  {
    RunInv(x, sha, steps);
    var s := Run(x, sha, steps).state;
    assert AttestedOk(x, sha, s, key);
    var root := s.headers[key.0].raw.merkleRoot;
    var proof :| proof in x.proofs && sha(proof.raw) == key.1 && Inclusion.Accepts(sha, proof.raw, proof.siblings, proof.bits, root);
    Inclusion.InclusionSound(sha, block, proof.raw, proof.siblings, proof.bits, inputs);
    raw := proof.raw;
  }

  /** A digest that gives every string the all-zero hash, and the one proof it accepts. */
  function ZeroDigest(): Inclusion.Digest {
    (s: Inclusion.Bytes) => Inclusion.Hash(ZERO_BYTES)
  }

  function OnlyProof(): Proof {
    Proof([1], [], 0, 0)
  }

  ghost function OneBlock(hash: HeaderHash): Chain {
    Chain(Seed(0, BlockHash(9), Regtest, 0, 0, 0, 0), Bitcoin(hash), iset{}, iset{OnlyProof()})
  }

  lemma OneBlockOk(hash: HeaderHash)
    ensures SeedOk(OneBlock(hash)) && ProofsSound(OneBlock(hash), ZeroDigest(), [OnlyProof().raw], iset{OnlyProof().raw})
    ensures Inclusion.MerkleRoot(ZeroDigest(), Inclusion.TxIds(ZeroDigest(), [OnlyProof().raw])) == Inclusion.Hash(ZERO_BYTES)
    ensures Inclusion.Accepts(ZeroDigest(), OnlyProof().raw, [], 0, Inclusion.Hash(ZERO_BYTES))
  {
    BitcoinZeroTarget(hash);
    Inclusion.OneTransactionBlock(ZeroDigest(), OnlyProof().raw);
  }

  lemma OneBlockAttests(s: State)
    requires Inclusion.Accepts(ZeroDigest(), OnlyProof().raw, [], 0, Inclusion.Hash(ZERO_BYTES))
    requires Initial(Seed(0, BlockHash(9), Regtest, 0, 0, 0, 0)) == Ok(s)
    ensures var r := Attest(s, ZeroDigest(), 0, BlockHash(9), OnlyProof());
            && r.Ok? && (BlockHash(9), ZeroDigest()(OnlyProof().raw)) in r.value.attested && BlockHash(9) in r.value.headers
            && r.value.headers[BlockHash(9)].raw.merkleRoot == Inclusion.Hash(ZERO_BYTES)
  {}

  /** The assumptions of the result above are met: a run that attests the only transaction of the start block. */
  lemma AttestedWitness(hash: HeaderHash)
    ensures var x, block := OneBlock(hash), [OnlyProof().raw];
            var steps := [AttestStep(0, BlockHash(9), OnlyProof())];
            var s := Run(x, ZeroDigest(), steps).state;
            && SeedOk(x) && StepsOk(x, steps) && ProofsSound(x, ZeroDigest(), block, iset{OnlyProof().raw})
            && (BlockHash(9), ZeroDigest()(OnlyProof().raw)) in s.attested && BlockHash(9) in s.headers
            && s.headers[BlockHash(9)].raw.merkleRoot == Inclusion.MerkleRoot(ZeroDigest(), Inclusion.TxIds(ZeroDigest(), block))
  {
    OneBlockOk(hash);
    OneBlockAttests(Run(OneBlock(hash), ZeroDigest(), []).state);
    var steps := [AttestStep(0, BlockHash(9), OnlyProof())];
    assert steps[..0] == [];
  }

  // ---- the index is the tip's ancestor path -----------------------------------------------------------

  /** Each entry names the one below as its parent, and nothing is indexed above the tip. */
  ghost predicate LinkedAt(x: Chain, s: State, n: nat) {
    && n in s.index && n <= s.client.tipHeight
    && (x.seed.startHeight < n ==>
          n - 1 in s.index && s.index[n] in s.headers && s.headers[s.index[n]].raw.prev == s.index[n - 1])
  }

  ghost predicate IndexIsPath(x: Chain, s: State) {
    forall n {:trigger LinkedAt(x, s, n)} :: n in s.index ==> LinkedAt(x, s, n)
  }

  lemma LinkedKept(x: Chain, s: State, base: Cursor, raws: seq<RawHeader>, t: State, n: nat)
    requires IndexOk(x, s) && IndexIsPath(x, s) && Reindexed(x, s, base, raws, t) && n in t.index
    requires t.client.tipHeight == base.height + |raws| >= s.client.tipHeight
    ensures LinkedAt(x, t, n)
  {
    EntryKept(x, s, base, raws, t, n);
    ReindexAt(x.rules, s.index, base.height, raws, |raws|, n);
    if n > 0 { ReindexAt(x.rules, s.index, base.height, raws, |raws|, n - 1); }
    if base.height < n <= base.height + |raws| {
      assert StoredAt(x, base, raws, n - base.height - 1, t.headers);
    } else {
      assert EntryOk(x, s, n) && LinkedAt(x, s, n);
    }
  }

  /** A batch keeps the index a path exactly when it does not shorten the chain. */
  lemma ExtendPathIff(x: Chain, sha: Inclusion.Digest, t: Trace, clock: int, raws: seq<RawHeader>, ancestors: seq<BlockHash>)
    requires SeedOk(x) && Inv(x, sha, t) && Submitted(x, raws) && IndexIsPath(x, t.state)
    requires Extend(t.state, x.rules, clock, raws, ancestors).Ok?
    ensures IndexIsPath(x, Extend(t.state, x.rules, clock, raws, ancestors).value) <==> !Shortens(x, t.state, raws)
  {
    var s := Extend(t.state, x.rules, clock, raws, ancestors).value;
    var parent, base, end := ExtendParts(x, sha, t, clock, raws, ancestors);
    if Shortens(x, t.state, raws) {
      var stale := t.state.client.tipHeight;
      ReindexAt(x.rules, t.state.index, parent.height, raws, |raws|, stale);
      assert stale in s.index && !LinkedAt(x, s, stale);
    } else {
      ExtendedIndex(x, sha, t, raws, parent, base, end, s);
      if end.chainwork > t.state.client.totalChainwork {
        forall n | n in s.index ensures LinkedAt(x, s, n) { LinkedKept(x, t.state, base, raws, s, n); }
      } else {
        forall n | n in s.index ensures LinkedAt(x, s, n) { assert EntryOk(x, t.state, n) && LinkedAt(x, t.state, n); }
      }
    }
  }

  ghost predicate StepShortens(x: Chain, s: State, step: Step) {
    step.ExtendStep? && Extend(s, x.rules, step.clock, step.raws, step.ancestors).Ok? && Shortens(x, s, step.raws)
  }

  lemma StepPathIff(x: Chain, sha: Inclusion.Digest, t: Trace, step: Step)
    requires SeedOk(x) && Inv(x, sha, t) && StepOk(x, step) && IndexIsPath(x, t.state)
    ensures IndexIsPath(x, Next(x, sha, t, step).state) <==> !StepShortens(x, t.state, step)
  {
    var s := Next(x, sha, t, step).state;
    if step.ExtendStep? && Apply(x, sha, t.state, step).Ok? {
      ExtendPathIff(x, sha, t, step.clock, step.raws, step.ancestors);
    } else {
      forall n | n in s.index ensures LinkedAt(x, s, n) {
        assert LinkedAt(x, t.state, n) && EntryOk(x, t.state, n);
      }
    }
  }

  ghost predicate NeverShortens(x: Chain, sha: Inclusion.Digest, steps: seq<Step>)
    requires Initial(x.seed).Ok?
  {
    |steps| > 0 ==>
      var before := steps[..|steps| - 1];
      NeverShortens(x, sha, before) && !StepShortens(x, Run(x, sha, before).state, steps[|steps| - 1])
  }

  ghost predicate AlwaysPath(x: Chain, sha: Inclusion.Digest, steps: seq<Step>)
    requires Initial(x.seed).Ok?
  {
    IndexIsPath(x, Run(x, sha, steps).state) && (|steps| > 0 ==> AlwaysPath(x, sha, steps[..|steps| - 1]))
  }

  /** The index is the tip's path throughout a run exactly when no promotion in it shortens the chain. */
  lemma {:induction false} PathIffNeverShortens(x: Chain, sha: Inclusion.Digest, steps: seq<Step>)
    requires SeedOk(x) && StepsOk(x, steps)
    ensures AlwaysPath(x, sha, steps) <==> NeverShortens(x, sha, steps)
  {
    if |steps| == 0 {
      var s := Initial(x.seed).value;
      assert LinkedAt(x, s, x.seed.startHeight);
    } else {
      var before := steps[..|steps| - 1];
      PathIffNeverShortens(x, sha, before);
      RunInv(x, sha, before);
      if AlwaysPath(x, sha, before) {
        StepPathIff(x, sha, Run(x, sha, before), steps[|steps| - 1]);
      }
    }
  }

  /** The ancestor of `h` at height `n`. */
  ghost function AncestorAt(x: Chain, ever: Headers, h: BlockHash, n: nat): BlockHash
    requires TreeOk(x, ever) && h in ever
    decreases ever[h].height
  {
    assert LinkOk(x, ever, h);
    if ever[h].height <= n || h == x.seed.startHash then h else AncestorAt(x, ever, ever[h].raw.prev, n)
  }

  /** Linked entries are the tip's ancestors, height by height. */
  lemma {:induction false} PathNamesAncestors(x: Chain, sha: Inclusion.Digest, t: Trace, top: nat, n: nat)
    requires Inv(x, sha, t) && IndexIsPath(x, t.state) && x.seed.startHeight <= n <= top && top in t.state.index
    ensures t.state.index[top] in t.ever && n in t.state.index
            && t.state.index[n] == AncestorAt(x, t.ever, t.state.index[top], n)
    decreases top
  {
    assert EntryOk(x, t.state, top) && LinkedAt(x, t.state, top);
    assert LinkOk(x, t.ever, t.state.index[top]);
    HeightFromStart(x, t.ever, t.state.index[top]);
    if n < top { PathNamesAncestors(x, sha, t, top - 1, n); }
  }

  /** In a run without shortening promotions the index holds the tip's ancestors from start to tip, and no more. */
  lemma IndexIsAncestorPath(x: Chain, sha: Inclusion.Digest, steps: seq<Step>)
    requires SeedOk(x) && StepsOk(x, steps) && NeverShortens(x, sha, steps)
    ensures var t := Run(x, sha, steps);
            && TreeOk(x, t.ever) && t.state.client.tipHash in t.ever
            && t.ever[t.state.client.tipHash].chainwork == t.state.client.totalChainwork
            && forall n: nat :: (n in t.state.index <==> x.seed.startHeight <= n <= t.state.client.tipHeight)
                           && (n in t.state.index ==> t.state.index[n] == AncestorAt(x, t.ever, t.state.client.tipHash, n))
  {
    var t := Run(x, sha, steps);
    RunInv(x, sha, steps);
    PathIffNeverShortens(x, sha, steps);
    forall n: nat
      ensures n in t.state.index <==> x.seed.startHeight <= n <= t.state.client.tipHeight
      ensures n in t.state.index ==> t.state.index[n] == AncestorAt(x, t.ever, t.state.client.tipHash, n)
    {
      if n in t.state.index { assert EntryOk(x, t.state, n) && LinkedAt(x, t.state, n); }
      if x.seed.startHeight <= n <= t.state.client.tipHeight {
        PathNamesAncestors(x, sha, t, t.state.client.tipHeight, n);
      }
    }
  }

  // ---- the tip is the heaviest header ever seen ---------------------------------------------------------

  /** No path in the tree carries 2^256 work or more. */
  ghost predicate NoWrap(x: Chain, ever: Headers)
    requires TreeOk(x, ever)
  {
    forall h :: h in ever ==> PathWork(x, ever, h) < TWO_256
  }

  ghost predicate TipIsHeaviest(x: Chain, t: Trace)
    requires TreeOk(x, t.ever)
  {
    forall h :: h in t.ever ==> PathWork(x, t.ever, h) <= t.state.client.totalChainwork
  }

  lemma NoWrapBefore(x: Chain, a: Headers, b: Headers)
    requires TreeOk(x, a) && TreeOk(x, b) && Within(a, b) && NoWrap(x, b)
    ensures NoWrap(x, a)
  {
    forall h | h in a ensures PathWork(x, a, h) < TWO_256 { PathWorkKept(x, a, b, h); }
  }

  lemma ExtendHeaviest(x: Chain, sha: Inclusion.Digest, t: Trace, raws: seq<RawHeader>, parent: BlockHeader, base: Cursor, end: Cursor, s: State)
    requires SeedOk(x) && Inv(x, sha, t) && Extended(x, t, raws, parent, base, end, s)
    requires NoWrap(x, t.ever + s.headers) && TipIsHeaviest(x, t)
    ensures TipIsHeaviest(x, Trace(s, t.ever + s.headers))
  {
    var grown := t.ever + s.headers;
    ChainworkIsPathWork(x, grown, end.prevHash);
    forall h | h in grown ensures PathWork(x, grown, h) <= s.client.totalChainwork {
      if h in t.ever { PathWorkKept(x, t.ever, grown, h); }
    }
  }

  lemma {:induction false} RunHeaviest(x: Chain, sha: Inclusion.Digest, steps: seq<Step>)
    requires SeedOk(x) && StepsOk(x, steps)
    ensures TreeOk(x, Run(x, sha, steps).ever)
    ensures NoWrap(x, Run(x, sha, steps).ever) ==> TipIsHeaviest(x, Run(x, sha, steps))
  {
    RunInv(x, sha, steps);
    if |steps| > 0 {
      var before := steps[..|steps| - 1];
      RunHeaviest(x, sha, before);
      if NoWrap(x, Run(x, sha, steps).ever) {
        StepHeaviest(x, sha, before, Run(x, sha, before), steps[|steps| - 1]);
      }
    } else {
      assert Run(x, sha, steps).ever == map[x.seed.startHash := GenesisHeader(x.seed)];
    }
  }

  lemma WorkIsExact(x: Chain, ever: Headers, h: BlockHash)
    requires TreeOk(x, ever) && h in ever && NoWrap(x, ever)
    ensures ever[h].chainwork == PathWork(x, ever, h)
  {
    ChainworkIsPathWork(x, ever, h);
    DivModUnique(PathWork(x, ever, h), TWO_256, 0, PathWork(x, ever, h));
  }

  /** While no path reaches 2^256 work, chainwork is path work and the tip outweighs every header ever stored. */
  lemma HeaviestTip(x: Chain, sha: Inclusion.Digest, steps: seq<Step>, h: BlockHash)
    requires SeedOk(x) && StepsOk(x, steps) && h in Run(x, sha, steps).ever
    ensures var t := Run(x, sha, steps);
            && TreeOk(x, t.ever) && t.state.client.tipHash in t.ever
            && (NoWrap(x, t.ever) ==>
                  && t.ever[h].chainwork == PathWork(x, t.ever, h) <= t.state.client.totalChainwork
                  && t.state.client.totalChainwork == PathWork(x, t.ever, t.state.client.tipHash))
  {
    var t := Run(x, sha, steps);
    RunInv(x, sha, steps);
    RunHeaviest(x, sha, steps);
    if NoWrap(x, t.ever) {
      WorkIsExact(x, t.ever, h);
      WorkIsExact(x, t.ever, t.state.client.tipHash);
    }
  }

  lemma StepHeaviest(x: Chain, sha: Inclusion.Digest, before: seq<Step>, t: Trace, step: Step)
    requires SeedOk(x) && StepsOk(x, before) && StepOk(x, step) && t == Run(x, sha, before)
    requires TreeOk(x, t.ever) && TreeOk(x, Next(x, sha, t, step).ever) && NoWrap(x, Next(x, sha, t, step).ever)
    requires NoWrap(x, t.ever) ==> TipIsHeaviest(x, t)
    ensures TipIsHeaviest(x, Next(x, sha, t, step))
  {
    RunInv(x, sha, before);
    StepInv(x, sha, t, step);
    NoWrapBefore(x, t.ever, Next(x, sha, t, step).ever);
    NothingNew(t.ever, t.state.headers);
    if Apply(x, sha, t.state, step).Ok? {
      var s := Apply(x, sha, t.state, step).value;
      if step.ExtendStep? {
        var parent, base, end := ExtendParts(x, sha, t, step.clock, step.raws, step.ancestors);
        ExtendHeaviest(x, sha, t, step.raws, parent, base, end, s);
      } else {
        NothingNew(t.ever, s.headers);
      }
    }
  }

  // ---- time and difficulty ---------------------------------------------------------------------------------

  /** Every header a run ever accepted is a consensus-valid child of another one, or the genesis. */
  lemma AcceptedHeadersValid(x: Chain, sha: Inclusion.Digest, steps: seq<Step>, h: BlockHash)
    requires SeedOk(x) && StepsOk(x, steps)
    requires var ever := Run(x, sha, steps).ever; h in ever && h != x.seed.startHash
    ensures var ever := Run(x, sha, steps).ever;
            && ever[h].raw.prev in ever && ever[h].blockHash == h && h.value <= x.rules.target(ever[h].raw.bits)
            && ever[h].height == ever[ever[h].raw.prev].height + 1
            && (Production(x.seed.network) ==>
                  && ever[h].raw.timestamp > x.rules.median(ChainTimes(x, ever, ever[h].raw.prev, 11))
                  && var p := ever[ever[h].raw.prev];
                  ever[h].raw.bits == x.rules.required(x.seed.network == Testnet4, ever[h].height, ever[h].raw.timestamp,
                                                       p.raw.timestamp, p.epochBits, p.epochStart))
  {
    RunInv(x, sha, steps);
    assert LinkOk(x, Run(x, sha, steps).ever, h);
  }

  lemma {:induction false} TreeTargets(x: Chain, ever: Headers, h: BlockHash)
    requires TreeOk(x, ever) && h in ever && AreBitcoin(x.rules) && Production(x.seed.network)
    requires Target(x.seed.initialBits) <= MAX_TARGET
    ensures Target(ever[h].epochBits) <= MAX_TARGET
    ensures h != x.seed.startHash ==> Target(ever[h].raw.bits) <= MAX_TARGET
    decreases ever[h].height
  {
    assert LinkOk(x, ever, h);
    if h != x.seed.startHash {
      var b, p := ever[h], ever[ever[h].raw.prev];
      TreeTargets(x, ever, b.raw.prev);
      RequiredWithinMax(x.seed.network == Testnet4, b.height, b.raw.timestamp, p.raw.timestamp, p.epochBits, p.epochStart);
    }
  }

  /** A production run seeded at or below the maximum target never accepts a header above it. */
  lemma TargetsWithinMax(x: Chain, sha: Inclusion.Digest, steps: seq<Step>, h: BlockHash)
    requires SeedOk(x) && StepsOk(x, steps) && AreBitcoin(x.rules) && Production(x.seed.network)
    requires Target(x.seed.initialBits) <= MAX_TARGET && h in Run(x, sha, steps).ever && h != x.seed.startHash
    ensures Target(Run(x, sha, steps).ever[h].raw.bits) <= MAX_TARGET
    ensures h.value <= MAX_TARGET
  {
    RunInv(x, sha, steps);
    TreeTargets(x, Run(x, sha, steps).ever, h);
    assert LinkOk(x, Run(x, sha, steps).ever, h);
  }

  /** In any reachable state, the window a production batch checks header `k` against is its own chain's last eleven. */
  lemma BatchWindowExact(x: Chain, sha: Inclusion.Digest, steps: seq<Step>, clock: int, raws: seq<RawHeader>, ancestors: seq<BlockHash>, k: nat)
    requires SeedOk(x) && StepsOk(x, steps) && Submitted(x, raws) && Production(x.seed.network)
    requires 0 < |raws| && k <= |raws| && |ancestors| <= MAX_ANCESTORS
    ensures var t := Run(x, sha, steps);
            ParentOf(t.state, raws).Ok? && StartWindow(t.state, ParentOf(t.state, raws).value, ancestors).Ok? ==>
              var parent := ParentOf(t.state, raws).value;
              var base := StartCursor(t.state.client, parent, StartWindow(t.state, parent, ancestors).value);
              var stored := Batch(x.seed.network, x.rules, clock, base, t.state.headers, raws, k);
              stored.Ok? ==> var (c, hs) := stored.value;
                c.window == ChainTimes(x, t.ever + hs, c.prevHash, 11)
  {
    var t := Run(x, sha, steps);
    RunInv(x, sha, steps);
    if ParentOf(t.state, raws).Ok? && StartWindow(t.state, ParentOf(t.state, raws).value, ancestors).Ok? {
      var parent := ParentOf(t.state, raws).value;
      var base := StartCursor(t.state.client, parent, StartWindow(t.state, parent, ancestors).value);
      assert LinkOk(x, t.ever, parent.blockHash);
      StartWindowExact(x, t.state, t.ever, parent, ancestors);
      BatchGrows(x, t.ever, clock, base, t.state.headers, raws, k);
    }
  }

  /** Bitcoin's rules meet the assumption on zero targets. */
  lemma BitcoinZeroTarget(hash: HeaderHash)
    ensures AreBitcoin(Bitcoin(hash)) && Bitcoin(hash).target(0) == 0
  {
    BitcoinRules(hash);
    assert Exponent(0) == 0 && Mantissa(0) == 0;
    SmallDiv(Pow(256, 3));
    assert Target(0) == 0;
  }

  lemma SmallDiv(d: nat)
    requires d > 0
    ensures 0 / d == 0
  {
    DivModUnique(0, d, 0, 0);
  }
}
