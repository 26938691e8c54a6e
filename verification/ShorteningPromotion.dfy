/** A heavier but shorter branch leaves the old branch's top entry in the index. */
module ShorteningPromotion {
  import opened Powers
  import opened U256
  import opened ProofOfWork
  import opened LightClients
  import opened BlockTrees
  import opened LightClientRuns
  import Inclusion

  const EASY: u32 := 0x0300_000f
  const HARD: u32 := 0x0300_0001

  function ByNonce(raw: RawHeader): BlockHash {
    BlockHash(raw.nonce)
  }

  function Header(prev: nat, bits: u32, nonce: u32): RawHeader
    requires prev < TWO_256
  {
    RawHeader(0, BlockHash(prev), Inclusion.Hash(ZERO_BYTES), 0, bits, nonce)
  }

  const SEED: Seed := Seed(0, BlockHash(9), Regtest, 0, 0, 0, 0)

  ghost function Example(): Chain {
    Chain(SEED, Bitcoin(ByNonce), iset{Header(9, EASY, 2), Header(2, EASY, 3), Header(9, HARD, 1)}, iset{})
  }

  function LongBranch(): Step {
    ExtendStep(0, [Header(9, EASY, 2), Header(2, EASY, 3)], [])
  }

  function ShortBranch(): Step {
    ExtendStep(0, [Header(9, HARD, 1)], [])
  }

  lemma SmallTarget(m: nat)
    requires m < 0x80_0000
    ensures 0x0300_0000 + m < 0x1_0000_0000 && Target(0x0300_0000 + m) == m
  {
    assert Exponent(0x0300_0000 + m) == 3 && Mantissa(0x0300_0000 + m) == m;
    assert Pow(256, 0) == 1;
  }

  lemma Works()
    ensures Target(EASY) == 15 && BlockWork(EASY) == TWO_256 / 16
    ensures Target(HARD) == 1 && BlockWork(HARD) == TWO_256 / 2
  {
    SmallTarget(15);
    SmallTarget(1);
    BlockWorkExact(EASY);
    BlockWorkExact(HARD);
  }

  lemma HashesApart(a: RawHeader, b: RawHeader)
    requires a in Example().submitted && b in Example().submitted && ByNonce(a) == ByNonce(b)
    ensures a == b && 0 < ByNonce(a).value < 9
  {}

  lemma ExampleOk()
    ensures SeedOk(Example()) && StepsOk(Example(), [LongBranch()] + [ShortBranch()])
  {
    var x := Example();
    BitcoinZeroTarget(ByNonce);
    forall a, b | a in x.submitted && b in x.submitted && x.rules.hash(a) == x.rules.hash(b) ensures a == b { HashesApart(a, b); }
    forall a | a in x.submitted ensures x.rules.hash(a) != x.seed.startHash && x.rules.hash(a).value != 0 { HashesApart(a, a); }
    StepsKnown();
  }

  lemma StepsKnown()
    ensures StepsOk(Example(), [LongBranch()] + [ShortBranch()])
  {
    assert Submitted(Example(), LongBranch().raws);
    assert Submitted(Example(), ShortBranch().raws);
  }

  /** On regtest a header that meets its own target is accepted wherever it links. */
  lemma Accept(c: Cursor, prev: nat, bits: u32, nonce: u32)
    requires prev < TWO_256 && c.prevHash == BlockHash(prev) && nonce <= Target(bits) && c.height < 10
    ensures HeaderOk(Regtest, Bitcoin(ByNonce), 0, c, Header(prev, bits, nonce))
    ensures Advance(Regtest, Bitcoin(ByNonce), c, Header(prev, bits, nonce))
            == Cursor(BlockHash(nonce), (c.chainwork + BlockWork(bits)) % TWO_256, c.height + 1, c.epochBits, c.epochStart, 0, c.window)
  {}

  /** A one-header batch. */
  lemma BatchOfOne(c: Cursor, headers: Headers, raws: seq<RawHeader>)
    requires |raws| >= 1 && HeaderOk(Regtest, Bitcoin(ByNonce), 0, c, raws[0])
    ensures var r := Batch(Regtest, Bitcoin(ByNonce), 0, c, headers, raws, 1);
            r == Ok((Advance(Regtest, Bitcoin(ByNonce), c, raws[0]),
                     headers[ByNonce(raws[0]) := Record(Regtest, Bitcoin(ByNonce), c, raws[0])]))
  {
    assert Batch(Regtest, Bitcoin(ByNonce), 0, c, headers, raws, 0) == Ok((c, headers));
  }

  lemma BatchOfTwo(c: Cursor, headers: Headers, raws: seq<RawHeader>)
    requires |raws| >= 2 && HeaderOk(Regtest, Bitcoin(ByNonce), 0, c, raws[0])
    requires HeaderOk(Regtest, Bitcoin(ByNonce), 0, Advance(Regtest, Bitcoin(ByNonce), c, raws[0]), raws[1])
    ensures var r := Batch(Regtest, Bitcoin(ByNonce), 0, c, headers, raws, 2);
            && r.Ok? && r.value.0 == Advance(Regtest, Bitcoin(ByNonce), Advance(Regtest, Bitcoin(ByNonce), c, raws[0]), raws[1])
            && forall h :: h in headers && h != ByNonce(raws[0]) && h != ByNonce(raws[1]) ==> h in r.value.1 && r.value.1[h] == headers[h]
  {
    BatchOfOne(c, headers, raws);
  }

  lemma LongBatch(base: Cursor, headers: Headers)
    requires base.prevHash == BlockHash(9) && base.chainwork == 0 && base.height == 0 && BlockHash(9) in headers
    ensures var r := Batch(Regtest, Bitcoin(ByNonce), 0, base, headers, LongBranch().raws, 2);
            && r.Ok? && r.value.0.prevHash == BlockHash(3) && r.value.0.chainwork == TWO_256 / 8 && r.value.0.height == 2
            && BlockHash(9) in r.value.1 && r.value.1[BlockHash(9)] == headers[BlockHash(9)]
  {
    var raws := LongBranch().raws;
    Works();
    Accept(base, 9, EASY, 2);
    Accept(Advance(Regtest, Bitcoin(ByNonce), base, raws[0]), 2, EASY, 3);
    BatchOfTwo(base, headers, raws);
  }

  lemma LongBranchIndexed(index: map<nat, BlockHash>)
    ensures Reindex(Bitcoin(ByNonce), index, 0, LongBranch().raws, 2) == index[1 := BlockHash(2)][2 := BlockHash(3)]
  {
    var raws := LongBranch().raws;
    assert Reindex(Bitcoin(ByNonce), index, 0, raws, 0) == index;
    assert Reindex(Bitcoin(ByNonce), index, 0, raws, 1) == index[1 := BlockHash(2)];
  }

  /** The long branch is stored and becomes canonical up to height two. */
  lemma LongBranchAccepted(sha: Inclusion.Digest, s: State)
    requires s.client.network == Regtest && s.client.totalChainwork == 0 && s.client.finalizedHeight == 0
    requires s.index == map[0 := BlockHash(9)] && s.client.headerCount == 0
    requires BlockHash(9) in s.headers && s.headers[BlockHash(9)] == GenesisHeader(SEED)
    ensures var r := Apply(Example(), sha, s, LongBranch());
            && r.Ok? && r.value.client.tipHeight == 2 && r.value.client.totalChainwork == TWO_256 / 8
            && r.value.client.finalizedHeight == 0 && r.value.client.network == Regtest && r.value.client.headerCount == 2
            && r.value.index == s.index[1 := BlockHash(2)][2 := BlockHash(3)]
            && BlockHash(9) in r.value.headers && r.value.headers[BlockHash(9)] == GenesisHeader(SEED)
  {
    LongBatch(StartCursor(s.client, GenesisHeader(SEED), []), s.headers);
    LongBranchIndexed(s.index);
  }

  lemma ShortBranchAccepted(sha: Inclusion.Digest, s: State)
    requires s.client.network == Regtest && s.client.totalChainwork == TWO_256 / 8 && s.client.finalizedHeight == 0
    requires 0 in s.index && s.index[0] == BlockHash(9) && s.client.headerCount == 2
    requires BlockHash(9) in s.headers && s.headers[BlockHash(9)] == GenesisHeader(SEED)
    ensures var r := Apply(Example(), sha, s, ShortBranch());
            && r.Ok? && r.value.client.tipHeight == 1 && r.value.client.tipHash == BlockHash(1)
            && r.value.index == s.index[1 := BlockHash(1)]
  {
    Works();
    var rules := Bitcoin(ByNonce);
    var raws := ShortBranch().raws;
    var base := StartCursor(s.client, GenesisHeader(SEED), []);
    Accept(base, 9, HARD, 1);
    BatchOfOne(base, s.headers, raws);
    assert Reindex(rules, s.index, 0, raws, 0) == s.index;
    assert Reindex(rules, s.index, 0, raws, 1) == s.index[1 := BlockHash(1)];
  }

  /** The hypothesis on runs is needed: two accepted batches after which height two is indexed above a tip at height one. */
  lemma StaleEntry(sha: Inclusion.Digest)
    ensures SeedOk(Example()) && StepsOk(Example(), [LongBranch()] + [ShortBranch()])
    ensures var s := Run(Example(), sha, [LongBranch()] + [ShortBranch()]).state;
            && s.client.tipHeight == 1 && s.client.tipHash == BlockHash(1)
            && 2 in s.index && s.index[2] == BlockHash(3)
            && !IndexIsPath(Example(), s)
  {
    ExampleOk();
    LongBranchAccepted(sha, Run(Example(), sha, []).state);
    assert ([LongBranch()] + [ShortBranch()])[..1] == [LongBranch()];
    assert [LongBranch()][..0] == [];
    var t := Run(Example(), sha, [LongBranch()]);
    ShortBranchAccepted(sha, t.state);
    var s := Run(Example(), sha, [LongBranch()] + [ShortBranch()]).state;
    assert !LinkedAt(Example(), s, 2);
  }
}
