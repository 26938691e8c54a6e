/** The Bitcoin light client: header batches, fork choice, height index, finality, pruning, attestation. */
module LightClients {
  import opened U256
  import opened ProofOfWork
  import opened Difficulty
  import opened MedianTime
  import Inclusion

  const MAX_BATCH_SIZE: nat := 10
  const MAX_ANCESTORS: nat := 10
  const REQUIRED_CONFIRMATIONS: nat := 6
  const MAX_FUTURE_DRIFT: int := 7200
  const U64_RANGE: nat := 0x1_0000_0000_0000_0000
  const U32_RANGE: nat := 0x1_0000_0000

  datatype Network = Mainnet | Testnet4 | Regtest

  predicate Production(n: Network) {
    n != Regtest
  }

  /** A block hash, by the little-endian value of its digest. */
  datatype BlockHash = BlockHash(value: u256)

  /** The fields of an 80-byte header. */
  datatype RawHeader = RawHeader(version: u32, prev: BlockHash, merkleRoot: Inclusion.Hash, timestamp: u32, bits: u32, nonce: u32)

  /** Double SHA-256 of a header. */
  type HeaderHash = RawHeader -> BlockHash

  /** The consensus functions a batch is checked against. */
  datatype Rules = Rules(
    hash: HeaderHash,
    target: u32 -> nat,
    work: u32 -> u256,
    median: seq<u32> -> u32,
    required: (bool, nat, u32, u32, u32, u32) -> u32)

  /** Bitcoin's rules, over a given header hash. */
  function Bitcoin(hash: HeaderHash): Rules {
    Rules(hash, bits => Target(bits), bits => BlockWork(bits), window => MedianOf(window),
          (testnet4, height, timestamp, parentTimestamp, epochBits, epochStart) =>
            RequiredBits(testnet4, height, timestamp, parentTimestamp, epochBits, epochStart))
  }

  function MedianOf(window: seq<u32>): u32 {
    if |window| == 0 then 0 else Median(window)
  }

  /** What `Bitcoin` fixes, one function at a time. */
  ghost predicate AreBitcoin(r: Rules) {
    && (forall bits: u32 {:trigger Target(bits)} :: r.target(bits) == Target(bits))
    && (forall bits: u32 {:trigger BlockWork(bits)} :: r.work(bits) == BlockWork(bits))
    && (forall w: seq<u32> {:trigger Median(w)} :: |w| > 0 ==> r.median(w) == Median(w))
    && (forall t: bool, h: nat, ts: u32, p: u32, e: u32, s: u32 {:trigger RequiredBits(t, h, ts, p, e, s)} ::
          r.required(t, h, ts, p, e, s) == RequiredBits(t, h, ts, p, e, s))
  }

  lemma BitcoinRules(hash: HeaderHash)
    ensures AreBitcoin(Bitcoin(hash)) && Bitcoin(hash).hash == hash
  {}

  datatype BlockHeader = BlockHeader(raw: RawHeader, blockHash: BlockHash, chainwork: u256, height: nat, epochBits: u32, epochStart: u32)

  datatype Client = Client(
    network: Network, genesisHash: BlockHash, tipHash: BlockHash, totalChainwork: u256, tipHeight: nat,
    finalizedHeight: nat, headerCount: nat, expectedBits: u32, epochStartTime: u32)

  datatype Attestation = Attestation(blockHeight: u32, blockHash: BlockHash, txid: Inclusion.Hash, txIndex: u32, verifiedAt: int)

  datatype State = State(
    client: Client,
    headers: map<BlockHash, BlockHeader>,
    index: map<nat, BlockHash>,
    attested: map<(BlockHash, Inclusion.Hash), Attestation>)

  datatype ProgramError = InvalidInstructionData | InvalidAccountData | InvalidArgument | ArithmeticOverflow

  datatype Result<T> = Ok(value: T) | Err(error: ProgramError)

  function SaturatingMinus(x: nat, y: nat): nat {
    if x >= y then x - y else 0
  }

  // ---- initialize -----------------------------------------------------------------------------

  datatype Seed = Seed(startHeight: nat, startHash: BlockHash, network: Network, initialBits: u32, epochStart: u32,
                       startTimestamp: u32, startBits: u32)

  function GenesisHeader(seed: Seed): BlockHeader {
    var bits := if seed.startBits == 0 then seed.initialBits else seed.startBits;
    BlockHeader(RawHeader(0, BlockHash(0), Inclusion.Hash(ZERO_BYTES), seed.startTimestamp, bits, 0),
                seed.startHash, 0, seed.startHeight, seed.initialBits, seed.epochStart)
  }

  /** Production networks must be seeded with difficulty parameters. */
  function Initial(seed: Seed): Result<State> {
    if Production(seed.network) && (seed.initialBits == 0 || seed.epochStart == 0) then Err(InvalidInstructionData)
    else
      Ok(State(
           Client(seed.network, seed.startHash, seed.startHash, 0, seed.startHeight,
                  SaturatingMinus(seed.startHeight, REQUIRED_CONFIRMATIONS - 1), 0, seed.initialBits, seed.epochStart),
           map[seed.startHash := GenesisHeader(seed)],
           map[seed.startHeight := seed.startHash],
           map[]))
  }

  // ---- one header ----------------------------------------------------------------------------------

  /** The running values of the batch loop. */
  datatype Cursor = Cursor(prevHash: BlockHash, chainwork: u256, height: nat, epochBits: u32, epochStart: u32,
                           parentTimestamp: u32, window: seq<u32>)

  predicate HeaderOk(net: Network, rules: Rules, clock: int, c: Cursor, raw: RawHeader) {
    && raw.timestamp as int <= clock + MAX_FUTURE_DRIFT
    && raw.prev == c.prevHash
    && (Production(net) ==> |c.window| > 0 && raw.timestamp > rules.median(c.window))
    && c.height + 1 < U64_RANGE
    && rules.hash(raw).value <= rules.target(raw.bits)
    && (Production(net) ==>
          && c.epochBits != 0
          && raw.bits == rules.required(net == Testnet4, c.height + 1, raw.timestamp, c.parentTimestamp, c.epochBits, c.epochStart))
  }

  predicate StartsEpoch(net: Network, height: nat) {
    Production(net) && height % BLOCKS_PER_EPOCH == 0
  }

  function AddWork(rules: Rules, work: u256, bits: u32): u256 {
    (work + rules.work(bits)) % TWO_256
  }

  /** The record stored for a header accepted at the cursor. */
  function Record(net: Network, rules: Rules, c: Cursor, raw: RawHeader): BlockHeader {
    var boundary := StartsEpoch(net, c.height + 1);
    BlockHeader(raw, rules.hash(raw), AddWork(rules, c.chainwork, raw.bits), c.height + 1,
                if boundary then raw.bits else c.epochBits,
                if boundary then raw.timestamp else c.epochStart)
  }

  /** The window slides: it grows to eleven timestamps and then drops the oldest. */
  function Slide(window: seq<u32>, timestamp: u32): seq<u32> {
    if |window| < WINDOW then window + [timestamp] else window[1..] + [timestamp]
  }

  function Advance(net: Network, rules: Rules, c: Cursor, raw: RawHeader): Cursor {
    var r := Record(net, rules, c, raw);
    Cursor(r.blockHash, r.chainwork, r.height, r.epochBits, r.epochStart, raw.timestamp,
           if Production(net) then Slide(c.window, raw.timestamp) else c.window)
  }

  // ---- a batch --------------------------------------------------------------------------------------

  /** Cursor and header store after the first `k` headers, if all of them are accepted. */
  function Batch(net: Network, rules: Rules, clock: int, c: Cursor, headers: map<BlockHash, BlockHeader>, raws: seq<RawHeader>, k: nat)
    : Result<(Cursor, map<BlockHash, BlockHeader>)>
    requires k <= |raws|
  {
    if k == 0 then Ok((c, headers))
    else
      match Batch(net, rules, clock, c, headers, raws, k - 1)
      case Err(e) => Err(e)
      case Ok((d, hs)) =>
        var raw := raws[k - 1];
        if HeaderOk(net, rules, clock, d, raw) then
          Ok((Advance(net, rules, d, raw), hs[rules.hash(raw) := Record(net, rules, d, raw)]))
        else Err(InvalidArgument)
  }

  /** Timestamps, most recent first, of the ancestor accounts supplied, if they chain back from `wanted`. */
  function AncestorTimes(headers: map<BlockHash, BlockHeader>, wanted: BlockHash, ancestors: seq<BlockHash>): Result<seq<u32>>
    decreases |ancestors|
  {
    if |ancestors| == 0 then Ok([])
    else if ancestors[0] !in headers then Err(InvalidAccountData)
    else
      var b := headers[ancestors[0]];
      if b.blockHash != wanted || ancestors[0] != b.blockHash then Err(InvalidArgument)
      else
        match AncestorTimes(headers, b.raw.prev, ancestors[1..])
        case Err(e) => Err(e)
        case Ok(times) => Ok([b.raw.timestamp] + times)
  }

  function Reverse(s: seq<u32>): (r: seq<u32>)
    ensures |r| == |s|
  {
    if |s| == 0 then [] else Reverse(s[1..]) + [s[0]]
  }

  /** The median-time window before the first header: ten ancestors, fewer only back to the genesis. */
  function StartWindow(s: State, parent: BlockHeader, ancestors: seq<BlockHash>): Result<seq<u32>> {
    if !Production(s.client.network) then Ok([])
    else
      match AncestorTimes(s.headers, parent.raw.prev, ancestors)
      case Err(e) => Err(e)
      case Ok(times) =>
        var last := if |ancestors| == 0 then parent.blockHash else ancestors[|ancestors| - 1];
        if |ancestors| < MAX_ANCESTORS && last != s.client.genesisHash then Err(InvalidArgument)
        else Ok(Reverse(times) + [parent.raw.timestamp])
  }

  function StartCursor(c: Client, parent: BlockHeader, window: seq<u32>): Cursor {
    Cursor(parent.blockHash, parent.chainwork, parent.height,
           if parent.epochBits != 0 then parent.epochBits else c.expectedBits,
           if parent.epochStart != 0 then parent.epochStart else c.epochStartTime,
           parent.raw.timestamp, window)
  }

  /** The index with the first `k` batch headers written above `base`. */
  function Reindex(rules: Rules, index: map<nat, BlockHash>, base: nat, raws: seq<RawHeader>, k: nat): map<nat, BlockHash>
    requires k <= |raws|
  {
    if k == 0 then index
    else Reindex(rules, index, base, raws, k - 1)[base + k := rules.hash(raws[k - 1])]
  }

  function Max(x: nat, y: nat): nat {
    if x > y then x else y
  }

  function Promoted(c: Client, end: Cursor, n: nat): Client {
    c.(tipHash := end.prevHash, tipHeight := end.height, headerCount := c.headerCount + n,
       totalChainwork := end.chainwork,
       finalizedHeight := Max(c.finalizedHeight, SaturatingMinus(end.height, REQUIRED_CONFIRMATIONS - 1)),
       expectedBits := if Production(c.network) then end.epochBits else c.expectedBits,
       epochStartTime := if Production(c.network) then end.epochStart else c.epochStartTime)
  }

  /** The parent a batch names, if it is stored and canonical at its height. */
  function ParentOf(s: State, raws: seq<RawHeader>): Result<BlockHeader>
    requires |raws| > 0
  {
    var hash := raws[0].prev;
    if hash !in s.headers then Err(InvalidAccountData)
    else
      var parent := s.headers[hash];
      if parent.blockHash != hash then Err(InvalidAccountData)
      else if parent.height !in s.index || s.index[parent.height] != hash then Err(InvalidAccountData)
      else Ok(parent)
  }

  /** Storing the accepted headers and, if they outweigh the tip, promoting them. */
  function Settle(s: State, rules: Rules, raws: seq<RawHeader>, parent: BlockHeader, end: Cursor, headers: map<BlockHash, BlockHeader>)
    : Result<State>
  {
    var c := s.client;
    var promote := end.chainwork > c.totalChainwork;
    if promote && parent.height < c.finalizedHeight then Err(InvalidArgument)
    else if c.headerCount + |raws| >= U64_RANGE then Err(ArithmeticOverflow)
    else if promote then
      Ok(s.(client := Promoted(c, end, |raws|), headers := headers,
            index := Reindex(rules, s.index, parent.height, raws, |raws|)))
    else
      Ok(s.(client := c.(headerCount := c.headerCount + |raws|), headers := headers))
  }

  /** The whole instruction, as a function of the state. */
  function Extend(s: State, rules: Rules, clock: int, raws: seq<RawHeader>, ancestors: seq<BlockHash>): Result<State> {
    if |raws| == 0 || |raws| > MAX_BATCH_SIZE || |ancestors| > MAX_ANCESTORS then Err(InvalidInstructionData)
    else
      match ParentOf(s, raws)
      case Err(e) => Err(e)
      case Ok(parent) =>
        match StartWindow(s, parent, ancestors)
        case Err(e) => Err(e)
        case Ok(window) =>
          match Batch(s.client.network, rules, clock, StartCursor(s.client, parent, window), s.headers, raws, |raws|)
          case Err(e) => Err(e)
          case Ok((end, headers)) => Settle(s, rules, raws, parent, end, headers)
  }

  // ---- pruning and attestation ------------------------------------------------------------------------

  /** Removes an orphan at or below the finality line. */
  function Prune(s: State, hash: BlockHash): Result<State> {
    if hash !in s.headers then Err(InvalidAccountData)
    else
      var b := s.headers[hash];
      if b.blockHash != hash then Err(InvalidArgument)
      else if b.height !in s.index then Err(InvalidAccountData)
      else if s.index[b.height] == hash || b.height > s.client.finalizedHeight then Err(InvalidArgument)
      else Ok(s.(headers := s.headers - {hash}))
  }

  datatype Proof = Proof(raw: Inclusion.Bytes, siblings: seq<Inclusion.Hash>, bits: u32, txIndex: u32)

  /** Attests a transaction of a finalized canonical block; attesting it again changes nothing. */
  function Attest(s: State, sha: Inclusion.Digest, clock: int, blockHash: BlockHash, proof: Proof): Result<State> {
    if blockHash !in s.headers then Err(InvalidAccountData)
    else
      var b := s.headers[blockHash];
      if b.blockHash != blockHash || b.height !in s.index || s.index[b.height] != blockHash then Err(InvalidArgument)
      else if b.height > s.client.finalizedHeight then Err(InvalidArgument)
      else if !Inclusion.Accepts(sha, proof.raw, proof.siblings, proof.bits, b.raw.merkleRoot) then Err(InvalidArgument)
      else
        var key := (blockHash, sha(proof.raw));
        if key in s.attested then Ok(s)
        else Ok(s.(attested := s.attested[key := Attestation(b.height % U32_RANGE, blockHash, sha(proof.raw), proof.txIndex, clock)]))
  }
}
