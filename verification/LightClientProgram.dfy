/** The light client's instructions, step by step over its accounts. */
module LightClientProgram {
  import opened U256
  import opened ProofOfWork
  import opened Difficulty
  import opened MedianTime
  import opened LightClients
  import opened BlockTrees
  import opened LightClientRuns
  import opened LightClientLaws
  import Inclusion

  // ---- what an instruction promises ---------------------------------------------------------------------

  /** An instruction did what its specification says, or failed and changed nothing. */
  ghost predicate Follows(spec: Result<State>, before: State, after: State, r: Result<()>) {
    match spec
    case Err(_) => r.Err? && after == before
    case Ok(s) => r.Ok? && after == s
  }

  /** The laws of runs survive the step, whatever headers were accepted before it. */
  ghost predicate Lawful(x: Chain, sha: Inclusion.Digest, step: Step, before: State, after: State) {
    SeedOk(x) && StepOk(x, step) ==>
      forall ever: Headers {:trigger Inv(x, sha, Trace(before, ever))} :: Inv(x, sha, Trace(before, ever)) ==>
        Inv(x, sha, Trace(after, ever + after.headers)) && Keeps(before, after)
  }

  ghost predicate LawfulUnder(rules: Rules, step: Step, before: State, after: State) {
    forall x: Chain, sha: Inclusion.Digest {:trigger Lawful(x, sha, step, before, after)} ::
      x.rules == rules ==> Lawful(x, sha, step, before, after)
  }

  ghost predicate LawfulFor(sha: Inclusion.Digest, step: Step, before: State, after: State) {
    forall x: Chain {:trigger Lawful(x, sha, step, before, after)} :: Lawful(x, sha, step, before, after)
  }

  ghost predicate LawfulAlways(step: Step, before: State, after: State) {
    forall x: Chain, sha: Inclusion.Digest {:trigger Lawful(x, sha, step, before, after)} :: Lawful(x, sha, step, before, after)
  }

  lemma StepLawful(x: Chain, sha: Inclusion.Digest, step: Step, s: State)
    ensures Lawful(x, sha, step, s, s)
    ensures Lawful(x, sha, step, s, After(x, sha, s, step))
  {
    if SeedOk(x) && StepOk(x, step) {
      forall ever: Headers | Inv(x, sha, Trace(s, ever))
        ensures Inv(x, sha, Trace(s, ever + s.headers)) && Keeps(s, s)
        ensures var t := After(x, sha, s, step); Inv(x, sha, Trace(t, ever + t.headers)) && Keeps(s, t)
      {
        NothingNew(ever, s.headers);
        StepInv(x, sha, Trace(s, ever), step);
      }
    }
  }

  lemma ExtendLawful(s: State, rules: Rules, clock: int, raws: seq<RawHeader>, ancestors: seq<BlockHash>)
    ensures var step := ExtendStep(clock, raws, ancestors);
            var spec := Extend(s, rules, clock, raws, ancestors);
            LawfulUnder(rules, step, s, s) && (spec.Ok? ==> LawfulUnder(rules, step, s, spec.value))
  {
    var step := ExtendStep(clock, raws, ancestors);
    var spec := Extend(s, rules, clock, raws, ancestors);
    forall x: Chain, sha: Inclusion.Digest | x.rules == rules
      ensures Lawful(x, sha, step, s, s) && (spec.Ok? ==> Lawful(x, sha, step, s, spec.value))
    {
      StepLawful(x, sha, step, s);
      assert Apply(x, sha, s, step) == spec;
    }
  }

  lemma PruneLawful(s: State, hash: BlockHash)
    ensures LawfulAlways(PruneStep(hash), s, s) && (Prune(s, hash).Ok? ==> LawfulAlways(PruneStep(hash), s, Prune(s, hash).value))
  {
    var spec := Prune(s, hash);
    forall x: Chain, sha: Inclusion.Digest
      ensures Lawful(x, sha, PruneStep(hash), s, s) && (spec.Ok? ==> Lawful(x, sha, PruneStep(hash), s, spec.value))
    {
      StepLawful(x, sha, PruneStep(hash), s);
      assert Apply(x, sha, s, PruneStep(hash)) == spec;
    }
  }

  lemma AttestLawful(s: State, sha: Inclusion.Digest, clock: int, blockHash: BlockHash, proof: Proof)
    ensures var step := AttestStep(clock, blockHash, proof);
            var spec := Attest(s, sha, clock, blockHash, proof);
            LawfulFor(sha, step, s, s) && (spec.Ok? ==> LawfulFor(sha, step, s, spec.value))
  {
    var step := AttestStep(clock, blockHash, proof);
    var spec := Attest(s, sha, clock, blockHash, proof);
    forall x: Chain ensures Lawful(x, sha, step, s, s) && (spec.Ok? ==> Lawful(x, sha, step, s, spec.value)) {
      StepLawful(x, sha, step, s);
      assert Apply(x, sha, s, step) == spec;
    }
  }

  // ---- the accounts -----------------------------------------------------------------------------------

  /** The program's accounts. A failing instruction leaves them as they were. */
  class LightClient {
    var client: Client
    var headers: map<BlockHash, BlockHeader>
    var index: map<nat, BlockHash>
    var attested: map<(BlockHash, Inclusion.Hash), Attestation>

    ghost function View(): State
      reads this
    {
      State(client, headers, index, attested)
    }

    constructor (seed: Seed)
      requires Initial(seed).Ok?
      ensures View() == Initial(seed).value
    {
      client := Client(seed.network, seed.startHash, seed.startHash, 0, seed.startHeight,
                       SaturatingMinus(seed.startHeight, REQUIRED_CONFIRMATIONS - 1), 0, seed.initialBits, seed.epochStart);
      headers := map[seed.startHash := GenesisHeader(seed)];
      index := map[seed.startHeight := seed.startHash];
      attested := map[];
    }

    /** Collects the window from the parent's ancestors. */
    method CollectWindow(parent: BlockHeader, ancestors: seq<BlockHash>, window: array<u32>) returns (r: Result<nat>)
      requires |ancestors| <= MAX_ANCESTORS && window.Length == WINDOW
      modifies window
      ensures r.Ok? <==> StartWindow(View(), parent, ancestors).Ok?
      ensures r.Ok? ==> r.value <= WINDOW && window[..r.value] == StartWindow(View(), parent, ancestors).value
    {
      if !Production(client.network) {
        assert window[..0] == [];
        return Ok(0);
      }
      var walked := WalkAncestors(parent.raw.prev, ancestors);
      if walked.Err? { return Err(walked.error); }
      AncestorCount(headers, parent.raw.prev, ancestors);
      var last := if |ancestors| == 0 then parent.blockHash else ancestors[|ancestors| - 1];
      if |ancestors| < MAX_ANCESTORS && last != client.genesisHash { return Err(InvalidArgument); }
      FillWindow(window, walked.value, parent.raw.timestamp);
      return Ok(|ancestors| + 1);
    }

    method WalkAncestors(from: BlockHash, ancestors: seq<BlockHash>) returns (r: Result<seq<u32>>)
      ensures if AncestorTimes(headers, from, ancestors).Ok? then r == AncestorTimes(headers, from, ancestors) else r.Err?
    {
      var wanted := from;
      var times: seq<u32> := [];
      WalkedNone(headers, from, ancestors);
      for a := 0 to |ancestors|
        invariant Walked(headers, from, ancestors, a, times, wanted)
      {
        WalkedNext(headers, from, ancestors, a, times, wanted);
        if ancestors[a] !in headers { return Err(InvalidAccountData); }
        var b := headers[ancestors[a]];
        if b.blockHash != wanted || ancestors[a] != b.blockHash { return Err(InvalidArgument); }
        times := times + [b.raw.timestamp];
        wanted := b.raw.prev;
      }
      WalkedAll(headers, from, ancestors, times, wanted);
      return Ok(times);
    }

    /** Oldest first: the ancestors reversed, then the parent. */
    method FillWindow(window: array<u32>, times: seq<u32>, parentTimestamp: u32)
      requires |times| < window.Length
      modifies window
      ensures window[..|times| + 1] == Reverse(times) + [parentTimestamp]
    {
      var n := 0;
      var a := |times|;
      assert times[a..] == [] && window[..0] == [];
      while a > 0
        invariant 0 <= a <= |times| && n == |times| - a
        invariant window[..n] == Reverse(times[a..])
      {
        a := a - 1;
        ghost var before := window[..n];
        window[n] := times[a];
        assert window[..n + 1] == before + [times[a]];
        assert times[a..][1..] == times[a + 1..];
        n := n + 1;
      }
      assert times[0..] == times;
      ghost var filled := window[..n];
      window[n] := parentTimestamp;
      assert window[..n + 1] == filled + [parentTimestamp];
    }

    /** The proof-of-work, time and difficulty checks on one header. */
    method CheckHeader(rules: Rules, clock: int, c: Cursor, raw: RawHeader) returns (ok: bool)
      requires AreBitcoin(rules) && |c.window| <= WINDOW && (Production(client.network) ==> |c.window| > 0)
      ensures ok <==> HeaderOk(client.network, rules, clock, c, raw)
    {
      if raw.timestamp as int > clock + MAX_FUTURE_DRIFT { return false; }
      if raw.prev != c.prevHash { return false; }
      if Production(client.network) {
        var later := AfterMedian(rules, c.window, raw.timestamp);
        if !later { return false; }
      }
      if c.height + 1 >= U64_RANGE { return false; }
      var meets := MeetsTarget(rules, raw);
      if !meets { return false; }
      if Production(client.network) {
        if c.epochBits == 0 { return false; }
        var required := RequiredFor(rules, client.network == Testnet4, c, raw.timestamp);
        if raw.bits != required { return false; }
      }
      return true;
    }

    method AfterMedian(rules: Rules, window: seq<u32>, timestamp: u32) returns (later: bool)
      requires AreBitcoin(rules) && 0 < |window| <= WINDOW
      ensures later <==> timestamp > rules.median(window)
    {
      var median := MedianTimestamp(window);
      later := timestamp > median;
    }

    method RequiredFor(rules: Rules, testnet4: bool, c: Cursor, timestamp: u32) returns (bits: u32)
      requires AreBitcoin(rules)
      ensures bits == rules.required(testnet4, c.height + 1, timestamp, c.parentTimestamp, c.epochBits, c.epochStart)
    {
      bits := RequiredBitsForNextBlock(testnet4, c.height + 1, timestamp, c.parentTimestamp, c.epochBits, c.epochStart);
    }

    method MeetsTarget(rules: Rules, raw: RawHeader) returns (meets: bool)
      requires AreBitcoin(rules)
      ensures meets <==> rules.hash(raw).value <= rules.target(raw.bits)
    {
      var target := TargetFromBits(raw.bits);
      var digest := LeBytes(rules.hash(raw).value);
      meets := HashMeetsTarget(digest, target);
    }

    /** Chainwork as the program adds it, byte by byte. */
    method RunningWork(rules: Rules, work: u256, bits: u32) returns (total: u256)
      requires AreBitcoin(rules)
      ensures total == AddWork(rules, work, bits)
    {
      var blockWork := CalculateChainwork(bits);
      total := SumBytes(work, blockWork);
    }

    method SumBytes(work: u256, blockWork: Bytes32) returns (total: u256)
      ensures total == (work + BytesVal(blockWork)) % TWO_256
    {
      var bytes := LeBytes(work);
      var sum := AddChainwork(bytes, blockWork);
      total := ReadBytes(sum);
    }

    method LeBytes(n: u256) returns (b: Bytes32)
      ensures BytesVal(b) == n
    {
      b := Le32(n);
    }

    method ReadBytes(b: Bytes32) returns (n: u256)
      ensures n == BytesVal(b)
    {
      BytesBound(b);
      n := BytesVal(b);
    }

    /** Whether one chainwork exceeds another, limb by limb. */
    method Heavier(a: u256, b: u256) returns (r: bool)
      ensures r <==> a > b
    {
      r := Gt(FromLeBytes(Le32(a)), FromLeBytes(Le32(b)));
    }

    method SlideWindow(window: array<u32>, len: nat, timestamp: u32) returns (newLen: nat)
      requires window.Length == WINDOW && len <= WINDOW
      modifies window
      ensures newLen <= WINDOW && window[..newLen] == Slide(old(window[..len]), timestamp)
    {
      if len < WINDOW {
        window[len] := timestamp;
        assert window[..len + 1] == old(window[..len]) + [timestamp];
        return len + 1;
      }
      for k := 0 to 10
        invariant forall i :: 0 <= i < k ==> window[i] == old(window[i + 1])
        invariant forall i :: k <= i < WINDOW ==> window[i] == old(window[i])
      {
        window[k] := window[k + 1];
      }
      window[10] := timestamp;
      assert window[..WINDOW] == old(window[..WINDOW])[1..] + [timestamp];
      return WINDOW;
    }

    /** Computes the running values after an accepted header. */
    method NextCursor(rules: Rules, c: Cursor, raw: RawHeader, window: array<u32>, len: nat) returns (d: Cursor, newLen: nat)
      requires AreBitcoin(rules) && window.Length == WINDOW && len <= WINDOW && c.window == window[..len]
      modifies window
      ensures d == Advance(client.network, rules, c, raw)
      ensures newLen <= WINDOW && d.window == window[..newLen] && (newLen == 0 ==> len == 0 && !Production(client.network))
    {
      var work := RunningWork(rules, c.chainwork, raw.bits);
      var epochBits, epochStart := c.epochBits, c.epochStart;
      if Production(client.network) && (c.height + 1) % BLOCKS_PER_EPOCH == 0 {
        epochBits, epochStart := raw.bits, raw.timestamp;
      }
      newLen := len;
      if Production(client.network) {
        newLen := SlideWindow(window, len, raw.timestamp);
      }
      d := Cursor(rules.hash(raw), work, c.height + 1, epochBits, epochStart, raw.timestamp, window[..newLen]);
    }

    /** Validates and stores a batch, in the order and with the running variables of the program. */
    method StoreBatch(rules: Rules, clock: int, start: Cursor, raws: seq<RawHeader>, window: array<u32>, len: nat)
      returns (r: Result<(Cursor, map<BlockHash, BlockHeader>)>)
      requires AreBitcoin(rules) && window.Length == WINDOW && len <= WINDOW && start.window == window[..len]
      requires Production(client.network) ==> len > 0
      modifies window
      ensures r.Ok? <==> Batch(client.network, rules, clock, start, headers, raws, |raws|).Ok?
      ensures r.Ok? ==> r == Batch(client.network, rules, clock, start, headers, raws, |raws|)
    {
      var c := start;
      var hs: map<BlockHash, BlockHeader> := headers;
      var mtpLen: nat := len;
      for i := 0 to |raws|
        invariant Batch(client.network, rules, clock, start, headers, raws, i) == Ok((c, hs))
        invariant mtpLen <= WINDOW && c.window == window[..mtpLen]
        invariant Production(client.network) ==> mtpLen > 0
      {
        var raw := raws[i];
        var ok := CheckHeader(rules, clock, c, raw);
        if !ok {
          BatchStops(client.network, rules, clock, start, headers, raws, i + 1, |raws|);
          return Err(InvalidArgument);
        }
        var d, newLen := NextCursor(rules, c, raw, window, mtpLen);
        hs := hs[d.prevHash := BlockHeader(raw, d.prevHash, d.chainwork, d.height, d.epochBits, d.epochStart)];
        c, mtpLen := d, newLen;
      }
      return Ok((c, hs));
    }

    /** Points the heights above `base` at the batch. */
    method RewriteIndex(rules: Rules, base: nat, raws: seq<RawHeader>)
      modifies this`index
      ensures index == Reindex(rules, old(index), base, raws, |raws|)
    {
      for i := 0 to |raws|
        invariant index == Reindex(rules, old(index), base, raws, i)
      {
        index := index[base + 1 + i := rules.hash(raws[i])];
      }
    }

    method ExtendBlockchain(rules: Rules, clock: int, raws: seq<RawHeader>, ancestors: seq<BlockHash>) returns (r: Result<()>)
      requires AreBitcoin(rules)
      modifies this
      ensures Follows(Extend(old(View()), rules, clock, raws, ancestors), old(View()), View(), r)
      ensures LawfulUnder(rules, ExtendStep(clock, raws, ancestors), old(View()), View())
      ensures LineMoves(old(View()), View())
    {
      ExtendLawful(View(), rules, clock, raws, ancestors);
      if Extend(View(), rules, clock, raws, ancestors).Ok? { ExtendMoves(View(), rules, clock, raws, ancestors); }
      if |raws| == 0 || |raws| > MAX_BATCH_SIZE { return Err(InvalidInstructionData); }
      if |ancestors| > MAX_ANCESTORS { return Err(InvalidInstructionData); }
      if raws[0].prev !in headers { return Err(InvalidAccountData); }
      var parent := headers[raws[0].prev];
      if parent.blockHash != raws[0].prev { return Err(InvalidAccountData); }
      if parent.height !in index || index[parent.height] != parent.blockHash { return Err(InvalidAccountData); }
      var window := new u32[WINDOW](i => 0);
      var len := CollectWindow(parent, ancestors, window);
      if len.Err? { return Err(len.error); }
      var start := StartCursor(client, parent, window[..len.value]);
      var stored := StoreBatch(rules, clock, start, raws, window, len.value);
      if stored.Err? { return Err(stored.error); }
      var (end, hs) := stored.value;
      var heavier := Heavier(end.chainwork, client.totalChainwork);
      if heavier && parent.height < client.finalizedHeight { return Err(InvalidArgument); }
      if client.headerCount + |raws| >= U64_RANGE { return Err(ArithmeticOverflow); }
      headers := hs;
      if heavier {
        RewriteIndex(rules, parent.height, raws);
        client := Promoted(client, end, |raws|);
      } else {
        client := client.(headerCount := client.headerCount + |raws|);
      }
      return Ok(());
    }

    method PruneObsoleteBlocks(hash: BlockHash) returns (r: Result<()>)
      modifies this`headers
      ensures Follows(Prune(old(View()), hash), old(View()), View(), r)
      ensures LawfulAlways(PruneStep(hash), old(View()), View())
    {
      PruneLawful(View(), hash);
      if hash !in headers { return Err(InvalidAccountData); }
      var b := headers[hash];
      if b.blockHash != hash { return Err(InvalidArgument); }
      if b.height !in index { return Err(InvalidAccountData); }
      if index[b.height] == hash { return Err(InvalidArgument); }
      if b.height > client.finalizedHeight { return Err(InvalidArgument); }
      headers := headers - {hash};
      return Ok(());
    }

    method VerifyTransaction(sha: Inclusion.Digest, clock: int, blockHash: BlockHash, proof: Proof) returns (r: Result<()>)
      modifies this`attested
      ensures Follows(Attest(old(View()), sha, clock, blockHash, proof), old(View()), View(), r)
      ensures LawfulFor(sha, AttestStep(clock, blockHash, proof), old(View()), View())
    {
      AttestLawful(View(), sha, clock, blockHash, proof);
      if blockHash !in headers { return Err(InvalidAccountData); }
      var b := headers[blockHash];
      if b.blockHash != blockHash { return Err(InvalidArgument); }
      if b.height !in index || index[b.height] != blockHash { return Err(InvalidArgument); }
      if b.height > client.finalizedHeight { return Err(InvalidArgument); }
      var ok := Inclusion.VerifyPath(sha, proof.raw, proof.siblings, proof.bits, b.raw.merkleRoot);
      if !ok { return Err(InvalidArgument); }
      var txid := sha(proof.raw);
      if (blockHash, txid) in attested { return Ok(()); }
      attested := attested[(blockHash, txid) := Attestation(b.height % U32_RANGE, blockHash, txid, proof.txIndex, clock)];
      return Ok(());
    }
  }

  // ---- loops and their recursive forms -------------------------------------------------------------------

  /** After `a` ancestors the walk has collected `times` and expects `wanted` next. */
  ghost predicate Walked(headers: map<BlockHash, BlockHeader>, from: BlockHash, ancestors: seq<BlockHash>, a: nat, times: seq<u32>, wanted: BlockHash)
    requires a <= |ancestors|
  {
    match AncestorTimes(headers, wanted, ancestors[a..])
    case Err(_) => AncestorTimes(headers, from, ancestors).Err?
    case Ok(rest) => AncestorTimes(headers, from, ancestors) == Ok(times + rest)
  }

  lemma WalkedNext(headers: map<BlockHash, BlockHeader>, from: BlockHash, ancestors: seq<BlockHash>, a: nat, times: seq<u32>, wanted: BlockHash)
    requires a < |ancestors| && Walked(headers, from, ancestors, a, times, wanted)
    ensures ancestors[a] !in headers || headers[ancestors[a]].blockHash != wanted || ancestors[a] != headers[ancestors[a]].blockHash
            ==> AncestorTimes(headers, from, ancestors).Err?
    ensures ancestors[a] in headers && headers[ancestors[a]].blockHash == wanted && ancestors[a] == wanted ==>
              var b := headers[ancestors[a]];
              Walked(headers, from, ancestors, a + 1, times + [b.raw.timestamp], b.raw.prev)
  {
    assert ancestors[a..][0] == ancestors[a] && ancestors[a..][1..] == ancestors[a + 1..];
    if ancestors[a] in headers && headers[ancestors[a]].blockHash == wanted && ancestors[a] == wanted {
      var b := headers[ancestors[a]];
      match AncestorTimes(headers, b.raw.prev, ancestors[a + 1..]) {
        case Err(_) =>
        case Ok(rest) => assert times + ([b.raw.timestamp] + rest) == times + [b.raw.timestamp] + rest;
      }
    }
  }

  lemma WalkedNone(headers: map<BlockHash, BlockHeader>, from: BlockHash, ancestors: seq<BlockHash>)
    ensures Walked(headers, from, ancestors, 0, [], from)
  {
    assert ancestors[0..] == ancestors;
    match AncestorTimes(headers, from, ancestors) {
      case Err(_) =>
      case Ok(rest) => assert [] + rest == rest;
    }
  }

  lemma {:induction false} AncestorCount(headers: map<BlockHash, BlockHeader>, from: BlockHash, ancestors: seq<BlockHash>)
    ensures AncestorTimes(headers, from, ancestors).Ok? ==> |AncestorTimes(headers, from, ancestors).value| == |ancestors|
    decreases |ancestors|
  {
    if |ancestors| > 0 && ancestors[0] in headers {
      AncestorCount(headers, headers[ancestors[0]].raw.prev, ancestors[1..]);
    }
  }

  lemma WalkedAll(headers: map<BlockHash, BlockHeader>, from: BlockHash, ancestors: seq<BlockHash>, times: seq<u32>, wanted: BlockHash)
    requires Walked(headers, from, ancestors, |ancestors|, times, wanted)
    ensures AncestorTimes(headers, from, ancestors) == Ok(times)
  {
    assert ancestors[|ancestors|..] == [];
    assert times + [] == times;
  }

  /** A batch that fails at some header fails as a whole. */
  lemma {:induction false} BatchStops(net: Network, rules: Rules, clock: int, c: Cursor, headers: map<BlockHash, BlockHeader>, raws: seq<RawHeader>, k: nat, n: nat)
    requires k <= n <= |raws| && Batch(net, rules, clock, c, headers, raws, k).Err?
    ensures Batch(net, rules, clock, c, headers, raws, n).Err?
    decreases n
  {
    if k < n { BatchStops(net, rules, clock, c, headers, raws, k, n - 1); }
  }
}
