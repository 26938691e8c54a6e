/** Laws of light-client runs in plain numbers: the finality line, attestations, submission, epochs and difficulty. */
module LightClientLaws {
  import opened U256
  import opened ProofOfWork
  import opened Difficulty
  import opened LightClients
  import opened BlockTrees
  import opened LightClientRuns
  import Inclusion

  // ---- the start --------------------------------------------------------------------------------------------

  /** A client starts exactly with difficulty parameters or on regtest: one header, indexed, with no work, and no attestation. */
  lemma InitialIs(seed: Seed)
    ensures Initial(seed).Ok? <==> seed.network == Regtest || (seed.initialBits != 0 && seed.epochStart != 0)
    ensures Initial(seed).Ok? ==>
              var s := Initial(seed).value;
              var c := s.client;
              && c.network == seed.network && c.genesisHash == seed.startHash == c.tipHash && c.tipHeight == seed.startHeight
              && c.totalChainwork == 0 && c.headerCount == 0 && c.finalizedHeight == Line(seed.startHeight)
              && c.expectedBits == seed.initialBits && c.epochStartTime == seed.epochStart
              && s.index == map[seed.startHeight := seed.startHash] && s.attested == map[]
              && s.headers.Keys == {seed.startHash}
              && var b := s.headers[seed.startHash];
              && b.blockHash == seed.startHash && b.height == seed.startHeight && b.chainwork == 0
              && b.raw.timestamp == seed.startTimestamp && b.raw.bits == (if seed.startBits != 0 then seed.startBits else seed.initialBits)
              && b.raw.prev == BlockHash(0) && b.epochBits == seed.initialBits && b.epochStart == seed.epochStart
  {}

  // ---- where the finality line stands -------------------------------------------------------------------

  /** Six confirmations, the block itself included: five blocks below the tip. */
  function Line(tip: nat): nat {
    if tip >= 5 then tip - 5 else 0
  }

  ghost function TipAfter(x: Chain, sha: Inclusion.Digest, steps: seq<Step>): nat
    requires Initial(x.seed).Ok?
  {
    Run(x, sha, steps).state.client.tipHeight
  }

  /** The highest line any tip of the run has drawn. */
  ghost function HighestLine(x: Chain, sha: Inclusion.Digest, steps: seq<Step>): nat
    requires Initial(x.seed).Ok?
  {
    var now := Line(TipAfter(x, sha, steps));
    if |steps| == 0 then now
    else
      var before := HighestLine(x, sha, steps[..|steps| - 1]);
      if before > now then before else now
  }

  /** Either nothing moves, or the line is the higher of the old one and the one the new tip draws. */
  ghost predicate LineMoves(s: State, t: State) {
    || (t.client.tipHeight == s.client.tipHeight && t.client.finalizedHeight == s.client.finalizedHeight)
    || t.client.finalizedHeight == (if s.client.finalizedHeight > Line(t.client.tipHeight) then s.client.finalizedHeight
                                    else Line(t.client.tipHeight))
  }

  lemma LineStep(x: Chain, sha: Inclusion.Digest, s: State, step: Step)
    ensures LineMoves(s, After(x, sha, s, step))
  {}

  /** A batch that outweighs the tip puts the tip at its end and moves the line; any other leaves both. */
  lemma ExtendMoves(s: State, rules: Rules, clock: int, raws: seq<RawHeader>, ancestors: seq<BlockHash>)
    requires Extend(s, rules, clock, raws, ancestors).Ok?
    ensures LineMoves(s, Extend(s, rules, clock, raws, ancestors).value)
  {}

  /** The finality line is the highest of (tip - 5, floored at 0) over the start and every tip the run has had. */
  lemma {:induction false} FinalizedIs(x: Chain, sha: Inclusion.Digest, steps: seq<Step>)
    requires Initial(x.seed).Ok?
    ensures Run(x, sha, []).state.client.tipHeight == x.seed.startHeight
    ensures Run(x, sha, steps).state.client.finalizedHeight == HighestLine(x, sha, steps) >= Line(TipAfter(x, sha, steps))
  {
    if |steps| > 0 {
      var before := steps[..|steps| - 1];
      FinalizedIs(x, sha, before);
      LineStep(x, sha, Run(x, sha, before).state, steps[|steps| - 1]);
    }
  }

  lemma {:induction false} LineWasDrawn(x: Chain, sha: Inclusion.Digest, steps: seq<Step>) returns (j: nat)
    requires Initial(x.seed).Ok?
    ensures j <= |steps| && HighestLine(x, sha, steps) == Line(TipAfter(x, sha, steps[..j]))
  {
    if HighestLine(x, sha, steps) == Line(TipAfter(x, sha, steps)) {
      j := |steps|;
      assert steps[..j] == steps;
    } else {
      j := LineWasDrawn(x, sha, steps[..|steps| - 1]);
      assert steps[..|steps| - 1][..j] == steps[..j];
    }
  }

  // ---- attestations ---------------------------------------------------------------------------------------

  /** An attestation as the attesting instruction found it. */
  ghost predicate AttestedBy(sha: Inclusion.Digest, s: State, step: Step, key: (BlockHash, Inclusion.Hash), a: Attestation) {
    && step.AttestStep? && step.blockHash == key.0 && sha(step.proof.raw) == key.1
    && key.0 in s.headers
    && var b := s.headers[key.0];
    && Inclusion.Accepts(sha, step.proof.raw, step.proof.siblings, step.proof.bits, b.raw.merkleRoot)
    && b.height <= s.client.finalizedHeight && b.height in s.index && s.index[b.height] == key.0
    && a == Attestation(b.height % 0x1_0000_0000, key.0, key.1, step.proof.txIndex, step.clock)
  }

  lemma AttestStepOnly(x: Chain, sha: Inclusion.Digest, s: State, step: Step, key: (BlockHash, Inclusion.Hash))
    requires key in After(x, sha, s, step).attested
    ensures (key in s.attested && After(x, sha, s, step).attested[key] == s.attested[key])
            || AttestedBy(sha, s, step, key, After(x, sha, s, step).attested[key])
  {}

  /** Every attestation was written by one step of the run, from the block and the proof that step named. */
  lemma {:induction false} AttestedAt(x: Chain, sha: Inclusion.Digest, steps: seq<Step>, key: (BlockHash, Inclusion.Hash)) returns (i: nat)
    requires Initial(x.seed).Ok? && key in Run(x, sha, steps).state.attested
    ensures i < |steps|
    ensures AttestedBy(sha, Run(x, sha, steps[..i]).state, steps[i], key, Run(x, sha, steps).state.attested[key])
  {
    var before := steps[..|steps| - 1];
    var s := Run(x, sha, before).state;
    AttestStepOnly(x, sha, s, steps[|steps| - 1], key);
    if key in s.attested && Run(x, sha, steps).state.attested[key] == s.attested[key] {
      i := AttestedAt(x, sha, before, key);
      assert before[..i] == steps[..i];
    } else {
      i := |steps| - 1;
    }
  }

  /** When a block was attested, some tip had been at least five blocks above it, unless it is the block at height 0. */
  lemma AttestedBuried(x: Chain, sha: Inclusion.Digest, steps: seq<Step>, key: (BlockHash, Inclusion.Hash)) returns (i: nat, j: nat)
    requires Initial(x.seed).Ok? && key in Run(x, sha, steps).state.attested
    ensures j <= i < |steps| && key.0 in Run(x, sha, steps[..i]).state.headers
    ensures var height := Run(x, sha, steps[..i]).state.headers[key.0].height;
            height == 0 || height + 5 <= TipAfter(x, sha, steps[..j])
  {
    i := AttestedAt(x, sha, steps, key);
    FinalizedIs(x, sha, steps[..i]);
    j := LineWasDrawn(x, sha, steps[..i]);
    assert steps[..i][..j] == steps[..j];
  }

  // ---- what is accepted ----------------------------------------------------------------------------------------

  /** One header passes exactly these checks. */
  lemma HeaderRule(net: Network, rules: Rules, clock: int, c: Cursor, raw: RawHeader)
    ensures HeaderOk(net, rules, clock, c, raw) <==>
            && raw.prev == c.prevHash
            && raw.timestamp <= clock + 7200
            && c.height + 1 < 0x1_0000_0000_0000_0000
            && rules.hash(raw).value <= rules.target(raw.bits)
            && (net != Regtest ==>
                  && |c.window| > 0 && raw.timestamp > rules.median(c.window)
                  && c.epochBits != 0
                  && raw.bits == rules.required(net == Testnet4, c.height + 1, raw.timestamp, c.parentTimestamp, c.epochBits, c.epochStart))
  {}

  /**
   * A batch of one to ten headers with up to ten ancestors is accepted exactly when its parent is stored and canonical,
   * the ancestors give a window, every header passes, and it does not outweigh the tip from below the finality line.
   */
  lemma ExtendAcceptsIff(s: State, rules: Rules, clock: int, raws: seq<RawHeader>, ancestors: seq<BlockHash>)
    ensures Extend(s, rules, clock, raws, ancestors).Ok? <==>
            && 1 <= |raws| <= 10 && |ancestors| <= 10
            && ParentOf(s, raws).Ok? && StartWindow(s, ParentOf(s, raws).value, ancestors).Ok?
            && var parent := ParentOf(s, raws).value;
            var base := StartCursor(s.client, parent, StartWindow(s, parent, ancestors).value);
            var batch := Batch(s.client.network, rules, clock, base, s.headers, raws, |raws|);
            && batch.Ok?
            && !(batch.value.0.chainwork > s.client.totalChainwork && parent.height < s.client.finalizedHeight)
            && s.client.headerCount + |raws| < 0x1_0000_0000_0000_0000
  {}

  // ---- what was submitted -----------------------------------------------------------------------------------

  /** A stored header is one of the batch, within two hours of the clock, at a 64-bit height. */
  ghost predicate FromBatch(rules: Rules, clock: int, raws: seq<RawHeader>, k: nat, b: BlockHeader) {
    exists i :: 0 <= i < k <= |raws| && b.raw == raws[i] && b.blockHash == rules.hash(raws[i])
                && raws[i].timestamp <= clock + 7200 && b.height < 0x1_0000_0000_0000_0000
  }

  lemma {:induction false} BatchStores(net: Network, rules: Rules, clock: int, c: Cursor, headers: Headers, raws: seq<RawHeader>, k: nat, h: BlockHash)
    requires k <= |raws|
    ensures var r := Batch(net, rules, clock, c, headers, raws, k);
            r.Ok? && h in r.value.1 ==>
              (h in headers && r.value.1[h] == headers[h]) || FromBatch(rules, clock, raws, k, r.value.1[h])
    decreases k
  {
    if k > 0 {
      BatchStores(net, rules, clock, c, headers, raws, k - 1, h);
      var r := Batch(net, rules, clock, c, headers, raws, k - 1);
      if r.Ok? && HeaderOk(net, rules, clock, r.value.0, raws[k - 1]) {
        BatchStoresOne(net, rules, clock, r.value.0, raws, k);
        if h in r.value.1 && FromBatch(rules, clock, raws, k - 1, r.value.1[h]) { FromBatchGrows(rules, clock, raws, k, r.value.1[h]); }
      }
    }
  }

  lemma BatchStoresOne(net: Network, rules: Rules, clock: int, c: Cursor, raws: seq<RawHeader>, k: nat)
    requires 0 < k <= |raws| && HeaderOk(net, rules, clock, c, raws[k - 1])
    ensures FromBatch(rules, clock, raws, k, Record(net, rules, c, raws[k - 1]))
  {
    var b := Record(net, rules, c, raws[k - 1]);
    assert b.raw == raws[k - 1] && b.height < 0x1_0000_0000_0000_0000;
  }

  lemma FromBatchGrows(rules: Rules, clock: int, raws: seq<RawHeader>, k: nat, b: BlockHeader)
    requires 0 < k <= |raws| && FromBatch(rules, clock, raws, k - 1, b)
    ensures FromBatch(rules, clock, raws, k, b)
  {}

  /** A header a step adds comes from its batch of one to ten headers. */
  lemma StepStores(x: Chain, sha: Inclusion.Digest, s: State, step: Step, h: BlockHash)
    requires h in After(x, sha, s, step).headers
    ensures var b := After(x, sha, s, step).headers[h];
            || (h in s.headers && b == s.headers[h])
            || (step.ExtendStep? && 1 <= |step.raws| <= 10 && |step.ancestors| <= 10 && FromBatch(x.rules, step.clock, step.raws, |step.raws|, b))
  {
    if step.ExtendStep? && Apply(x, sha, s, step).Ok? {
      var parent := ParentOf(s, step.raws).value;
      var window := StartWindow(s, parent, step.ancestors).value;
      BatchStores(s.client.network, x.rules, step.clock, StartCursor(s.client, parent, window), s.headers, step.raws, |step.raws|, h);
    }
  }

  /** Every header ever accepted was submitted in one of the run's batches, not more than two hours ahead of its clock. */
  lemma {:induction false} AcceptedFrom(x: Chain, sha: Inclusion.Digest, steps: seq<Step>, h: BlockHash) returns (i: nat)
    requires Initial(x.seed).Ok? && h in Run(x, sha, steps).ever
    ensures (Run(x, sha, steps).ever[h] == GenesisHeader(x.seed) && h == x.seed.startHash)
            || (i < |steps| && steps[i].ExtendStep? && 1 <= |steps[i].raws| <= 10
                && FromBatch(x.rules, steps[i].clock, steps[i].raws, |steps[i].raws|, Run(x, sha, steps).ever[h]))
  {
    i := 0;
    if |steps| > 0 {
      var before := steps[..|steps| - 1];
      var t := Run(x, sha, before);
      var s := After(x, sha, t.state, steps[|steps| - 1]);
      if h in s.headers {
        StepStores(x, sha, t.state, steps[|steps| - 1], h);
        if h in t.state.headers && s.headers[h] == t.state.headers[h] {
          StoredIsEver(x, sha, before, h);
          i := AcceptedFrom(x, sha, before, h);
        } else {
          i := |steps| - 1;
        }
      } else {
        i := AcceptedFrom(x, sha, before, h);
      }
    }
  }

  lemma {:induction false} StoredIsEver(x: Chain, sha: Inclusion.Digest, steps: seq<Step>, h: BlockHash)
    requires Initial(x.seed).Ok? && h in Run(x, sha, steps).state.headers
    ensures h in Run(x, sha, steps).ever && Run(x, sha, steps).ever[h] == Run(x, sha, steps).state.headers[h]
  {}

  /** Headers in batches that went through. */
  ghost function Submissions(x: Chain, sha: Inclusion.Digest, steps: seq<Step>): nat
    requires Initial(x.seed).Ok?
  {
    if |steps| == 0 then 0
    else
      var before, last := steps[..|steps| - 1], steps[|steps| - 1];
      Submissions(x, sha, before)
      + (if last.ExtendStep? && Apply(x, sha, Run(x, sha, before).state, last).Ok? then |last.raws| else 0)
  }

  lemma CountStep(x: Chain, sha: Inclusion.Digest, s: State, step: Step)
    ensures After(x, sha, s, step).client.headerCount
            == s.client.headerCount + (if step.ExtendStep? && Apply(x, sha, s, step).Ok? then |step.raws| else 0)
  {}

  /** The header counter counts every accepted submission, on the chosen branch or not. */
  lemma {:induction false} HeaderCountIs(x: Chain, sha: Inclusion.Digest, steps: seq<Step>)
    requires Initial(x.seed).Ok?
    ensures Run(x, sha, steps).state.client.headerCount == Submissions(x, sha, steps)
  {
    if |steps| > 0 {
      HeaderCountIs(x, sha, steps[..|steps| - 1]);
      CountStep(x, sha, Run(x, sha, steps[..|steps| - 1]).state, steps[|steps| - 1]);
    }
  }

  // ---- pruning --------------------------------------------------------------------------------------------------

  lemma StepKeepsAbove(x: Chain, sha: Inclusion.Digest, t: Trace, step: Step, h: BlockHash)
    requires SeedOk(x) && Inv(x, sha, t) && StepOk(x, step) && h in t.state.headers
    requires t.state.headers[h].height > After(x, sha, t.state, step).client.finalizedHeight
    ensures h in After(x, sha, t.state, step).headers
  {
    if step.ExtendStep? && Apply(x, sha, t.state, step).Ok? {
      var parent, base, end := ExtendParts(x, sha, t, step.clock, step.raws, step.ancestors);
    }
  }

  /** Only what is at or below the finality line is ever pruned: every header accepted above it is still stored. */
  lemma {:induction false} StoredAbove(x: Chain, sha: Inclusion.Digest, steps: seq<Step>, h: BlockHash)
    requires SeedOk(x) && StepsOk(x, steps) && h in Run(x, sha, steps).ever
    requires Run(x, sha, steps).ever[h].height > Run(x, sha, steps).state.client.finalizedHeight
    ensures h in Run(x, sha, steps).state.headers
  {
    if |steps| > 0 {
      var before := steps[..|steps| - 1];
      var t, step := Run(x, sha, before), steps[|steps| - 1];
      RunInv(x, sha, before);
      StepInv(x, sha, t, step);
      if h in t.ever && h !in Run(x, sha, steps).state.headers {
        StoredAbove(x, sha, before, h);
        StepKeepsAbove(x, sha, t, step, h);
      }
    }
  }

  // ---- epochs and difficulty -------------------------------------------------------------------------------------

  /** Bits and timestamp of the latest block at a multiple of 2016 on the chain of `h`, or the seed's. */
  ghost function EpochAt(x: Chain, ever: Headers, h: BlockHash): (u32, u32)
    requires TreeOk(x, ever) && h in ever
    decreases ever[h].height
  {
    assert LinkOk(x, ever, h);
    if h == x.seed.startHash then (x.seed.initialBits, x.seed.epochStart)
    else if ever[h].height % 2016 == 0 then (ever[h].raw.bits, ever[h].raw.timestamp)
    else EpochAt(x, ever, ever[h].raw.prev)
  }

  /** A header's epoch parameters are those of the latest epoch block on its own chain. */
  lemma {:induction false} EpochIs(x: Chain, ever: Headers, h: BlockHash)
    requires TreeOk(x, ever) && h in ever
    ensures x.seed.network != Regtest ==> (ever[h].epochBits, ever[h].epochStart) == EpochAt(x, ever, h)
    ensures x.seed.network == Regtest ==> (ever[h].epochBits, ever[h].epochStart) == (x.seed.initialBits, x.seed.epochStart)
    decreases ever[h].height
  {
    assert LinkOk(x, ever, h);
    if h != x.seed.startHash { EpochIs(x, ever, ever[h].raw.prev); }
  }

  /**
   * Every 2016th block carries the compact rounding of the retarget rule, from the epoch's first block to the parent; any
   * other block carries the epoch's bits, but for the minimum difficulty on testnet4 more than twenty minutes after its parent.
   */
  ghost predicate FollowsRule(x: Chain, ever: Headers, h: BlockHash)
    requires TreeOk(x, ever) && h in ever && ever[h].raw.prev in ever
  {
    var b, p := ever[h], ever[ever[h].raw.prev];
    var (epochBits, epochStart) := EpochAt(x, ever, b.raw.prev);
    if b.height % 2016 == 0 then
      RoundsDownTo(Retargeted(Target(epochBits), if p.raw.timestamp > epochStart then p.raw.timestamp - epochStart else 0), Target(b.raw.bits))
    else if x.seed.network == Testnet4 && b.raw.timestamp > p.raw.timestamp + 1200 then b.raw.bits == 0x1d00ffff
    else b.raw.bits == epochBits
  }

  /** Difficulty along every chain of a production network seeded within the maximum. */
  lemma DifficultyRule(x: Chain, ever: Headers, h: BlockHash)
    requires TreeOk(x, ever) && h in ever && h != x.seed.startHash && AreBitcoin(x.rules) && x.seed.network != Regtest
    requires Target(x.seed.initialBits) <= 0xffff_0000_0000_0000_0000_0000_0000_0000_0000_0000_0000_0000_0000_0000
    ensures ever[h].raw.prev in ever && FollowsRule(x, ever, h)
  {
    assert LinkOk(x, ever, h);
    var b, p := ever[h], ever[ever[h].raw.prev];
    assert LinkOk(x, ever, b.raw.prev);
    EpochIs(x, ever, b.raw.prev);
    TreeTargets(x, ever, b.raw.prev);
    RequiredRule(x.seed.network == Testnet4, b.height, b.raw.timestamp, p.raw.timestamp, p.epochBits, p.epochStart);
  }

  /** The rule holds of every header a run has accepted. */
  lemma DifficultyOfRun(x: Chain, sha: Inclusion.Digest, steps: seq<Step>, h: BlockHash)
    requires SeedOk(x) && StepsOk(x, steps) && AreBitcoin(x.rules) && x.seed.network != Regtest
    requires Target(x.seed.initialBits) <= 0xffff_0000_0000_0000_0000_0000_0000_0000_0000_0000_0000_0000_0000_0000
    requires h in Run(x, sha, steps).ever && h != x.seed.startHash
    ensures var ever := Run(x, sha, steps).ever;
            TreeOk(x, ever) && ever[h].raw.prev in ever && FollowsRule(x, ever, h)
  {
    RunInv(x, sha, steps);
    DifficultyRule(x, Run(x, sha, steps).ever, h);
  }

  ghost predicate TipEpochOk(c: Client, ever: Headers) {
    c.tipHash in ever && ever[c.tipHash].epochBits == c.expectedBits && ever[c.tipHash].epochStart == c.epochStartTime
  }

  lemma ExtendTipEpoch(x: Chain, t: Trace, raws: seq<RawHeader>, parent: BlockHeader, base: Cursor, end: Cursor, s: State)
    requires TreeOk(x, t.ever) && ClientOk(x, t.state) && TipEpochOk(t.state.client, t.ever) && Extended(x, t, raws, parent, base, end, s)
    ensures TipEpochOk(s.client, t.ever + s.headers)
  {
    assert LinkOk(x, t.ever + s.headers, end.prevHash);
  }

  lemma TipEpochStep(x: Chain, sha: Inclusion.Digest, t: Trace, step: Step)
    requires SeedOk(x) && Inv(x, sha, t) && StepOk(x, step) && TipEpochOk(t.state.client, t.ever)
    ensures TipEpochOk(Next(x, sha, t, step).state.client, Next(x, sha, t, step).ever)
  {
    NothingNew(t.ever, t.state.headers);
    if Apply(x, sha, t.state, step).Ok? {
      var s := Apply(x, sha, t.state, step).value;
      if step.ExtendStep? {
        var parent, base, end := ExtendParts(x, sha, t, step.clock, step.raws, step.ancestors);
        ExtendTipEpoch(x, t, step.raws, parent, base, end, s);
      } else {
        NothingNew(t.ever, s.headers);
      }
    }
  }

  /** The client's difficulty fields are the tip's epoch parameters. */
  lemma {:induction false} TipEpoch(x: Chain, sha: Inclusion.Digest, steps: seq<Step>)
    requires SeedOk(x) && StepsOk(x, steps)
    ensures TipEpochOk(Run(x, sha, steps).state.client, Run(x, sha, steps).ever)
  {
    RunInv(x, sha, steps);
    if |steps| > 0 {
      RunInv(x, sha, steps[..|steps| - 1]);
      TipEpoch(x, sha, steps[..|steps| - 1]);
      TipEpochStep(x, sha, Run(x, sha, steps[..|steps| - 1]), steps[|steps| - 1]);
    }
  }
}
