/** The tree of every header ever accepted: how a cursor, a batch and a median-time window sit in it. */
module BlockTrees {
  import opened Powers
  import opened U256
  import opened MedianTime
  import opened LightClients

  type Headers = map<BlockHash, BlockHeader>

  /** What a run is about: its seed, the consensus rules, and the headers and inclusion proofs anyone submits. */
  datatype Chain = Chain(seed: Seed, rules: Rules, submitted: iset<RawHeader>, proofs: iset<Proof>)

  /** No two submitted headers share a hash, none has the genesis hash or the zero hash. */
  ghost predicate SoundHashing(x: Chain) {
    && x.seed.startHash.value != 0
    && x.rules.target(0) == 0
    && (forall a, b :: a in x.submitted && b in x.submitted && x.rules.hash(a) == x.rules.hash(b) ==> a == b)
    && (forall a :: a in x.submitted ==> x.rules.hash(a) != x.seed.startHash && x.rules.hash(a).value != 0)
  }

  ghost predicate SeedOk(x: Chain) {
    SoundHashing(x) && Initial(x.seed).Ok?
  }

  /** Every header of `a` is in `b`, unchanged. */
  ghost predicate Within(a: Headers, b: Headers) {
    forall h :: h in a ==> h in b && b[h] == a[h]
  }

  /** The running values a stored header stands for. */
  function At(b: BlockHeader, window: seq<u32>): Cursor {
    Cursor(b.blockHash, b.chainwork, b.height, b.epochBits, b.epochStart, b.raw.timestamp, window)
  }

  /** Timestamps of the last `n` blocks ending at `h`, oldest first, fewer only back to the genesis. */
  ghost function ChainTimes(x: Chain, ever: Headers, h: BlockHash, n: nat): (times: seq<u32>)
    ensures |times| <= n
    decreases n, h
  {
    if n == 0 || h !in ever then []
    else (if h == x.seed.startHash then [] else ChainTimes(x, ever, ever[h].raw.prev, n - 1)) + [ever[h].raw.timestamp]
  }

  /** Epoch parameters a header may carry: set on production networks, the seed's on regtest. */
  ghost predicate EpochOk(x: Chain, bits: u32, start: u32) {
    if Production(x.seed.network) then bits != 0 && start != 0
    else bits == x.seed.initialBits && start == x.seed.epochStart
  }

  /** A consensus-valid child: its record follows from its parent's, and it met every rule that applies. */
  ghost predicate ChildOk(x: Chain, ever: Headers, b: BlockHeader)
    requires b.raw.prev in ever
  {
    var parent := ever[b.raw.prev];
    var window := ChainTimes(x, ever, b.raw.prev, WINDOW);
    && b == Record(x.seed.network, x.rules, At(parent, window), b.raw)
    && b.blockHash.value <= x.rules.target(b.raw.bits)
    && (Production(x.seed.network) ==>
          && b.raw.timestamp > x.rules.median(window)
          && b.raw.bits == x.rules.required(x.seed.network == Testnet4, b.height, b.raw.timestamp,
                                            parent.raw.timestamp, parent.epochBits, parent.epochStart))
  }

  ghost predicate LinkOk(x: Chain, ever: Headers, h: BlockHash)
    requires h in ever
  {
    var b := ever[h];
    && b.blockHash == h
    && h.value != 0
    && EpochOk(x, b.epochBits, b.epochStart)
    && if h == x.seed.startHash then b == GenesisHeader(x.seed)
       else b.raw in x.submitted && b.raw.prev in ever && ChildOk(x, ever, b)
  }

  /** Every header ever accepted is the genesis or a valid child of another. */
  ghost predicate TreeOk(x: Chain, ever: Headers) {
    && x.seed.startHash in ever
    && (forall h {:trigger LinkOk(x, ever, h)} :: h in ever ==> LinkOk(x, ever, h))
  }

  lemma GenesisTree(x: Chain)
    requires SeedOk(x)
    ensures TreeOk(x, map[x.seed.startHash := GenesisHeader(x.seed)])
  {}

  // ---- growing the tree keeps what it says about older headers -------------------------------------

  lemma {:induction false} ChainTimesKept(x: Chain, a: Headers, b: Headers, h: BlockHash, n: nat)
    requires TreeOk(x, a) && Within(a, b) && h in a
    ensures ChainTimes(x, b, h, n) == ChainTimes(x, a, h, n)
    decreases n
  {
    if n > 0 && h != x.seed.startHash {
      assert LinkOk(x, a, h);
      ChainTimesKept(x, a, b, a[h].raw.prev, n - 1);
    }
  }

  lemma LinkKept(x: Chain, a: Headers, b: Headers, h: BlockHash)
    requires TreeOk(x, a) && Within(a, b) && h in a
    ensures LinkOk(x, b, h)
  {
    assert LinkOk(x, a, h);
    if h != x.seed.startHash {
      ChainTimesKept(x, a, b, a[h].raw.prev, WINDOW);
    }
  }

  /** Asking for one more timestamp adds the next older one, or nothing at the genesis. */
  lemma {:induction false} ChainTimesSuffix(x: Chain, ever: Headers, h: BlockHash, n: nat)
    requires TreeOk(x, ever) && h in ever
    ensures var longer := ChainTimes(x, ever, h, n + 1);
            ChainTimes(x, ever, h, n) == if |longer| <= n then longer else longer[1..]
    decreases n
  {
    if n > 0 && h != x.seed.startHash {
      assert LinkOk(x, ever, h);
      var prev := ever[h].raw.prev;
      ChainTimesSuffix(x, ever, prev, n - 1);
      var longer := ChainTimes(x, ever, prev, n);
      var ts := [ever[h].raw.timestamp];
      assert |longer| > n - 1 ==> (longer + ts)[1..] == longer[1..] + ts;
    }
  }

  // ---- one header ----------------------------------------------------------------------------------

  /** The cursor describes a header of the tree, window included. */
  ghost predicate CursorAt(x: Chain, ever: Headers, c: Cursor) {
    && c.prevHash in ever
    && c == At(ever[c.prevHash], c.window)
    && (Production(x.seed.network) ==> c.window == ChainTimes(x, ever, c.prevHash, WINDOW))
  }

  /** Acceptance at a cursor makes a valid child of the header it stands at. */
  lemma AcceptedChild(x: Chain, ever: Headers, clock: int, c: Cursor, raw: RawHeader)
    requires SeedOk(x) && TreeOk(x, ever) && CursorAt(x, ever, c) && HeaderOk(x.seed.network, x.rules, clock, c, raw)
    requires raw in x.submitted
    ensures var b := Record(x.seed.network, x.rules, c, raw);
            raw.prev in ever && ChildOk(x, ever, b) && EpochOk(x, b.epochBits, b.epochStart) && b.blockHash.value != 0
            && b.blockHash != x.seed.startHash
  {
    assert LinkOk(x, ever, c.prevHash);
  }

  /** A header accepted again gets the record it already has. */
  lemma SameRecord(x: Chain, ever: Headers, b: BlockHeader)
    requires SeedOk(x) && TreeOk(x, ever) && b.raw in x.submitted && b.raw.prev in ever && ChildOk(x, ever, b)
    requires b.blockHash in ever && b.blockHash == x.rules.hash(b.raw)
    ensures ever[b.blockHash] == b
  {
    assert LinkOk(x, ever, b.blockHash);
  }

  lemma TreeGrows(x: Chain, ever: Headers, b: BlockHeader)
    requires TreeOk(x, ever) && b.raw in x.submitted && b.raw.prev in ever && ChildOk(x, ever, b)
    requires EpochOk(x, b.epochBits, b.epochStart) && b.blockHash.value != 0 && b.blockHash != x.seed.startHash
    requires b.blockHash !in ever
    ensures TreeOk(x, ever[b.blockHash := b])
  {
    var grown := ever[b.blockHash := b];
    forall h | h in grown ensures LinkOk(x, grown, h) {
      if h != b.blockHash { LinkKept(x, ever, grown, h); }
      else { ChainTimesKept(x, ever, grown, b.raw.prev, WINDOW); }
    }
  }

  /** One accepted header: the tree stays a tree, old records stay, the cursor follows. */
  lemma AcceptOne(x: Chain, ever: Headers, clock: int, c: Cursor, raw: RawHeader)
    requires SeedOk(x) && TreeOk(x, ever) && CursorAt(x, ever, c) && HeaderOk(x.seed.network, x.rules, clock, c, raw)
    requires raw in x.submitted
    ensures var b := Record(x.seed.network, x.rules, c, raw);
            var grown := ever[b.blockHash := b];
            Within(ever, grown) && TreeOk(x, grown) && CursorAt(x, grown, Advance(x.seed.network, x.rules, c, raw))
  {
    var b := Record(x.seed.network, x.rules, c, raw);
    var grown := ever[b.blockHash := b];
    AcceptedChild(x, ever, clock, c, raw);
    if b.blockHash in ever {
      SameRecord(x, ever, b);
      assert grown == ever;
    } else {
      TreeGrows(x, ever, b);
    }
    WindowSlides(x, ever, grown, c.prevHash, b);
  }

  lemma WindowSlides(x: Chain, ever: Headers, grown: Headers, h: BlockHash, b: BlockHeader)
    requires TreeOk(x, ever) && h in ever && Within(ever, grown) && b.blockHash in grown && grown[b.blockHash] == b
    requires b.raw.prev == h && b.blockHash != x.seed.startHash
    ensures ChainTimes(x, grown, b.blockHash, WINDOW) == Slide(ChainTimes(x, ever, h, WINDOW), b.raw.timestamp)
  {
    ChainTimesKept(x, ever, grown, h, WINDOW - 1);
    ChainTimesSuffix(x, ever, h, WINDOW - 1);
  }

  // ---- a batch ---------------------------------------------------------------------------------------

  ghost predicate Submitted(x: Chain, raws: seq<RawHeader>) {
    forall i :: 0 <= i < |raws| ==> raws[i] in x.submitted
  }

  /** A batch run from a cursor of the tree: the store grows inside the tree and the cursor stays in it. */
  ghost predicate Grown(x: Chain, ever: Headers, headers: Headers, c: Cursor) {
    && Within(ever, ever + headers)
    && TreeOk(x, ever + headers)
    && CursorAt(x, ever + headers, c)
    && c.prevHash in headers
  }

  /** Header `i` of a batch is stored one above its predecessor, which it names. */
  ghost predicate StoredAt(x: Chain, base: Cursor, raws: seq<RawHeader>, i: nat, hs: Headers)
    requires i < |raws|
  {
    var h := x.rules.hash(raws[i]);
    && h in hs && hs[h].raw == raws[i] && hs[h].height == base.height + i + 1
    && raws[i].prev == (if i == 0 then base.prevHash else x.rules.hash(raws[i - 1]))
  }

  ghost predicate Stored(x: Chain, base: Cursor, raws: seq<RawHeader>, k: nat, hs: Headers, end: Cursor)
    requires k <= |raws|
  {
    && (forall i {:trigger StoredAt(x, base, raws, i, hs)} :: 0 <= i < k ==> StoredAt(x, base, raws, i, hs))
    && end.height == base.height + k
    && end.prevHash == (if k == 0 then base.prevHash else x.rules.hash(raws[k - 1]))
    && end.chainwork == BatchWork(x.rules, base.chainwork, raws, k)
  }

  /** Chainwork claimed by a parent and the first `k` headers of a batch. */
  function BatchWork(rules: Rules, work: u256, raws: seq<RawHeader>, k: nat): u256
    requires k <= |raws|
  {
    if k == 0 then work else AddWork(rules, BatchWork(rules, work, raws, k - 1), raws[k - 1].bits)
  }

  /** No header the batch adds outweighs the one it ends at. */
  ghost predicate EndIsHeaviest(x: Chain, ever: Headers, headers: Headers, hs: Headers, end: BlockHash)
    requires TreeOk(x, ever + hs) && end in hs
  {
    forall h :: h in hs && h !in headers ==> PathWork(x, ever + hs, h) <= PathWork(x, ever + hs, end)
  }

  ghost predicate BatchOk(x: Chain, ever: Headers, base: Cursor, headers: Headers, raws: seq<RawHeader>, k: nat, hs: Headers, end: Cursor)
    requires k <= |raws|
  {
    && Grown(x, ever, hs, end) && Within(headers, hs)
    && Stored(x, base, raws, k, hs, end)
    && EndIsHeaviest(x, ever, headers, hs, end.prevHash)
  }

  /** An accepted batch extends the tree by a path, and its running values describe the end of it. */
  lemma {:induction false} BatchGrows(x: Chain, ever: Headers, clock: int, c: Cursor, headers: Headers, raws: seq<RawHeader>, k: nat)
    requires SeedOk(x) && TreeOk(x, ever) && CursorAt(x, ever, c) && Within(headers, ever) && c.prevHash in headers
    requires Submitted(x, raws) && k <= |raws|
    ensures var r := Batch(x.seed.network, x.rules, clock, c, headers, raws, k);
            r.Ok? ==> BatchOk(x, ever, c, headers, raws, k, r.value.1, r.value.0)
    decreases k
  {
    if k == 0 {
      assert ever + headers == ever;
    } else {
      BatchGrows(x, ever, clock, c, headers, raws, k - 1);
      match Batch(x.seed.network, x.rules, clock, c, headers, raws, k - 1) {
        case Err(_) =>
        case Ok((d, hs)) =>
          if HeaderOk(x.seed.network, x.rules, clock, d, raws[k - 1]) {
            BatchGrowsOne(x, ever, clock, c, d, headers, hs, raws, k);
          }
      }
    }
  }

  lemma BatchGrowsOne(x: Chain, ever: Headers, clock: int, base: Cursor, c: Cursor, headers: Headers, hs: Headers, raws: seq<RawHeader>, k: nat)
    requires SeedOk(x) && 0 < k <= |raws| && BatchOk(x, ever, base, headers, raws, k - 1, hs, c)
    requires HeaderOk(x.seed.network, x.rules, clock, c, raws[k - 1]) && raws[k - 1] in x.submitted && Within(headers, ever)
    ensures var raw := raws[k - 1];
            var more := hs[x.rules.hash(raw) := Record(x.seed.network, x.rules, c, raw)];
            BatchOk(x, ever, base, headers, raws, k, more, Advance(x.seed.network, x.rules, c, raw))
  {
    var raw := raws[k - 1];
    var b := Record(x.seed.network, x.rules, c, raw);
    var more := hs[b.blockHash := b];
    var d := Advance(x.seed.network, x.rules, c, raw);
    AcceptOne(x, ever + hs, clock, c, raw);
    assert (ever + hs)[b.blockHash := b] == ever + more;
    assert Within(hs, more) by {
      assert b.blockHash in hs ==> (ever + hs)[b.blockHash] == hs[b.blockHash];
    }
    assert Stored(x, base, raws, k, more, d) by { StoredOne(x, base, raws, k, hs, more, c, d); }
    assert EndIsHeaviest(x, ever, headers, more, d.prevHash) by {
      StillHeaviest(x, ever, headers, hs, more, c.prevHash, d.prevHash);
    }
  }

  lemma StoredOne(x: Chain, base: Cursor, raws: seq<RawHeader>, k: nat, hs: Headers, more: Headers, c: Cursor, d: Cursor)
    requires 0 < k <= |raws| && Stored(x, base, raws, k - 1, hs, c) && Within(hs, more)
    requires var raw := raws[k - 1];
             && raw.prev == c.prevHash && d == Advance(x.seed.network, x.rules, c, raw)
             && more == hs[x.rules.hash(raw) := Record(x.seed.network, x.rules, c, raw)]
    ensures Stored(x, base, raws, k, more, d)
  {
    forall i | 0 <= i < k ensures StoredAt(x, base, raws, i, more) {
      if i < k - 1 { assert StoredAt(x, base, raws, i, hs); }
    }
  }

  lemma StillHeaviest(x: Chain, ever: Headers, headers: Headers, hs: Headers, more: Headers, c: BlockHash, d: BlockHash)
    requires TreeOk(x, ever + hs) && TreeOk(x, ever + more) && Within(ever + hs, ever + more)
    requires c in hs && d in more && more[d].raw.prev == c && d != x.seed.startHash && more == hs[d := more[d]]
    requires EndIsHeaviest(x, ever, headers, hs, c)
    ensures EndIsHeaviest(x, ever, headers, more, d)
  {
    PathWorkKept(x, ever + hs, ever + more, c);
    assert PathWork(x, ever + more, d) >= PathWork(x, ever + more, c);
    forall h | h in more && h !in headers ensures PathWork(x, ever + more, h) <= PathWork(x, ever + more, d) {
      if h != d { PathWorkKept(x, ever + hs, ever + more, h); }
    }
  }

  // ---- the window a batch starts from ---------------------------------------------------------------

  lemma {:induction false} AncestorsAreChain(x: Chain, ever: Headers, headers: Headers, wanted: BlockHash, ancestors: seq<BlockHash>, m: nat)
    requires TreeOk(x, ever) && Within(headers, ever) && |ancestors| > 0 && m >= |ancestors|
    requires AncestorTimes(headers, wanted, ancestors).Ok?
    ensures var times := AncestorTimes(headers, wanted, ancestors).value;
            && ChainTimes(x, ever, wanted, |ancestors|) == Reverse(times)
            && (ancestors[|ancestors| - 1] == x.seed.startHash ==> ChainTimes(x, ever, wanted, m) == Reverse(times))
    decreases |ancestors|
  {
    if |ancestors| > 1 {
      FirstAncestor(headers, wanted, ancestors);
      var b := headers[wanted];
      AncestorsAreChain(x, ever, headers, b.raw.prev, ancestors[1..], m - 1);
      ReverseFirst(b.raw.timestamp, AncestorTimes(headers, b.raw.prev, ancestors[1..]).value);
      NotGenesis(x, ever, wanted);
      ChainTimesStep(x, ever, wanted, |ancestors|);
      ChainTimesStep(x, ever, wanted, m);
    } else {
      SingleAncestor(x, ever, headers, wanted, ancestors, m);
    }
  }

  /** Only the genesis has no predecessor in the tree. */
  lemma NotGenesis(x: Chain, ever: Headers, h: BlockHash)
    requires TreeOk(x, ever) && h in ever && ever[h].raw.prev in ever
    ensures h != x.seed.startHash
  {
    assert LinkOk(x, ever, h) && LinkOk(x, ever, ever[h].raw.prev);
  }

  lemma FirstAncestor(headers: Headers, wanted: BlockHash, ancestors: seq<BlockHash>)
    requires |ancestors| > 1 && AncestorTimes(headers, wanted, ancestors).Ok?
    ensures wanted in headers && ancestors[0] == wanted
    ensures var b := headers[wanted];
            var rest := AncestorTimes(headers, b.raw.prev, ancestors[1..]);
            b.raw.prev in headers && rest.Ok? && AncestorTimes(headers, wanted, ancestors).value == [b.raw.timestamp] + rest.value
  {}

  lemma ChainTimesStep(x: Chain, ever: Headers, h: BlockHash, n: nat)
    requires n > 0 && h in ever && h != x.seed.startHash
    ensures ChainTimes(x, ever, h, n) == ChainTimes(x, ever, ever[h].raw.prev, n - 1) + [ever[h].raw.timestamp]
  {}

  lemma SingleAncestor(x: Chain, ever: Headers, headers: Headers, wanted: BlockHash, ancestors: seq<BlockHash>, m: nat)
    requires Within(headers, ever) && |ancestors| == 1 && m >= 1
    requires AncestorTimes(headers, wanted, ancestors).Ok?
    ensures var times := AncestorTimes(headers, wanted, ancestors).value;
            && ChainTimes(x, ever, wanted, 1) == Reverse(times)
            && (ancestors[0] == x.seed.startHash ==> ChainTimes(x, ever, wanted, m) == Reverse(times))
  {
    var b := headers[wanted];
    assert AncestorTimes(headers, b.raw.prev, ancestors[1..]) == Ok([]);
    assert AncestorTimes(headers, wanted, ancestors).value == [b.raw.timestamp];
    assert Reverse([b.raw.timestamp]) == [b.raw.timestamp];
  }

  lemma ReverseFirst(t: u32, times: seq<u32>)
    ensures Reverse([t] + times) == Reverse(times) + [t]
  {
    assert ([t] + times)[1..] == times;
  }

  /** The window collected from the parent's ancestors is the last eleven timestamps of the parent's chain. */
  lemma StartWindowExact(x: Chain, s: State, ever: Headers, parent: BlockHeader, ancestors: seq<BlockHash>)
    requires TreeOk(x, ever) && Within(s.headers, ever) && parent.blockHash in s.headers && s.headers[parent.blockHash] == parent
    requires s.client.network == x.seed.network && s.client.genesisHash == x.seed.startHash
    requires |ancestors| <= MAX_ANCESTORS && StartWindow(s, parent, ancestors).Ok? && Production(x.seed.network)
    ensures StartWindow(s, parent, ancestors).value == ChainTimes(x, ever, parent.blockHash, WINDOW)
  {
    assert LinkOk(x, ever, parent.blockHash);
    if |ancestors| > 0 {
      AncestorsAreChain(x, ever, s.headers, parent.raw.prev, ancestors, MAX_ANCESTORS);
      assert LinkOk(x, ever, parent.raw.prev);
    } else {
      assert AncestorTimes(s.headers, parent.raw.prev, ancestors) == Ok([]);
    }
  }

  // ---- work along a path --------------------------------------------------------------------------------

  /** Total work from the genesis to `h`, without a 256-bit bound. */
  ghost function PathWork(x: Chain, ever: Headers, h: BlockHash): nat
    requires TreeOk(x, ever) && h in ever
    decreases ever[h].height
  {
    assert LinkOk(x, ever, h);
    if h == x.seed.startHash then 0 else PathWork(x, ever, ever[h].raw.prev) + x.rules.work(ever[h].raw.bits)
  }

  lemma {:induction false} PathWorkKept(x: Chain, a: Headers, b: Headers, h: BlockHash)
    requires TreeOk(x, a) && TreeOk(x, b) && Within(a, b) && h in a
    ensures PathWork(x, b, h) == PathWork(x, a, h)
    decreases a[h].height
  {
    assert LinkOk(x, a, h);
    if h != x.seed.startHash { PathWorkKept(x, a, b, a[h].raw.prev); }
  }

  /** A stored chainwork is the work of the path, modulo 2^256. */
  lemma {:induction false} ChainworkIsPathWork(x: Chain, ever: Headers, h: BlockHash)
    requires TreeOk(x, ever) && h in ever
    ensures ever[h].chainwork == PathWork(x, ever, h) % TWO_256
    decreases ever[h].height
  {
    assert LinkOk(x, ever, h);
    if h != x.seed.startHash {
      var prev := ever[h].raw.prev;
      ChainworkIsPathWork(x, ever, prev);
      AddMod(PathWork(x, ever, prev), x.rules.work(ever[h].raw.bits), TWO_256);
    }
  }

  lemma AddMod(a: nat, b: nat, m: nat)
    requires m > 0
    ensures (a % m + b) % m == (a + b) % m
  {
    var q, r := (a % m + b) / m, (a % m + b) % m;
    assert a + b == (a / m + q) * m + r by { assert (a / m + q) * m == a / m * m + q * m; }
    DivModUnique(a + b, m, a / m + q, r);
  }

  lemma {:induction false} HeightFromStart(x: Chain, ever: Headers, h: BlockHash)
    requires TreeOk(x, ever) && h in ever
    ensures ever[h].height >= x.seed.startHeight
    ensures ever[h].height == x.seed.startHeight <==> h == x.seed.startHash
    decreases ever[h].height
  {
    assert LinkOk(x, ever, h);
    if h != x.seed.startHash { HeightFromStart(x, ever, ever[h].raw.prev); }
  }
}
