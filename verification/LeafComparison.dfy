/** When an accepted proof is compared with the event's own envelope, and when it is not. */
module LeafComparison {
  import opened Octets
  import opened JsonValues
  import opened KernelPrimitives
  import opened Merkle
  import opened MerkleSoundness
  import opened MerkleJs
  import opened Traces
  import opened Evidence
  import opened DepthProperties
  import opened TraceSoundness
  import opened ExportProperties
  import opened Composer
  import opened PlainTraces

  /** Membership for every kernel, event and tree, given only what the event claims as its leaf. */
  ghost predicate SoundForLeaf(claimed: Json) {
    forall k, ev, cp, docs ::
      EnvelopeBytes(k, ev).Some? && Get(Get(ev, Inclusion), Key.LeafHash) == claimed && Included(k, ev, cp)
      && RootOf(k, cp, docs) ==>
        AmongOrCollides(k, ev, docs)
  }

  /** The comparison of the leaf is skipped for the empty list alone, and membership holds for every other claim. */
  lemma LeafNameIsExact(claimed: Json)
    ensures SoundForLeaf(claimed) <==> claimed != JArr([])
  {
    hide EnvelopeBytes, ProofAccepted, LeafMatches, RootOf, AmongOrCollides;
    if claimed != JArr([]) {
      forall k, ev, cp, docs
        | EnvelopeBytes(k, ev).Some? && Get(Get(ev, Inclusion), Key.LeafHash) == claimed && Included(k, ev, cp)
          && RootOf(k, cp, docs)
        ensures AmongOrCollides(k, ev, docs)
      {
        AcceptedClaim(k, ev, cp);
        InclusionSoundness(k, ev, cp, docs);
      }
    } else {
      UnnamedLeaf();
    }
  }

  lemma AcceptedClaim(k: Kernel, ev: Json, cp: Json)
    requires ProofAccepted(k, Get(ev, Inclusion), cp)
    ensures Get(Get(ev, Inclusion), Key.LeafHash).JStr? || !LeafNamed(ev)
  {
    hide InclusionAccepts, PathOf;
  }

  /** A hash that tells strings of different small lengths apart. */
  function LengthHash(): Hash {
    (b: Bytes) => LengthDigest(|b|)
  }

  function LengthDigest(n: nat): (d: Digest)
    ensures d[0] as int == n % 256
  {
    [(n % 256) as byte] + seq(31, i => 0)
  }

  function LengthKernel(): Kernel {
    Kernel(TypeScript, LengthHash(), (j: Json) => [7], (s: string) => true, (name: Key) => true, (j: Json) => true,
           (b: Bytes) => Some(UnnamedRecord()), (m: Bytes, s: string, p: string) => true,
           (m: Bytes, s: Bytes, n: string, e: string) => None, (j: Json) => None, (j: Json) => [],
           (a: string, b: string, c: nat, d: nat, e: nat, f: nat) => "")
  }

  function TwoEmpty(): seq<Bytes> {
    [[], []]
  }

  function Both(): Bytes {
    LengthDigest(1) + LengthDigest(1)
  }

  function UnnamedRoot(): string {
    Hex(Root(LengthHash(), LeafHashes(LengthHash(), TwoEmpty())))
  }

  function UnnamedRecord(): Json {
    JObj(map[Event := JObj(map[MerkleRoot := JStr(UnnamedRoot())])])
  }

  /** The hex of the hash of `n` bytes. */
  function HexOfLength(n: nat): string {
    Hex(LengthDigest(n))
  }

  function UnnamedInclusion(): Json {
    JObj(map[CheckpointTxId := JStr("tx"), Key.LeafHash := JArr([]), LeafIndex := JInt(1), LeafCount := JInt(2),
             Key.AuditPath := JArr([JStr(Hex(Both()))])])
  }

  function UnnamedEvent(): Json {
    PlainEvent(HexOfLength(0), UnnamedInclusion())
  }

  function UnnamedCheckpoint(): Json {
    PlainCheckpoint(HexOfLength(0), UnnamedRoot())
  }

  function UnnamedTrace(): Json {
    PlainTrace(HexOfLength(1), HexOfLength(0), UnnamedRoot(), UnnamedInclusion())
  }

  lemma HexDecodes(k: Kernel, b: Bytes)
    ensures HexArg(k, JStr(Hex(b))) == Some(b)
  {
    hide Hex;
    HexIsLower(b);
    UnhexOfHex(Hex(b), b, k.lang.Python?);
  }

  lemma OneElementPath(k: Kernel, hex: string, b: Bytes)
    requires HexArg(k, JStr(hex)) == Some(b)
    ensures PathOf(k, JArr([JStr(hex)])) == Some([b])
  {
    hide HexArg;
    assert [JStr(hex)][1..] == [] && HexList(k, []) == Some([]);
    assert [b] + [] == [b];
  }

  lemma UnnamedMembers()
    ensures var k, incl := LengthKernel(), UnnamedInclusion();
            Get(incl, Key.LeafHash) == JArr([]) && Get(incl, LeafIndex) == JInt(1)
            && Get(incl, CheckpointTxId) == JStr("tx")
            && CountOf(k, incl) == Some(Whole(2)) && Get(incl, Key.AuditPath) == JArr([JStr(Hex(Both()))])
  {
    hide Hex, Both, UnnamedRecord, LengthHash;
  }

  lemma LengthKernelTrusts()
    ensures var k := LengthKernel();
            Trusting(k) && k.lang == TypeScript && k.sha == LengthHash() && NamesRoot(k, UnnamedRoot())
            && (forall j :: k.jcs(j) == [7]) && forall b: Bytes :: k.ShaHex(b) == HexOfLength(|b|)
  {
    hide Hex, UnnamedRoot, LengthDigest;
  }

  lemma UnnamedBytes()
    ensures EnvelopeBytes(LengthKernel(), UnnamedEvent()) == Some([7])
    ensures RootOf(LengthKernel(), UnnamedCheckpoint(), TwoEmpty())
    ensures PathOf(LengthKernel(), Get(UnnamedInclusion(), Key.AuditPath)) == Some([Both()])
    ensures Get(UnnamedEvent(), Inclusion) == UnnamedInclusion()
    ensures Get(UnnamedCheckpoint(), MerkleRoot) == JStr(UnnamedRoot())
  {
    hide Hex, Both, UnnamedInclusion, HexArg, LeafHashes, Root, LengthKernel, PlainEvent, PlainCheckpoint, Trusting,
         RecordOf, EnvelopeBytes, PathOf, LengthDigest, LengthHash;
    var k := LengthKernel();
    UnnamedMembers();
    LengthKernelTrusts();
    PlainBytes(k, HexOfLength(0), UnnamedRoot(), UnnamedInclusion());
    PlainMembers(k, HexOfLength(0), UnnamedRoot(), UnnamedInclusion());
    HexDecodes(k, Both());
    HexDecodes(k, Root(LengthHash(), LeafHashes(LengthHash(), TwoEmpty())));
    OneElementPath(k, Hex(Both()), Both());
  }

  /** A two-leaf tree accepts the empty string for a leaf, its two digests for a sibling, and asks no further. */
  lemma EmptyLeafAccepted(k: Kernel, ev: Json, cp: Json, a: Digest, b: Digest)
    requires var incl := Get(ev, Inclusion);
             k.lang.TypeScript? && Get(incl, Key.LeafHash) == JArr([]) && Get(incl, LeafIndex) == JInt(1)
             && CountOf(k, incl) == Some(Whole(2)) && PathOf(k, Get(incl, Key.AuditPath)) == Some([a + b])
    requires HexArg(k, Get(cp, MerkleRoot)) == Some(Root(k.sha, [a, b]))
    ensures Included(k, ev, cp)
  {
    hide Root, PathOf, JsCountAccepts, Accepts, CountOf, LeafMatches, Sides, Siblings, TreeInputs, FoldInputs, Fold,
         TrueProof, ProofCollides, EnvelopeBytes, Canonical;
    var both: Bytes := a + b;
    LengthConditionIsNeeded(k.sha, a, b, 0);
    assert both[64..] == [] && both[..64] == both;
    WholeCountAccepts(k.sha, [], 1, 2, [both], Root(k.sha, [a, b]));
    JsAgrees(k.sha, [], 1, 2, [both], Root(k.sha, [a, b]));
  }

  /** The two digests under the root of a tree of two documents or more, joined. */
  ghost function TopDigests(h: Hash, docs: seq<Bytes>): Bytes
    requires |docs| >= 2
  {
    var leaves := LeafHashes(h, docs);
    Root(h, leaves[..Split(|leaves|)]) + Root(h, leaves[Split(|leaves|)..])
  }

  /** Under every TypeScript kernel, and for a checkpoint over any two documents or more: with the empty list for a
      leaf, index 1, count 2 and the top digests for a path, an event is recorded as included whatever its envelope. */
  lemma EmptyLeafAlwaysAccepted(k: Kernel, ev: Json, cp: Json, docs: seq<Bytes>)
    requires k.lang.TypeScript? && |docs| >= 2 && RootOf(k, cp, docs)
    requires var incl := Get(ev, Inclusion);
             Get(incl, Key.LeafHash) == JArr([]) && Get(incl, LeafIndex) == JInt(1)
             && CountOf(k, incl) == Some(Whole(2))
             && PathOf(k, Get(incl, Key.AuditPath)) == Some([TopDigests(k.sha, docs)])
    ensures Included(k, ev, cp)
  {
    hide PathOf, CountOf, Included, HexArg, Root;
    var leaves := LeafHashes(k.sha, docs);
    var a, b := TopPair(k.sha, leaves);
    EmptyLeafAccepted(k, ev, cp, a, b);
  }

  /** A tree of two leaves or more has the root of the tree over its two top digests. */
  lemma TopPair(h: Hash, leaves: seq<Digest>) returns (a: Digest, b: Digest)
    requires |leaves| >= 2
    ensures a == Root(h, leaves[..Split(|leaves|)]) && b == Root(h, leaves[Split(|leaves|)..])
    ensures Root(h, leaves) == Root(h, [a, b])
  {
    var s := Split(|leaves|);
    RootLength(h, leaves[..s]);
    RootLength(h, leaves[s..]);
    a, b := Root(h, leaves[..s]), Root(h, leaves[s..]);
    TwoLeafTree(h, a, b);
    assert [1] + (a + b) == [1] + a + b;
  }

  lemma UnnamedAccepted()
    ensures Included(LengthKernel(), UnnamedEvent(), UnnamedCheckpoint())
  {
    hide Hex, Root, UnnamedEvent, UnnamedInclusion, UnnamedCheckpoint, PathOf, EnvelopeBytes, CountOf, LeafHashes,
         Included, HexArg, LengthHash, LengthKernel, Trusting;
    UnnamedMembers();
    UnnamedBytes();
    LengthKernelTrusts();
    EmptyLeaves();
    EmptyLeafAccepted(LengthKernel(), UnnamedEvent(), UnnamedCheckpoint(), LengthDigest(1), LengthDigest(1));
  }

  lemma EmptyLeaves()
    ensures LeafHashes(LengthHash(), TwoEmpty()) == [LengthDigest(1), LengthDigest(1)]
  {
    hide LengthDigest;
  }

  lemma EmptyInputs()
    ensures BuilderInputs(LengthHash(), TwoEmpty()) == {[0], [1] + Both()}
  {
    hide LengthDigest, TreeInputs, LeafHashes;
    EmptyLeaves();
    TwoLeafTree(LengthHash(), LengthDigest(1), LengthDigest(1));
    assert [0] + [] == [0];
  }

  /** What folding one sibling into a document hashes. */
  lemma OneSiblingInputs(h: Hash, doc: Bytes, side: Side, sibling: Bytes, y: Bytes)
    requires y in VerifierInputs(h, doc, [side], [sibling])
    ensures |y| == |doc| + 1 || |y| == |sibling| + 33
  {
    hide FoldInputs;
    OneJoin(h, Merkle.LeafHash(h, doc), side, sibling);
  }

  lemma OneSiblingEvent(k: Kernel, ev: Json, doc: Bytes, sibling: Bytes, y: Bytes)
    requires EnvelopeBytes(k, ev) == Some(doc) && PathOf(k, Get(Get(ev, Inclusion), Key.AuditPath)) == Some([sibling])
    requires y in EventInputs(k, ev)
    ensures |y| == |doc| + 1 || |y| == |sibling| + 33
  {
    hide EnvelopeBytes, PathOf, InclusionSides, VerifierInputs;
    var sides := InclusionSides(k, Get(ev, Inclusion), 1);
    assert sides == [sides[0]];
    OneSiblingInputs(k.sha, doc, sides[0], sibling, y);
  }

  lemma UnnamedInputs(y: Bytes)
    requires y in EventInputs(LengthKernel(), UnnamedEvent())
    ensures |y| == 2 || |y| == 97
  {
    hide *;
    UnnamedBytes();
    BothLength();
    OneSiblingEvent(LengthKernel(), UnnamedEvent(), [7], Both(), y);
  }

  lemma BothLength()
    ensures |Both()| == 64
  {
  }

  lemma NeitherAmongNorColliding(k: Kernel, ev: Json, docs: seq<Bytes>, doc: Bytes)
    requires EnvelopeBytes(k, ev) == Some(doc) && doc !in docs
    requires !Collides(k.sha, BuilderInputs(k.sha, docs), EventInputs(k, ev))
    ensures !AmongOrCollides(k, ev, docs)
  {
    hide EnvelopeBytes, Collides, BuilderInputs, EventInputs;
  }

  lemma UnnamedIsNoMember()
    ensures !AmongOrCollides(LengthKernel(), UnnamedEvent(), TwoEmpty())
  {
    hide *;
    UnnamedBytes();
    UnnamedApart();
    LengthKernelTrusts();
    NotEmpty();
    NeitherAmongNorColliding(LengthKernel(), UnnamedEvent(), TwoEmpty(), [7]);
  }

  lemma NotEmpty()
    ensures [7 as byte] !in TwoEmpty()
  {
  }

  lemma UnnamedApart()
    ensures !Collides(LengthHash(), BuilderInputs(LengthHash(), TwoEmpty()),
                      EventInputs(LengthKernel(), UnnamedEvent()))
  {
    hide *;
    EmptyInputs();
    BothLength();
    var xs, ys := BuilderInputs(LengthHash(), TwoEmpty()), EventInputs(LengthKernel(), UnnamedEvent());
    forall x | x in xs ensures |x| == 1 || |x| == 65 {
      assert x in {[0 as byte], [1] + Both()};
    }
    forall y | y in ys ensures |y| == 2 || |y| == 97 {
      UnnamedInputs(y);
    }
    LengthsApart(xs, ys);
  }

  lemma LengthsApart(xs: set<Bytes>, ys: set<Bytes>)
    requires forall x :: x in xs ==> |x| == 1 || |x| == 65
    requires forall y :: y in ys ==> |y| == 2 || |y| == 97
    ensures !Collides(LengthHash(), xs, ys)
  {
    hide LengthDigest;
    forall x, y | x in xs && y in ys
      ensures LengthHash()(x) != LengthHash()(y)
    {
      assert LengthHash()(x)[0] as int == |x| % 256 && LengthHash()(y)[0] as int == |y| % 256;
    }
  }

  lemma UnnamedLeaf()
    ensures !SoundForLeaf(JArr([]))
  {
    hide Included, RootOf, AmongOrCollides, EnvelopeBytes, UnnamedEvent, UnnamedInclusion, UnnamedCheckpoint,
         LengthKernel, PathOf;
    UnnamedMembers();
    UnnamedBytes();
    UnnamedAccepted();
    UnnamedIsNoMember();
  }

  // ----- end to end -----

  /** Every event that claims this leaf, at the bottom of every verified bundle, is sound. */
  ghost predicate SoundWhenVerified(claimed: Json) {
    forall k, bundle, env, ev ::
      BundleVerdict(k, bundle, env).status == Status.Verified
      && ev in Items(Get(Get(Innermost(k, bundle), Body), Events))
      && Get(Get(ev, Inclusion), Key.LeafHash) == claimed ==>
        EventSound(k, ev, Items(Get(Get(Innermost(k, bundle), Body), Checkpoints)))
  }

  lemma UnnamedDepth()
    ensures Depth(UnnamedInclusion()) <= 2
  {
    hide Depth, Hex;
    NullDepth();
    IntDepth();
    ListDepth([], 0);
    ListDepth([JStr(Hex(Both()))], 0);
    FlatObject(UnnamedInclusion().fields, 1);
  }

  /** The trace with the unnamed leaf is verified. */
  lemma UnnamedTraceVerified()
    ensures IsTrace(LengthKernel(), UnnamedTrace())
    ensures BundleVerdict(LengthKernel(), UnnamedTrace(), OFFLINE).status == Status.Verified
    ensures Items(Get(Get(UnnamedTrace(), Body), Checkpoints)) == [UnnamedCheckpoint()]
    ensures Items(Get(Get(UnnamedTrace(), Body), Events)) == [UnnamedEvent()]
  {
    hide Hex, UnnamedInclusion, PlainEvent, PlainCheckpoint, PlainTrace, LengthKernel, Trusting, IsTrace, BundleVerdict,
         NamesRoot, Included, UnnamedRoot, HexOfLength, PlainBody, Depth, LengthHash;
    var k := LengthKernel();
    LengthKernelTrusts();
    UnnamedMembers();
    UnnamedDepth();
    UnnamedAccepted();
    assert |[7 as byte]| == 1;
    PlainTraceMembers(k, HexOfLength(1), HexOfLength(0), UnnamedRoot(), UnnamedInclusion());
    PlainBodyMembers(UnnamedCheckpoint(), UnnamedEvent());
    PlainTraceVerified(k, HexOfLength(1), HexOfLength(0), UnnamedRoot(), UnnamedInclusion());
  }

  lemma UnnamedIsUnsound()
    ensures !EventSound(LengthKernel(), UnnamedEvent(), [UnnamedCheckpoint()])
  {
    hide *;
    UnnamedMembers();
    UnnamedBytes();
    UnnamedIsNoMember();
    PlainIds(LengthKernel(), HexOfLength(0), UnnamedRoot(), UnnamedInclusion());
    UnnamedParts();
    UnplacedIsUnsound(LengthKernel(), UnnamedEvent(), UnnamedCheckpoint(), [UnnamedCheckpoint()], TwoEmpty());
  }

  lemma UnnamedParts()
    ensures UnnamedEvent() == PlainEvent(HexOfLength(0), UnnamedInclusion())
    ensures UnnamedCheckpoint() == PlainCheckpoint(HexOfLength(0), UnnamedRoot())
  {
    hide PlainEvent, PlainCheckpoint, UnnamedInclusion, UnnamedRoot;
  }

  lemma UnplacedIsUnsound(k: Kernel, ev: Json, cp: Json, cps: seq<Json>, docs: seq<Bytes>)
    requires CheckpointFor(ev, FirstWins(cps)) == Some(cp) && RootOf(k, cp, docs) && !AmongOrCollides(k, ev, docs)
    ensures !EventSound(k, ev, cps)
  {
    hide Anchored, Included, RootOf, CheckpointFor, FirstWins, AmongOrCollides, AtIndexOrCollides,
         ClaimsCount;
  }

  /** A verified trace can hold an event that is not sound: one that claims the empty list for its leaf. */
  lemma VerifiedTraceWithUnsoundEvent()
    ensures exists k, bundle, ev ::
              IsTrace(k, bundle) && BundleVerdict(k, bundle, OFFLINE).status == Status.Verified
              && ev in Items(Get(Get(bundle, Body), Events)) && !LeafNamed(ev)
              && !EventSound(k, ev, Items(Get(Get(bundle, Body), Checkpoints)))
  {
    hide IsTrace, BundleVerdict, EventSound, UnnamedTrace, UnnamedEvent, UnnamedCheckpoint, LengthKernel,
         UnnamedInclusion, RootOf, PathOf, EnvelopeBytes;
    UnnamedTraceVerified();
    UnnamedIsUnsound();
    UnnamedMembers();
    UnnamedBytes();
    assert UnnamedEvent() in [UnnamedEvent()];
  }

  lemma TraceIsInnermost(k: Kernel, bundle: Json)
    requires IsTrace(k, bundle)
    ensures Innermost(k, bundle) == bundle
  {
    hide IsTrace, Descends;
    ExportIsNoTrace(k, bundle);
  }

  /** The end-to-end guarantee is exact: at any nesting, a verified status makes the events that claim a given leaf
      sound if and only if that leaf is not the empty list. */
  lemma VerifiedLeafIsExact(claimed: Json)
    ensures SoundWhenVerified(claimed) <==> claimed != JArr([])
  {
    hide IsTrace, BundleVerdict, EventSound, UnnamedTrace, UnnamedEvent, UnnamedCheckpoint, LengthKernel,
         UnnamedInclusion, RootOf, PathOf, EnvelopeBytes, Innermost;
    if claimed != JArr([]) {
      forall k, bundle, env, ev
        | BundleVerdict(k, bundle, env).status == Status.Verified
          && ev in Items(Get(Get(Innermost(k, bundle), Body), Events))
          && Get(Get(ev, Inclusion), Key.LeafHash) == claimed
        ensures EventSound(k, ev, Items(Get(Get(Innermost(k, bundle), Body), Checkpoints)))
      {
        VerifiedIsSoundAtTheBottom(k, bundle, env);
      }
    } else {
      UnnamedTraceVerified();
      UnnamedIsUnsound();
      UnnamedMembers();
      UnnamedBytes();
      TraceIsInnermost(LengthKernel(), UnnamedTrace());
      assert UnnamedEvent() in [UnnamedEvent()];
    }
  }
}
