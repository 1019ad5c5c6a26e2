/** Bundles that exist: the nesting bound is reached, and so are a verified trace and a composed export. */
module Witnesses {
  import opened Octets
  import opened JsonValues
  import opened KernelPrimitives
  import opened Base64
  import opened RsaPss
  import opened Envelopes
  import opened Merkle
  import opened MerkleJs
  import opened Traces
  import opened Evidence
  import opened EnvironmentProperties
  import opened DepthProperties
  import opened ContentProperties
  import opened ExportProperties
  import opened Composer
  import opened PlainTraces

  /** A kernel in either language that believes everything: one digest, one record, and one canonical form but for
      verdict projections that show content. */
  function CredulousKernel(lang: Language): Kernel {
    Kernel(lang, (b: Bytes) => ZeroDigest(), (j: Json) => if ShowsContent(j) then [1] else [], (s: string) => true,
           (name: Key) => true, (j: Json) => true, (b: Bytes) => Some(ZeroRecord()),
           (m: Bytes, s: string, p: string) => true, (m: Bytes, s: Bytes, n: string, e: string) => Some(true),
           (j: Json) => None, (j: Json) => [], (a: string, b: string, c: nat, d: nat, e: nat, f: nat) => "")
  }

  predicate ShowsContent(j: Json) {
    Get(j, SchemaVersion) != JNull && |Items(Get(j, Events))| > 0
    && Get(Items(Get(j, Events))[0], ContentOk) == JBool(true)
  }

  function ZeroDigest(): Digest {
    seq(32, i => 0)
  }

  function ZeroHex(): string {
    Hex(ZeroDigest())
  }

  function ZeroRecord(): Json {
    JObj(map[Event := JObj(map[MerkleRoot := JStr(ZeroHex()), ContentHash := JStr(ZeroHex())])])
  }

  lemma CredulousTrusts(lang: Language)
    ensures var k := CredulousKernel(lang);
            Trusting(k) && k.lang == lang && NamesRoot(k, ZeroHex())
            && (forall j :: k.jcs(j) == if ShowsContent(j) then [1] else []) && forall b :: k.ShaHex(b) == ZeroHex()
  {
    hide ShowsContent, Hex;
  }

  lemma CredulousCanonical(lang: Language, j: Json)
    requires Depth(j) <= MAX_CANONICAL_DEPTH && Get(j, SchemaVersion) == JNull
    ensures Canonical(CredulousKernel(lang), j) == Some([])
    ensures CanonicalShaHex(CredulousKernel(lang), j) == Some(ZeroHex())
  {
    hide Depth, Canonical, CanonicalShaHex, ZeroHex, CredulousKernel, Trusting;
    CredulousTrusts(lang);
    TrustingCanonical(CredulousKernel(lang), j);
  }

  lemma CredulousWraps(lang: Language, bodyType: string, body: Json)
    requires body.JObj? && Depth(body) < MAX_CANONICAL_DEPTH
    ensures WrapperVerified(CredulousKernel(lang), Wrapped(ZeroHex(), bodyType, body))
  {
    hide *;
    CredulousTrusts(lang);
    WrappedVerifies(CredulousKernel(lang), ZeroHex(), bodyType, body);
  }

  // ----- the nesting bound is reached -----

  /** `n` bundle objects, each in the body of the next. */
  function Tower(n: nat): Json
    requires n > 0
  {
    if n == 1 then JObj(map[]) else Wrapped(ZeroHex(), EXPORT_BODY_TYPE, TowerBody(Tower(n - 1)))
  }

  function TowerBody(source: Json): Json {
    JObj(map[SourceBundleHash := JStr(""), Attestations := JArr([]), KernelVerdict := JObj(map[]),
             SourceBundle := source])
  }

  lemma TowerBodyDepth(source: Json, d: nat)
    requires d >= 1 && Depth(source) <= d
    ensures Depth(TowerBody(source)) <= d + 1
  {
    hide Depth;
    NullDepth();
    FlatObject(map[], 0);
    ListDepth([], 0);
    FlatObject(TowerBody(source).fields, d);
  }

  lemma {:induction false} TowerDepth(n: nat)
    requires n > 0
    ensures Depth(Tower(n)) <= 2 * n - 1
  {
    hide Depth, Wrapped, ZeroHex, TowerBody;
    if n == 1 {
      FlatObject(map[], 0);
    } else {
      TowerDepth(n - 1);
      TowerBodyDepth(Tower(n - 1), 2 * n - 3);
      WrappedDepth(ZeroHex(), EXPORT_BODY_TYPE, TowerBody(Tower(n - 1)), 2 * n - 2);
    }
  }

  lemma TowerIsObject(n: nat)
    requires n > 0
    ensures Tower(n).JObj?
    ensures n > 1 ==> Tower(n) == Wrapped(ZeroHex(), EXPORT_BODY_TYPE, TowerBody(Tower(n - 1)))
  {
  }

  lemma TowerBodyMembers(source: Json)
    requires source.JObj?
    ensures ExportShaped(TowerBody(source)) && Get(TowerBody(source), SourceBundle) == source
    ensures Get(TowerBody(source), SchemaVersion) == JNull
  {
  }

  lemma TowerDescends(lang: Language, n: nat)
    requires 1 < n <= 64
    ensures Descends(CredulousKernel(lang), Tower(n)) && SourceOf(Tower(n)) == Tower(n - 1)
  {
    hide Depth, Tower, Wrapped, WrapperVerified, ExportShaped;
    var body := TowerBody(Tower(n - 1));
    TowerIsObject(n);
    TowerIsObject(n - 1);
    TowerDepth(n - 1);
    TowerBodyDepth(Tower(n - 1), 2 * n - 3);
    TowerBodyMembers(Tower(n - 1));
    CredulousWraps(lang, EXPORT_BODY_TYPE, body);
    WrappedMembers(ZeroHex(), EXPORT_BODY_TYPE, body);
  }

  lemma {:induction false} TowerLevels(lang: Language, n: nat)
    requires 0 < n <= 64
    ensures Levels(CredulousKernel(lang), Tower(n)) == n
  {
    hide Descends, Tower;
    TowerIsObject(n);
    if n > 1 {
      TowerDescends(lang, n);
      TowerLevels(lang, n - 1);
    } else {
      SmallestTower(lang);
    }
  }

  lemma SmallestTower(lang: Language)
    ensures !Descends(CredulousKernel(lang), Tower(1))
  {
  }

  /** Sixty-four nested bundle objects do occur: the bound cannot be lowered. */
  lemma BoundIsReached(lang: Language)
    ensures exists k: Kernel, bundle :: k.lang == lang && Levels(k, bundle) == 64
  {
    TowerLevels(lang, 64);
    assert CredulousKernel(lang).lang == lang;
  }

  // ----- a verified trace -----

  function ZeroInclusion(): Json {
    JObj(map[CheckpointTxId := JStr("tx"), Key.LeafHash := JStr(ZeroHex()), LeafIndex := JInt(0), LeafCount := JInt(1),
             Key.AuditPath := JArr([])])
  }

  function ZeroCheckpoint(): Json {
    PlainCheckpoint(ZeroHex(), ZeroHex())
  }

  function ZeroEvent(): Json {
    PlainEvent(ZeroHex(), ZeroInclusion())
  }

  function ZeroBody(): Json {
    PlainBody(ZeroCheckpoint(), ZeroEvent())
  }

  function ZeroTrace(): Json {
    PlainTrace(ZeroHex(), ZeroHex(), ZeroHex(), ZeroInclusion())
  }

  function ZeroOnline(): Environment {
    Environment(["g"], Some((url: string) => Some([])), map[])
  }

  lemma ZeroHexDecodes(lang: Language)
    ensures CredulousKernel(lang).FromHex(JStr(ZeroHex())) == Some(ZeroDigest()) && Lower(ZeroHex()) == ZeroHex()
  {
    hide Hex;
    HexIsLower(ZeroDigest());
    UnhexOfHex(ZeroHex(), ZeroDigest(), lang.Python?);
  }

  lemma OneLeaf(h: Hash, leaf: Bytes)
    ensures Accepts(h, leaf, 0, 1, [], leaf) && JsCountAccepts(h, leaf, 0, Whole(1), [], leaf)
  {
    WholeCountAccepts(h, leaf, 0, 1, [], leaf);
    JsAgrees(h, leaf, 0, 1, [], leaf);
  }

  lemma ZeroMembers(lang: Language)
    ensures var k, cp, ev, incl := CredulousKernel(lang), ZeroCheckpoint(), ZeroEvent(), ZeroInclusion();
            Get(incl, Key.LeafHash) == JStr(ZeroHex()) && Get(incl, Key.AuditPath) == JArr([])
            && Get(incl, LeafIndex) == JInt(0) && Get(incl, LeafCount) == JInt(1)
            && Get(incl, CheckpointTxId) == JStr("tx") && Get(ev, Inclusion) == incl
            && Get(cp, MerkleRoot) == JStr(ZeroHex()) && Get(cp, TxId) == JStr("tx") && cp.JObj? && ev.JObj?
            && RecordOf(k, ev) == Some([]) && EnvelopeBytes(k, cp) == Some([]) && EnvelopeBytes(k, ev) == Some([])
            && EventIdOf(ev) == "<unknown>" && Get(ev, Content) == JNull
  {
    hide ZeroHex, PlainEvent, PlainCheckpoint, CredulousKernel, EnvelopeBytes, PlainEnvelope, Trusting, NamesRoot,
         RecordOf;
    var k := CredulousKernel(lang);
    CredulousTrusts(lang);
    PlainMembers(k, ZeroHex(), ZeroHex(), ZeroInclusion());
    PlainBytes(k, ZeroHex(), ZeroHex(), ZeroInclusion());
    PlainEnvelopeMembers(ZeroHex());
  }

  /** In a one-leaf tree the leaf is the root and the path is empty. */
  lemma SingleLeafIncluded(k: Kernel, ev: Json, cp: Json, hex: string, leaf: Bytes, doc: Bytes)
    requires EnvelopeBytes(k, ev) == Some(doc)
    requires k.FromHex(JStr(hex)) == Some(leaf) && Hex(Merkle.LeafHash(k.sha, doc)) == Lower(hex)
    requires Get(cp, MerkleRoot) == JStr(hex)
    requires var incl := Get(ev, Inclusion);
             Get(incl, Key.LeafHash) == JStr(hex) && Get(incl, Key.AuditPath) == JArr([])
             && Get(incl, LeafIndex) == JInt(0) && Get(incl, LeafCount) == JInt(1)
    ensures Included(k, ev, cp)
  {
    hide EnvelopeBytes, Accepts, JsCountAccepts, FloatInclusion, Hex, Unhex;
    OneLeaf(k.sha, leaf);
  }

  lemma ZeroEventIncluded(lang: Language)
    ensures Included(CredulousKernel(lang), ZeroEvent(), ZeroCheckpoint())
  {
    hide ZeroHex, ZeroEvent, ZeroCheckpoint, ZeroInclusion, Included, EnvelopeBytes, Lower, Unhex, CredulousKernel,
         Trusting, RecordOf, EventIdOf, ZeroDigest;
    var k := CredulousKernel(lang);
    ZeroMembers(lang);
    ZeroHexDecodes(lang);
    CredulousTrusts(lang);
    assert k.ShaHex([0] + []) == ZeroHex();
    SingleLeafIncluded(k, ZeroEvent(), ZeroCheckpoint(), ZeroHex(), ZeroDigest(), []);
  }

  lemma ZeroEventOk(lang: Language)
    ensures var e := EventVerdict(CredulousKernel(lang), ZeroEvent(), FirstWins([ZeroCheckpoint()]), map[]);
            e.ok && e.payloadBindingOk == Yes && e.contentOk == Unknown
  {
    hide *;
    CredulousTrusts(lang);
    ZeroMembers(lang);
    ZeroEventIncluded(lang);
    ZeroIsPlain();
    PlainEventOk(CredulousKernel(lang), ZeroHex(), ZeroHex(), ZeroInclusion());
  }

  lemma ZeroIsPlain()
    ensures ZeroCheckpoint() == PlainCheckpoint(ZeroHex(), ZeroHex())
    ensures ZeroEvent() == PlainEvent(ZeroHex(), ZeroInclusion())
    ensures ZeroBody() == PlainBody(ZeroCheckpoint(), ZeroEvent())
    ensures ZeroTrace() == PlainTrace(ZeroHex(), ZeroHex(), ZeroHex(), ZeroInclusion())
    ensures !ShowsContent(ZeroBody())
  {
    hide ZeroHex, PlainCheckpoint, PlainEvent, PlainBody, PlainTrace;
    PlainBodyMembers(ZeroCheckpoint(), ZeroEvent());
  }

  lemma ZeroIds(lang: Language)
    ensures FirstWins([ZeroCheckpoint()]) == map["tx" := ZeroCheckpoint()] && Get(ZeroCheckpoint(), TxId) == JStr("tx")
  {
    hide *;
    ZeroMembers(lang);
    ZeroIsPlain();
    PlainIds(CredulousKernel(lang), ZeroHex(), ZeroHex(), ZeroInclusion());
  }

  lemma ZeroProbe(lang: Language, gateway: string)
    ensures Probe(CredulousKernel(lang), ZeroCheckpoint(), gateway, ZeroOnline().fetch.value) == Confirm
  {
    hide EnvelopeBytes, ZeroCheckpoint, ZeroEvent, Canonical, CredulousKernel, ZeroHex, RecordOf;
    ZeroMembers(lang);
  }

  lemma ZeroOnlineView(lang: Language)
    ensures var v := Views(CredulousKernel(lang), [ZeroCheckpoint()], ZeroOnline())[0]; v.ok && !UnreachableView(v)
  {
    hide CheckpointSigned, RootCommitted, CheckpointNotes, FirstWins, ZeroCheckpoint, CredulousKernel, Probe;
    var k, cp := CredulousKernel(lang), ZeroCheckpoint();
    ZeroCheckpointOk(lang);
    ZeroIds(lang);
    ZeroProbe(lang, "g");
    var outcomes := Refetch(k, cp, ["g"], ZeroOnline().fetch.value).perGateway;
    assert outcomes == [GatewayOutcome("g", Confirm)];
    assert outcomes[0] in outcomes;
  }

  lemma ZeroCheckpointOk(lang: Language)
    ensures CheckpointSigned(CredulousKernel(lang), ZeroCheckpoint())
    ensures RootCommitted(CredulousKernel(lang), ZeroCheckpoint())
  {
    hide *;
    CredulousTrusts(lang);
    ZeroIsPlain();
    PlainCheckpointOk(CredulousKernel(lang), ZeroHex(), ZeroHex());
  }

  lemma ZeroOfflineView(lang: Language)
    ensures var v := Views(CredulousKernel(lang), [ZeroCheckpoint()], OFFLINE)[0];
            v.ok && !UnreachableView(v) && v.onChain == None && v.txId == "tx"
  {
    hide *;
    CredulousTrusts(lang);
    ZeroIsPlain();
    PlainOfflineView(CredulousKernel(lang), ZeroHex(), ZeroHex());
  }

  lemma ZeroBodyMembers()
    ensures TraceShaped(ZeroBody()) && Items(Get(ZeroBody(), Checkpoints)) == [ZeroCheckpoint()]
    ensures Items(Get(ZeroBody(), Events)) == [ZeroEvent()] && ZeroBody().JObj?
  {
    hide *;
    ZeroIsPlain();
    PlainBodyMembers(ZeroCheckpoint(), ZeroEvent());
  }

  lemma ZeroTraceMembers(lang: Language)
    ensures IsTrace(CredulousKernel(lang), ZeroTrace()) && Get(ZeroTrace(), Body) == ZeroBody() && ZeroTrace().JObj?
    ensures Depth(ZeroTrace()) <= 6 && Get(ZeroTrace(), SchemaVersion) == JNull
  {
    hide *;
    CredulousTrusts(lang);
    ZeroIsPlain();
    ZeroInclusionDepth();
    PlainTraceMembers(CredulousKernel(lang), ZeroHex(), ZeroHex(), ZeroHex(), ZeroInclusion());
  }

  lemma ZeroInclusionDepth()
    ensures Depth(ZeroInclusion()) <= 2
  {
    hide Depth, ZeroHex;
    NullDepth();
    IntDepth();
    ListDepth([], 0);
    FlatObject(ZeroInclusion().fields, 1);
  }

  lemma ZeroTraceReads(lang: Language)
    ensures !Raises(CredulousKernel(lang), ZeroTrace())
  {
    hide IsTrace, ZeroTrace, ZeroBody, TraceRaises, CredulousKernel, RecordOf, EnvelopeBytes, EventIdOf, ZeroEvent,
         ZeroCheckpoint;
    ZeroTraceMembers(lang);
    ZeroBodyMembers();
    ZeroMembers(lang);
    OneOfEachReads(CredulousKernel(lang), ZeroBody(), ZeroCheckpoint(), ZeroEvent());
  }

  lemma OneOfEachReads(k: Kernel, body: Json, cp: Json, ev: Json)
    requires body.JObj? && cp.JObj? && ev.JObj?
    requires Items(Get(body, Checkpoints)) == [cp] && Items(Get(body, Events)) == [ev]
    ensures !TraceRaises(k.lang, body)
  {
  }

  /** Verified with the gateway asked, and without. */
  lemma ZeroTraceVerified(lang: Language, env: Environment)
    requires env == ZeroOnline() || env == OFFLINE
    ensures BundleVerdict(CredulousKernel(lang), ZeroTrace(), env).status == Status.Verified
  {
    hide *;
    var k := CredulousKernel(lang);
    ZeroTraceMembers(lang);
    ZeroBodyMembers();
    TraceBranch(k, ZeroTrace(), env);
    ZeroEventOk(lang);
    ZeroEnvironments();
    if env == OFFLINE {
      ZeroOfflineView(lang);
    } else {
      ZeroOnlineView(lang);
    }
    OneOfEach(k, ZeroTrace(), env, ZeroCheckpoint(), ZeroEvent());
  }

  lemma ZeroEnvironments()
    ensures ZeroOnline().fetch.Some? && ZeroOnline().gateways != [] && ZeroOnline().content == map[]
    ensures OFFLINE == Environment([], None, map[])
  {
  }

  /** A verified trace with an event exists, with gateways asked. */
  lemma VerifiedTraceExists(lang: Language)
    ensures exists k: Kernel, bundle, env ::
              k.lang == lang && IsTrace(k, bundle) && BundleVerdict(k, bundle, env).status == Status.Verified
              && env.gateways != [] && Items(Get(Get(bundle, Body), Events)) != [] && !Raises(k, bundle)
  {
    hide *;
    CredulousTrusts(lang);
    ZeroTraceMembers(lang);
    ZeroBodyMembers();
    ZeroTraceVerified(lang, ZeroOnline());
    ZeroTraceReads(lang);
    ZeroEnvironments();
  }

  // ----- where verification raises -----

  function NullBody(): Json {
    JObj(map[Checkpoints := JArr([JNull]), Events := JArr([])])
  }

  lemma NullBodyMembers(lang: Language)
    ensures Depth(NullBody()) <= 2 && NullBody().JObj? && TraceRaises(lang, NullBody())
  {
    hide Depth;
    NullDepth();
    ListDepth([JNull], 0);
    ListDepth([], 0);
    FlatObject(NullBody().fields, 1);
    assert [JNull][0] in Items(Get(NullBody(), Checkpoints));
  }

  /** Verification does raise, in both kernels: on a trace whose one checkpoint is null, for instance. */
  lemma RaisesSomewhere(lang: Language)
    ensures exists k: Kernel, bundle :: k.lang == lang && IsTrace(k, bundle) && Raises(k, bundle)
  {
    hide Depth, Wrapped, ZeroHex, NullBody, TraceRaises, CredulousKernel, Trusting, WrapperVerified, IsTrace, Raises,
         NamesRoot;
    var k, bundle := CredulousKernel(lang), Wrapped(ZeroHex(), ANCHOR_TRACE_BODY_TYPE, NullBody());
    NullBodyMembers(lang);
    CredulousTrusts(lang);
    CredulousWraps(lang, ANCHOR_TRACE_BODY_TYPE, NullBody());
    WrappedMembers(ZeroHex(), ANCHOR_TRACE_BODY_TYPE, NullBody());
    UnreadableRaises(k, bundle);
  }

  lemma UnreadableRaises(k: Kernel, bundle: Json)
    requires WrapperVerified(k, bundle) && Get(bundle, BodyType) == JStr(ANCHOR_TRACE_BODY_TYPE)
    requires TraceRaises(k.lang, Get(bundle, Body))
    ensures IsTrace(k, bundle) && Raises(k, bundle)
  {
    hide WrapperVerified, TraceRaises;
  }

  function LineRecord(signature: string, n: string, e: string): Json {
    JObj(map[Payload := JObj(map[]), SignatureAlg := JStr("rsa-pss-sha256"), Signature := JStr(signature),
             PublicKey := JObj(map[Kty := JStr("RSA"), N := JStr(n), E := JStr(e)])])
  }

  function LineBody(rec: Json): Json {
    JObj(map[SourceBundleHash := JStr(""), Attestations := JArr([rec]), KernelVerdict := JObj(map[]),
             SourceBundle := ZeroTrace()])
  }

  function LineExport(rec: Json): Json {
    Wrapped(ZeroHex(), EXPORT_BODY_TYPE, LineBody(rec))
  }

  lemma LineRecordMembers(signature: string, n: string, e: string)
    ensures var rec := LineRecord(signature, n, e);
            Get(rec, Payload) == JObj(map[]) && Get(rec, SignatureAlg) == JStr("rsa-pss-sha256")
            && Get(rec, Signature) == JStr(signature) && Get(Get(rec, PublicKey), Kty) == JStr("RSA")
            && Get(Get(rec, PublicKey), N) == JStr(n) && Get(Get(rec, PublicKey), E) == JStr(e)
            && Depth(rec) <= 2
  {
    hide Depth;
    NullDepth();
    FlatObject(map[], 0);
    ScalarsAreFlat(map[Kty := JStr("RSA"), N := JStr(n), E := JStr(e)]);
    FlatObject(LineRecord(signature, n, e).fields, 1);
  }

  lemma LineBodyMembers(rec: Json)
    requires Depth(rec) <= 2
    ensures ExportShaped(LineBody(rec)) && Get(LineBody(rec), SourceBundle) == ZeroTrace() && ZeroTrace() != JNull
    ensures Items(Get(LineBody(rec), Attestations)) == [rec] && Depth(LineBody(rec)) <= 7
  {
    hide Depth, ZeroTrace, IsTrace, CredulousKernel, ZeroBody;
    NullDepth();
    ZeroTraceMembers(Python);
    FlatObject(map[], 0);
    ListDepth([rec], 2);
    FlatObject(LineBody(rec).fields, 6);
  }

  lemma LineExportDescends(rec: Json)
    requires Depth(rec) <= 2
    ensures Descends(CredulousKernel(Python), LineExport(rec)) && SourceOf(LineExport(rec)) == ZeroTrace()
    ensures RecordsOf(LineExport(rec)) == [rec]
  {
    hide Depth, LineBody, Wrapped, WrapperVerified, ExportShaped, ZeroTrace, ZeroHex;
    LineBodyMembers(rec);
    CredulousWraps(Python, EXPORT_BODY_TYPE, LineBody(rec));
    WrappedMembers(ZeroHex(), EXPORT_BODY_TYPE, LineBody(rec));
  }

  lemma LineRecordRaises(signature: string, n: string, e: string)
    requires HexLine(signature)
             || (|signature| % 2 == 0 && AllHex(signature) && OtherExponent(e) && Base64Line(n))
    ensures var k, bundle := CredulousKernel(Python), LineExport(LineRecord(signature, n, e));
            Raises(k, bundle) && ReadableSource(k, bundle) && RecordsOf(bundle) == [LineRecord(signature, n, e)]
  {
    hide Depth, LineRecord, LineExport, ZeroTrace, Canonical, HexLine, AllHex, OtherExponent, Base64Line, IsTrace,
         Descends, CredulousKernel, Trusting, RecordThrows, RecordsOf;
    var k, rec := CredulousKernel(Python), LineRecord(signature, n, e);
    LineRecordMembers(signature, n, e);
    LineExportDescends(rec);
    ZeroTraceMembers(Python);
    ZeroTraceReads(Python);
    CredulousTrusts(Python);
    NullDepth();
    FlatObject(map[], 0);
    CredulousCanonical(Python, JObj(map[]));
    ThrowsIsNewline(k, rec);
    ExportIsNoTrace(k, LineExport(rec));
    assert [rec][0] == rec && AllWellFormed(k, [rec][..0]);
  }

  ghost predicate ReadableSource(k: Kernel, bundle: Json) {
    Descends(k, bundle) && IsTrace(k, SourceOf(bundle)) && !Raises(k, SourceOf(bundle))
  }

  ghost predicate OneRecord(bundle: Json, signature: string, n: string) {
    |RecordsOf(bundle)| == 1 && Get(RecordsOf(bundle)[0], Signature) == JStr(signature)
    && Get(Get(RecordsOf(bundle)[0], PublicKey), N) == JStr(n)
  }

  /** In Python a readable trace is no excuse: verification of an export raises on one signature that is a digit and a
      newline, and on one modulus with a newline behind it. */
  lemma ReadableExportRaises()
    ensures exists k: Kernel, bundle ::
              k.lang.Python? && ReadableSource(k, bundle) && OneRecord(bundle, "0\n", "AQ") && Raises(k, bundle)
    ensures exists k: Kernel, bundle ::
              k.lang.Python? && ReadableSource(k, bundle) && OneRecord(bundle, "00", "AAA\n") && Raises(k, bundle)
  {
    hide Depth, LineRecord, LineExport, ReadableSource, Raises, CredulousKernel, RecordsOf, Trusting, Decode;
    CredulousTrusts(Python);
    ThreeIsAnotherExponent();
    LineTexts();
    LineRecordMembers("0\n", "AQ", "AQAB");
    LineRecordMembers("00", "AAA\n", "Aw");
    LineRecordRaises("0\n", "AQ", "AQAB");
    LineRecordRaises("00", "AAA\n", "Aw");
    assert OneRecord(LineExport(LineRecord("0\n", "AQ", "AQAB")), "0\n", "AQ");
    assert OneRecord(LineExport(LineRecord("00", "AAA\n", "Aw")), "00", "AAA\n");
  }

  lemma LineTexts()
    ensures HexLine("0\n") && AllHex("00") && Base64Line("AAA\n")
  {
  }

  lemma ThreeIsAnotherExponent()
    ensures OtherExponent("Aw")
  {
  }

  // ----- a verified export, with a bound attestation -----

  function CredulousSigner(): Signer {
    Signer((m: Bytes, seed: string) => Some(""), (seed: string) => Some(""))
  }

  /** The address of every key. */
  function ZeroAddress(): string {
    Encode(ZeroDigest())
  }

  function ZeroPayload(): Json {
    JObj(map[Operator := JStr(ZeroAddress()), DataHash := JStr(ZeroHex())])
  }

  function ZeroJwk(): Json {
    JObj(map[Kty := JStr("RSA"), N := JStr("AQ"), E := JStr("AQAB")])
  }

  function ZeroAttestation(): Json {
    JObj(map[Payload := ZeroPayload(), SignatureAlg := JStr("rsa-pss-sha256"), PublicKey := ZeroJwk(),
             Signature := JStr("00"), CheckpointTxId := JStr("tx")])
  }

  function ZeroRecords(): seq<Json> {
    [ZeroAttestation()]
  }

  const EXPORTER := ExporterKey("k", None)

  const PLAIN := Options(None, None, None, "")

  lemma ZeroAttestationMembers()
    ensures var rec, payload, pub := ZeroAttestation(), ZeroPayload(), ZeroJwk();
            rec.JObj? && Get(rec, Payload) == payload && Get(rec, SignatureAlg) == JStr("rsa-pss-sha256")
            && Get(rec, PublicKey) == pub && Get(rec, Signature) == JStr("00")
            && Get(rec, CheckpointTxId) == JStr("tx")
            && payload.JObj? && Get(payload, Operator) == JStr(ZeroAddress())
            && Get(payload, DataHash) == JStr(ZeroHex())
            && Get(payload, Level) == JNull && Get(payload, SchemaVersion) == JNull
            && Get(pub, Kty) == JStr("RSA") && Get(pub, N) == JStr("AQ") && Get(pub, E) == JStr("AQAB")
  {
    hide ZeroHex, ZeroAddress;
  }

  lemma HexStays(rec: Json, sig: string)
    requires rec.JObj? && Get(rec, Signature) == JStr(sig) && SignatureToHex(sig) == Some(sig) && Finite(rec)
    ensures Normalized(rec) == Some(rec)
  {
    hide SignatureToHex, Cloned, Finite;
    ClonedIsExact(rec);
    assert rec.fields[Signature := JStr(sig)] == rec.fields;
  }

  lemma TextIsFinite(fields: map<Key, Json>)
    requires forall key :: key in fields ==> fields[key].JStr?
    ensures Finite(JObj(fields))
  {
  }

  lemma ZeroIsFinite()
    ensures Finite(ZeroAttestation())
  {
    hide ZeroHex, ZeroAddress, Infinite;
    TextIsFinite(ZeroPayload().fields);
    TextIsFinite(ZeroJwk().fields);
  }

  lemma OneStays(rec: Json)
    requires Normalized(rec) == Some(rec)
    ensures AllNormalize([rec]) && NormalizedAll([rec]) == [rec]
  {
    hide Normalized;
    assert NormalizedAll([rec])[0] == rec;
  }

  lemma ZeroNormalizes()
    ensures AllNormalize(ZeroRecords())
    ensures NormalizedAll(ZeroRecords()) == ZeroRecords()
  {
    hide ZeroAttestation, SignatureToHex, Normalized, AllNormalize, NormalizedAll, ZeroPayload, ZeroJwk, ZeroHex,
         ZeroAddress, Finite;
    ZeroAttestationMembers();
    ZeroSignatureHex();
    ZeroIsFinite();
    HexStays(ZeroAttestation(), "00");
    OneStays(ZeroAttestation());
  }

  lemma ZeroSignatureHex()
    ensures SignatureToHex("00") == Some("00")
  {
    hide Hex, CredulousKernel;
    assert Lower("00") == "00" && IsHexDigit('0');
    assert forall c :: c in "00" ==> c == '0';
  }

  lemma ThreeSextets()
    ensures IsBase64('A') && IsBase64('B') && IsBase64('Q') && Sextet('A') == 0 && Sextet('B') == 1 && Sextet('Q') == 16
  {
  }

  lemma ThreeBytes()
    ensures First(0, 16) == 1 && Second(16, 0) == 0 && Third(0, 1) == 1
  {
  }

  lemma ExponentText()
    ensures Decodable("AQAB") && Decode("AQAB") == [1, 0, 1]
  {
    hide IsBase64, Sextet, First, Second, Third;
    ThreeSextets();
    ThreeBytes();
    assert "AQAB"[4..] == "" && Decode("") == [];
  }

  lemma ModulusText()
    ensures Decodable("AQ") && Decode("AQ") == [1]
  {
    hide IsBase64, Sextet, First, Second, Third;
    ThreeSextets();
    ThreeBytes();
  }

  lemma OneIsPositive()
    ensures BigEndian([1]) > 0
  {
    assert [1 as byte][..0] == [];
  }

  lemma ZeroSignatureText()
    ensures |"00"| % 2 == 0 && AllHex("00")
  {
  }

  lemma EncodedExponent()
    ensures EncodesExponent([1, 0, 1])
  {
  }

  /** A key with modulus 1 and the operator exponent imports and verifies. */
  lemma ZeroKeyVerifies(lang: Language, message: Bytes)
    ensures RsaVerdict(CredulousKernel(lang), message, "00", "AQ", "AQAB") == Done(true)
    ensures OperatorAddress(CredulousKernel(lang), "AQ") == Done(ZeroAddress())
  {
    hide StrictHex, FromBase64Url, Decode, Decodable, EncodesExponent, AllHex, BigEndian, Encode, Trusting;
    ZeroSignatureText();
    ModulusText();
    ExponentText();
    EncodedExponent();
    HexIsExact(lang, "00");
    Base64IsExact(lang, "AQ");
    Base64IsExact(lang, "AQAB");
    ExponentIsExact(Decode("AQAB"));
    OneIsPositive();
  }

  lemma RecordParts(k: Kernel, rec: Json, message: Bytes, sig: string, n: string, e: string)
    requires Get(rec, Payload).JObj? && Canonical(k, Get(rec, Payload)) == Some(message)
    requires Get(rec, SignatureAlg) == JStr("rsa-pss-sha256") && Get(rec, Signature) == JStr(sig)
    requires var pub := Get(rec, PublicKey);
             Get(pub, Kty) == JStr("RSA") && Get(pub, N) == JStr(n) && Get(pub, E) == JStr(e)
    ensures CompleteRecord(k, rec) && SignatureCheck(k, rec) == RsaVerdict(k, message, sig, n, e)
            && AddressOf(k, rec) == OperatorAddress(k, n)
    ensures RsaVerdict(k, message, sig, n, e).Done? && OperatorAddress(k, n).Done? ==> WellFormedAttestation(k, rec)
  {
    hide RsaVerdict, OperatorAddress, Canonical;
  }

  lemma ZeroWellFormed(lang: Language)
    ensures WellFormedAttestation(CredulousKernel(lang), ZeroAttestation())
    ensures CompleteRecord(CredulousKernel(lang), ZeroAttestation())
            && SignatureCheck(CredulousKernel(lang), ZeroAttestation()) == Done(true)
            && AddressOf(CredulousKernel(lang), ZeroAttestation()) == Done(ZeroAddress())
    ensures Canonical(CredulousKernel(lang), ZeroPayload()) == Some([])
  {
    hide ZeroAttestation, ZeroPayload, ZeroJwk, ZeroAddress, ZeroHex, Canonical, Depth, RsaVerdict, OperatorAddress,
         CompleteRecord, SignatureCheck, AddressOf, WellFormedAttestation, CredulousKernel;
    ZeroAttestationMembers();
    ZeroPayloadDepth();
    CredulousCanonical(lang, ZeroPayload());
    ZeroKeyVerifies(lang, []);
    RecordParts(CredulousKernel(lang), ZeroAttestation(), [], "00", "AQ", "AQAB");
  }

  lemma ZeroAddressIsText()
    ensures ZeroAddress() != ""
  {
  }

  lemma ZeroPayloadDepth()
    ensures Depth(ZeroPayload()) <= 1 && Depth(ZeroAttestation()) <= 2
  {
    hide Depth, ZeroHex, ZeroAddress;
    NullDepth();
    ScalarsAreFlat(ZeroPayload().fields);
    ScalarsAreFlat(ZeroJwk().fields);
    FlatObject(ZeroAttestation().fields, 1);
  }

  lemma ZeroSource(lang: Language)
    ensures SourceCheckpoints(ZeroTrace()) == map["tx" := ZeroCheckpoint()]
  {
    hide ZeroTrace, ZeroBody, ZeroCheckpoint, IsTrace;
    ZeroTraceMembers(lang);
    ZeroBodyMembers();
    ZeroIds(lang);
    assert [ZeroCheckpoint()][..0] == [];
  }

  /** Signed, named, bound and resolved. */
  lemma ZeroAttestationOk(lang: Language)
    requires WellFormedAttestation(CredulousKernel(lang), ZeroAttestation())
    ensures var a := AttestationVerdict(CredulousKernel(lang), ZeroAttestation(), map["tx" := ZeroCheckpoint()]);
            a.ok && a.level == None && a.checkpointTxId == "tx"
  {
    hide ZeroAttestation, ZeroPayload, ZeroJwk, Canonical, ZeroCheckpoint, WellFormedAttestation, ZeroHex,
         CredulousKernel, SignatureCheck, AddressOf, ZeroAddress, DataHashBinds;
    ZeroAttestationMembers();
    ZeroWellFormed(lang);
    ZeroDataHash(lang);
    ZeroAddressIsText();
  }

  lemma ZeroDataHash(lang: Language)
    ensures DataHashBinds(CredulousKernel(lang), ZeroPayload(), ZeroCheckpoint())
  {
    hide ZeroPayload, ZeroCheckpoint, ZeroEvent, EnvelopeBytes, ZeroHex, CredulousKernel, Lower, RecordOf, Trusting,
         NamesRoot, EventIdOf;
    ZeroAttestationMembers();
    ZeroHexDecodes(lang);
    ZeroMembers(lang);
    CredulousTrusts(lang);
    ZeroHexLength();
  }

  lemma ZeroHexLength()
    ensures |ZeroHex()| == 64
  {
  }

  ghost function ZeroVerdict(lang: Language): VerdictObject
    requires AllWellFormed(CredulousKernel(lang), ZeroRecords())
  {
    ComposedVerdict(CredulousKernel(lang), ZeroTrace(), ZeroRecords(), "")
  }

  lemma ZeroRecordsWellFormed(lang: Language)
    ensures AllWellFormed(CredulousKernel(lang), ZeroRecords())
  {
    hide WellFormedAttestation, ZeroAttestation;
    ZeroWellFormed(lang);
  }

  lemma ZeroAttestations(lang: Language)
    ensures AllWellFormed(CredulousKernel(lang), ZeroRecords())
    ensures var k, cps := CredulousKernel(lang), SourceCheckpoints(ZeroTrace());
            forall a :: a in AttestationVerdicts(k, ZeroRecords(), cps) ==> a.ok && a.level == None
  {
    hide AllWellFormed, WellFormedAttestation, AttestationVerdict, ZeroAttestation, ZeroTrace, SourceCheckpoints,
         CredulousKernel, ZeroCheckpoint;
    ZeroRecordsWellFormed(lang);
    ZeroWellFormed(lang);
    ZeroSource(lang);
    ZeroAttestationOk(lang);
  }

  /** What the composition announces. */
  lemma ZeroVerdictParts(lang: Language)
    ensures AllWellFormed(CredulousKernel(lang), ZeroRecords())
    ensures ZeroVerdict(lang).status == Status.Verified
    ensures forall c :: c in ZeroVerdict(lang).checkpoints ==>
              c.onChain == None && forall a :: a in c.attestations ==> a.level == None
  {
    hide *;
    ZeroAttestations(lang);
    ZeroTraceVerified(lang, OFFLINE);
    ZeroTraceCheckpoints(lang);
    Settings(lang);
    AllGood(CredulousKernel(lang), ZeroTrace(), ZeroRecords(), PLAIN.generatedAt);
  }

  lemma AllGood(k: Kernel, source: Json, records: seq<Json>, generatedAt: string)
    requires AllWellFormed(k, records) && BundleVerdict(k, source, OFFLINE).status == Status.Verified
    requires forall c :: c in BundleVerdict(k, source, OFFLINE).checkpoints ==> c.onChain == None
    requires forall a :: a in AttestationVerdicts(k, records, SourceCheckpoints(source)) ==> a.ok && a.level == None
    ensures var v := ComposedVerdict(k, source, records, generatedAt);
            v.status == Status.Verified
            && forall c :: c in v.checkpoints ==>
                 c.onChain == None && forall a :: a in c.attestations ==> a.level == None
  {
    hide AllWellFormed, BundleVerdict, AttestationVerdict, SourceCheckpoints, CountEvents, CountAttestations,
         EntriesFor, Summarize, VerdictEvents;
    var atts := AttestationVerdicts(k, records, SourceCheckpoints(source));
    forall c | c in ComposedVerdict(k, source, records, generatedAt).checkpoints
      ensures c.onChain == None && forall a :: a in c.attestations ==> a.level == None
    {
      LevelsOfEntries(atts, c.checkpointTxId);
    }
  }

  lemma ZeroTraceCheckpoints(lang: Language)
    ensures forall c :: c in BundleVerdict(CredulousKernel(lang), ZeroTrace(), OFFLINE).checkpoints ==>
              c.onChain == None
  {
    hide *;
    ZeroTraceMembers(lang);
    ZeroBodyMembers();
    TraceBranch(CredulousKernel(lang), ZeroTrace(), OFFLINE);
    OfflineHasNoAnswers(CredulousKernel(lang), ZeroTrace());
  }

  lemma OfflineHasNoAnswers(k: Kernel, bundle: Json)
    ensures forall c :: c in TraceVerdict(k, bundle, OFFLINE).checkpoints ==> c.onChain == None
  {
    hide EventVerdicts, TraceStatus, FirstWins, CheckpointSigned, RootCommitted, CheckpointNotes;
  }

  lemma {:induction false} LevelsOfEntries(atts: seq<AttestationResult>, id: string)
    requires forall a :: a in atts ==> a.level == None
    ensures forall e :: e in EntriesFor(atts, id) ==> e.level == None
  {
    if atts != [] {
      LevelsOfEntries(atts[..|atts| - 1], id);
    }
  }

  /** Without gateway answers and attestation levels a verdict has at most five levels. */
  lemma VerdictDepth(v: VerdictObject)
    requires forall c :: c in v.checkpoints ==> c.onChain == None && forall a :: a in c.attestations ==> a.level == None
    ensures Depth(VerdictJson(v)) <= 5
  {
    hide Depth, EventJson, CheckpointJson, CountsJson;
    NullDepth();
    CountsDepth(v);
    forall i | 0 <= i < |v.events| ensures Depth(EventJson(v.events[i])) <= 3 {
      EventJsonDepth(v.events[i]);
    }
    forall i | 0 <= i < |v.checkpoints| ensures Depth(CheckpointJson(v.checkpoints[i])) <= 3 {
      CheckpointJsonDepth(v.checkpoints[i]);
    }
    ListDepth(EventsJson(v.events), 3);
    ListDepth(CheckpointsJson(v.checkpoints), 3);
    FlatObject(VerdictJson(v).fields, 4);
  }

  lemma CountsDepth(v: VerdictObject)
    ensures Depth(CountsJson(v)) <= 1
  {
    hide Depth;
    ScalarsAreFlat(CountsJson(v).fields);
  }

  lemma EventJsonDepth(e: VerdictEvent)
    ensures Depth(EventJson(e)) <= 1
  {
    hide Depth, StatusName;
    ScalarsAreFlat(EventJson(e).fields);
  }

  lemma AttestationJsonDepth(a: VerdictAttestation)
    requires a.level == None
    ensures Depth(AttestationJson(a)) <= 1
  {
    hide Depth;
    ScalarsAreFlat(AttestationJson(a).fields);
  }

  lemma CheckpointJsonDepth(c: VerdictCheckpoint)
    requires c.onChain == None && forall a :: a in c.attestations ==> a.level == None
    ensures Depth(CheckpointJson(c)) <= 3
  {
    hide Depth, AttestationJson;
    NullDepth();
    BoolDepth(c.merkleRootOk);
    forall i | 0 <= i < |c.attestations| ensures Depth(AttestationJson(c.attestations[i])) <= 1 {
      AttestationJsonDepth(c.attestations[i]);
    }
    ListDepth(AttestationsJson(c.attestations), 1);
    FlatObject(CheckpointJson(c).fields, 2);
  }

  lemma ZeroExportDepth(lang: Language, verdict: VerdictObject)
    requires Depth(VerdictJson(verdict)) <= 5
    ensures var body := ExportBody(CredulousKernel(lang), ZeroTrace(), ZeroRecords(), verdict, ZeroHex());
            Depth(body) <= 7 && Get(body, SchemaVersion) == JNull && body.JObj?
  {
    hide Depth, ZeroHex, ZeroTrace, ZeroAttestation, VerdictJson, IsTrace, CredulousKernel,
         ZeroBody, ZeroPayload, ZeroJwk;
    NullDepth();
    ZeroTraceMembers(lang);
    ZeroPayloadDepth();
    ListDepth(ZeroRecords(), 2);
    FlatObject(ExportBody(CredulousKernel(lang), ZeroTrace(), ZeroRecords(), verdict, ZeroHex()).fields, 6);
  }

  lemma DisplayedDepth(verdict: VerdictObject)
    ensures Depth(WrapperVerdict(verdict, PLAIN.generatedAt)) <= 2
  {
    hide Depth, CountsJson, StatusName;
    NullDepth();
    CountsDepth(verdict);
    FlatObject(WrapperVerdict(verdict, PLAIN.generatedAt).fields, 1);
  }

  lemma IssuerDepth(verdict: VerdictObject, body: Json)
    ensures Depth(Wrapper(verdict, body, ZeroHex(), "", PLAIN)[Issuer]) <= 1
  {
    hide Depth, ZeroHex, WrapperVerdict;
    var issuer := Wrapper(verdict, body, ZeroHex(), "", PLAIN)[Issuer];
    assert issuer.JObj?;
    ScalarsAreFlat(issuer.fields);
  }

  lemma ZeroWrapperDepth(verdict: VerdictObject, body: Json)
    requires Depth(body) <= 7
    ensures var wrapper := Wrapper(verdict, body, ZeroHex(), "", PLAIN);
            Depth(JObj(wrapper)) <= 8 && Get(JObj(wrapper), SchemaVersion) == JNull
  {
    hide Depth, ZeroHex, WrapperVerdict;
    NullDepth();
    DisplayedDepth(verdict);
    IssuerDepth(verdict, body);
    FlatObject(Wrapper(verdict, body, ZeroHex(), "", PLAIN), 7);
  }

  ghost function ZeroExport(lang: Language): Json
    requires AllWellFormed(CredulousKernel(lang), ZeroRecords())
  {
    var body := ExportBody(CredulousKernel(lang), ZeroTrace(), ZeroRecords(), ZeroVerdict(lang), ZeroHex());
    JObj(Wrapper(ZeroVerdict(lang), body, ZeroHex(), "", PLAIN)[Signature := JStr("")])
  }

  lemma ZeroExportComposed(lang: Language)
    ensures AllWellFormed(CredulousKernel(lang), ZeroRecords())
    ensures ComposedFrom(CredulousKernel(lang), CredulousSigner(), ZeroTrace(), JArr(ZeroRecords()), EXPORTER, PLAIN,
                         ZeroExport(lang))
  {
    hide Depth, ZeroHex, Canonical, CanonicalShaHex, ComposedVerdict, ExportBody, Wrapper, ZeroTrace, ZeroRecords,
         AllWellFormed, AllNormalize, NormalizedAll, Raises, IsTrace;
    var k := CredulousKernel(lang);
    ZeroVerdictParts(lang);
    ZeroNormalizes();
    ZeroTraceMembers(lang);
    ZeroTraceReads(lang);
    VerdictDepth(ZeroVerdict(lang));
    ZeroExportDepth(lang, ZeroVerdict(lang));
    var body := ExportBody(k, ZeroTrace(), ZeroRecords(), ZeroVerdict(lang), ZeroHex());
    ZeroWrapperDepth(ZeroVerdict(lang), body);
    CredulousCanonical(lang, ZeroTrace());
    CredulousCanonical(lang, body);
    var wrapper := Wrapper(ZeroVerdict(lang), body, ZeroHex(), "", PLAIN);
    CredulousCanonical(lang, JObj(wrapper));
    assert SignedWrapper(k, CredulousSigner(), wrapper, EXPORTER.privateKey, ZeroExport(lang));
  }

  lemma CredulousSignerWorks(lang: Language)
    ensures SignerWorks(CredulousKernel(lang), CredulousSigner())
    ensures PublicKeyOf(CredulousSigner(), EXPORTER) == CredulousSigner().publicKey(EXPORTER.privateKey)
  {
    hide ZeroRecord, ZeroDigest;
  }

  /** A composition over a verified trace with a bound attestation succeeds and announces verified. */
  lemma CompositionExists()
    ensures exists k: Kernel, signer, source, attestations, key, options, bundle ::
              k.lang.TypeScript? && SignerWorks(k, signer)
              && ComposedFrom(k, signer, source, attestations, key, options, bundle)
              && PublicKeyOf(signer, key) == signer.publicKey(key.privateKey)
              && |attestations.items| == 1 && IsTrace(k, source)
              && ComposedVerdict(k, source, NormalizedAll(attestations.items), options.generatedAt).status
                 == Status.Verified
  {
    hide *;
    CredulousTrusts(TypeScript);
    Settings(TypeScript);
    ZeroExportComposed(TypeScript);
    ZeroVerdictParts(TypeScript);
    ZeroNormalizes();
    ZeroTraceMembers(TypeScript);
    CredulousSignerWorks(TypeScript);
    assert JArr(ZeroRecords()).items == ZeroRecords();
  }

  /** An export over a trace is verified with one fully bound attestation and distinct checkpoint ids. */
  lemma VerifiedExportExists(lang: Language)
    ensures exists k: Kernel, bundle ::
              k.lang == lang && Descends(k, bundle) && IsTrace(k, SourceOf(bundle))
              && TraceShaped(Get(SourceOf(bundle), Body))
              && DistinctIds(Items(Get(Get(SourceOf(bundle), Body), Checkpoints)))
              && BundleVerdict(k, bundle, OFFLINE).status == Status.Verified
              && VerdictHasOneAttestation(BundleVerdict(k, bundle, OFFLINE))
  {
    hide *;
    CredulousTrusts(lang);
    ZeroExportComposed(lang);
    ZeroVerdictParts(lang);
    ZeroNormalizes();
    CredulousSignerWorks(lang);
    ZeroTraceMembers(lang);
    ZeroBodyMembers();
    ZeroIds(lang);
    ZeroDistinct(lang);
    ZeroExportVerified(lang);
  }

  ghost predicate VerdictHasOneAttestation(r: BundleResult) {
    r.exported.Some? && |r.exported.value.attestations| == 1 && FullyBound(r.exported.value.attestations[0])
  }

  lemma Settings(lang: Language)
    ensures OFFLINE == Environment([], None, map[]) && |ZeroRecords()| == 1
    ensures AllWellFormed(CredulousKernel(lang), ZeroRecords()) ==>
              ZeroVerdict(lang) == ComposedVerdict(CredulousKernel(lang), ZeroTrace(), ZeroRecords(), PLAIN.generatedAt)
  {
    hide AllWellFormed, ComposedVerdict, CredulousKernel, ZeroTrace, ZeroAttestation;
  }

  lemma ZeroExportVerified(lang: Language)
    ensures AllWellFormed(CredulousKernel(lang), ZeroRecords())
    ensures Descends(CredulousKernel(lang), ZeroExport(lang)) && SourceOf(ZeroExport(lang)) == ZeroTrace()
    ensures var r := BundleVerdict(CredulousKernel(lang), ZeroExport(lang), OFFLINE);
            r.status == Status.Verified && VerdictHasOneAttestation(r)
  {
    hide *;
    var k, signer, records := CredulousKernel(lang), CredulousSigner(), JArr(ZeroRecords());
    ZeroExportComposed(lang);
    ZeroVerdictParts(lang);
    ZeroNormalizes();
    CredulousSignerWorks(lang);
    Settings(lang);
    NoContentIsNeutral(k, ZeroTrace());
    ComposeThenVerify(k, signer, ZeroTrace(), records, EXPORTER, PLAIN, ZeroExport(lang), map[]);
    ComposedExport(k, signer, ZeroTrace(), records, EXPORTER, PLAIN, ZeroExport(lang), OFFLINE);
    OneBoundAttestation(k, ZeroExport(lang), OFFLINE, ZeroRecords(), SourceCheckpoints(ZeroTrace()));
  }

  lemma OneBoundAttestation(k: Kernel, bundle: Json, env: Environment, recs: seq<Json>, cps: map<string, Json>)
    requires AllWellFormed(k, recs) && |recs| == 1 && Descends(k, bundle)
    requires BundleVerdict(k, bundle, env).status == Status.Verified && BundleVerdict(k, bundle, env).exported.Some?
    requires BundleVerdict(k, bundle, env).exported.value.attestations == AttestationVerdicts(k, recs, cps)
    ensures VerdictHasOneAttestation(BundleVerdict(k, bundle, env))
  {
    hide BundleVerdict, Descends, FullyBound, AllWellFormed, AttestationVerdict, Agrees, SourceLinked, Flawless;
    VerifiedMeansAllTheWay(k, bundle, env);
    var atts := BundleVerdict(k, bundle, env).exported.value.attestations;
    assert atts[0] in atts;
  }

  lemma ZeroDistinct(lang: Language)
    ensures DistinctIds([ZeroCheckpoint()])
  {
    hide ZeroCheckpoint;
    ZeroIds(lang);
  }

  // ----- true content that was not disclosed to the composer -----

  function ZeroContent(): map<string, Disclosed> {
    map["<unknown>" := RawBytes([])]
  }

  lemma ZeroContentIsTrue(lang: Language)
    ensures ContentVerdict(CredulousKernel(lang), ZeroEvent(), ZeroContent()) == Yes
  {
    hide *;
    CredulousTrusts(lang);
    ZeroEventCommits(lang);
    ZeroMembers(lang);
    ZeroSide(lang);
    SideOnly(CredulousKernel(lang), ZeroEvent(), ZeroContent(), []);
  }

  lemma SideOnly(k: Kernel, ev: Json, content: map<string, Disclosed>, bytes: Bytes)
    requires SideContent(k, content, EventIdOf(ev)) == Some(bytes) && Get(ev, Content) == JNull
    requires CommittedHashes(k, ev) == [k.ShaHex(bytes)]
    ensures ContentVerdict(k, ev, content) == Yes
  {
    hide CommittedHashes, SideContent, EventIdOf;
  }

  lemma ZeroSide(lang: Language)
    ensures SideContent(CredulousKernel(lang), ZeroContent(), "<unknown>") == Some([])
  {
    hide CredulousKernel;
  }

  lemma ZeroEventCommits(lang: Language)
    ensures CommittedHashes(CredulousKernel(lang), ZeroEvent()) == [ZeroHex()]
  {
    hide ZeroHex, ZeroEvent, ZeroCheckpoint, Lower, RecordOf, EnvelopeBytes, EventIdOf;
    ZeroMembers(lang);
    ZeroHexDecodes(lang);
    ZeroHexLength();
  }

  lemma ZeroTraceEvents(lang: Language, content: map<string, Disclosed>)
    ensures BundleVerdict(CredulousKernel(lang), ZeroTrace(), Environment([], None, content)).events
            == [EventVerdict(CredulousKernel(lang), ZeroEvent(), FirstWins([ZeroCheckpoint()]), content)]
  {
    hide ZeroTrace, ZeroBody, BundleVerdict, IsTrace, EventVerdict, Views, ZeroCheckpoint, ZeroEvent, FirstWins,
         TraceStatus;
    ZeroTraceMembers(lang);
    ZeroBodyMembers();
    TraceBranch(CredulousKernel(lang), ZeroTrace(), Environment([], None, content));
  }

  lemma ProjectionShows(v: VerdictObject)
    ensures ShowsContent(Project(VerdictJson(v))) <==> v.events != [] && v.events[0].contentOk == Yes
  {
    hide VerdictJson, Project, ProjectEvent, ProjectCheckpoint, EventJson, CheckpointJson;
    ProjectMembers(v);
    if v.events != [] {
      ProjectEventJson(v.events[0]);
    }
  }

  lemma ShownIsNoClash(lang: Language, a: VerdictObject, b: VerdictObject)
    requires !ShowsContent(Project(VerdictJson(a))) && ShowsContent(Project(VerdictJson(b)))
    ensures !Clash(CredulousKernel(lang), Project(VerdictJson(a)), Project(VerdictJson(b)))
  {
    hide VerdictJson, Project, ShowsContent, Canonical, CredulousKernel, Trusting, NamesRoot;
    RecomputedProjectionDepth(a);
    RecomputedProjectionDepth(b);
    CredulousTrusts(lang);
    TrustingCanonical(CredulousKernel(lang), Project(VerdictJson(a)));
    TrustingCanonical(CredulousKernel(lang), Project(VerdictJson(b)));
  }

  lemma ContentFinding(lang: Language, ev: Json, byTxId: map<string, Json>, content: map<string, Disclosed>)
    ensures EventVerdict(CredulousKernel(lang), ev, byTxId, content).contentOk
            == ContentVerdict(CredulousKernel(lang), ev, content)
  {
    hide EnvelopeVerdict, Included, CheckpointFor, ContentVerdict, CredulousKernel;
  }

  lemma VerdictEventsOf(source: BundleResult, atts: seq<AttestationResult>, v: VerdictObject)
    requires VerdictFrom(v, source, atts) && |source.events| == 1
    ensures |v.events| == 1 && v.events[0].contentOk == source.events[0].contentOk
  {
    hide EntriesFor, CountEvents, CountAttestations;
  }

  lemma ZeroVerdictFrom(lang: Language, atts: seq<AttestationResult>)
    requires AllWellFormed(CredulousKernel(lang), ZeroRecords())
    requires atts == AttestationVerdicts(CredulousKernel(lang), ZeroRecords(), SourceCheckpoints(ZeroTrace()))
    ensures VerdictFrom(ZeroVerdict(lang), BundleVerdict(CredulousKernel(lang), ZeroTrace(), OFFLINE), atts)
  {
    hide VerdictOf, BundleVerdict, AllWellFormed, ZeroTrace, ZeroRecords, Summarize, AttestationVerdict;
  }

  lemma UndisclosedIsOffline(content: map<string, Disclosed>)
    ensures Undisclosed(Environment([], None, content)) == OFFLINE
  {
  }

  lemma ZeroFlips(lang: Language)
    ensures AllWellFormed(CredulousKernel(lang), ZeroRecords())
    ensures BundleVerdict(CredulousKernel(lang), ZeroExport(lang), Environment([], None, ZeroContent())).status
            == Status.Failed
  {
    hide *;
    var k, signer, records := CredulousKernel(lang), CredulousSigner(), JArr(ZeroRecords());
    var env := Environment([], None, ZeroContent());
    ZeroExportComposed(lang);
    ZeroVerdictParts(lang);
    ZeroNormalizes();
    CredulousSignerWorks(lang);
    Settings(lang);
    ContentIsExact(k, signer, ZeroTrace(), records, EXPORTER, PLAIN, ZeroExport(lang), ZeroContent());
    UndisclosedIsOffline(ZeroContent());
    NeutralIsExact(k, ZeroTrace(), env);
    ZeroTraceEvents(lang, ZeroContent());
    ZeroTraceEvents(lang, map[]);
    ContentFinding(lang, ZeroEvent(), FirstWins([ZeroCheckpoint()]), ZeroContent());
    ContentFinding(lang, ZeroEvent(), FirstWins([ZeroCheckpoint()]), map[]);
    ZeroContentIsTrue(lang);
    ZeroIsPlain();
    ContentUndisclosed(k, ZeroHex(), ZeroInclusion());
    var atts := AttestationVerdicts(k, ZeroRecords(), SourceCheckpoints(ZeroTrace()));
    ComposedExport(k, signer, ZeroTrace(), records, EXPORTER, PLAIN, ZeroExport(lang), env);
    var shown := BundleVerdict(k, ZeroExport(lang), env).exported.value.verdict;
    ZeroVerdictFrom(lang, atts);
    AmendedIsFrom(BundleVerdict(k, ZeroTrace(), env), atts, shown);
    VerdictEventsOf(BundleVerdict(k, ZeroTrace(), OFFLINE), atts, ZeroVerdict(lang));
    VerdictEventsOf(BundleVerdict(k, ZeroTrace(), env), atts, shown);
    ProjectionShows(ZeroVerdict(lang));
    ProjectionShows(shown);
    ShownIsNoClash(lang, ZeroVerdict(lang), shown);
  }

  /** Disclosing content that truly matches, to a verifier of an export composed without it, turns a verified export
      into a failed one. */
  lemma TrueContentFlips(lang: Language)
    ensures exists k: Kernel, bundle, content ::
              k.lang == lang && Descends(k, bundle) && BundleVerdict(k, bundle, OFFLINE).status == Status.Verified
              && (forall ev :: ev in Items(Get(Get(SourceOf(bundle), Body), Events)) ==>
                                 ContentVerdict(k, ev, content) == Yes)
              && BundleVerdict(k, bundle, Environment([], None, content)).status == Status.Failed
  {
    hide *;
    CredulousTrusts(lang);
    ZeroExportVerified(lang);
    ZeroFlips(lang);
    ZeroTraceMembers(lang);
    ZeroBodyMembers();
    ZeroContentIsTrue(lang);
    assert forall ev :: ev in [ZeroEvent()] ==> ev == ZeroEvent();
  }
}
