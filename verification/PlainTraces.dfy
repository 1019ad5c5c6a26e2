/** The simplest traces there are, one checkpoint and one event, under kernels that trust every signature. */
module PlainTraces {
  import opened Octets
  import opened JsonValues
  import opened KernelPrimitives
  import opened Envelopes
  import opened Traces
  import opened Evidence
  import opened EnvironmentProperties
  import opened DepthProperties
  import opened Composer

  /** Every text and number is representable, and every Ed25519 signature verifies. */
  ghost predicate Trusting(k: Kernel) {
    (forall s :: k.wellFormed(s)) && (forall name :: k.wellFormedName(name)) && (forall j :: k.numberOk(j))
    && forall m, s, p :: k.ed25519(m, s, p)
  }

  lemma {:induction false} TrustingRepresents(k: Kernel, j: Json)
    requires Trusting(k)
    ensures Representable(k, j)
  {
    match j
    case JArr(items) =>
      forall c | c in items ensures Representable(k, c) {
        TrustingRepresents(k, c);
      }
    case JObj(fields) =>
      forall key | key in fields ensures Representable(k, fields[key]) {
        TrustingRepresents(k, fields[key]);
      }
    case _ =>
  }

  lemma TrustingCanonical(k: Kernel, j: Json)
    requires Trusting(k) && Depth(j) <= MAX_CANONICAL_DEPTH
    ensures Canonical(k, j) == Some(k.jcs(j)) && CanonicalShaHex(k, j) == Some(k.ShaHex(k.jcs(j)))
  {
    hide Depth, Representable, Nests, Trusting;
    NestsIsDepth(j, MAX_CANONICAL_DEPTH);
    TrustingRepresents(k, j);
  }

  // ----- wrappers -----

  function Wrapped(hash: string, bodyType: string, body: Json): Json {
    JObj(map[SpecVersion := JStr(EVIDENCE_MAJOR), SignatureAlg := JStr("ed25519"), PublicKey := JStr(""),
             Signature := JStr(""), BodyHash := JStr(hash), BodyType := JStr(bodyType), Body := body])
  }

  lemma WrappedMembers(hash: string, bodyType: string, body: Json)
    ensures var bundle := Wrapped(hash, bodyType, body);
            Get(bundle, SpecVersion) == JStr(EVIDENCE_MAJOR) && Get(bundle, SignatureAlg) == JStr("ed25519")
            && Get(bundle, PublicKey) == JStr("") && Get(bundle, Signature) == JStr("") && bundle.JObj?
            && Get(bundle, BodyHash) == JStr(hash) && Get(bundle, BodyType) == JStr(bodyType)
            && Get(bundle, Body) == body && Get(bundle, SchemaVersion) == JNull
  {
  }

  lemma WrappedDepth(hash: string, bodyType: string, body: Json, d: nat)
    requires Depth(body) <= d
    ensures Depth(Wrapped(hash, bodyType, body)) <= d + 1
  {
    hide Depth;
    NullDepth();
    FlatObject(Wrapped(hash, bodyType, body).fields, d);
  }

  lemma WrappedVerifies(k: Kernel, hash: string, bodyType: string, body: Json)
    requires Trusting(k) && body.JObj? && Depth(body) < MAX_CANONICAL_DEPTH && k.ShaHex(k.jcs(body)) == hash
    ensures WrapperVerified(k, Wrapped(hash, bodyType, body))
  {
    hide *;
    var bundle := Wrapped(hash, bodyType, body);
    WrappedMembers(hash, bodyType, body);
    WrappedDepth(hash, bodyType, body, MAX_CANONICAL_DEPTH - 1);
    NestsIsDepth(bundle, MAX_CANONICAL_DEPTH);
    TrustingCanonical(k, body);
    TrustingSigned(k, bundle);
    MajorMatchesItself();
    WrapperFrom(k, bundle, body, hash);
  }

  lemma TrustingSigned(k: Kernel, bundle: Json)
    requires Trusting(k) && bundle.JObj? && Depth(bundle) <= MAX_CANONICAL_DEPTH
    requires Get(bundle, Signature).JStr? && Get(bundle, PublicKey).JStr?
    ensures WrapperSigned(k, bundle)
  {
    hide Depth, Canonical;
    PartIsNoDeeper(WrapperScope(bundle), bundle);
    TrustingCanonical(k, WrapperScope(bundle));
  }

  // ----- one envelope, one checkpoint, one event -----

  /** An envelope that commits to a record by its hash alone. */
  function PlainEnvelope(hash: string): Object {
    map[SpecVersion := JStr(AGENT_MAJOR), PayloadHash := JStr(hash), PublicKey := JStr(""), Signature := JStr("")]
  }

  lemma PlainEnvelopeMembers(hash: string)
    ensures var env := PlainEnvelope(hash);
            Payload !in env && Get(JObj(env), SpecVersion) == JStr(AGENT_MAJOR)
            && Get(JObj(env), PayloadHash) == JStr(hash)
            && Get(JObj(env), Signature) == JStr("") && Get(JObj(env), PublicKey) == JStr("")
            && Get(JObj(env), EventId) == JNull && Get(JObj(env), SchemaVersion) == JNull
  {
  }

  lemma PlainEnvelopeSigned(k: Kernel, hash: string)
    requires Trusting(k)
    ensures SignatureValid(k, PlainEnvelope(hash))
    ensures Canonical(k, JObj(PlainEnvelope(hash))) == Some(k.jcs(JObj(PlainEnvelope(hash))))
  {
    hide Depth, Canonical, SignedScope;
    var env := PlainEnvelope(hash);
    ScalarsAreFlat(env);
    ScopesAreParts(k.lang, env, JObj(map[]));
    PartIsNoDeeper(JObj(SignedScope(k.lang, env)), JObj(env));
    TrustingCanonical(k, JObj(env));
    TrustingCanonical(k, JObj(SignedScope(k.lang, env)));
  }

  lemma PlainEnvelopeBinds(k: Kernel, hash: string, record: Bytes)
    requires k.ShaHex(record) == hash
    ensures PayloadBinding(k, PlainEnvelope(hash), Some(record)) == Yes
  {
    hide PlainEnvelope;
    PlainEnvelopeMembers(hash);
  }

  lemma PlainEnvelopeOk(k: Kernel, hash: string, record: Bytes)
    requires Trusting(k) && k.ShaHex(record) == hash
    ensures var r := EnvelopeVerdict(k, JObj(PlainEnvelope(hash)), Some(record), None, false);
            r.ok && r.payloadHashOk == Yes
  {
    hide PlainEnvelope, Canonical, PayloadBinding, SignatureValid, MatchesMajor, ContentHashes, Trusting;
    PlainEnvelopeMembers(hash);
    PlainEnvelopeSigned(k, hash);
    PlainEnvelopeBinds(k, hash, record);
    assert MatchesMajor(AGENT_MAJOR, AGENT_MAJOR) by {
      MatchesMajorGrammar(AGENT_MAJOR, AGENT_MAJOR);
    }
  }

  /** Hex of the empty record, an envelope of its hash, and the root. */
  function PlainCheckpoint(hash: string, root: string): Json {
    JObj(map[TxId := JStr("tx"), RecordBytes := JStr(""), Key.Envelope := JObj(PlainEnvelope(hash)),
             MerkleRoot := JStr(root)])
  }

  function PlainEvent(hash: string, inclusion: Json): Json {
    JObj(map[RecordBytes := JStr(""), Key.Envelope := JObj(PlainEnvelope(hash)), Inclusion := inclusion])
  }

  function PlainBody(cp: Json, ev: Json): Json {
    JObj(map[Checkpoints := JArr([cp]), Events := JArr([ev])])
  }

  lemma PlainMembers(k: Kernel, hash: string, root: string, inclusion: Json)
    ensures var cp, ev := PlainCheckpoint(hash, root), PlainEvent(hash, inclusion);
            cp.JObj? && ev.JObj?
            && Get(cp, TxId) == JStr("tx") && Get(cp, Key.Envelope) == JObj(PlainEnvelope(hash))
            && Get(cp, MerkleRoot) == JStr(root) && RecordOf(k, cp) == Some([]) && RecordOf(k, ev) == Some([])
            && Get(ev, Key.Envelope) == JObj(PlainEnvelope(hash)) && Get(ev, Inclusion) == inclusion
            && Get(ev, Content) == JNull && Key.Envelope in Fields(cp) && Key.Envelope in Fields(ev)
  {
    hide PlainEnvelope;
  }

  lemma PlainBodyMembers(cp: Json, ev: Json)
    ensures var body := PlainBody(cp, ev);
            body.JObj? && TraceShaped(body) && Items(Get(body, Checkpoints)) == [cp] && Items(Get(body, Events)) == [ev]
            && Get(body, SchemaVersion) == JNull
  {
  }

  lemma PlainBytes(k: Kernel, hash: string, root: string, inclusion: Json)
    requires Trusting(k)
    ensures EnvelopeBytes(k, PlainCheckpoint(hash, root)) == Some(k.jcs(JObj(PlainEnvelope(hash))))
    ensures EnvelopeBytes(k, PlainEvent(hash, inclusion)) == Some(k.jcs(JObj(PlainEnvelope(hash))))
  {
    hide PlainEnvelope, PlainCheckpoint, PlainEvent, Canonical, Trusting;
    PlainMembers(k, hash, root, inclusion);
    PlainEnvelopeSigned(k, hash);
  }

  /** The empty record is JSON that names the root. */
  predicate NamesRoot(k: Kernel, root: string) {
    var record := k.parse([]);
    record.Some? && record.value.JObj? && Get(Get(record.value, Event), MerkleRoot) == JStr(root)
  }

  lemma PlainCheckpointOk(k: Kernel, hash: string, root: string)
    requires Trusting(k) && k.ShaHex([]) == hash && NamesRoot(k, root)
    ensures CheckpointSigned(k, PlainCheckpoint(hash, root)) && RootCommitted(k, PlainCheckpoint(hash, root))
  {
    hide EnvelopeVerdict, PlainEnvelope, PlainCheckpoint, RecordOf, Trusting;
    PlainMembers(k, hash, root, JNull);
    PlainEnvelopeOk(k, hash, []);
  }

  lemma PlainIds(k: Kernel, hash: string, root: string, inclusion: Json)
    requires Get(inclusion, CheckpointTxId) == JStr("tx")
    ensures FirstWins([PlainCheckpoint(hash, root)]) == map["tx" := PlainCheckpoint(hash, root)]
    ensures CheckpointFor(PlainEvent(hash, inclusion), FirstWins([PlainCheckpoint(hash, root)]))
            == Some(PlainCheckpoint(hash, root))
  {
    hide PlainCheckpoint, PlainEvent, RecordOf;
    PlainMembers(k, hash, root, inclusion);
    assert [PlainCheckpoint(hash, root)][..0] == [];
  }

  lemma ContentUndisclosed(k: Kernel, hash: string, inclusion: Json)
    ensures ContentVerdict(k, PlainEvent(hash, inclusion), map[]) == Unknown
  {
    hide PlainEvent, CommittedHashes, EventIdOf, RecordOf;
    PlainMembers(k, hash, "", inclusion);
  }

  lemma PlainEventOk(k: Kernel, hash: string, root: string, inclusion: Json)
    requires Trusting(k) && k.ShaHex([]) == hash && Get(inclusion, CheckpointTxId) == JStr("tx")
    requires Included(k, PlainEvent(hash, inclusion), PlainCheckpoint(hash, root))
    ensures var e := EventVerdict(k, PlainEvent(hash, inclusion), FirstWins([PlainCheckpoint(hash, root)]), map[]);
            e.ok && e.payloadBindingOk == Yes && e.contentOk == Unknown
  {
    hide EnvelopeVerdict, PlainEnvelope, PlainCheckpoint, PlainEvent, Included, FirstWins, CheckpointFor, RecordOf,
         ContentVerdict, EventIdOf, Trusting;
    PlainMembers(k, hash, root, inclusion);
    PlainEnvelopeOk(k, hash, []);
    PlainIds(k, hash, root, inclusion);
    ContentUndisclosed(k, hash, inclusion);
  }

  lemma PlainOfflineView(k: Kernel, hash: string, root: string)
    requires Trusting(k) && k.ShaHex([]) == hash && NamesRoot(k, root)
    ensures var v := Views(k, [PlainCheckpoint(hash, root)], OFFLINE)[0];
            v.ok && !UnreachableView(v) && v.onChain == None && v.txId == "tx"
  {
    hide PlainCheckpoint, CheckpointSigned, RootCommitted, CheckpointNotes, FirstWins, RecordOf, Trusting;
    PlainCheckpointOk(k, hash, root);
    PlainMembers(k, hash, root, JNull);
  }

  lemma OneOfEach(k: Kernel, bundle: Json, env: Environment, cp: Json, ev: Json)
    requires TraceShaped(Get(bundle, Body)) && Items(Get(Get(bundle, Body), Checkpoints)) == [cp]
    requires Items(Get(Get(bundle, Body), Events)) == [ev] && (env.fetch.Some? || env.gateways == [])
    requires var v := Views(k, [cp], env)[0]; v.ok && !UnreachableView(v)
    requires var e := EventVerdict(k, ev, FirstWins([cp]), env.content); e.ok && e.payloadBindingOk == Yes
    ensures TraceVerdict(k, bundle, env).status == Status.Verified
  {
    hide EventVerdict, Views, FirstWins, UnreachableView;
  }

  lemma PlainDepth(hash: string, root: string, inclusion: Json)
    requires Depth(inclusion) <= 2
    ensures Depth(PlainBody(PlainCheckpoint(hash, root), PlainEvent(hash, inclusion))) <= 5
  {
    hide Depth;
    NullDepth();
    ScalarsAreFlat(PlainEnvelope(hash));
    FlatObject(PlainCheckpoint(hash, root).fields, 1);
    FlatObject(PlainEvent(hash, inclusion).fields, 2);
    ListDepth([PlainCheckpoint(hash, root)], 3);
    ListDepth([PlainEvent(hash, inclusion)], 3);
    FlatObject(PlainBody(PlainCheckpoint(hash, root), PlainEvent(hash, inclusion)).fields, 4);
  }

  function PlainTrace(bodyHash: string, hash: string, root: string, inclusion: Json): Json {
    Wrapped(bodyHash, ANCHOR_TRACE_BODY_TYPE, PlainBody(PlainCheckpoint(hash, root), PlainEvent(hash, inclusion)))
  }

  lemma PlainTraceMembers(k: Kernel, bodyHash: string, hash: string, root: string, inclusion: Json)
    requires Trusting(k) && Depth(inclusion) <= 2
    requires k.ShaHex(k.jcs(PlainBody(PlainCheckpoint(hash, root), PlainEvent(hash, inclusion)))) == bodyHash
    ensures var bundle, body := PlainTrace(bodyHash, hash, root, inclusion),
                                PlainBody(PlainCheckpoint(hash, root), PlainEvent(hash, inclusion));
            IsTrace(k, bundle) && Get(bundle, Body) == body && bundle.JObj? && Depth(bundle) <= 6
            && Get(bundle, SchemaVersion) == JNull
  {
    hide Depth, Wrapped, WrapperVerified, PlainBody, PlainCheckpoint, PlainEvent, Trusting;
    var body := PlainBody(PlainCheckpoint(hash, root), PlainEvent(hash, inclusion));
    PlainDepth(hash, root, inclusion);
    PlainBodyMembers(PlainCheckpoint(hash, root), PlainEvent(hash, inclusion));
    WrappedVerifies(k, bodyHash, ANCHOR_TRACE_BODY_TYPE, body);
    WrappedMembers(bodyHash, ANCHOR_TRACE_BODY_TYPE, body);
    WrappedDepth(bodyHash, ANCHOR_TRACE_BODY_TYPE, body, 5);
  }

  lemma PlainTraceVerified(k: Kernel, bodyHash: string, hash: string, root: string, inclusion: Json)
    requires Trusting(k) && Depth(inclusion) <= 2 && Get(inclusion, CheckpointTxId) == JStr("tx")
    requires k.ShaHex(k.jcs(PlainBody(PlainCheckpoint(hash, root), PlainEvent(hash, inclusion)))) == bodyHash
    requires k.ShaHex([]) == hash && NamesRoot(k, root)
    requires Included(k, PlainEvent(hash, inclusion), PlainCheckpoint(hash, root))
    ensures BundleVerdict(k, PlainTrace(bodyHash, hash, root, inclusion), OFFLINE).status == Status.Verified
  {
    hide *;
    var bundle := PlainTrace(bodyHash, hash, root, inclusion);
    PlainTraceMembers(k, bodyHash, hash, root, inclusion);
    PlainBodyMembers(PlainCheckpoint(hash, root), PlainEvent(hash, inclusion));
    TraceBranch(k, bundle, OFFLINE);
    OfflineIsPlain();
    PlainOfflineView(k, hash, root);
    PlainEventOk(k, hash, root, inclusion);
    OneOfEach(k, bundle, OFFLINE, PlainCheckpoint(hash, root), PlainEvent(hash, inclusion));
  }

  lemma OfflineIsPlain()
    ensures OFFLINE == Environment([], None, map[])
  {
  }
}
