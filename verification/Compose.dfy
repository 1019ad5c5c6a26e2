/** The export composer, and its round trip through the verifier. */
module Composer {
  import opened Octets
  import opened JsonValues
  import opened KernelPrimitives
  import opened Merkle
  import opened Base64
  import opened RsaPss
  import opened Traces
  import opened Evidence
  import opened EnvironmentProperties
  import opened ContentProperties
  import opened DepthProperties

  /** Signing calls on a seed in hex; `None` stands for a thrown error. */
  datatype Signer = Signer(sign: (Bytes, string) -> Option<string>, publicKey: string -> Option<string>)

  /** A signature made with a seed verifies under the public key derived from it. */
  ghost predicate SignerWorks(k: Kernel, signer: Signer) {
    forall m, seed ::
      signer.sign(m, seed).Some? && signer.publicKey(seed).Some? ==>
        k.ed25519(m, signer.sign(m, seed).value, signer.publicKey(seed).value)
  }

  datatype ExporterKey = ExporterKey(privateKey: string, publicKey: Option<string>)

  datatype Options = Options(
    issuerId: Option<string>, gateway: Option<string>, previousHash: Option<string>, generatedAt: string)

  datatype Composed = Composed(bundle: Json, status: Status, sourceBundleHash: string, boundAttestations: nat)

  const OFFLINE := Environment([], None, map[])

  // ----- cloning -----

  /** Rounds to an infinity: half a unit or more above the largest double. */
  predicate Infinite(v: real) {
    var bound := ((Pow2(54) - 1) * Pow2(970)) as real;
    v <= -bound || bound <= v
  }

  /** The value written as JSON text and read again: what was read as an infinity is written as null. */
  function Cloned(j: Json): Json {
    match j
    case JInt(n) => if Infinite(n as real) then JNull else j
    case JFloat(v) => if Infinite(v) then JNull else j
    case JArr(items) => JArr(seq(|items|, i requires 0 <= i < |items| => Cloned(items[i])))
    case JObj(fields) => JObj(map key | key in fields :: Cloned(fields[key]))
    case _ => j
  }

  predicate Finite(j: Json) {
    match j
    case JInt(n) => !Infinite(n as real)
    case JFloat(v) => !Infinite(v)
    case JArr(items) => forall i | 0 <= i < |items| :: Finite(items[i])
    case JObj(fields) => forall key | key in fields :: Finite(fields[key])
    case _ => true
  }

  /** A clone is the value itself if and only if no number in it is infinite. */
  lemma {:induction false} ClonedIsExact(j: Json)
    ensures Cloned(j) == j <==> Finite(j)
  {
    hide Infinite;
    match j
    case JArr(items) =>
      forall i | 0 <= i < |items| ensures Cloned(items[i]) == items[i] <==> Finite(items[i]) {
        ClonedIsExact(items[i]);
      }
      assert Cloned(j) == j <==> forall i :: 0 <= i < |items| ==> Cloned(j).items[i] == items[i];
    case JObj(fields) =>
      forall key | key in fields ensures Cloned(fields[key]) == fields[key] <==> Finite(fields[key]) {
        ClonedIsExact(fields[key]);
      }
      assert Cloned(j) == j <==> forall key :: key in fields ==> Cloned(j).fields[key] == fields[key];
    case _ =>
  }

  lemma ClonedMember(j: Json, key: Key)
    ensures Cloned(j).JObj? == j.JObj? && Get(Cloned(j), key) == Cloned(Get(j, key))
    ensures Get(Cloned(j), key).JStr? == Get(j, key).JStr?
    ensures Get(j, key).JStr? ==> Get(Cloned(j), key) == Get(j, key)
  {
    hide Infinite;
  }

  // ----- normalising attestations -----

  /** Hex stays hex, in lowercase; anything else is read as base64url and becomes hex. */
  function SignatureToHex(signature: string): Option<string> {
    if IsHex(signature) then Some(Lower(signature))
    else
      var bytes := FromBase64Url(TypeScript, signature);
      if bytes.Done? then Some(Hex(bytes.value)) else None
  }

  /** A clone of the record with its signature transcoded. */
  function Normalized(rec: Json): Option<Json> {
    var cloned := Cloned(rec);
    if !cloned.JObj? || !Get(cloned, Signature).JStr? then None
    else
      var hex := SignatureToHex(Get(cloned, Signature).s);
      if hex.None? then None else Some(JObj(cloned.fields[Signature := JStr(hex.value)]))
  }

  predicate IsHex(s: string) {
    s != "" && |s| % 2 == 0 && AllHex(s)
  }

  /** The bytes of a signature, written in hex or else in base64url. */
  ghost predicate ReadsAs(sig: string, bytes: Bytes) {
    if IsHex(sig) then Unhex(sig, false) == Some(bytes) else Decodable(sig) && bytes == Decode(sig)
  }

  /** `r` is `rec` with its signature in strict hex of the same bytes, read as hex or else as base64url, and with every
      other member, so everything the operator signed, cloned, which leaves it untouched if its numbers are finite. */
  ghost predicate Transcoded(rec: Json, r: Json) {
    (forall key :: key != Signature ==> Get(r, key) == Cloned(Get(rec, key)))
    && (forall key :: key != Signature && Finite(Get(rec, key)) ==> Get(r, key) == Get(rec, key))
    && Get(rec, Signature).JStr? && Get(r, Signature).JStr?
    && var sig, bytes := Get(rec, Signature).s, Unhex(Get(r, Signature).s, false);
       bytes.Some? && ReadsAs(sig, bytes.value)
  }

  lemma {:induction false} LowerKeepsPairs(s: string)
    requires |s| % 2 == 0 && forall i :: 0 <= i < |s| ==> IsHexDigit(s[i])
    ensures Pairs(s, false).Some? && Pairs(Lower(s), false) == Pairs(s, false)
  {
    hide LowerChar, IsHexDigit, HexValue;
    if s != "" {
      LowerKeepsPairs(s[2..]);
      assert Lower(s)[2..] == Lower(s[2..]);
      LowerKeepsDigit(s[0]);
      LowerKeepsDigit(s[1]);
    }
  }

  lemma LowerKeepsDigit(c: char)
    requires IsHexDigit(c)
    ensures IsHexDigit(LowerChar(c)) && HexValue(LowerChar(c)) == HexValue(c)
  {
  }

  /** The transcoded signature is strict hex of the same bytes. */
  lemma SignatureBytes(sig: string)
    requires SignatureToHex(sig).Some?
    ensures var bytes := Unhex(SignatureToHex(sig).value, false);
            bytes.Some? && ReadsAs(sig, bytes.value)
  {
    hide Pairs, LowerChar, IsHexDigit, Hex, Decode, Decodable, FromBase64Url;
    if IsHex(sig) {
      LowerKeepsPairs(sig);
    } else {
      Base64IsExact(TypeScript, sig);
      var bytes := Decode(sig);
      HexIsLower(bytes);
      UnhexOfHex(Hex(bytes), bytes, false);
    }
  }

  lemma NormalizedKeepsRecord(rec: Json)
    requires Normalized(rec).Some?
    ensures Transcoded(rec, Normalized(rec).value)
  {
    hide SignatureToHex, Unhex, ReadsAs, Cloned, Finite;
    ClonedMember(rec, Signature);
    SignatureBytes(Get(rec, Signature).s);
    forall key
      ensures Get(Cloned(rec), key) == Cloned(Get(rec, key))
      ensures Finite(Get(rec, key)) ==> Cloned(Get(rec, key)) == Get(rec, key)
    {
      ClonedMember(rec, key);
      ClonedIsExact(Get(rec, key));
    }
  }

  /** A record is refused only without a string signature or for one that is neither hex nor base64url. */
  method NormalizeAttestation(rec: Json) returns (normalized: Option<Json>)
    ensures normalized == Normalized(rec)
    ensures normalized.Some? ==> Transcoded(rec, normalized.value)
    ensures normalized.None? <==>
            !Get(rec, Signature).JStr? || (!IsHex(Get(rec, Signature).s) && !Decodable(Get(rec, Signature).s))
  {
    hide Transcoded, Decodable, FromBase64Url, IsHex, Cloned;
    ClonedMember(rec, Signature);
    if Get(rec, Signature).JStr? {
      Base64IsExact(TypeScript, Get(rec, Signature).s);
    }
    var cloned := Cloned(rec);
    if !cloned.JObj? || !Get(cloned, Signature).JStr? {
      return None;
    }
    var hex := SignatureToHex(Get(cloned, Signature).s);
    if hex.None? {
      return None;
    }
    cloned := JObj(cloned.fields[Signature := JStr(hex.value)]);
    NormalizedKeepsRecord(rec);
    return Some(cloned);
  }

  predicate AllNormalize(recs: seq<Json>) {
    forall rec | rec in recs :: Normalized(rec).Some?
  }

  function NormalizedAll(recs: seq<Json>): (r: seq<Json>)
    requires AllNormalize(recs)
    ensures |r| == |recs| && forall i :: 0 <= i < |recs| ==> Some(r[i]) == Normalized(recs[i])
  {
    seq(|recs|, i requires 0 <= i < |recs| => Normalized(recs[i]).value)
  }

  method NormalizeAttestations(recs: seq<Json>) returns (records: Option<seq<Json>>)
    ensures records == if AllNormalize(recs) then Some(NormalizedAll(recs)) else None
  {
    hide Normalized, Transcoded, IsHex;
    var out: seq<Json> := [];
    for i := 0 to |recs|
      invariant |out| == i && forall x :: 0 <= x < i ==> Some(out[x]) == Normalized(recs[x])
    {
      var rec := NormalizeAttestation(recs[i]);
      if rec.None? {
        assert recs[i] in recs;
        return None;
      }
      out := out + [rec.value];
    }
    assert AllNormalize(recs);
    assert out == NormalizedAll(recs);
    return Some(out);
  }

  // ----- composing -----

  function ExportBody(k: Kernel, source: Json, records: seq<Json>, verdict: VerdictObject, sourceHash: string): Json {
    JObj(map[KernelVerdict := VerdictJson(verdict), SourceBundle := source, SourceBundleHash := JStr(sourceHash),
             Attestations := JArr(records), ExportSchema := JStr(EXPORT_BODY_TYPE)])
  }

  function WrapperVerdict(verdict: VerdictObject, generatedAt: string): Json {
    JObj(map[Key.Status := JStr(StatusName(verdict.status)), Counts := CountsJson(verdict), AsOf := JStr(generatedAt)]
         + (if verdict.summary.Some? then map[Summary := JStr(verdict.summary.value)] else map[]))
  }

  function Wrapper(verdict: VerdictObject, body: Json, bodyHash: string, publicKey: string,
                   options: Options): map<Key, Json> {
    map[SpecVersion := JStr(EVIDENCE_MAJOR), BodyType := JStr(EXPORT_BODY_TYPE),
        Issuer := JObj(map[IssuerKind := JStr("issuer"),
                           IssuerId := JStr(if options.issuerId.Some? then options.issuerId.value
                                            else "ar-io-verify")]),
        GeneratedAt := JStr(options.generatedAt),
        Gateway := if options.gateway.Some? then JStr(options.gateway.value) else JNull,
        Key.Verdict := WrapperVerdict(verdict, options.generatedAt), Body := body, BodyHash := JStr(bodyHash),
        PreviousHash := JStr(if options.previousHash.Some? then options.previousHash.value else "GENESIS"),
        SignatureAlg := JStr("ed25519"), PublicKey := JStr(publicKey)]
  }

  /** The composer's own verdict: no cached copy to disagree with, no linkage to break. */
  ghost function ComposedVerdict(k: Kernel, source: Json, records: seq<Json>, generatedAt: string): VerdictObject
    requires AllWellFormed(k, records)
  {
    var result := BundleVerdict(k, source, OFFLINE);
    var atts := AttestationVerdicts(k, records, SourceCheckpoints(source));
    var status := ExportStatus(true, true, result.status, atts);
    VerdictOf(result, atts).(asOf := Some(generatedAt), status := status,
                             summary := Some(Summarize(k, status, result, atts)))
  }

  method RecomputeExportVerdict(k: Kernel, source: Json, records: seq<Json>, generatedAt: string)
    returns (verdict: Option<VerdictObject>, bound: nat)
    ensures verdict == if AllWellFormed(k, records) && !Raises(k, source)
                       then Some(ComposedVerdict(k, source, records, generatedAt)) else None
    ensures verdict.Some? ==> bound == CountAttestations(AttestationVerdicts(k, records, SourceCheckpoints(source)),
                                                         true)
  {
    hide AllWellFormed, VerdictOf, ExportStatus, LastWins, CountAttestations;
    var verified := VerifyEvidenceBundle(k, source, OFFLINE);
    if verified.None? {
      return None, 0;
    }
    var result := verified.value;
    var byTxId := LastByTxId(Items(Get(Get(source, Body), Checkpoints)));
    var attestations := VerifyAttestations(k, records, byTxId);
    if !attestations.Done? {
      return None, 0;
    }
    var atts := attestations.value;
    var v := BuildVerdictObject(result, atts);
    v := v.(asOf := Some(generatedAt));
    var status := ExportStatus(true, true, result.status, atts);
    v := v.(status := status, summary := Some(Summarize(k, status, result, atts)));
    return Some(v), CountAttestations(atts, true);
  }

  /** What a composition is made of; every condition is a step that throws when it fails. */
  ghost predicate ComposedFrom(k: Kernel, signer: Signer, source: Json, attestations: Json, key: ExporterKey,
                               options: Options, bundle: Json)
  {
    source.JObj? && attestations.JArr? && AllNormalize(attestations.items)
    && ComposedOf(k, signer, source, NormalizedAll(attestations.items), key, options, bundle)
  }

  ghost predicate ComposedOf(k: Kernel, signer: Signer, source: Json, records: seq<Json>, key: ExporterKey,
                             options: Options, bundle: Json)
  {
    AllWellFormed(k, records) && !Raises(k, source) && CanonicalShaHex(k, source).Some?
    && WrappedAndSigned(k, signer, ComposedVerdict(k, source, records, options.generatedAt),
                        ComposedBody(k, source, records, options.generatedAt), key, options, bundle)
  }

  ghost function ComposedBody(k: Kernel, source: Json, records: seq<Json>, generatedAt: string): Json
    requires AllWellFormed(k, records) && CanonicalShaHex(k, source).Some?
  {
    ExportBody(k, source, records, ComposedVerdict(k, source, records, generatedAt), CanonicalShaHex(k, source).value)
  }

  ghost predicate WrappedAndSigned(k: Kernel, signer: Signer, verdict: VerdictObject, body: Json, key: ExporterKey,
                                   options: Options, bundle: Json)
  {
    CanonicalShaHex(k, body).Some? && PublicKeyOf(signer, key).Some?
    && SignedWrapper(k, signer, Wrapper(verdict, body, CanonicalShaHex(k, body).value, PublicKeyOf(signer, key).value,
                                        options),
                     key.privateKey, bundle)
  }

  ghost predicate SignedWrapper(k: Kernel, signer: Signer, wrapper: map<Key, Json>, seed: string, bundle: Json) {
    var message := Canonical(k, JObj(wrapper));
    message.Some? && signer.sign(message.value, seed).Some?
    && bundle == JObj(wrapper[Signature := JStr(signer.sign(message.value, seed).value)])
  }

  function PublicKeyOf(signer: Signer, key: ExporterKey): Option<string> {
    if key.publicKey.Some? then key.publicKey else signer.publicKey(key.privateKey)
  }

  method ComposeExport(k: Kernel, signer: Signer, source: Json, attestations: Json, key: ExporterKey, options: Options)
    returns (result: Option<Composed>)
    ensures result.Some? <==>
            key.privateKey != "" && exists bundle :: ComposedFrom(k, signer, source, attestations, key, options, bundle)
    ensures result.Some? ==>
              ComposedFrom(k, signer, source, attestations, key, options, result.value.bundle)
              && var records := NormalizedAll(attestations.items);
                 result.value.status == ComposedVerdict(k, source, records, options.generatedAt).status
                 && Some(result.value.sourceBundleHash) == CanonicalShaHex(k, source)
                 && result.value.boundAttestations
                    == CountAttestations(AttestationVerdicts(k, records, SourceCheckpoints(source)), true)
  {
    hide AllNormalize, AllWellFormed, ComposedVerdict, Canonical, ExportBody, Wrapper, AttestationVerdict, LastWins,
         CountAttestations;
    if !source.JObj? || !attestations.JArr? || key.privateKey == "" {
      return None;
    }
    var normalized := NormalizeAttestations(attestations.items);
    if normalized.None? {
      return None;
    }
    var records := normalized.value;
    var verdict, bound := RecomputeExportVerdict(k, source, records, options.generatedAt);
    if verdict.None? {
      return None;
    }
    var sourceBytes := CanonicalJson(k, source);
    if sourceBytes.None? {
      return None;
    }
    var sourceHash := k.ShaHex(sourceBytes.value);
    var body := ExportBody(k, source, records, verdict.value, sourceHash);
    var bodyBytes := CanonicalJson(k, body);
    if bodyBytes.None? {
      return None;
    }
    var publicKey := PublicKeyOf(signer, key);
    if publicKey.None? {
      return None;
    }
    var wrapper := Wrapper(verdict.value, body, k.ShaHex(bodyBytes.value), publicKey.value, options);
    var message := CanonicalJson(k, JObj(wrapper));
    if message.None? {
      return None;
    }
    var signature := signer.sign(message.value, key.privateKey);
    if signature.None? {
      return None;
    }
    var bundle := JObj(wrapper[Signature := JStr(signature.value)]);
    assert ComposedFrom(k, signer, source, attestations, key, options, bundle);
    return Some(Composed(bundle, verdict.value.status, sourceHash, bound));
  }

  // ----- the round trip -----

  /** Whatever the composer wrapped around a body verifies as a wrapper. */
  lemma WrapperRoundTrip(k: Kernel, signer: Signer, wrapper: map<Key, Json>, seed: string, bundle: Json)
    requires SignerWorks(k, signer) && SignedWrapper(k, signer, wrapper, seed, bundle)
    requires PublicKey in wrapper && signer.publicKey(seed).Some?
             && wrapper[PublicKey] == JStr(signer.publicKey(seed).value)
    requires Signature !in wrapper && CoSignatures !in wrapper
    ensures WrapperSigned(k, bundle) && !Nests(bundle, MAX_CANONICAL_DEPTH)
  {
    hide Canonical, Nests;
    assert Fields(bundle) - {Signature, CoSignatures} == wrapper;
    SignedDepth(k, wrapper, bundle.fields[Signature]);
  }

  /** A signature is no container, so signing does not deepen what canonicalizes. */
  lemma SignedDepth(k: Kernel, wrapper: map<Key, Json>, signature: Json)
    requires Canonical(k, JObj(wrapper)).Some? && wrapper != map[] && signature.JStr?
    ensures !Nests(JObj(wrapper[Signature := signature]), MAX_CANONICAL_DEPTH)
  {
    hide Depth, Representable, Nests;
    var whole := JObj(wrapper);
    NestsIsDepth(whole, MAX_CANONICAL_DEPTH);
    NullDepth();
    forall key | key in wrapper ensures Depth(wrapper[key]) + 1 <= Depth(whole) {
      assert IsChild(wrapper[key], whole);
      ChildDepth(wrapper[key], whole);
    }
    FlatObject(wrapper[Signature := signature], MAX_CANONICAL_DEPTH - 1);
    NestsIsDepth(JObj(wrapper[Signature := signature]), MAX_CANONICAL_DEPTH);
  }

  lemma {:induction false} ProjectRepresentable(k: Kernel, v: Json)
    requires Representable(k, v)
    ensures Representable(k, Project(v))
  {
    hide Project, Representable;
    GetRepresentable(k, v, SchemaVersion);
    MembersRepresentable(k, Get(v, Events));
    MembersRepresentable(k, Get(v, Checkpoints));
    GetRepresentable(k, v, Events);
    GetRepresentable(k, v, Checkpoints);
    var events, cps := Items(Get(v, Events)), Items(Get(v, Checkpoints));
    forall i | 0 <= i < |events| ensures Representable(k, ProjectEvent(events[i])) {
      ProjectedEventRepresentable(k, events[i]);
    }
    forall i | 0 <= i < |cps| ensures Representable(k, ProjectCheckpoint(cps[i])) {
      ProjectedCheckpointRepresentable(k, cps[i]);
    }
    ProjectParts(k, v);
  }

  lemma MembersRepresentable(k: Kernel, j: Json)
    ensures Representable(k, j) ==> forall i :: 0 <= i < |Items(j)| ==> Representable(k, Items(j)[i])
  {
  }

  lemma ProjectParts(k: Kernel, v: Json)
    requires Representable(k, Get(v, SchemaVersion))
    requires forall i :: 0 <= i < |Items(Get(v, Events))| ==> Representable(k, ProjectEvent(Items(Get(v, Events))[i]))
    requires forall i :: 0 <= i < |Items(Get(v, Checkpoints))| ==>
               Representable(k, ProjectCheckpoint(Items(Get(v, Checkpoints))[i]))
    ensures Representable(k, Project(v))
  {
    hide ProjectEvent, ProjectCheckpoint, Representable;
    NullRepresentable(k);
    ListRepresentable(k, ProjectAll(Items(Get(v, Events)), ProjectEvent));
    ListRepresentable(k, ProjectAll(Items(Get(v, Checkpoints)), ProjectCheckpoint));
    ObjectRepresentable(k, Project(v).fields);
  }

  lemma ProjectedEventRepresentable(k: Kernel, e: Json)
    requires Representable(k, e)
    ensures Representable(k, ProjectEvent(e))
  {
    hide Representable;
    GetRepresentable(k, e, EventId);
    GetRepresentable(k, e, SignatureOk);
    GetRepresentable(k, e, PayloadBound);
    GetRepresentable(k, e, InclusionOk);
    GetRepresentable(k, e, ContentOk);
    ObjectRepresentable(k, ProjectEvent(e).fields);
  }

  lemma ProjectedAttestationRepresentable(k: Kernel, a: Json)
    requires Representable(k, a)
    ensures Representable(k, ProjectAttestation(a))
  {
    hide Representable;
    GetRepresentable(k, a, Operator);
    GetRepresentable(k, a, SignatureOk);
    GetRepresentable(k, a, OperatorAddressBound);
    GetRepresentable(k, a, DataHashBound);
    GetRepresentable(k, a, SubjectRefOk);
    ObjectRepresentable(k, ProjectAttestation(a).fields);
  }

  lemma ProjectedCheckpointRepresentable(k: Kernel, c: Json)
    requires Representable(k, c)
    ensures Representable(k, ProjectCheckpoint(c))
  {
    hide ProjectAttestation, Representable;
    GetRepresentable(k, c, CheckpointTxId);
    GetRepresentable(k, c, MerkleRootOk);
    GetRepresentable(k, c, Attestations);
    MembersRepresentable(k, Get(c, Attestations));
    var atts := Items(Get(c, Attestations));
    forall i | 0 <= i < |atts| ensures Representable(k, ProjectAttestation(atts[i])) {
      ProjectedAttestationRepresentable(k, atts[i]);
    }
    ListRepresentable(k, ProjectAll(atts, ProjectAttestation));
    ObjectRepresentable(k, ProjectCheckpoint(c).fields);
  }

  /** A verdict that rides in a body that canonicalizes agrees with any recomputation of equal projection. */
  lemma CachedVerdictAgrees(k: Kernel, body: Json, cached: VerdictObject, recomputed: VerdictObject)
    requires Canonical(k, body).Some? && Get(body, KernelVerdict) == VerdictJson(cached)
    requires Project(VerdictJson(cached)) == Project(VerdictJson(recomputed))
    ensures Agrees(k, Get(body, KernelVerdict), recomputed)
  {
    hide Project, VerdictJson;
    GetCanonical(k, body, KernelVerdict);
    ProjectRepresentable(k, VerdictJson(cached));
    RecomputedProjectionDepth(cached);
    NestsIsDepth(Project(VerdictJson(cached)), MAX_CANONICAL_DEPTH);
  }

  /** Two different values with the same canonical form. */
  ghost predicate Clash(k: Kernel, a: Json, b: Json) {
    a != b && Canonical(k, a).Some? && Canonical(k, a) == Canonical(k, b)
  }

  /** Agreement with a cached verdict of the verdict's own shape: equal findings agree when the text is representable,
      and agreement without equal findings takes two projections that canonicalize alike. */
  lemma AgreementMeans(k: Kernel, cached: VerdictObject, recomputed: VerdictObject)
    ensures SameFindings(cached, recomputed) && Representable(k, VerdictJson(cached)) ==>
              Agrees(k, VerdictJson(cached), recomputed)
    ensures Agrees(k, VerdictJson(cached), recomputed) ==>
              SameFindings(cached, recomputed)
              || Clash(k, Project(VerdictJson(cached)), Project(VerdictJson(recomputed)))
  {
    hide Project, VerdictJson, SameFindings, Representable;
    ProjectionIsExact(cached, recomputed);
    if Representable(k, VerdictJson(cached)) {
      ProjectRepresentable(k, VerdictJson(cached));
      RecomputedProjectionDepth(cached);
      NestsIsDepth(Project(VerdictJson(cached)), MAX_CANONICAL_DEPTH);
    }
  }

  /** Status, date and summary are written after the verdict is built and are no part of its projection. */
  lemma ComposedVerdictProjects(k: Kernel, source: Json, records: seq<Json>, generatedAt: string)
    requires AllWellFormed(k, records)
    ensures var result, atts := BundleVerdict(k, source, OFFLINE),
            AttestationVerdicts(k, records, SourceCheckpoints(source));
            Project(VerdictJson(ComposedVerdict(k, source, records, generatedAt)))
            == Project(VerdictJson(VerdictOf(result, atts).(asOf := Some(generatedAt))))
  {
    hide Project, VerdictJson, BundleVerdict, LastWins, AttestationVerdict, EntriesFor, CountEvents, CountAttestations;
    var result, atts := BundleVerdict(k, source, OFFLINE), AttestationVerdicts(k, records, SourceCheckpoints(source));
    ProjectionIgnores(ComposedVerdict(k, source, records, generatedAt),
                      VerdictOf(result, atts).(asOf := Some(generatedAt)));
  }

  lemma BodyParts(k: Kernel, source: Json, records: seq<Json>, verdict: VerdictObject, sourceHash: string)
    ensures var body := ExportBody(k, source, records, verdict, sourceHash);
            Get(body, KernelVerdict) == VerdictJson(verdict) && Get(body, SourceBundle) == source
            && Get(body, SourceBundleHash) == JStr(sourceHash) && Get(body, Attestations) == JArr(records)
            && (source.JObj? ==> ExportShaped(body)) && body.JObj?
  {
    hide VerdictJson;
    assert VerdictJson(verdict).JObj? by {
      VerdictIsObject(verdict);
    }
  }

  lemma VerdictIsObject(v: VerdictObject)
    ensures VerdictJson(v).JObj?
  {
  }

  /** The composed bundle is an export the verifier accepts as a wrapper and descends into. */
  lemma ComposedDescends(k: Kernel, signer: Signer, source: Json, records: seq<Json>, key: ExporterKey,
                         options: Options, bundle: Json)
    requires SignerWorks(k, signer) && source.JObj? && ComposedOf(k, signer, source, records, key, options, bundle)
    requires PublicKeyOf(signer, key) == signer.publicKey(key.privateKey)
    ensures Descends(k, bundle) && SourceOf(bundle) == source
    ensures Get(bundle, Body) == ComposedBody(k, source, records, options.generatedAt)
    ensures Get(bundle, GeneratedAt) == JStr(options.generatedAt)
  {
    hide Canonical, CanonicalShaHex, ExportBody, ComposedVerdict, ExportShaped, AllWellFormed, Wrapper,
         WrapperVerified, StrOption;
    var verdict, body := ComposedVerdict(k, source, records, options.generatedAt),
        ComposedBody(k, source, records, options.generatedAt);
    BodyParts(k, source, records, verdict, CanonicalShaHex(k, source).value);
    var hash, pub := CanonicalShaHex(k, body).value, PublicKeyOf(signer, key).value;
    WrapperVerifies(k, signer, verdict, body, hash, pub, options, key.privateKey, bundle);
  }

  lemma WrapperVerifies(k: Kernel, signer: Signer, verdict: VerdictObject, body: Json, hash: string, pub: string,
                        options: Options, seed: string, bundle: Json)
    requires SignerWorks(k, signer) && signer.publicKey(seed) == Some(pub)
    requires body.JObj? && CanonicalShaHex(k, body) == Some(hash)
    requires SignedWrapper(k, signer, Wrapper(verdict, body, hash, pub, options), seed, bundle)
    ensures WrapperVerified(k, bundle) && Get(bundle, BodyType) == JStr(EXPORT_BODY_TYPE)
    ensures Get(bundle, Body) == body && Get(bundle, GeneratedAt) == JStr(options.generatedAt)
  {
    hide CanonicalShaHex, Wrapper, WrapperSigned, Nests, MatchesMajor, WrapperVerified, Canonical;
    var wrapper := Wrapper(verdict, body, hash, pub, options);
    WrapperMembers(verdict, body, hash, pub, options);
    WrapperRoundTrip(k, signer, wrapper, seed, bundle);
    MajorMatchesItself();
    OneMoreMember(wrapper, bundle);
    WrapperFrom(k, bundle, body, hash);
  }

  lemma WrapperFrom(k: Kernel, bundle: Json, body: Json, hash: string)
    requires bundle.JObj? && !Nests(bundle, MAX_CANONICAL_DEPTH) && WrapperSigned(k, bundle)
    requires Get(bundle, SpecVersion) == JStr(EVIDENCE_MAJOR) && MatchesMajor(EVIDENCE_MAJOR, EVIDENCE_MAJOR)
    requires Get(bundle, SignatureAlg) == JStr("ed25519") && Get(bundle, PublicKey).JStr?
             && Get(bundle, Signature).JStr?
    requires Get(bundle, BodyHash) == JStr(hash) && Get(bundle, Body) == body && body.JObj?
    requires CanonicalShaHex(k, body) == Some(hash)
    ensures WrapperVerified(k, bundle)
  {
    hide CanonicalShaHex, WrapperSigned, Nests, MatchesMajor;
  }

  lemma OneMoreMember(wrapper: map<Key, Json>, bundle: Json)
    requires bundle.JObj? && Signature in bundle.fields
             && bundle.fields == wrapper[Signature := bundle.fields[Signature]]
    ensures forall name :: name != Signature ==> Get(bundle, name) == Get(JObj(wrapper), name)
  {
  }

  lemma WrapperMembers(verdict: VerdictObject, body: Json, hash: string, pub: string, options: Options)
    ensures var wrapper := Wrapper(verdict, body, hash, pub, options);
            Signature !in wrapper && CoSignatures !in wrapper && PublicKey in wrapper && wrapper[PublicKey] == JStr(pub)
            && Get(JObj(wrapper), SpecVersion) == JStr(EVIDENCE_MAJOR)
            && Get(JObj(wrapper), BodyType) == JStr(EXPORT_BODY_TYPE)
            && Get(JObj(wrapper), SignatureAlg) == JStr("ed25519") && Get(JObj(wrapper), PublicKey) == JStr(pub)
            && Get(JObj(wrapper), BodyHash) == JStr(hash) && Get(JObj(wrapper), Body) == body
            && Get(JObj(wrapper), GeneratedAt) == JStr(options.generatedAt)
  {
    hide WrapperVerdict;
  }

  lemma MajorMatchesItself()
    ensures MatchesMajor(EVIDENCE_MAJOR, EVIDENCE_MAJOR)
  {
  }

  /** What the verifier makes of a composed bundle, given what it makes of the source. */
  lemma ComposedExport(k: Kernel, signer: Signer, source: Json, attestations: Json, key: ExporterKey, options: Options,
                       bundle: Json, env: Environment)
    requires SignerWorks(k, signer) && ComposedFrom(k, signer, source, attestations, key, options, bundle)
    requires PublicKeyOf(signer, key) == signer.publicKey(key.privateKey)
    ensures Descends(k, bundle) && SourceOf(bundle) == source
    ensures var records, result := NormalizedAll(attestations.items), BundleVerdict(k, source, env);
            var atts := AttestationVerdicts(k, records, SourceCheckpoints(source));
            var verdict := ComposedVerdict(k, source, records, options.generatedAt);
            var recomputed := VerdictOf(result, atts).(asOf := Some(options.generatedAt));
            var agrees := Agrees(k, VerdictJson(verdict), recomputed);
            var status := ExportStatus(true, agrees, result.status, atts);
            var r := BundleVerdict(k, bundle, env);
            r.signatureOk && r.bodyHashOk && r.status == status && r.exported.Some? && r.events == result.events
            && r.exported.value.sourceLinkageOk && r.exported.value.verdictAgreementOk == agrees
            && r.exported.value.attestations == atts
            && r.exported.value.verdict
               == recomputed.(status := status, summary := Some(Summarize(k, status, result, atts)))
  {
    hide Canonical, CanonicalShaHex, WrappedAndSigned, AllNormalize, Normalized, VerdictJson, BundleVerdict, LastWins,
         AttestationVerdict, WellFormedAttestation, Summarize, Descends, VerdictOf, CountAttestations, ExportBody,
         ExportStatus, Agrees, ComposedVerdict;
    var records := NormalizedAll(attestations.items);
    ComposedDescends(k, signer, source, records, key, options, bundle);
    ExportBranch(k, bundle, env);
    BodyParts(k, source, records, ComposedVerdict(k, source, records, options.generatedAt),
              CanonicalShaHex(k, source).value);
  }

  /** The embedded verdict agrees with any recomputation of equal projection. */
  lemma ComposedAgrees(k: Kernel, signer: Signer, source: Json, records: seq<Json>, key: ExporterKey, options: Options,
                       bundle: Json, recomputed: VerdictObject)
    requires ComposedOf(k, signer, source, records, key, options, bundle)
    requires Project(VerdictJson(ComposedVerdict(k, source, records, options.generatedAt)))
             == Project(VerdictJson(recomputed))
    ensures Agrees(k, VerdictJson(ComposedVerdict(k, source, records, options.generatedAt)), recomputed)
  {
    hide Canonical, ExportBody, ComposedVerdict, VerdictJson, AllWellFormed, WrappedAndSigned, Project, Agrees;
    var verdict, body := ComposedVerdict(k, source, records, options.generatedAt),
                         ComposedBody(k, source, records, options.generatedAt);
    BodyCanonicalizes(k, signer, source, records, key, options, bundle);
    BodyParts(k, source, records, verdict, CanonicalShaHex(k, source).value);
    CachedVerdictAgrees(k, body, verdict, recomputed);
  }

  lemma ExportIsNotTrace(k: Kernel, bundle: Json)
    requires Descends(k, bundle)
    ensures !IsTrace(k, bundle)
  {
    hide WrapperVerified;
  }

  /** Verifying a composed bundle does not raise, and its records throw in no kernel. */
  lemma ComposedNeverRaises(k: Kernel, signer: Signer, source: Json, attestations: Json, key: ExporterKey,
                            options: Options, bundle: Json)
    requires SignerWorks(k, signer) && ComposedFrom(k, signer, source, attestations, key, options, bundle)
    requires PublicKeyOf(signer, key) == signer.publicKey(key.privateKey)
    ensures !Raises(k, bundle)
    ensures forall other :: !RecordsThrow(other, RecordsOf(bundle))
  {
    hide Canonical, CanonicalShaHex, WrappedAndSigned, AllNormalize, NormalizedAll, Descends, IsTrace, AllWellFormed,
         RecordsThrow, ExportBody, ComposedVerdict;
    var records := NormalizedAll(attestations.items);
    ComposedDescends(k, signer, source, records, key, options, bundle);
    BodyParts(k, source, records, ComposedVerdict(k, source, records, options.generatedAt),
              CanonicalShaHex(k, source).value);
    ExportIsNotTrace(k, bundle);
    forall other ensures !RecordsThrow(other, RecordsOf(bundle)) {
      WellFormedThrowsNothing(k, other, records);
    }
  }

  /** What the composer announces is what the verifier finds: offline verification of the composed bundle does not
      raise, has wrapper signature, body hash, source linkage and verdict agreement all true, and yields the composed
      status and verdict, whatever content is disclosed as long as it changes no event's content finding. */
  lemma ComposeThenVerify(k: Kernel, signer: Signer, source: Json, attestations: Json, key: ExporterKey,
                          options: Options, bundle: Json, content: map<string, Disclosed>)
    requires SignerWorks(k, signer) && ComposedFrom(k, signer, source, attestations, key, options, bundle)
    requires PublicKeyOf(signer, key) == signer.publicKey(key.privateKey)
    requires ContentNeutral(k, source, content)
    ensures !Raises(k, bundle)
    ensures var r, verdict := BundleVerdict(k, bundle, Environment([], None, content)),
                              ComposedVerdict(k, source, NormalizedAll(attestations.items), options.generatedAt);
            r.signatureOk && r.bodyHashOk && r.status == verdict.status && r.status != Malformed && r.exported.Some?
            && r.exported.value.sourceLinkageOk && r.exported.value.verdictAgreementOk
            && r.exported.value.verdict == verdict
  {
    hide Canonical, CanonicalShaHex, WrappedAndSigned, AllNormalize, Normalized, Project, VerdictJson, BundleVerdict,
         LastWins, AttestationVerdict, WellFormedAttestation, Summarize, Descends, VerdictOf, CountAttestations,
         ExportBody, Agrees, IsTrace, TraceRaises, ContentNeutral;
    var env, records := Environment([], None, content), NormalizedAll(attestations.items);
    ComposedExport(k, signer, source, attestations, key, options, bundle, env);
    NeutralContent(k, source, env);
    assert Undisclosed(env) == OFFLINE;
    ComposedVerdictProjects(k, source, records, options.generatedAt);
    var atts := AttestationVerdicts(k, records, SourceCheckpoints(source));
    ComposedAgrees(k, signer, source, records, key, options, bundle,
                   VerdictOf(BundleVerdict(k, source, OFFLINE), atts).(asOf := Some(options.generatedAt)));
    ComposedNeverRaises(k, signer, source, attestations, key, options, bundle);
  }

  /** The exact condition, at any nesting of the source: a verifier who discloses content finds agreement and the
      announced status if that content is neutral to every event, which can be read off before verifying; otherwise the
      export fails, true content or not, unless two different projections have the same canonical form. */
  lemma ContentIsExact(k: Kernel, signer: Signer, source: Json, attestations: Json, key: ExporterKey, options: Options,
                       bundle: Json, content: map<string, Disclosed>)
    requires SignerWorks(k, signer) && ComposedFrom(k, signer, source, attestations, key, options, bundle)
    requires PublicKeyOf(signer, key) == signer.publicKey(key.privateKey)
    ensures var env := Environment([], None, content);
            var r, verdict := BundleVerdict(k, bundle, env),
                              ComposedVerdict(k, source, NormalizedAll(attestations.items), options.generatedAt);
            r.exported.Some?
            && if ContentNeutral(k, source, content)
               then r.exported.value.verdictAgreementOk && r.status == verdict.status
               else (!r.exported.value.verdictAgreementOk && r.status == Status.Failed)
                    || Clash(k, Project(VerdictJson(verdict)), Project(VerdictJson(r.exported.value.verdict)))
  {
    hide Canonical, CanonicalShaHex, WrappedAndSigned, AllNormalize, Normalized, Project, VerdictJson, BundleVerdict,
         LastWins, AttestationVerdict, WellFormedAttestation, Summarize, Descends, CountAttestations, CountEvents,
         VerdictEventOf, EntriesFor, ExportBody, Agrees, IsTrace, Clash, ContentNeutral;
    var env, records := Environment([], None, content), NormalizedAll(attestations.items);
    var x, y := BundleVerdict(k, source, env), BundleVerdict(k, source, OFFLINE);
    var verdict := ComposedVerdict(k, source, records, options.generatedAt);
    ComposedExport(k, signer, source, attestations, key, options, bundle, env);
    assert Undisclosed(env) == OFFLINE;
    NeutralIsExact(k, source, env);
    ComposedVerdictProjects(k, source, records, options.generatedAt);
    var atts := AttestationVerdicts(k, records, SourceCheckpoints(source));
    var recomputed := VerdictOf(x, atts).(asOf := Some(options.generatedAt));
    if x.events == y.events {
      EventsDecide(k, source, env);
      ComposedAgrees(k, signer, source, records, key, options, bundle,
                     VerdictOf(y, atts).(asOf := Some(options.generatedAt)));
    } else {
      if SameFindings(verdict, recomputed) {
        FindingsFixEvents(k, source, OFFLINE, env, atts, verdict, recomputed);
        assert false;
      }
      AgreementMeans(k, verdict, recomputed);
      VerdictsProjectAlike(x, x, atts, recomputed, BundleVerdict(k, bundle, env).exported.value.verdict);
    }
  }

  /** Verdicts over the same bundle with the same findings were taken from the same events. */
  lemma FindingsFixEvents(k: Kernel, source: Json, a: Environment, b: Environment, atts: seq<AttestationResult>,
                          x: VerdictObject, y: VerdictObject)
    requires VerdictFrom(x, BundleVerdict(k, source, a), atts) && VerdictFrom(y, BundleVerdict(k, source, b), atts)
    requires SameFindings(x, y)
    ensures BundleVerdict(k, source, a).events == BundleVerdict(k, source, b).events
  {
    hide BundleVerdict, EntriesFor, CountEvents, CountAttestations;
    var xs, ys := BundleVerdict(k, source, a).events, BundleVerdict(k, source, b).events;
    EventsComeAlike(k, source, a, b);
    forall i | 0 <= i < |xs| ensures xs[i] == ys[i] {
      assert SameEvent(x.events[i], y.events[i]);
    }
  }

  lemma BodyCanonicalizes(k: Kernel, signer: Signer, source: Json, records: seq<Json>, key: ExporterKey,
                          options: Options, bundle: Json)
    requires ComposedOf(k, signer, source, records, key, options, bundle)
    ensures Canonical(k, ComposedBody(k, source, records, options.generatedAt)).Some?
  {
    hide Canonical, ExportBody, ComposedVerdict, SignedWrapper, AllWellFormed;
  }

  /** Verified later with gateways, a composed export still links and agrees, and its status is no better than the one
      announced. */
  lemma ComposeThenVerifyOnline(k: Kernel, signer: Signer, source: Json, attestations: Json, key: ExporterKey,
                                options: Options, bundle: Json, env: Environment)
    requires SignerWorks(k, signer) && ComposedFrom(k, signer, source, attestations, key, options, bundle)
    requires PublicKeyOf(signer, key) == signer.publicKey(key.privateKey)
    requires ContentNeutral(k, source, env.content)
    ensures var r := BundleVerdict(k, bundle, env);
            r.signatureOk && r.bodyHashOk && r.exported.Some?
            && r.exported.value.sourceLinkageOk && r.exported.value.verdictAgreementOk
            && Rank(r.status) >= Rank(ComposedVerdict(k, source, NormalizedAll(attestations.items),
                                                      options.generatedAt).status)
  {
    hide *;
    ComposeThenVerify(k, signer, source, attestations, key, options, bundle, env.content);
    OnlineAgainstOffline(k, bundle, env);
  }

  lemma OnlineAgainstOffline(k: Kernel, bundle: Json, env: Environment)
    requires BundleVerdict(k, bundle, Environment([], None, env.content)).exported.Some?
    ensures var r, offline := BundleVerdict(k, bundle, env),
                              BundleVerdict(k, bundle, Environment([], None, env.content));
            r.signatureOk == offline.signatureOk && r.bodyHashOk == offline.bodyHashOk && r.exported.Some?
            && r.exported.value.sourceLinkageOk == offline.exported.value.sourceLinkageOk
            && r.exported.value.verdictAgreementOk == offline.exported.value.verdictAgreementOk
            && Rank(r.status) >= Rank(offline.status)
  {
    hide BundleVerdict, Rank, Project, VerdictJson;
    EnvironmentIndependence(k, bundle, env, Environment([], None, env.content));
    GatewaysNeverImprove(k, bundle, env);
    FetchIsMootOffline(k, bundle, env.fetch, env.content);
    assert Offline(env) == Environment([], env.fetch, env.content);
  }

  lemma {:induction false} FetchIsMootOffline(k: Kernel, bundle: Json, fetch: Option<Fetch>,
                                              content: map<string, Disclosed>)
    ensures BundleVerdict(k, bundle, Environment([], fetch, content))
            == BundleVerdict(k, bundle, Environment([], None, content))
    decreases bundle
  {
    hide BundleVerdict, ExportVerdict, TraceVerdict, IsTrace, Descends;
    var a, b := Environment([], fetch, content), Environment([], None, content);
    if IsTrace(k, bundle) {
      TraceBranch(k, bundle, a);
      TraceBranch(k, bundle, b);
      TraceWithoutGateways(k, bundle, fetch, content);
    } else if Descends(k, bundle) {
      DescendsHasSource(k, bundle);
      SourceIsSmaller(bundle);
      FetchIsMootOffline(k, SourceOf(bundle), fetch, content);
      ExportBranch(k, bundle, a);
      ExportBranch(k, bundle, b);
    } else {
      OtherBranch(k, bundle, a);
      OtherBranch(k, bundle, b);
    }
  }

  lemma TraceWithoutGateways(k: Kernel, bundle: Json, fetch: Option<Fetch>, content: map<string, Disclosed>)
    ensures TraceVerdict(k, bundle, Environment([], fetch, content))
            == TraceVerdict(k, bundle, Environment([], None, content))
  {
    hide OfflineView, EventVerdict, FirstWins, TraceStatus;
  }
}
