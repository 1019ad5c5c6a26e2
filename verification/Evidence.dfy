/** The `ario.evidence/v1` verifier: wrapper, body dispatch, attested exports. */
module Evidence {
  import opened Octets
  import opened JsonValues
  import opened KernelPrimitives
  import opened Traces
  import opened RsaPss

  const EVIDENCE_MAJOR := "ario.evidence/v1"
  const ANCHOR_TRACE_BODY_TYPE := "ario.anchor.trace/v1"
  const EXPORT_BODY_TYPE := "ario.evidence.export/v1"
  const VERDICT_SCHEMA_VERSION := "ario.evidence.verdict/v1"

  datatype AttestationResult = AttestationResult(
    checkpointTxId: string, operator: string, gateway: Option<string>, signatureOk: bool, operatorAddressBound: bool,
    dataHashBound: bool, checkpointResolved: bool, level: Option<Json>, subjectRefOk: Tri, ok: bool)

  datatype VerdictAttestation = VerdictAttestation(
    operator: string, gateway: Option<string>, signatureOk: bool, operatorAddressBound: bool, dataHashBound: bool,
    level: Option<Json>, subjectRefOk: Tri)

  datatype VerdictEvent = VerdictEvent(
    eventId: string, signatureOk: bool, payloadBound: Tri, inclusionOk: bool, contentOk: Tri, status: Status)

  datatype VerdictCheckpoint = VerdictCheckpoint(
    checkpointTxId: string, merkleRootOk: bool, onChain: Option<OnChainResult>, attestations: seq<VerdictAttestation>)

  datatype VerdictObject = VerdictObject(
    status: Status, verified: nat, failed: nat, undetermined: nat, events: seq<VerdictEvent>,
    checkpoints: seq<VerdictCheckpoint>, asOf: Option<string>, summary: Option<string>)

  datatype ExportResult = ExportResult(
    sourceLinkageOk: bool, sourceStatus: Status, verdictAgreementOk: bool, attestations: seq<AttestationResult>,
    verdict: VerdictObject, status: Status)

  datatype BundleResult = BundleResult(
    status: Status, specVersionOk: bool, bodyHashOk: bool, signatureOk: bool, bodyType: Option<string>,
    onChainChecked: bool, checkpoints: seq<CheckpointView>, events: seq<EventResult>, assertedStatus: Option<string>,
    exported: Option<ExportResult>, notes: seq<Note>)

  function StatusName(s: Status): string {
    match s
    case Verified => "verified"
    case Partial => "partial"
    case Failed => "failed"
    case Malformed => "malformed"
  }

  // ----- exit code -----

  predicate Contains(s: string, part: string)
    requires part != ""
  {
    |part| <= |s| && (s[..|part|] == part || Contains(s[1..], part))
  }

  /** Whether the text of the note holds one of the three markers of an unfinished network check. */
  predicate Marked(note: Note) {
    match note
    case CouldNotRefetch => true
    case SourceUnavailableOffline => true
    case UnknownBodyType(t) =>
      t.Some? && (Contains(t.value, "unreachable") || Contains(t.value, "could not be re-fetched")
                  || Contains(t.value, "unavailable offline"))
    case FromSource(inner) => Marked(inner)
    case _ => false
  }

  function ExitCode(r: BundleResult): nat {
    if r.status == Status.Failed then 1
    else if r.status == Malformed then 2
    else if r.status == Partial && exists n | n in r.notes :: Marked(n) then 3
    else 0
  }

  // ----- attestations -----

  /** Last occurrence of an id wins: where attestations look for their checkpoint. */
  function LastWins(cps: seq<Json>): map<string, Json> {
    if cps == [] then map[]
    else
      var last, earlier := cps[|cps| - 1], LastWins(cps[..|cps| - 1]);
      if Get(last, TxId).JStr? then earlier[Get(last, TxId).s := last] else earlier
  }

  /** The required members are there, and the payload has a canonical form. */
  predicate CompleteRecord(k: Kernel, rec: Json) {
    var payload, pub := Get(rec, Payload), Get(rec, PublicKey);
    payload.JObj? && Get(rec, SignatureAlg) == JStr("rsa-pss-sha256")
    && Get(pub, Kty) == JStr("RSA") && Get(pub, N).JStr? && Get(pub, E).JStr? && Get(rec, Signature).JStr?
    && Canonical(k, payload).Some?
  }

  function SignatureCheck(k: Kernel, rec: Json): Checked<bool>
    requires CompleteRecord(k, rec)
  {
    var pub := Get(rec, PublicKey);
    RsaVerdict(k, Canonical(k, Get(rec, Payload)).value, Get(rec, Signature).s, Get(pub, N).s, Get(pub, E).s)
  }

  function AddressOf(k: Kernel, rec: Json): Checked<string>
    requires CompleteRecord(k, rec)
  {
    OperatorAddress(k, Get(Get(rec, PublicKey), N).s)
  }

  /** A record that can be judged at all: complete, and key and signature parse. */
  predicate WellFormedAttestation(k: Kernel, rec: Json) {
    CompleteRecord(k, rec) && SignatureCheck(k, rec).Done? && AddressOf(k, rec).Done?
  }

  /** A record on which the code raises instead of answering. */
  predicate RecordThrows(k: Kernel, rec: Json) {
    CompleteRecord(k, rec)
    && (SignatureCheck(k, rec).Raised? || (SignatureCheck(k, rec).Done? && AddressOf(k, rec).Raised?))
  }

  /** A complete record in Python whose signature has a newline behind an odd number of hex digits, or is hex, while the
      key has another exponent than 65537 and a newline behind its modulus. */
  predicate NewlineRecord(k: Kernel, rec: Json) {
    k.lang.Python? && CompleteRecord(k, rec)
    && var sig, pub := Get(rec, Signature).s, Get(rec, PublicKey);
       HexLine(sig)
       || (|sig| % 2 == 0 && AllHex(sig) && OtherExponent(Get(pub, E).s) && Base64Line(Get(pub, N).s))
  }

  lemma ThrowsIsNewline(k: Kernel, rec: Json)
    ensures RecordThrows(k, rec) <==> NewlineRecord(k, rec)
  {
    hide Canonical, RsaVerdict, OperatorAddress, HexLine, AllHex, OtherExponent, Base64Line;
    if CompleteRecord(k, rec) {
      var pub := Get(rec, PublicKey);
      RaisingIsExact(k, Canonical(k, Get(rec, Payload)).value, Get(rec, Signature).s, Get(pub, N).s, Get(pub, E).s);
    }
  }

  /** A record that one kernel can judge makes none throw. */
  lemma JudgeableNeverThrows(k: Kernel, other: Kernel, rec: Json)
    requires WellFormedAttestation(k, rec)
    ensures !RecordThrows(other, rec)
  {
    hide Canonical, StrictHex, FromBase64Url, HexLine, AllHex, OtherExponent, Base64Line, BigEndian;
    ThrowsIsNewline(other, rec);
    var sig, n := Get(rec, Signature).s, Get(Get(rec, PublicKey), N).s;
    HexIsExact(k.lang, sig);
    HexIsExact(Python, sig);
    Base64IsExact(k.lang, n);
    Base64IsExact(Python, n);
  }

  predicate DataHashBinds(k: Kernel, payload: Json, cp: Json) {
    var hash := Lower(StrOr(Get(payload, DataHash), ""));
    hash != "" && EnvelopeBytes(k, cp).Some? && k.ShaHex(EnvelopeBytes(k, cp).value) == hash
  }

  function LevelOf(lang: Language, j: Json): Option<Json> {
    if j.JInt? || (lang.TypeScript? && j.JFloat?) then Some(j) else None
  }

  function AttestationVerdict(k: Kernel, rec: Json, cps: map<string, Json>): AttestationResult
    requires WellFormedAttestation(k, rec)
  {
    var payload, id := Get(rec, Payload), StrOr(Get(rec, CheckpointTxId), "");
    var operator := StrOr(Get(payload, Operator), "");
    var sig := SignatureCheck(k, rec).value;
    var bound := operator != "" && AddressOf(k, rec).value == operator;
    var data := id in cps && DataHashBinds(k, payload, cps[id]);
    AttestationResult(id, operator, if Get(payload, Gateway).JStr? then Some(Get(payload, Gateway).s) else None,
                      sig, bound, data, id in cps, LevelOf(k.lang, Get(payload, Level)), Unknown,
                      sig && bound && data && id in cps)
  }

  method VerifyAttestation(k: Kernel, rec: Json, cps: map<string, Json>) returns (result: Checked<AttestationResult>)
    ensures result == if WellFormedAttestation(k, rec) then Done(AttestationVerdict(k, rec, cps))
                      else if RecordThrows(k, rec) then Raised else Refused
  {
    hide RsaVerdict, OperatorAddress, Canonical;
    var payload, pub, sig := Get(rec, Payload), Get(rec, PublicKey), Get(rec, Signature);
    if !rec.JObj? || !payload.JObj? || Get(rec, SignatureAlg) != JStr("rsa-pss-sha256") {
      return Refused;
    }
    if !pub.JObj? || Get(pub, Kty) != JStr("RSA") || !Get(pub, N).JStr? || !Get(pub, E).JStr? || !sig.JStr? {
      return Refused;
    }
    var operator := StrOr(Get(payload, Operator), "");
    var payloadBytes := CanonicalJson(k, payload);
    if payloadBytes.None? {
      return Refused;
    }
    var signatureOk := VerifyRsaPssSha256(k, payloadBytes.value, sig.s, Get(pub, N).s, Get(pub, E).s);
    if !signatureOk.Done? {
      return if signatureOk.Raised? then Raised else Refused;
    }
    var derived := OperatorAddress(k, Get(pub, N).s);
    if !derived.Done? {
      return if derived.Raised? then Raised else Refused;
    }
    var bound := operator != "" && derived.value == operator;
    var id := StrOr(Get(rec, CheckpointTxId), "");
    var dataHashBound := false;
    if id in cps {
      var committed := EnvelopeBytes(k, cps[id]);
      var dataHash := Lower(StrOr(Get(payload, DataHash), ""));
      dataHashBound := committed.Some? && dataHash != "" && dataHash == k.ShaHex(committed.value);
    }
    return Done(AttestationResult(id, operator,
                                  if Get(payload, Gateway).JStr? then Some(Get(payload, Gateway).s) else None,
                                  signatureOk.value, bound, dataHashBound, id in cps,
                                  LevelOf(k.lang, Get(payload, Level)),
                                  Unknown, signatureOk.value && bound && dataHashBound && id in cps));
  }

  predicate AllWellFormed(k: Kernel, recs: seq<Json>) {
    forall rec | rec in recs :: WellFormedAttestation(k, rec)
  }

  /** Some record throws, and none before it ends the loop as malformed. */
  predicate RecordsThrow(k: Kernel, recs: seq<Json>) {
    exists i | 0 <= i < |recs| :: RecordThrows(k, recs[i]) && AllWellFormed(k, recs[..i])
  }

  lemma WellFormedThrowsNothing(k: Kernel, other: Kernel, recs: seq<Json>)
    ensures AllWellFormed(k, recs) ==> !RecordsThrow(other, recs)
  {
    hide WellFormedAttestation, RecordThrows;
    forall i | 0 <= i < |recs| && AllWellFormed(k, recs)
      ensures !RecordThrows(other, recs[i])
    {
      JudgeableNeverThrows(k, other, recs[i]);
    }
  }

  function AttestationVerdicts(k: Kernel, recs: seq<Json>, cps: map<string, Json>): (r: seq<AttestationResult>)
    requires AllWellFormed(k, recs)
    ensures |r| == |recs| && forall i :: 0 <= i < |recs| ==> r[i] == AttestationVerdict(k, recs[i], cps)
  {
    seq(|recs|, i requires 0 <= i < |recs| => AttestationVerdict(k, recs[i], cps))
  }

  // ----- the verdict object -----

  function Entry(a: AttestationResult): VerdictAttestation {
    VerdictAttestation(a.operator, if a.gateway == Some("") then None else a.gateway, a.signatureOk,
                       a.operatorAddressBound, a.dataHashBound, a.level, a.subjectRefOk)
  }

  /** The entries of one checkpoint, in record order. */
  function EntriesFor(atts: seq<AttestationResult>, id: string): seq<VerdictAttestation> {
    if atts == [] then []
    else
      var last := atts[|atts| - 1];
      EntriesFor(atts[..|atts| - 1], id) + (if last.checkpointTxId == id then [Entry(last)] else [])
  }

  function EventStatus(e: EventResult): Status {
    if !e.ok then Status.Failed else if e.payloadBindingOk == Unknown then Partial else Status.Verified
  }

  function VerdictEventOf(e: EventResult): VerdictEvent {
    VerdictEvent(e.eventId, e.envelopeOk, e.payloadBindingOk, e.inclusionOk, e.contentOk, EventStatus(e))
  }

  function CountEvents(events: seq<EventResult>, status: Status): nat {
    if events == [] then 0
    else CountEvents(events[..|events| - 1], status) + (if EventStatus(events[|events| - 1]) == status then 1 else 0)
  }

  function CountAttestations(atts: seq<AttestationResult>, ok: bool): nat {
    if atts == [] then 0
    else CountAttestations(atts[..|atts| - 1], ok) + (if atts[|atts| - 1].ok == ok then 1 else 0)
  }

  function VerdictEvents(events: seq<EventResult>): (r: seq<VerdictEvent>)
    ensures |r| == |events| && forall i :: 0 <= i < |events| ==> r[i] == VerdictEventOf(events[i])
  {
    seq(|events|, i requires 0 <= i < |events| => VerdictEventOf(events[i]))
  }

  function VerdictCheckpoints(views: seq<CheckpointView>, atts: seq<AttestationResult>): (r: seq<VerdictCheckpoint>)
    ensures |r| == |views|
    ensures forall i :: 0 <= i < |views| ==>
              r[i] == VerdictCheckpoint(views[i].txId, views[i].merkleRootOk, views[i].onChain,
                                        EntriesFor(atts, views[i].txId))
  {
    seq(|views|, i requires 0 <= i < |views| =>
          VerdictCheckpoint(views[i].txId, views[i].merkleRootOk, views[i].onChain, EntriesFor(atts, views[i].txId)))
  }

  function VerdictOf(source: BundleResult, atts: seq<AttestationResult>): VerdictObject {
    VerdictObject(if source.status == Malformed then Status.Failed else source.status,
                  CountEvents(source.events, Status.Verified) + CountAttestations(atts, true),
                  CountEvents(source.events, Status.Failed) + CountAttestations(atts, false),
                  CountEvents(source.events, Partial),
                  VerdictEvents(source.events), VerdictCheckpoints(source.checkpoints, atts), None, None)
  }

  lemma EntriesForStep(atts: seq<AttestationResult>, i: nat, id: string)
    requires i < |atts|
    ensures EntriesFor(atts[..i + 1], id)
            == EntriesFor(atts[..i], id) + (if atts[i].checkpointTxId == id then [Entry(atts[i])] else [])
  {
    hide Entry;
    assert atts[..i + 1][..i] == atts[..i];
  }

  function ListAt(m: map<string, seq<VerdictAttestation>>, id: string): seq<VerdictAttestation> {
    if id in m then m[id] else []
  }

  method GroupEntries(atts: seq<AttestationResult>) returns (attByCheckpoint: map<string, seq<VerdictAttestation>>)
    ensures forall id :: ListAt(attByCheckpoint, id) == EntriesFor(atts, id)
  {
    hide Entry, EntriesFor;
    attByCheckpoint := map[];
    assert forall id :: EntriesFor(atts[..0], id) == [] by {
      forall id ensures EntriesFor(atts[..0], id) == [] {
        NoEntries(atts[..0], id);
      }
    }
    for i := 0 to |atts|
      invariant forall id :: ListAt(attByCheckpoint, id) == EntriesFor(atts[..i], id)
    {
      var a := atts[i];
      ghost var before := attByCheckpoint;
      attByCheckpoint := attByCheckpoint[a.checkpointTxId := ListAt(attByCheckpoint, a.checkpointTxId) + [Entry(a)]];
      forall id ensures ListAt(attByCheckpoint, id) == EntriesFor(atts[..i + 1], id) {
        EntriesForStep(atts, i, id);
        assert ListAt(before, id) == EntriesFor(atts[..i], id);
      }
    }
    assert atts[..|atts|] == atts;
  }

  lemma NoEntries(atts: seq<AttestationResult>, id: string)
    requires atts == []
    ensures EntriesFor(atts, id) == []
  {
  }

  method CountAll(events: seq<EventResult>, atts: seq<AttestationResult>)
    returns (verified: nat, failed: nat, undetermined: nat)
    ensures verified == CountEvents(events, Status.Verified) + CountAttestations(atts, true)
    ensures failed == CountEvents(events, Status.Failed) + CountAttestations(atts, false)
    ensures undetermined == CountEvents(events, Partial)
  {
    verified, failed, undetermined := 0, 0, 0;
    for i := 0 to |events|
      invariant verified == CountEvents(events[..i], Status.Verified)
      invariant failed == CountEvents(events[..i], Status.Failed)
      invariant undetermined == CountEvents(events[..i], Partial)
    {
      assert events[..i + 1][..i] == events[..i];
      var status := EventStatus(events[i]);
      if status == Status.Failed {
        failed := failed + 1;
      } else if status == Status.Verified {
        verified := verified + 1;
      } else {
        undetermined := undetermined + 1;
      }
    }
    assert events[..|events|] == events;
    ghost var verifiedEvents, failedEvents := verified, failed;
    for i := 0 to |atts|
      invariant verified == verifiedEvents + CountAttestations(atts[..i], true)
      invariant failed == failedEvents + CountAttestations(atts[..i], false)
    {
      assert atts[..i + 1][..i] == atts[..i];
      if atts[i].ok {
        verified := verified + 1;
      } else {
        failed := failed + 1;
      }
    }
    assert atts[..|atts|] == atts;
  }

  /** Groups the entries by checkpoint in one pass, then lays events and checkpoints out and counts. */
  method BuildVerdictObject(source: BundleResult, atts: seq<AttestationResult>) returns (v: VerdictObject)
    ensures v == VerdictOf(source, atts)
  {
    hide EntriesFor, VerdictEventOf, CountEvents, CountAttestations;
    var attByCheckpoint := GroupEntries(atts);
    var verified, failed, undetermined := CountAll(source.events, atts);
    var checkpoints: seq<VerdictCheckpoint> := [];
    for i := 0 to |source.checkpoints|
      invariant checkpoints == VerdictCheckpoints(source.checkpoints, atts)[..i]
    {
      var c := source.checkpoints[i];
      var list := ListAt(attByCheckpoint, c.txId);
      checkpoints := checkpoints + [VerdictCheckpoint(c.txId, c.merkleRootOk, c.onChain, list)];
    }
    return VerdictObject(if source.status == Malformed then Status.Failed else source.status,
                         verified, failed, undetermined,
                         VerdictEvents(source.events), checkpoints, None, None);
  }

  // ----- the verdict as JSON, and the part of it that must agree -----

  function TriJson(t: Tri): Json {
    if t == Unknown then JNull else JBool(t == Yes)
  }

  function EventJson(e: VerdictEvent): Json {
    JObj(map[EventId := JStr(e.eventId), SignatureOk := JBool(e.signatureOk), PayloadBound := TriJson(e.payloadBound),
             InclusionOk := JBool(e.inclusionOk), ContentOk := TriJson(e.contentOk),
             Key.Status := JStr(StatusName(e.status))])
  }

  function AttestationJson(a: VerdictAttestation): Json {
    JObj(map[Operator := JStr(a.operator), SignatureOk := JBool(a.signatureOk),
             OperatorAddressBound := JBool(a.operatorAddressBound), DataHashBound := JBool(a.dataHashBound),
             SubjectRefOk := TriJson(a.subjectRefOk)]
         + (if a.gateway.Some? then map[Gateway := JStr(a.gateway.value)] else map[])
         + (if a.level.Some? then map[Level := a.level.value] else map[]))
  }

  function OutcomeJson(o: Outcome): Json {
    JStr(if o == Confirm then "confirm" else if o == Mismatch then "mismatch" else "unreachable")
  }

  function OnChainJson(o: Option<OnChainResult>): Json {
    if o.None? then JNull
    else
      var gs := o.value.perGateway;
      JObj(map[Rollup := OutcomeJson(o.value.rollup), OnChainOk := TriJson(o.value.onChainOk),
               PerGateway := JArr(seq(|gs|, i requires 0 <= i < |gs| =>
                 JObj(map[Gateway := JStr(gs[i].gateway), Key.Outcome := OutcomeJson(gs[i].outcome)])))])
  }

  function CheckpointJson(c: VerdictCheckpoint): Json {
    JObj(map[CheckpointTxId := JStr(c.checkpointTxId), MerkleRootOk := JBool(c.merkleRootOk),
             Key.OnChain := OnChainJson(c.onChain), Attestations := JArr(AttestationsJson(c.attestations))])
  }

  function AttestationsJson(atts: seq<VerdictAttestation>): (r: seq<Json>)
    ensures |r| == |atts| && forall i :: 0 <= i < |atts| ==> r[i] == AttestationJson(atts[i])
  {
    seq(|atts|, i requires 0 <= i < |atts| => AttestationJson(atts[i]))
  }

  function EventsJson(events: seq<VerdictEvent>): (r: seq<Json>)
    ensures |r| == |events| && forall i :: 0 <= i < |events| ==> r[i] == EventJson(events[i])
  {
    seq(|events|, i requires 0 <= i < |events| => EventJson(events[i]))
  }

  function CheckpointsJson(cps: seq<VerdictCheckpoint>): (r: seq<Json>)
    ensures |r| == |cps| && forall i :: 0 <= i < |cps| ==> r[i] == CheckpointJson(cps[i])
  {
    seq(|cps|, i requires 0 <= i < |cps| => CheckpointJson(cps[i]))
  }

  function CountsJson(v: VerdictObject): Json {
    JObj(map[Key.Verified := JInt(v.verified), Key.Failed := JInt(v.failed), Undetermined := JInt(v.undetermined)])
  }

  function VerdictJson(v: VerdictObject): Json {
    JObj(map[SchemaVersion := JStr(VERDICT_SCHEMA_VERSION), Key.Status := JStr(StatusName(v.status)),
             Counts := CountsJson(v),
             Events := JArr(EventsJson(v.events)), Checkpoints := JArr(CheckpointsJson(v.checkpoints)),
                 CustodyChain := JNull]
         + (if v.asOf.Some? then map[AsOf := JStr(v.asOf.value)] else map[])
         + (if v.summary.Some? then map[Summary := JStr(v.summary.value)] else map[]))
  }

  function ProjectEvent(e: Json): Json {
    JObj(map[EventId := Get(e, EventId), SignatureOk := Get(e, SignatureOk), PayloadBound := Get(e, PayloadBound),
             InclusionOk := Get(e, InclusionOk), ContentOk := Get(e, ContentOk)])
  }

  function ProjectAttestation(a: Json): Json {
    JObj(map[Operator := Get(a, Operator), SignatureOk := Get(a, SignatureOk),
             OperatorAddressBound := Get(a, OperatorAddressBound), DataHashBound := Get(a, DataHashBound),
             SubjectRefOk := Get(a, SubjectRefOk)])
  }

  function ProjectCheckpoint(c: Json): Json {
    JObj(map[CheckpointTxId := Get(c, CheckpointTxId), MerkleRootOk := Get(c, MerkleRootOk),
             Attestations := JArr(ProjectAll(Items(Get(c, Attestations)), ProjectAttestation))])
  }

  function ProjectAll(items: seq<Json>, f: Json -> Json): (r: seq<Json>)
    ensures |r| == |items| && forall i :: 0 <= i < |items| ==> r[i] == f(items[i])
  {
    seq(|items|, i requires 0 <= i < |items| => f(items[i]))
  }

  /** The deterministic, offline-recomputable part of a verdict, of whatever shape the cached one has. */
  function Project(v: Json): Json {
    JObj(map[SchemaVersion := if Get(v, SchemaVersion).JStr? then Get(v, SchemaVersion) else JNull,
             Events := JArr(ProjectAll(Items(Get(v, Events)), ProjectEvent)),
             Checkpoints := JArr(ProjectAll(Items(Get(v, Checkpoints)), ProjectCheckpoint))])
  }

  predicate Agrees(k: Kernel, cached: Json, recomputed: VerdictObject) {
    var a, b := Canonical(k, Project(cached)), Canonical(k, Project(VerdictJson(recomputed)));
    a.Some? && a == b
  }

  // ----- bundles -----

  /** The wrapper without its signatures: what the issuer signed. */
  function WrapperScope(bundle: Json): Json {
    JObj(Fields(bundle) - {Signature, CoSignatures})
  }

  predicate WrapperSigned(k: Kernel, bundle: Json) {
    var message, sig, pub := Canonical(k, WrapperScope(bundle)), Get(bundle, Signature), Get(bundle, PublicKey);
    message.Some? && sig.JStr? && pub.JStr? && k.ed25519(message.value, sig.s, pub.s)
  }

  predicate BodyHashed(k: Kernel, bundle: Json) {
    Get(bundle, BodyHash).JStr? && CanonicalShaHex(k, Get(bundle, Body)) == Some(Get(bundle, BodyHash).s)
  }

  predicate VersionOk(bundle: Json) {
    bundle.JObj? && !Nests(bundle, MAX_CANONICAL_DEPTH)
    && Get(bundle, SpecVersion).JStr? && MatchesMajor(Get(bundle, SpecVersion).s, EVIDENCE_MAJOR)
  }

  predicate WrapperComplete(bundle: Json) {
    VersionOk(bundle) && (Get(bundle, SignatureAlg).JStr? ==> Get(bundle, SignatureAlg) == JStr("ed25519"))
    && Get(bundle, PublicKey).JStr? && Get(bundle, Signature).JStr? && Get(bundle, BodyHash).JStr?
    && Get(bundle, Body) != JNull
  }

  /** The wrapper is in order, so the body speaks for the issuer. */
  predicate WrapperVerified(k: Kernel, bundle: Json) {
    WrapperComplete(bundle) && BodyHashed(k, bundle) && WrapperSigned(k, bundle)
  }

  function MalformedResult(specVersionOk: bool): BundleResult {
    BundleResult(Malformed, specVersionOk, false, false, None, false, [], [], None, None, [Rejected])
  }

  function StrOption(j: Json): Option<string> {
    if j.JStr? then Some(j.s) else None
  }

  function AssertedStatus(bundle: Json): Option<string> {
    StrOption(Get(Get(bundle, Key.Verdict), Key.Status))
  }

  /** A result without checkpoints or events, for a wrapper that was read. */
  function BareResult(bundle: Json, status: Status, bodyHashOk: bool, signatureOk: bool,
                      notes: seq<Note>): BundleResult {
    BundleResult(status, true, bodyHashOk, signatureOk, StrOption(Get(bundle, BodyType)), false, [], [],
                 AssertedStatus(bundle), None, notes)
  }

  predicate TraceShaped(body: Json) {
    Get(body, Checkpoints).JArr? && Get(body, Events).JArr?
  }

  ghost function TraceVerdict(k: Kernel, bundle: Json, env: Environment): BundleResult {
    var body := Get(bundle, Body);
    if !TraceShaped(body) then MalformedResult(true)
    else
      var cps, evs := Items(Get(body, Checkpoints)), Items(Get(body, Events));
      var views, events := Views(k, cps, env), EventVerdicts(k, evs, FirstWins(cps), env.content);
      var status := TraceStatus(views, events, GatewayUnavailable(views, env));
      BundleResult(status, true, true, true, StrOption(Get(bundle, BodyType)), env.gateways != [], views, events,
                   AssertedStatus(bundle), None,
                   (if env.gateways != [] && env.fetch.None? then [NoFetchImplementation] else [])
                   + (if status == Partial && GatewayUnavailable(views, env) then [CouldNotRefetch] else []))
  }

  /** The code raises on a trace body it cannot read, and on a checkpoint or event of a well-shaped one. */
  predicate TraceRaises(lang: Language, body: Json) {
    Unreadable(lang, body)
    || (TraceShaped(body)
        && (AnyUnreadable(lang, Items(Get(body, Checkpoints))) || AnyUnreadable(lang, Items(Get(body, Events)))))
  }

  predicate ExportShaped(body: Json) {
    body.JObj? && Get(body, SourceBundleHash).JStr? && Get(body, Attestations).JArr? && Get(body, KernelVerdict).JObj?
  }

  predicate SourceLinked(k: Kernel, body: Json) {
    Get(body, SourceBundleHash).JStr?
    && CanonicalShaHex(k, Get(body, SourceBundle)) == Some(Get(body, SourceBundleHash).s)
  }

  function SourceCheckpoints(source: Json): map<string, Json> {
    LastWins(Items(Get(Get(source, Body), Checkpoints)))
  }

  function ExportStatus(linked: bool, agrees: bool, source: Status, atts: seq<AttestationResult>): Status {
    if !linked || !agrees || source == Status.Failed || source == Malformed || exists a | a in atts :: !a.ok
        then Status.Failed
    else if source == Partial then Partial
    else Status.Verified
  }

  function Summarize(k: Kernel, status: Status, source: BundleResult, atts: seq<AttestationResult>): string {
    k.summary(StatusName(status), StatusName(source.status), |source.events|, |source.checkpoints|,
              CountAttestations(atts, true), |atts|)
  }

  function FromSourceNotes(notes: seq<Note>): (r: seq<Note>)
    ensures |r| == |notes| && forall i :: 0 <= i < |notes| ==> r[i] == FromSource(notes[i])
  {
    seq(|notes|, i requires 0 <= i < |notes| => FromSource(notes[i]))
  }

  /** An export with an inline source, given what the source itself verifies to. */
  ghost function ExportVerdict(k: Kernel, bundle: Json, source: BundleResult): BundleResult {
    var body := Get(bundle, Body);
    var recs, inline := Items(Get(body, Attestations)), Get(body, SourceBundle);
    if !AllWellFormed(k, recs) then
      BareResult(bundle, Malformed, true, true, (if SourceLinked(k, body) then [] else [SourceHashWrong]) + [Rejected])
    else
      var atts := AttestationVerdicts(k, recs, SourceCheckpoints(inline));
      var recomputed := VerdictOf(source, atts).(asOf := StrOption(Get(bundle, GeneratedAt)));
      var linked, agrees := SourceLinked(k, body), Agrees(k, Get(body, KernelVerdict), recomputed);
      var status := ExportStatus(linked, agrees, source.status, atts);
      var verdict := recomputed.(status := status, summary := Some(Summarize(k, status, source, atts)));
      BundleResult(status, true, true, true, StrOption(Get(bundle, BodyType)), source.onChainChecked,
                   source.checkpoints,
                   source.events, AssertedStatus(bundle),
                   Some(ExportResult(linked, source.status, agrees, atts, verdict, status)),
                   (if linked then [] else [SourceHashWrong]) + (if agrees then [] else [VerdictDisagrees])
                   + FromSourceNotes(source.notes))
  }

  /** The bundle inside an export. */
  function SourceOf(bundle: Json): Json {
    Get(Get(bundle, Body), SourceBundle)
  }

  predicate IsTrace(k: Kernel, bundle: Json) {
    WrapperVerified(k, bundle) && Get(bundle, BodyType) == JStr(ANCHOR_TRACE_BODY_TYPE)
  }

  /** The verifier descends into the source of exactly these bundles. */
  predicate Descends(k: Kernel, bundle: Json) {
    WrapperVerified(k, bundle) && Get(bundle, BodyType) == JStr(EXPORT_BODY_TYPE)
    && ExportShaped(Get(bundle, Body)) && SourceOf(bundle) != JNull
  }

  lemma SourceIsSmaller(bundle: Json)
    requires SourceOf(bundle) != JNull
    ensures SourceOf(bundle) < bundle
  {
    assert Get(bundle, Body) < bundle;
  }

  ghost function BundleVerdict(k: Kernel, bundle: Json, env: Environment): BundleResult
    decreases bundle
  {
    if !WrapperComplete(bundle) then MalformedResult(VersionOk(bundle))
    else if !WrapperVerified(k, bundle) then
      BareResult(bundle, Status.Failed, BodyHashed(k, bundle), WrapperSigned(k, bundle),
                 (if BodyHashed(k, bundle) then [] else [BodyHashWrong])
                 + (if WrapperSigned(k, bundle) then [] else [WrapperSignatureWrong]))
    else if IsTrace(k, bundle) then TraceVerdict(k, bundle, env)
    else if Get(bundle, BodyType) != JStr(EXPORT_BODY_TYPE) then
      BareResult(bundle, Partial, true, true, [UnknownBodyType(StrOption(Get(bundle, BodyType)))])
    else if !ExportShaped(Get(bundle, Body)) then BareResult(bundle, Malformed, true, true, [Rejected])
    else if !Descends(k, bundle) then BareResult(bundle, Partial, true, true, [SourceUnavailableOffline])
    else
      SourceIsSmaller(bundle);
      ExportVerdict(k, bundle, BundleVerdict(k, SourceOf(bundle), env))
  }

  function RecordsOf(bundle: Json): seq<Json> {
    Items(Get(Get(bundle, Body), Attestations))
  }

  /** Where verification raises: at a trace body that cannot be read, or on the records of an export. */
  predicate Raises(k: Kernel, bundle: Json)
    decreases bundle
  {
    if IsTrace(k, bundle) then TraceRaises(k.lang, Get(bundle, Body))
    else if Descends(k, bundle) then
      SourceIsSmaller(bundle);
      Raises(k, SourceOf(bundle)) || RecordsThrow(k, RecordsOf(bundle))
    else false
  }

  /** `None` when the code raises. */
  method VerifyAnchorTrace(k: Kernel, bundle: Json, env: Environment)
    returns (r: Option<BundleResult>, results: seq<CheckpointResult>)
    ensures r.None? <==> TraceRaises(k.lang, Get(bundle, Body))
    ensures r.Some? ==> r.value == TraceVerdict(k, bundle, env) && |results| == |r.value.checkpoints|
    ensures r.Some? ==> forall i :: 0 <= i < |results| ==>
                          fresh(results[i]) && results[i].View() == r.value.checkpoints[i]
  {
    hide OfflineView, OnlineView, EventVerdict, FirstWins, TraceStatus, Unreadable, AnyUnreadable;
    var body := Get(bundle, Body);
    if Unreadable(k.lang, body) {
      return None, [];
    }
    if !Get(body, Checkpoints).JArr? || !Get(body, Events).JArr? {
      return Some(MalformedResult(true)), [];
    }
    var cps, evs := Get(body, Checkpoints).items, Get(body, Events).items;
    var onChainChecked := env.gateways != [];
    var byTxId, raised;
    results, byTxId, raised := VerifyCheckpoints(k, cps);
    if raised {
      return None, [];
    }
    var events := VerifyEvents(k, evs, byTxId, env.content);
    if events.None? {
      return None, [];
    }
    var gatewayUnavailable := false;
    var notes: seq<Note> := [];
    if onChainChecked {
      if env.fetch.None? {
        gatewayUnavailable := true;
        notes := [NoFetchImplementation];
      } else {
        gatewayUnavailable := RefetchCheckpoints(k, results, byTxId, env.gateways, env.fetch.value);
      }
    }
    ghost var views := Views(k, cps, env);
    var shown := Snapshot(results);
    assert shown == views;
    assert gatewayUnavailable == GatewayUnavailable(views, env);
    var status := TraceStatus(shown, events.value, gatewayUnavailable);
    if status == Partial && gatewayUnavailable {
      notes := notes + [CouldNotRefetch];
    }
    r := Some(BundleResult(status, true, true, true, StrOption(Get(bundle, BodyType)), onChainChecked, shown,
                           events.value, AssertedStatus(bundle), None, notes));
  }

  method Snapshot(results: seq<CheckpointResult>) returns (views: seq<CheckpointView>)
    ensures |views| == |results| && forall i :: 0 <= i < |results| ==> views[i] == results[i].View()
  {
    views := [];
    for i := 0 to |results|
      invariant |views| == i && forall x :: 0 <= x < i ==> views[x] == results[x].View()
    {
      var c := results[i];
      views := views + [CheckpointView(c.txId, c.envelopeOk, c.merkleRootOk, c.onChainOk, c.onChain, c.ok, c.notes)];
    }
  }

  method LastByTxId(cps: seq<Json>) returns (byTxId: map<string, Json>)
    ensures byTxId == LastWins(cps)
  {
    byTxId := map[];
    for i := 0 to |cps|
      invariant byTxId == LastWins(cps[..i])
    {
      assert cps[..i + 1][..i] == cps[..i];
      var txId := Get(cps[i], TxId);
      if txId.JStr? {
        byTxId := byTxId[txId.s := cps[i]];
      }
    }
    assert cps[..|cps|] == cps;
  }

  /** One record after the other, stopping at the first that is malformed or throws. */
  method VerifyAttestations(k: Kernel, recs: seq<Json>, cps: map<string, Json>)
    returns (atts: Checked<seq<AttestationResult>>)
    ensures atts == if AllWellFormed(k, recs) then Done(AttestationVerdicts(k, recs, cps))
                    else if RecordsThrow(k, recs) then Raised else Refused
  {
    hide CompleteRecord, SignatureCheck, AddressOf, AttestationVerdict;
    var results: seq<AttestationResult> := [];
    for i := 0 to |recs|
      invariant |results| == i
      invariant forall x :: 0 <= x < i ==>
                  WellFormedAttestation(k, recs[x]) && results[x] == AttestationVerdict(k, recs[x], cps)
    {
      var a := VerifyAttestation(k, recs[i], cps);
      if !a.Done? {
        FirstBad(k, recs, i);
        return if a.Raised? then Raised else Refused;
      }
      results := results + [a.value];
    }
    assert AllWellFormed(k, recs);
    assert results == AttestationVerdicts(k, recs, cps);
    return Done(results);
  }

  /** The first record that is not well-formed decides. */
  lemma FirstBad(k: Kernel, recs: seq<Json>, i: nat)
    requires i < |recs| && !WellFormedAttestation(k, recs[i])
    requires forall x :: 0 <= x < i ==> WellFormedAttestation(k, recs[x])
    ensures !AllWellFormed(k, recs) && (RecordsThrow(k, recs) <==> RecordThrows(k, recs[i]))
  {
    hide WellFormedAttestation, CompleteRecord, SignatureCheck, AddressOf;
    assert AllWellFormed(k, recs[..i]);
    forall j | 0 <= j < |recs| && RecordThrows(k, recs[j]) && AllWellFormed(k, recs[..j])
      ensures j == i
    {
      if WellFormedAttestation(k, recs[j]) {
        JudgeableNeverThrows(k, k, recs[j]);
      }
    }
  }

  method CompareVerdicts(k: Kernel, cached: Json, recomputed: VerdictObject) returns (agrees: bool)
    ensures agrees == Agrees(k, cached, recomputed)
  {
    var a := CanonicalJson(k, Project(cached));
    var b := CanonicalJson(k, Project(VerdictJson(recomputed)));
    return a.Some? && a == b;
  }

  /** A source is linked to a hash that no value of another canonical form has, short of a collision. */
  method CheckLinkage(k: Kernel, body: Json) returns (linked: bool)
    requires Get(body, SourceBundleHash).JStr?
    ensures linked == SourceLinked(k, body)
    ensures linked ==> Canonical(k, Get(body, SourceBundle)).Some?
    ensures linked ==> forall x :: CanonicalShaHex(k, x) == Some(Get(body, SourceBundleHash).s) ==>
                         SameCanonicalOrCollides(k, Get(body, SourceBundle), x)
  {
    hide Canonical;
    var source, stored := Get(body, SourceBundle), Get(body, SourceBundleHash).s;
    var bytes := CanonicalJson(k, source);
    linked := bytes.Some? && k.ShaHex(bytes.value) == stored;
    if linked {
      forall x | CanonicalShaHex(k, x) == Some(stored)
        ensures SameCanonicalOrCollides(k, source, x)
      {
        CanonicalHashBinds(k, source, x);
      }
    }
  }

  /** The part of the export verifier after the source has been recomputed; `None` when a record throws. */
  method JudgeExport(k: Kernel, bundle: Json, source: BundleResult) returns (r: Option<BundleResult>)
    requires ExportShaped(Get(bundle, Body))
    ensures r == if RecordsThrow(k, RecordsOf(bundle)) then None else Some(ExportVerdict(k, bundle, source))
  {
    hide SourceLinked, Agrees, AllWellFormed, RecordsThrow, VerdictOf, ExportStatus, LastWins, Project, VerdictJson,
         AttestationVerdict,
         WellFormedAttestation, Summarize, AssertedStatus, Canonical, CanonicalShaHex, CountAttestations;
    var body := Get(bundle, Body);
    var inline := Get(body, SourceBundle);
    var linked := CheckLinkage(k, body);
    var notes := if linked then [] else [SourceHashWrong];
    var byTxId := LastByTxId(Items(Get(Get(inline, Body), Checkpoints)));
    var attestations := VerifyAttestations(k, Get(body, Attestations).items, byTxId);
    assert RecordsOf(bundle) == Get(body, Attestations).items;
    WellFormedThrowsNothing(k, k, RecordsOf(bundle));
    if attestations.Raised? {
      return None;
    }
    if attestations.Refused? {
      return Some(BareResult(bundle, Malformed, true, true, notes + [Rejected]));
    }
    var atts := attestations.value;
    var verdict := BuildVerdictObject(source, atts);
    assert verdict.asOf == None by {
      VerdictHasNoDate(source, atts);
    }
    if Get(bundle, GeneratedAt).JStr? {
      verdict := verdict.(asOf := Some(Get(bundle, GeneratedAt).s));
    }
    var agrees := CompareVerdicts(k, Get(body, KernelVerdict), verdict);
    if !agrees {
      notes := notes + [VerdictDisagrees];
    }
    notes := notes + FromSourceNotes(source.notes);
    var status := ExportStatus(linked, agrees, source.status, atts);
    verdict := verdict.(status := status, summary := Some(Summarize(k, status, source, atts)));
    r := Some(BundleResult(status, true, true, true, StrOption(Get(bundle, BodyType)), source.onChainChecked,
                           source.checkpoints,
                           source.events, AssertedStatus(bundle),
                           Some(ExportResult(linked, source.status, agrees, atts, verdict, status)), notes));
    assert r.value == ExportVerdict(k, bundle, source);
  }

  lemma VerdictHasNoDate(source: BundleResult, atts: seq<AttestationResult>)
    ensures VerdictOf(source, atts).asOf == None
  {
  }

  /** `None` when verifying the source raises, or a record does. */
  method VerifyExportBody(k: Kernel, bundle: Json, env: Environment) returns (r: Option<BundleResult>)
    requires WrapperVerified(k, bundle) && Get(bundle, BodyType) == JStr(EXPORT_BODY_TYPE)
    ensures r == if Raises(k, bundle) then None else Some(BundleVerdict(k, bundle, env))
    decreases bundle, 0
  {
    hide WrapperVerified, ExportVerdict, TraceVerdict, BareResult, TraceRaises, RecordsThrow;
    assert WrapperComplete(bundle) by {
      WrapperParts(k, bundle);
    }
    var body := Get(bundle, Body);
    if !body.JObj? || !Get(body, SourceBundleHash).JStr? || !Get(body, Attestations).JArr?
        || !Get(body, KernelVerdict).JObj? {
      return Some(BareResult(bundle, Malformed, true, true, [Rejected]));
    }
    var inline := Get(body, SourceBundle);
    if inline == JNull {
      return Some(BareResult(bundle, Partial, true, true, [SourceUnavailableOffline]));
    }
    SourceIsSmaller(bundle);
    var source := VerifyEvidenceBundle(k, inline, env);
    if source.None? {
      return None;
    }
    r := JudgeExport(k, bundle, source.value);
  }

  lemma WrapperParts(k: Kernel, bundle: Json)
    ensures WrapperVerified(k, bundle) <==> WrapperComplete(bundle) && BodyHashed(k, bundle) && WrapperSigned(k, bundle)
  {
  }

  /** `None` when the code raises; for every other JSON value, the verdict. */
  method VerifyEvidenceBundle(k: Kernel, bundle: Json, env: Environment) returns (r: Option<BundleResult>)
    ensures r == if Raises(k, bundle) then None else Some(BundleVerdict(k, bundle, env))
    decreases bundle, 1
  {
    hide WrapperVerified, ExportVerdict, TraceVerdict, MatchesMajor, Canonical, CanonicalShaHex, Nests, StrOption,
         TraceRaises, RecordsThrow;
    WrapperParts(k, bundle);
    if !bundle.JObj? {
      return Some(MalformedResult(false));
    }
    NestsIsDepth(bundle, MAX_CANONICAL_DEPTH);
    var deep := ExceedsDepth(bundle, MAX_CANONICAL_DEPTH);
    var version := Get(bundle, SpecVersion);
    if deep || !version.JStr? || !MatchesMajor(version.s, EVIDENCE_MAJOR) {
      return Some(MalformedResult(false));
    }
    var alg, pub, sig := Get(bundle, SignatureAlg), Get(bundle, PublicKey), Get(bundle, Signature);
    if (alg.JStr? && alg.s != "ed25519") || !pub.JStr? || !sig.JStr? || !Get(bundle, BodyHash).JStr?
        || Get(bundle, Body) == JNull {
      return Some(MalformedResult(true));
    }
    var notes: seq<Note> := [];
    var bodyBytes := CanonicalJson(k, Get(bundle, Body));
    var bodyHashOk := bodyBytes.Some? && k.ShaHex(bodyBytes.value) == Get(bundle, BodyHash).s;
    assert bodyHashOk == BodyHashed(k, bundle) by {
      ShaHexOfCanonical(k, Get(bundle, Body));
    }
    if !bodyHashOk {
      notes := notes + [BodyHashWrong];
    }
    var message := CanonicalJson(k, WrapperScope(bundle));
    var signatureOk := message.Some? && k.ed25519(message.value, sig.s, pub.s);
    if !signatureOk {
      notes := notes + [WrapperSignatureWrong];
    }
    if !signatureOk || !bodyHashOk {
      assert !WrapperVerified(k, bundle) && !Raises(k, bundle);
      r := Some(BareResult(bundle, Status.Failed, bodyHashOk, signatureOk, notes));
      assert r.value == BundleVerdict(k, bundle, env);
      return;
    }
    var bodyType := Get(bundle, BodyType);
    if bodyType == JStr(EXPORT_BODY_TYPE) {
      r := VerifyExportBody(k, bundle, env);
    } else if bodyType != JStr(ANCHOR_TRACE_BODY_TYPE) {
      return Some(BareResult(bundle, Partial, true, true, [UnknownBodyType(StrOption(bodyType))]));
    } else {
      var results;
      r, results := VerifyAnchorTrace(k, bundle, env);
    }
  }

  lemma ShaHexOfCanonical(k: Kernel, j: Json)
    ensures CanonicalShaHex(k, j)
            == if Canonical(k, j).None? then None else Some(k.ShaHex(Canonical(k, j).value))
  {
  }
}
