/** How gateways may and may not influence a result. */
module EnvironmentProperties {
  import opened Octets
  import opened JsonValues
  import opened KernelPrimitives
  import opened Traces
  import opened Evidence

  /** Equal but for the on-chain fields, `ok` and the notes. */
  ghost predicate SameCheckpoint(a: CheckpointView, b: CheckpointView) {
    a.txId == b.txId && a.envelopeOk == b.envelopeOk && a.merkleRootOk == b.merkleRootOk
  }

  ghost predicate SameCheckpoints(a: seq<CheckpointView>, b: seq<CheckpointView>) {
    |a| == |b| && forall i :: 0 <= i < |a| ==> SameCheckpoint(a[i], b[i])
  }

  /** Equal in everything an offline verifier recomputes. */
  ghost predicate SameExport(a: ExportResult, b: ExportResult) {
    a.sourceLinkageOk == b.sourceLinkageOk && a.verdictAgreementOk == b.verdictAgreementOk
    && a.attestations == b.attestations
    && Project(VerdictJson(a.verdict)) == Project(VerdictJson(b.verdict))
  }

  ghost predicate SameOffline(a: BundleResult, b: BundleResult) {
    (a.status == Malformed <==> b.status == Malformed)
    && a.specVersionOk == b.specVersionOk && a.bodyHashOk == b.bodyHashOk && a.signatureOk == b.signatureOk
    && a.bodyType == b.bodyType && a.assertedStatus == b.assertedStatus
    && a.events == b.events && SameCheckpoints(a.checkpoints, b.checkpoints)
    && (a.exported.Some? <==> b.exported.Some?)
    && (a.exported.Some? ==> SameExport(a.exported.value, b.exported.value))
  }

  // ----- the projection forgets what gateways write -----

  lemma ProjectEventJson(e: VerdictEvent)
    ensures ProjectEvent(EventJson(e))
            == JObj(map[EventId := JStr(e.eventId), SignatureOk := JBool(e.signatureOk),
                        PayloadBound := TriJson(e.payloadBound),
                        InclusionOk := JBool(e.inclusionOk), ContentOk := TriJson(e.contentOk)])
  {
  }

  lemma ProjectCheckpointJson(a: VerdictCheckpoint, b: VerdictCheckpoint)
    requires a.(onChain := None) == b.(onChain := None)
    ensures ProjectCheckpoint(CheckpointJson(a)) == ProjectCheckpoint(CheckpointJson(b))
  {
    var x, y := CheckpointJson(a), CheckpointJson(b);
    assert Get(x, CheckpointTxId) == Get(y, CheckpointTxId);
    assert Get(x, MerkleRootOk) == Get(y, MerkleRootOk);
    assert Get(x, Attestations) == Get(y, Attestations);
  }

  lemma VerdictJsonParts(v: VerdictObject)
    ensures Get(VerdictJson(v), SchemaVersion) == JStr(VERDICT_SCHEMA_VERSION)
    ensures Get(VerdictJson(v), Events) == JArr(EventsJson(v.events))
    ensures Get(VerdictJson(v), Checkpoints) == JArr(CheckpointsJson(v.checkpoints))
  {
    hide StatusName, CountsJson, EventsJson, CheckpointsJson, TriJson, EventJson, CheckpointJson;
  }

  /** Verdicts with equal events and with checkpoints equal but for on-chain blocks project to the same value,
      whatever their status, counts, date and summary. */
  lemma ProjectionIgnores(a: VerdictObject, b: VerdictObject)
    requires a.events == b.events && |a.checkpoints| == |b.checkpoints|
    requires forall i :: 0 <= i < |a.checkpoints| ==>
               a.checkpoints[i].(onChain := None) == b.checkpoints[i].(onChain := None)
    ensures Project(VerdictJson(a)) == Project(VerdictJson(b))
  {
    hide VerdictJson, CheckpointJson, ProjectCheckpoint;
    VerdictJsonParts(a);
    VerdictJsonParts(b);
    var x := ProjectAll(Items(Get(VerdictJson(a), Checkpoints)), ProjectCheckpoint);
    var y := ProjectAll(Items(Get(VerdictJson(b), Checkpoints)), ProjectCheckpoint);
    forall i | 0 <= i < |x|
      ensures x[i] == y[i]
    {
      ProjectCheckpointJson(a.checkpoints[i], b.checkpoints[i]);
    }
    assert x == y;
  }

  // ----- the projection keeps everything else -----

  ghost predicate SameEvent(a: VerdictEvent, b: VerdictEvent) {
    a.(status := b.status) == b
  }

  ghost predicate SameAttestation(a: VerdictAttestation, b: VerdictAttestation) {
    a.(gateway := b.gateway, level := b.level) == b
  }

  ghost predicate SameFinding(a: VerdictCheckpoint, b: VerdictCheckpoint) {
    a.checkpointTxId == b.checkpointTxId && a.merkleRootOk == b.merkleRootOk && |a.attestations| == |b.attestations|
    && forall i :: 0 <= i < |a.attestations| ==> SameAttestation(a.attestations[i], b.attestations[i])
  }

  /** Equal in every dimension an offline verifier recomputes: events but for their derived status, checkpoints but for
      what gateways answered, attestations but for gateway and level. */
  ghost predicate SameFindings(a: VerdictObject, b: VerdictObject) {
    |a.events| == |b.events| && |a.checkpoints| == |b.checkpoints|
    && (forall i :: 0 <= i < |a.events| ==> SameEvent(a.events[i], b.events[i]))
    && forall i :: 0 <= i < |a.checkpoints| ==> SameFinding(a.checkpoints[i], b.checkpoints[i])
  }

  lemma ProjectEventExact(a: VerdictEvent, b: VerdictEvent)
    ensures ProjectEvent(EventJson(a)) == ProjectEvent(EventJson(b)) <==> SameEvent(a, b)
  {
    hide TriJson;
    ProjectEventJson(a);
    ProjectEventJson(b);
    TriJsonInjective(a.payloadBound, b.payloadBound);
    TriJsonInjective(a.contentOk, b.contentOk);
    var x, y := ProjectEvent(EventJson(a)), ProjectEvent(EventJson(b));
    if x == y {
      assert x.fields[EventId] == y.fields[EventId] && x.fields[SignatureOk] == y.fields[SignatureOk]
             && x.fields[PayloadBound] == y.fields[PayloadBound] && x.fields[InclusionOk] == y.fields[InclusionOk]
             && x.fields[ContentOk] == y.fields[ContentOk];
    }
  }

  lemma TriJsonInjective(a: Tri, b: Tri)
    ensures TriJson(a) == TriJson(b) <==> a == b
  {
  }

  lemma ProjectAttestationJson(a: VerdictAttestation)
    ensures ProjectAttestation(AttestationJson(a))
            == JObj(map[Operator := JStr(a.operator), SignatureOk := JBool(a.signatureOk),
                        OperatorAddressBound := JBool(a.operatorAddressBound),
                        DataHashBound := JBool(a.dataHashBound), SubjectRefOk := TriJson(a.subjectRefOk)])
  {
    hide TriJson;
  }

  lemma ProjectAttestationExact(a: VerdictAttestation, b: VerdictAttestation)
    ensures ProjectAttestation(AttestationJson(a)) == ProjectAttestation(AttestationJson(b)) <==> SameAttestation(a, b)
  {
    hide TriJson, AttestationJson, ProjectAttestation;
    ProjectAttestationJson(a);
    ProjectAttestationJson(b);
    TriJsonInjective(a.subjectRefOk, b.subjectRefOk);
    var x, y := ProjectAttestation(AttestationJson(a)), ProjectAttestation(AttestationJson(b));
    if x == y {
      assert x.fields[Operator] == y.fields[Operator] && x.fields[SignatureOk] == y.fields[SignatureOk]
             && x.fields[OperatorAddressBound] == y.fields[OperatorAddressBound]
             && x.fields[DataHashBound] == y.fields[DataHashBound] && x.fields[SubjectRefOk] == y.fields[SubjectRefOk];
    }
  }

  lemma ProjectCheckpointMembers(c: VerdictCheckpoint)
    ensures ProjectCheckpoint(CheckpointJson(c))
            == JObj(map[CheckpointTxId := JStr(c.checkpointTxId), MerkleRootOk := JBool(c.merkleRootOk),
                        Attestations := JArr(ProjectAll(AttestationsJson(c.attestations), ProjectAttestation))])
  {
    hide OnChainJson, ProjectAttestation, AttestationJson;
    var j := CheckpointJson(c);
    assert Get(j, CheckpointTxId) == JStr(c.checkpointTxId) && Get(j, MerkleRootOk) == JBool(c.merkleRootOk);
    assert Get(j, Attestations) == JArr(AttestationsJson(c.attestations));
  }

  lemma ProjectCheckpointExact(a: VerdictCheckpoint, b: VerdictCheckpoint)
    ensures ProjectCheckpoint(CheckpointJson(a)) == ProjectCheckpoint(CheckpointJson(b)) <==> SameFinding(a, b)
  {
    hide CheckpointJson, ProjectCheckpoint, ProjectAttestation, AttestationJson, SameAttestation;
    ProjectCheckpointMembers(a);
    ProjectCheckpointMembers(b);
    var xs, ys := ProjectAll(AttestationsJson(a.attestations), ProjectAttestation),
                  ProjectAll(AttestationsJson(b.attestations), ProjectAttestation);
    if |xs| == |ys| {
      forall i | 0 <= i < |xs| ensures xs[i] == ys[i] <==> SameAttestation(a.attestations[i], b.attestations[i]) {
        ProjectAttestationExact(a.attestations[i], b.attestations[i]);
      }
    }
    var x, y := ProjectCheckpoint(CheckpointJson(a)), ProjectCheckpoint(CheckpointJson(b));
    if x == y {
      assert x.fields[CheckpointTxId] == y.fields[CheckpointTxId] && x.fields[MerkleRootOk] == y.fields[MerkleRootOk]
             && x.fields[Attestations] == y.fields[Attestations];
    }
    if SameFinding(a, b) {
      assert xs == ys;
    }
  }

  lemma ProjectMembers(v: VerdictObject)
    ensures Project(VerdictJson(v))
            == JObj(map[SchemaVersion := JStr(VERDICT_SCHEMA_VERSION),
                        Events := JArr(ProjectAll(EventsJson(v.events), ProjectEvent)),
                        Checkpoints := JArr(ProjectAll(CheckpointsJson(v.checkpoints), ProjectCheckpoint))])
  {
    hide VerdictJson, ProjectEvent, ProjectCheckpoint, EventJson, CheckpointJson;
    VerdictJsonParts(v);
  }

  /** The projection keeps exactly the findings: two verdicts project alike if and only if they agree in every one. */
  lemma ProjectionIsExact(a: VerdictObject, b: VerdictObject)
    ensures Project(VerdictJson(a)) == Project(VerdictJson(b)) <==> SameFindings(a, b)
  {
    hide Project, VerdictJson, ProjectEvent, ProjectCheckpoint, EventJson, CheckpointJson, SameEvent, SameFinding;
    ProjectMembers(a);
    ProjectMembers(b);
    var es, fs := ProjectAll(EventsJson(a.events), ProjectEvent), ProjectAll(EventsJson(b.events), ProjectEvent);
    var cs, ds := ProjectAll(CheckpointsJson(a.checkpoints), ProjectCheckpoint),
                  ProjectAll(CheckpointsJson(b.checkpoints), ProjectCheckpoint);
    if |es| == |fs| {
      forall i | 0 <= i < |es| ensures es[i] == fs[i] <==> SameEvent(a.events[i], b.events[i]) {
        ProjectEventExact(a.events[i], b.events[i]);
      }
    }
    if |cs| == |ds| {
      forall i | 0 <= i < |cs| ensures cs[i] == ds[i] <==> SameFinding(a.checkpoints[i], b.checkpoints[i]) {
        ProjectCheckpointExact(a.checkpoints[i], b.checkpoints[i]);
      }
    }
    var x, y := Project(VerdictJson(a)), Project(VerdictJson(b));
    if x == y {
      assert x.fields[Events] == y.fields[Events] && x.fields[Checkpoints] == y.fields[Checkpoints];
    }
    if SameFindings(a, b) {
      assert es == fs && cs == ds;
    }
  }

  // ----- independence -----

  lemma ViewsAreSame(k: Kernel, cps: seq<Json>, a: Environment, b: Environment)
    ensures SameCheckpoints(Views(k, cps, a), Views(k, cps, b))
  {
    hide OfflineView, Refetch, FirstWins;
    OnlyOnChain(k, cps, a);
    OnlyOnChain(k, cps, b);
  }

  /** The on-chain pass rewrites the on-chain fields, `ok` and notes; `ok` can only go from true to false. */
  lemma OnlyOnChain(k: Kernel, cps: seq<Json>, env: Environment)
    ensures SameCheckpoints(OfflineViews(k, cps), Views(k, cps, env))
    ensures forall i :: 0 <= i < |cps| && Views(k, cps, env)[i].ok ==> OfflineViews(k, cps)[i].ok
  {
    hide CheckpointSigned, RootCommitted, CheckpointNotes, Refetch, FirstWins;
  }

  /** The verdict of some source, up to status, counts, date and summary. */
  ghost predicate VerdictFrom(v: VerdictObject, source: BundleResult, atts: seq<AttestationResult>) {
    v.events == VerdictOf(source, atts).events && v.checkpoints == VerdictOf(source, atts).checkpoints
  }

  lemma VerdictsProjectAlike(a: BundleResult, b: BundleResult, atts: seq<AttestationResult>, x: VerdictObject,
                             y: VerdictObject)
    requires a.events == b.events && SameCheckpoints(a.checkpoints, b.checkpoints)
    requires VerdictFrom(x, a, atts) && VerdictFrom(y, b, atts)
    ensures Project(VerdictJson(x)) == Project(VerdictJson(y))
  {
    hide Project, VerdictJson, EntriesFor, CountEvents, CountAttestations, VerdictEventOf;
    ProjectionIgnores(x, y);
  }

  lemma NothingIsSame()
    ensures SameCheckpoints([], [])
  {
  }

  lemma AmendedIsFrom(source: BundleResult, atts: seq<AttestationResult>, v: VerdictObject)
    requires v == VerdictOf(source, atts).(asOf := v.asOf, status := v.status, summary := v.summary)
    ensures VerdictFrom(v, source, atts)
  {
    hide VerdictOf;
  }

  lemma ExportsAlike(k: Kernel, bundle: Json, a: BundleResult, b: BundleResult)
    requires SameOffline(a, b)
    ensures SameOffline(ExportVerdict(k, bundle, a), ExportVerdict(k, bundle, b))
  {
    hide Project, VerdictJson, AllWellFormed, AttestationVerdict, SourceLinked, Summarize, SourceCheckpoints, Canonical,
         VerdictOf, VerdictFrom, StrOption, SameCheckpoints, AssertedStatus;
    var recs := Items(Get(Get(bundle, Body), Attestations));
    if AllWellFormed(k, recs) {
      var atts := AttestationVerdicts(k, recs, SourceCheckpoints(SourceOf(bundle)));
      var date := StrOption(Get(bundle, GeneratedAt));
      AmendedIsFrom(a, atts, VerdictOf(a, atts).(asOf := date));
      AmendedIsFrom(b, atts, VerdictOf(b, atts).(asOf := date));
      VerdictsProjectAlike(a, b, atts, VerdictOf(a, atts).(asOf := date), VerdictOf(b, atts).(asOf := date));
      var x, y := ExportVerdict(k, bundle, a).exported.value, ExportVerdict(k, bundle, b).exported.value;
      AmendedIsFrom(a, atts, x.verdict);
      AmendedIsFrom(b, atts, y.verdict);
      VerdictsProjectAlike(a, b, atts, x.verdict, y.verdict);
    } else {
      NothingIsSame();
    }
  }

  lemma TracesAlike(k: Kernel, bundle: Json, a: Environment, b: Environment)
    requires a.content == b.content
    ensures SameOffline(TraceVerdict(k, bundle, a), TraceVerdict(k, bundle, b))
  {
    hide OfflineView, EventVerdict, FirstWins, OnlineView, GatewayUnavailable, Views, SameCheckpoint;
    if TraceShaped(Get(bundle, Body)) {
      ViewsAreSame(k, Items(Get(Get(bundle, Body), Checkpoints)), a, b);
    }
  }

  /** What gateways answer, how many there are and whether there is a fetch at all leave events, attestations, the
      verdict's projection and its agreement as they are, at any nesting. */
  lemma {:induction false} EnvironmentIndependence(k: Kernel, bundle: Json, a: Environment, b: Environment)
    requires a.content == b.content
    ensures SameOffline(BundleVerdict(k, bundle, a), BundleVerdict(k, bundle, b))
    decreases bundle
  {
    hide ExportVerdict, TraceVerdict, WrapperVerified, WrapperComplete, ExportShaped, SameExport;
    if IsTrace(k, bundle) {
      TracesAlike(k, bundle, a, b);
      TraceBranch(k, bundle, a);
      TraceBranch(k, bundle, b);
    } else if Descends(k, bundle) {
      SourceIsSmaller(bundle);
      EnvironmentIndependence(k, SourceOf(bundle), a, b);
      ExportsAlike(k, bundle, BundleVerdict(k, SourceOf(bundle), a), BundleVerdict(k, SourceOf(bundle), b));
      ExportBranch(k, bundle, a);
      ExportBranch(k, bundle, b);
    } else {
      OtherBranch(k, bundle, a);
      OtherBranch(k, bundle, b);
    }
  }

  lemma TraceBranch(k: Kernel, bundle: Json, env: Environment)
    requires IsTrace(k, bundle)
    ensures BundleVerdict(k, bundle, env) == TraceVerdict(k, bundle, env)
  {
    hide TraceVerdict, BodyHashed, WrapperSigned, VersionOk;
  }

  lemma ExportBranch(k: Kernel, bundle: Json, env: Environment)
    requires Descends(k, bundle)
    ensures BundleVerdict(k, bundle, env) == ExportVerdict(k, bundle, BundleVerdict(k, SourceOf(bundle), env))
  {
    hide TraceVerdict, ExportVerdict, BodyHashed, WrapperSigned, VersionOk;
  }

  /** Any other bundle gets a result without checkpoints, events or export, and without looking at the environment. */
  lemma OtherBranch(k: Kernel, bundle: Json, env: Environment)
    requires !IsTrace(k, bundle) && !Descends(k, bundle)
    ensures var r := BundleVerdict(k, bundle, env);
            r.checkpoints == [] && r.events == [] && r.exported == None && r.status != Status.Verified
            && r == BundleVerdict(k, bundle, Environment([], None, map[]))
            && |r.notes| <= 2 && CouldNotRefetch !in r.notes
  {
    hide TraceVerdict, ExportVerdict, BodyHashed, WrapperSigned, VersionOk, WrapperComplete, ExportShaped;
  }

  // ----- monotonicity -----

  function Rank(s: Status): nat {
    match s
    case Verified => 0
    case Partial => 1
    case Failed => 2
    case Malformed => 3
  }

  function Offline(env: Environment): Environment {
    env.(gateways := [])
  }

  lemma TraceNeverImproves(k: Kernel, bundle: Json, env: Environment)
    ensures Rank(TraceVerdict(k, bundle, env).status) >= Rank(TraceVerdict(k, bundle, Offline(env)).status)
  {
    hide OfflineView, EventVerdict, FirstWins, OnlineView;
    if TraceShaped(Get(bundle, Body)) {
      var cps, evs := Items(Get(Get(bundle, Body), Checkpoints)), Items(Get(Get(bundle, Body), Events));
      OnlyOnChain(k, cps, env);
      StatusIsMonotone(OfflineViews(k, cps), Views(k, cps, env), EventVerdicts(k, evs, FirstWins(cps), env.content),
                       GatewayUnavailable(Views(k, cps, env), env));
    }
  }

  lemma StatusIsMonotone(before: seq<CheckpointView>, after: seq<CheckpointView>, events: seq<EventResult>,
                         unavailable: bool)
    requires |before| == |after| && forall i :: 0 <= i < |after| && after[i].ok ==> before[i].ok
    ensures Rank(TraceStatus(after, events, unavailable)) >= Rank(TraceStatus(before, events, false))
  {
    if v :| v in before && !v.ok {
      var i :| 0 <= i < |before| && before[i] == v;
      assert after[i] in after && !after[i].ok;
    }
  }

  lemma ExportNeverImproves(k: Kernel, bundle: Json, online: BundleResult, offline: BundleResult)
    requires SameOffline(online, offline) && Rank(online.status) >= Rank(offline.status)
    ensures Rank(ExportVerdict(k, bundle, online).status) >= Rank(ExportVerdict(k, bundle, offline).status)
  {
    hide Project, VerdictJson, WellFormedAttestation, AttestationVerdict, SourceLinked, Summarize, CountEvents,
         CountAttestations,
         EntriesFor, LastWins, Canonical;
    ExportsAlike(k, bundle, online, offline);
  }

  /** In the order verified, partial, failed, asking gateways never improves a status, at any nesting. */
  lemma {:induction false} GatewaysNeverImprove(k: Kernel, bundle: Json, env: Environment)
    ensures Rank(BundleVerdict(k, bundle, env).status) >= Rank(BundleVerdict(k, bundle, Offline(env)).status)
    decreases bundle
  {
    hide *;
    if IsTrace(k, bundle) {
      TraceNeverImproves(k, bundle, env);
      TraceBranch(k, bundle, env);
      TraceBranch(k, bundle, Offline(env));
    } else if Descends(k, bundle) {
      DescendsHasSource(k, bundle);
      SourceIsSmaller(bundle);
      GatewaysNeverImprove(k, SourceOf(bundle), env);
      OfflineKeepsContent(env);
      EnvironmentIndependence(k, SourceOf(bundle), env, Offline(env));
      ExportNeverImproves(k, bundle, BundleVerdict(k, SourceOf(bundle), env),
                          BundleVerdict(k, SourceOf(bundle), Offline(env)));
      ExportBranch(k, bundle, env);
      ExportBranch(k, bundle, Offline(env));
    } else {
      OtherBranch(k, bundle, env);
      OtherBranch(k, bundle, Offline(env));
    }
  }

  lemma DescendsHasSource(k: Kernel, bundle: Json)
    requires Descends(k, bundle)
    ensures SourceOf(bundle) != JNull
  {
  }

  lemma OfflineKeepsContent(env: Environment)
    ensures Offline(env).content == env.content
  {
  }
}
