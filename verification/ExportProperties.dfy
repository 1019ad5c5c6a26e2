/** What a verified export holds at every nesting, what its counts add up to, and where its attestations go. */
module ExportProperties {
  import opened Octets
  import opened JsonValues
  import opened KernelPrimitives
  import opened Envelopes
  import opened Traces
  import opened Evidence
  import opened EnvironmentProperties
  import opened TraceSoundness

  // ----- counts -----

  lemma {:induction false} EventCountsSum(events: seq<EventResult>)
    ensures CountEvents(events, Status.Verified) + CountEvents(events, Status.Failed)
            + CountEvents(events, Partial) == |events|
  {
    if events != [] {
      EventCountsSum(events[..|events| - 1]);
    }
  }

  lemma {:induction false} AttestationCountsSum(atts: seq<AttestationResult>)
    ensures CountAttestations(atts, true) + CountAttestations(atts, false) == |atts|
    ensures CountAttestations(atts, false) == 0 <==> forall a :: a in atts ==> a.ok
  {
    if atts != [] {
      var last, rest := atts[|atts| - 1], atts[..|atts| - 1];
      AttestationCountsSum(rest);
      assert atts == rest + [last];
    }
  }

  lemma {:induction false} CountIsZero(events: seq<EventResult>, status: Status)
    ensures CountEvents(events, status) == 0 <==> forall e :: e in events ==> EventStatus(e) != status
  {
    if events != [] {
      var last, rest := events[|events| - 1], events[..|events| - 1];
      CountIsZero(rest, status);
      assert events == rest + [last];
    }
  }

  /** The three counts of any export result add up to its events and attestations. */
  lemma CountsConserve(k: Kernel, bundle: Json, env: Environment)
    ensures var r := BundleVerdict(k, bundle, env);
            r.exported.Some? ==>
              var x := r.exported.value;
              x.verdict.verified + x.verdict.failed + x.verdict.undetermined == |r.events| + |x.attestations|
              && |x.verdict.events| == |r.events| && |x.verdict.checkpoints| == |r.checkpoints|
  {
    hide TraceVerdict, Agrees, SourceLinked, AllWellFormed, Summarize;
    if Descends(k, bundle) {
      ExportBranch(k, bundle, env);
      var source := BundleVerdict(k, SourceOf(bundle), env);
      var recs := Items(Get(Get(bundle, Body), Attestations));
      if AllWellFormed(k, recs) {
        EventCountsSum(source.events);
        AttestationCountsSum(AttestationVerdicts(k, recs, SourceCheckpoints(SourceOf(bundle))));
      }
    } else if IsTrace(k, bundle) {
      TraceBranch(k, bundle, env);
      TraceExportsNothing(k, bundle, env);
    } else {
      OtherBranch(k, bundle, env);
    }
  }

  lemma TraceExportsNothing(k: Kernel, bundle: Json, env: Environment)
    ensures TraceVerdict(k, bundle, env).exported == None
  {
  }

  // ----- verified at every nesting -----

  /** Nothing failed and nothing was left undetermined. */
  ghost predicate Flawless(r: BundleResult) {
    r.checkpoints != [] && (forall c :: c in r.checkpoints ==> c.ok)
    && (forall e :: e in r.events ==> e.ok && e.payloadBindingOk == Yes)
  }

  ghost predicate FullyBound(a: AttestationResult) {
    a.ok && a.signatureOk && a.operatorAddressBound && a.dataHashBound && a.checkpointResolved
  }

  /** A flawless trace at the bottom with no gateway question left open, and above it exports that link, agree, and
      carry only fully bound attestations. */
  ghost predicate ProvedAllTheWay(k: Kernel, bundle: Json, env: Environment)
    decreases bundle
  {
    var r := BundleVerdict(k, bundle, env);
    Flawless(r)
    && if !Descends(k, bundle) then IsTrace(k, bundle) && !GatewayUnavailable(r.checkpoints, env)
       else
         SourceIsSmaller(bundle);
         ProvedAllTheWay(k, SourceOf(bundle), env) && r.exported.Some? && ProvedExport(k, bundle, r.exported.value)
  }

  ghost predicate ProvedExport(k: Kernel, bundle: Json, x: ExportResult) {
    SourceLinked(k, Get(bundle, Body)) && x.sourceLinkageOk && x.verdictAgreementOk
    && Agrees(k, Get(Get(bundle, Body), KernelVerdict), x.verdict)
    && (forall a :: a in x.attestations ==> FullyBound(a))
    && x.verdict.failed == 0 && x.verdict.undetermined == 0
  }

  lemma VerifiedTraceIsFlawless(k: Kernel, bundle: Json, env: Environment)
    requires IsTrace(k, bundle) && BundleVerdict(k, bundle, env).status == Status.Verified
    ensures Flawless(BundleVerdict(k, bundle, env))
  {
    hide CheckpointSigned, RootCommitted, EventVerdict, OfflineView, OnlineView, FirstWins, BodyHashed, WrapperSigned;
    TraceBranch(k, bundle, env);
    var evs, cps := Items(Get(Get(bundle, Body), Events)), Items(Get(Get(bundle, Body), Checkpoints));
    forall e | e in EventVerdicts(k, evs, FirstWins(cps), env.content) && e.ok
      ensures e.payloadBindingOk != No
    {
      var i :| 0 <= i < |evs| && e == EventVerdict(k, evs[i], FirstWins(cps), env.content);
      OkEventIsNotMisbound(k, evs[i], FirstWins(cps), env.content);
    }
  }

  lemma OkEventIsNotMisbound(k: Kernel, ev: Json, byTxId: map<string, Json>, content: map<string, Disclosed>)
    ensures var e := EventVerdict(k, ev, byTxId, content); e.ok ==> e.payloadBindingOk != No
  {
    hide Included, ContentVerdict, CheckpointFor, PayloadBinding, SignatureValid, VersionAccepted;
  }

  lemma OkIsFullyBound(k: Kernel, recs: seq<Json>, cps: map<string, Json>)
    requires AllWellFormed(k, recs)
    ensures forall a :: a in AttestationVerdicts(k, recs, cps) ==> (a.ok <==> FullyBound(a))
  {
    hide WellFormedAttestation, DataHashBinds, Canonical;
  }

  lemma ExportStep(k: Kernel, bundle: Json, source: BundleResult)
    requires Flawless(source) && source.status == Status.Verified
    ensures var r := ExportVerdict(k, bundle, source);
            r.status == Status.Verified
            <==> Flawless(r) && r.exported.Some? && ProvedExport(k, bundle, r.exported.value)
  {
    hide SourceLinked, WellFormedAttestation, AttestationVerdict, Project, VerdictJson, Summarize, EntriesFor,
         LastWins, CountEvents,
         CountAttestations, VerdictEventOf, AssertedStatus, StrOption;
    var recs := Items(Get(Get(bundle, Body), Attestations));
    if AllWellFormed(k, recs) {
      var atts := AttestationVerdicts(k, recs, SourceCheckpoints(SourceOf(bundle)));
      OkIsFullyBound(k, recs, SourceCheckpoints(SourceOf(bundle)));
      AttestationCountsSum(atts);
      CountIsZero(source.events, Status.Failed);
      CountIsZero(source.events, Partial);
      var r := ExportVerdict(k, bundle, source);
      VerdictsProjectAlike(source, source, atts, r.exported.value.verdict,
                           VerdictOf(source, atts).(asOf := StrOption(Get(bundle, GeneratedAt))));
    }
  }

  /** A status of verified means the same at the top of any nesting of exports: exactly that everything below was
      proved. */
  lemma {:induction false} VerifiedMeansAllTheWay(k: Kernel, bundle: Json, env: Environment)
    ensures BundleVerdict(k, bundle, env).status == Status.Verified <==> ProvedAllTheWay(k, bundle, env)
    decreases bundle
  {
    hide BundleVerdict, ExportVerdict, TraceVerdict, Flawless, ProvedExport, IsTrace, WrapperVerified, ExportShaped,
         GatewayUnavailable;
    if Descends(k, bundle) {
      SourceIsSmaller(bundle);
      ExportBranch(k, bundle, env);
      VerifiedMeansAllTheWay(k, SourceOf(bundle), env);
      var source := BundleVerdict(k, SourceOf(bundle), env);
      if source.status == Status.Verified {
        ExportStep(k, bundle, source);
      } else {
        VerifiedNeedsVerifiedSource(k, bundle, source);
      }
    } else if IsTrace(k, bundle) {
      TraceIsVerified(k, bundle, env);
    } else {
      OtherBranch(k, bundle, env);
    }
  }

  lemma TraceIsVerified(k: Kernel, bundle: Json, env: Environment)
    requires IsTrace(k, bundle)
    ensures var r := BundleVerdict(k, bundle, env);
            r.status == Status.Verified <==> Flawless(r) && !GatewayUnavailable(r.checkpoints, env)
  {
    hide EventVerdict, OfflineView, OnlineView, FirstWins, BodyHashed, WrapperSigned, BundleVerdict, UnreachableView;
    TraceBranch(k, bundle, env);
    if BundleVerdict(k, bundle, env).status == Status.Verified {
      VerifiedTraceIsFlawless(k, bundle, env);
    }
  }

  lemma VerifiedNeedsVerifiedSource(k: Kernel, bundle: Json, source: BundleResult)
    ensures ExportVerdict(k, bundle, source).status == Status.Verified ==> source.status == Status.Verified
  {
    hide SourceLinked, WellFormedAttestation, AttestationVerdict, Project, VerdictJson, Summarize, EntriesFor,
         LastWins, VerdictOf;
  }

  /** The bundle at the bottom of a nesting of exports. */
  ghost function Innermost(k: Kernel, bundle: Json): Json
    decreases bundle
  {
    if Descends(k, bundle) then
      SourceIsSmaller(bundle);
      Innermost(k, SourceOf(bundle))
    else bundle
  }

  /** The bundles verification goes through, the outermost first. */
  ghost function Visited(k: Kernel, bundle: Json): seq<Json>
    decreases bundle
  {
    [bundle] + if Descends(k, bundle) then
                 SourceIsSmaller(bundle);
                 Visited(k, SourceOf(bundle))
               else []
  }

  /** An export with such a newline in a record, behind well-formed records only. */
  ghost predicate NewlineExport(k: Kernel, bundle: Json) {
    var recs := RecordsOf(bundle);
    Descends(k, bundle) && exists i :: 0 <= i < |recs| && NewlineRecord(k, recs[i]) && AllWellFormed(k, recs[..i])
  }

  lemma ThrowingIsNewline(k: Kernel, bundle: Json)
    requires Descends(k, bundle)
    ensures RecordsThrow(k, RecordsOf(bundle)) <==> NewlineExport(k, bundle)
  {
    hide Descends, NewlineRecord, AllWellFormed, RecordThrows, RecordsOf;
    var recs := RecordsOf(bundle);
    forall i | 0 <= i < |recs|
      ensures RecordThrows(k, recs[i]) <==> NewlineRecord(k, recs[i])
    {
      ThrowsIsNewline(k, recs[i]);
    }
  }

  /** Verification raises exactly when the bundle at the bottom is a trace that cannot be read through, or, in Python,
      some export on the way down has such a record. */
  lemma {:induction false} RaisesIsExact(k: Kernel, bundle: Json)
    ensures Raises(k, bundle)
            <==> (IsTrace(k, Innermost(k, bundle)) && TraceRaises(k.lang, Get(Innermost(k, bundle), Body)))
                 || exists b :: b in Visited(k, bundle) && NewlineExport(k, b)
    decreases bundle
  {
    hide IsTrace, Descends, TraceRaises, RecordsThrow, NewlineExport;
    if Descends(k, bundle) {
      DescendsHasSource(k, bundle);
      SourceIsSmaller(bundle);
      RaisesIsExact(k, SourceOf(bundle));
      ExportIsNoTrace(k, bundle);
      ThrowingIsNewline(k, bundle);
    } else {
      NewlineDescends(k, bundle);
    }
  }

  lemma NewlineDescends(k: Kernel, bundle: Json)
    ensures NewlineExport(k, bundle) ==> Descends(k, bundle)
  {
  }

  lemma ExportIsNoTrace(k: Kernel, bundle: Json)
    ensures !(IsTrace(k, bundle) && Descends(k, bundle))
  {
    hide WrapperVerified, ExportShaped;
  }

  /** Down to the hashes: under a verified bundle of any nesting lies a verified trace, and each of its events is
      signed, bound to an anchored checkpoint, and a leaf of every tree with that checkpoint's root. */
  lemma {:induction false} VerifiedIsSoundAtTheBottom(k: Kernel, bundle: Json, env: Environment)
    requires BundleVerdict(k, bundle, env).status == Status.Verified
    ensures var trace := Innermost(k, bundle);
            IsTrace(k, trace) && BundleVerdict(k, trace, env).status == Status.Verified
            && forall ev :: ev in Items(Get(Get(trace, Body), Events)) && (k.lang.Python? || LeafNamed(ev)) ==>
                 EventSound(k, ev, Items(Get(Get(trace, Body), Checkpoints)))
    decreases bundle
  {
    hide BundleVerdict, ExportVerdict, Descends, IsTrace, EventSound;
    if Descends(k, bundle) {
      DescendsHasSource(k, bundle);
      SourceIsSmaller(bundle);
      ExportBranch(k, bundle, env);
      VerifiedNeedsVerifiedSource(k, bundle, BundleVerdict(k, SourceOf(bundle), env));
      VerifiedIsSoundAtTheBottom(k, SourceOf(bundle), env);
    } else {
      if !IsTrace(k, bundle) {
        OtherBranch(k, bundle, env);
      }
      VerifiedTraceIsSound(k, bundle, env);
    }
  }

  // ----- where the attestations go -----

  /** The entries of a list of checkpoints, one checkpoint after the other. */
  ghost function Flattened(atts: seq<AttestationResult>, ids: seq<string>): seq<VerdictAttestation> {
    if ids == [] then []
    else Flattened(atts, ids[..|ids| - 1]) + EntriesFor(atts, ids[|ids| - 1])
  }

  ghost function Entries(atts: seq<AttestationResult>): seq<VerdictAttestation> {
    if atts == [] then [] else Entries(atts[..|atts| - 1]) + [Entry(atts[|atts| - 1])]
  }

  ghost predicate Distinct(ids: seq<string>) {
    forall i, j :: 0 <= i < j < |ids| ==> ids[i] != ids[j]
  }

  /** One more attestation adds one entry, under its own checkpoint and nowhere else. */
  lemma {:induction false} FlattenedStep(atts: seq<AttestationResult>, a: AttestationResult, ids: seq<string>)
    requires Distinct(ids)
    ensures multiset(Flattened(atts + [a], ids))
            == multiset(Flattened(atts, ids)) + (if a.checkpointTxId in ids then multiset{Entry(a)} else multiset{})
  {
    hide Entry;
    if ids != [] {
      var rest, id := ids[..|ids| - 1], ids[|ids| - 1];
      FlattenedStep(atts, a, rest);
      assert (atts + [a])[..|atts|] == atts;
      assert ids == rest + [id];
      assert id !in rest;
    }
  }

  lemma {:induction false} FlattenedIsPermutation(atts: seq<AttestationResult>, ids: seq<string>)
    requires Distinct(ids) && forall i :: 0 <= i < |atts| ==> atts[i].checkpointTxId in ids
    ensures multiset(Flattened(atts, ids)) == multiset(Entries(atts))
  {
    hide Entry;
    if atts == [] {
      FlattenedOfNone(ids);
    } else {
      var rest, a := atts[..|atts| - 1], atts[|atts| - 1];
      assert atts == rest + [a];
      FlattenedIsPermutation(rest, ids);
      FlattenedStep(rest, a, ids);
    }
  }

  lemma {:induction false} FlattenedOfNone(ids: seq<string>)
    ensures Flattened([], ids) == []
  {
    if ids != [] {
      FlattenedOfNone(ids[..|ids| - 1]);
    }
  }

  /** Positions in the record list of the entries of one checkpoint: increasing, and exactly those with its id. */
  lemma {:induction false} EntriesInRecordOrder(atts: seq<AttestationResult>, id: string) returns (at: seq<nat>)
    ensures |at| == |EntriesFor(atts, id)|
    ensures forall i, j :: 0 <= i < j < |at| ==> at[i] < at[j]
    ensures forall i :: 0 <= i < |at| ==> at[i] < |atts| && EntriesFor(atts, id)[i] == Entry(atts[at[i]])
    ensures forall x :: 0 <= x < |atts| ==> (x in at <==> atts[x].checkpointTxId == id)
  {
    hide Entry;
    at := [];
    if atts != [] {
      var n := |atts| - 1;
      at := EntriesInRecordOrder(atts[..n], id);
      if atts[n].checkpointTxId == id {
        at := at + [n];
      }
    }
  }

  ghost function Ids(cps: seq<Json>): (ids: seq<string>)
    ensures |ids| == |cps| && forall i :: 0 <= i < |cps| ==> ids[i] == StrOr(Get(cps[i], TxId), "")
  {
    seq(|cps|, i requires 0 <= i < |cps| => StrOr(Get(cps[i], TxId), ""))
  }

  ghost predicate DistinctIds(cps: seq<Json>) {
    (forall i :: 0 <= i < |cps| ==> Get(cps[i], TxId).JStr?) && Distinct(Ids(cps))
  }

  /** With distinct ids, events and attestations look their checkpoint up in the same map. */
  lemma {:induction false} FirstAndLastAgree(cps: seq<Json>)
    requires DistinctIds(cps)
    ensures FirstWins(cps) == LastWins(cps)
    ensures forall id :: id in LastWins(cps) <==> id in Ids(cps)
  {
    if cps != [] {
      var rest, last := cps[..|cps| - 1], cps[|cps| - 1];
      assert forall i :: 0 <= i < |rest| ==> Ids(rest)[i] == Ids(cps)[i];
      FirstAndLastAgree(rest);
      var id := Get(last, TxId).s;
      assert id !in Ids(rest);
      assert Ids(cps) == Ids(rest) + [id];
    }
  }

  /** The attestation lists of a verdict, end to end. */
  ghost function AllAttestations(cps: seq<VerdictCheckpoint>): seq<VerdictAttestation> {
    if cps == [] then [] else AllAttestations(cps[..|cps| - 1]) + cps[|cps| - 1].attestations
  }

  lemma {:induction false} AllAttestationsAreFlattened(cps: seq<VerdictCheckpoint>, atts: seq<AttestationResult>,
                                                       ids: seq<string>)
    requires |ids| == |cps|
    requires forall i :: 0 <= i < |cps| ==>
               cps[i].checkpointTxId == ids[i] && cps[i].attestations == EntriesFor(atts, ids[i])
    ensures AllAttestations(cps) == Flattened(atts, ids)
  {
    if cps != [] {
      AllAttestationsAreFlattened(cps[..|cps| - 1], atts, ids[..|ids| - 1]);
    }
  }

  /** When the source checkpoints have distinct ids and every attestation resolved, the verdict of an export over a
      wrapper-verified trace holds each attestation once, and events and attestations use the same checkpoints. */
  lemma AttestationsAreConserved(k: Kernel, bundle: Json, env: Environment)
    requires Descends(k, bundle) && IsTrace(k, SourceOf(bundle)) && TraceShaped(Get(SourceOf(bundle), Body))
    requires DistinctIds(Items(Get(Get(SourceOf(bundle), Body), Checkpoints)))
    requires var r := BundleVerdict(k, bundle, env);
             r.exported.Some? && forall a :: a in r.exported.value.attestations ==> a.checkpointResolved
    ensures var x := BundleVerdict(k, bundle, env).exported.value;
            multiset(AllAttestations(x.verdict.checkpoints)) == multiset(Entries(x.attestations))
    ensures var cps := Items(Get(Get(SourceOf(bundle), Body), Checkpoints));
            FirstWins(cps) == SourceCheckpoints(SourceOf(bundle))
  {
    hide BundleVerdict, Entry, EntriesFor, Views, FirstWins, LastWins, Agrees, SourceLinked, WellFormedAttestation,
         DataHashBinds,
         CountEvents, CountAttestations, Summarize, VerdictEventOf, EventVerdict, IsTrace, Descends;
    var source, cps := SourceOf(bundle), Items(Get(Get(SourceOf(bundle), Body), Checkpoints));
    ExportBranch(k, bundle, env);
    TraceBranch(k, source, env);
    FirstAndLastAgree(cps);
    var x := BundleVerdict(k, bundle, env).exported.value;
    var ids := Ids(cps);
    TraceIds(k, source, env);
    assert x.verdict.checkpoints == VerdictCheckpoints(TraceVerdict(k, source, env).checkpoints, x.attestations);
    forall i | 0 <= i < |x.attestations|
      ensures x.attestations[i].checkpointTxId in ids
    {
      assert x.attestations[i] in x.attestations;
    }
    AllAttestationsAreFlattened(x.verdict.checkpoints, x.attestations, ids);
    FlattenedIsPermutation(x.attestations, ids);
  }

  lemma TraceIds(k: Kernel, bundle: Json, env: Environment)
    requires TraceShaped(Get(bundle, Body))
    ensures var cps, views := Items(Get(Get(bundle, Body), Checkpoints)), TraceVerdict(k, bundle, env).checkpoints;
            |views| == |cps| && forall i :: 0 <= i < |cps| ==> views[i].txId == StrOr(Get(cps[i], TxId), "")
  {
    hide CheckpointSigned, RootCommitted, CheckpointNotes, Refetch, FirstWins, EventVerdict;
  }
}
