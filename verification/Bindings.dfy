/** What the hash comparisons bind, and what disclosed content and gateway answers establish. */
module Bindings {
  import opened Octets
  import opened JsonValues
  import opened KernelPrimitives
  import opened Base64
  import opened RsaPss
  import opened Envelopes
  import opened Traces
  import opened Evidence
  import opened EnvironmentProperties

  /** One envelope accepts no two external payloads. */
  lemma EnvelopeBindsPayload(k: Kernel, env: Object, x: Bytes, y: Bytes)
    requires EnvelopeVerdict(k, JObj(env), Some(x), None, false).ok
             && EnvelopeVerdict(k, JObj(env), Some(y), None, false).ok
    ensures x == y || Collides(k.sha, {x}, {y})
  {
    hide EnvelopeVerdict;
    AcceptedEnvelope(k, env, Some(x));
    AcceptedEnvelope(k, env, Some(y));
    HexHashBinds(k, x, y);
  }

  /** An inline and an external payload accepted together are the same bytes. */
  lemma InlineAndExternalAgree(k: Kernel, env: Object, x: Bytes)
    requires EnvelopeVerdict(k, JObj(env), Some(x), None, false).ok && Payload in env
    ensures Canonical(k, env[Payload]).Some?
    ensures Canonical(k, env[Payload]) == Some(x) || Collides(k.sha, {Canonical(k, env[Payload]).value}, {x})
  {
    hide EnvelopeVerdict, Nests, Representable;
    AcceptedEnvelope(k, env, Some(x));
    HexHashBinds(k, Canonical(k, env[Payload]).value, x);
  }

  /** One export body links to no two sources. */
  lemma LinkBindsSource(k: Kernel, a: Json, b: Json)
    requires SourceLinked(k, a) && SourceLinked(k, b) && Get(a, SourceBundleHash) == Get(b, SourceBundleHash)
    ensures SameCanonicalOrCollides(k, Get(a, SourceBundle), Get(b, SourceBundle))
  {
    hide Canonical, CanonicalShaHex;
    CanonicalHashBinds(k, Get(a, SourceBundle), Get(b, SourceBundle));
  }

  /** What a passing attestation rests on: a readable signature over its payload, by a key of the operator exponent
      whose modulus hashes to the address the payload names. */
  ghost predicate SignedByOperator(k: Kernel, rec: Json) {
    var payload, pub := Get(rec, Payload), Get(rec, PublicKey);
    Canonical(k, payload).Some? && Get(rec, Signature).JStr? && Get(pub, N).JStr? && Get(pub, E).JStr?
    && var sig, n, e := Get(rec, Signature).s, Get(pub, N).s, Get(pub, E).s;
       Unhex(sig, false).Some? && Decodable(n)
       && k.rsaPss(Canonical(k, payload).value, Unhex(sig, false).value, n, e) == Some(true)
       && (Decodable(e) ==> EncodesExponent(Decode(e)))
       && Get(payload, Operator) == JStr(Encode(k.sha(Decode(n))))
  }

  lemma SignedMeans(k: Kernel, message: Bytes, sig: string, n: string, e: string)
    requires RsaVerdict(k, message, sig, n, e) == Done(true) && OperatorAddress(k, n).Done?
    ensures Unhex(sig, false).Some? && k.rsaPss(message, Unhex(sig, false).value, n, e) == Some(true)
    ensures Decodable(n) && OperatorAddress(k, n).value == Encode(k.sha(Decode(n)))
    ensures Decodable(e) ==> EncodesExponent(Decode(e))
  {
    hide StrictHex, FromBase64Url, Decode, Decodable, Encode, EncodesExponent, BigEndian, Pairs;
    HexIsExact(k.lang, sig);
    Base64IsExact(k.lang, n);
    if Decodable(e) {
      OnlyTheOperatorExponent(k, message, sig, n, e);
    }
  }

  /** A passing attestation is the operator's, and carried over to another source it passes only where its checkpoint
      has the same canonical envelope. */
  lemma AttestationBindsEnvelope(k: Kernel, rec: Json, here: map<string, Json>, there: map<string, Json>)
    requires WellFormedAttestation(k, rec)
    requires AttestationVerdict(k, rec, here).ok && AttestationVerdict(k, rec, there).ok
    ensures SignedByOperator(k, rec)
    ensures var id := StrOr(Get(rec, CheckpointTxId), "");
            id in here && id in there
            && var a, b := EnvelopeBytes(k, here[id]), EnvelopeBytes(k, there[id]);
               a.Some? && b.Some? && (a == b || Collides(k.sha, {a.value}, {b.value}))
  {
    hide Canonical, EnvelopeBytes, RsaVerdict, OperatorAddress, Unhex, Decode, Encode, Decodable, EncodesExponent;
    var id, pub := StrOr(Get(rec, CheckpointTxId), ""), Get(rec, PublicKey);
    SignedMeans(k, Canonical(k, Get(rec, Payload)).value, Get(rec, Signature).s, Get(pub, N).s, Get(pub, E).s);
    HexHashBinds(k, EnvelopeBytes(k, here[id]).value, EnvelopeBytes(k, there[id]).value);
  }

  /** Two passing attestations that name one operator come from one modulus, in whatever exports they stand. */
  lemma OperatorBindsModulus(k: Kernel, a: Json, b: Json, here: map<string, Json>,
                              there: map<string, Json>)
    requires WellFormedAttestation(k, a) && WellFormedAttestation(k, b)
    requires AttestationVerdict(k, a, here).ok && AttestationVerdict(k, b, there).ok
    requires Get(Get(a, Payload), Operator) == Get(Get(b, Payload), Operator)
    ensures var m, n := Get(Get(a, PublicKey), N).s, Get(Get(b, PublicKey), N).s;
            Decodable(m) && Decodable(n)
            && (Decode(m) == Decode(n) || Collides(k.sha, {Decode(m)}, {Decode(n)}))
  {
    hide Canonical, RsaVerdict, OperatorAddress, DataHashBinds, Decode, Decodable;
    AddressBindsModulus(k, Get(Get(a, PublicKey), N).s, Get(Get(b, PublicKey), N).s);
  }

  // ----- disclosed content -----

  /** The byte strings disclosed for an event, in its body or on the side. */
  ghost function Disclosures(k: Kernel, ev: Json, content: map<string, Disclosed>): set<Bytes> {
    var inBody, side := k.FromHex(Get(ev, Content)), SideContent(k, content, EventIdOf(ev));
    (if inBody.Some? then {inBody.value} else {}) + (if side.Some? then {side.value} else {})
  }

  /** Content fails exactly when disclosures contradict each other or what was committed, passes exactly when the one
      disclosed string hashes to a committed hash, and is otherwise undetermined. */
  lemma ContentMeans(k: Kernel, ev: Json, content: map<string, Disclosed>)
    ensures var ds, committed, r := Disclosures(k, ev, content), CommittedHashes(k, ev), ContentVerdict(k, ev, content);
            (r == No <==> (exists a, b :: a in ds && b in ds && a != b)
                          || (committed != [] && exists d :: d in ds && k.ShaHex(d) !in committed))
            && (r == Yes <==> ds != {} && (forall a, b :: a in ds && b in ds ==> a == b)
                              && forall d :: d in ds ==> k.ShaHex(d) in committed)
  {
    hide CommittedHashes, SideContent, EventIdOf;
    var ds := Disclosures(k, ev, content);
    var inBody, side := k.FromHex(Get(ev, Content)), SideContent(k, content, EventIdOf(ev));
    if inBody.Some? {
      assert inBody.value in ds;
    }
    if side.Some? {
      assert side.value in ds;
    }
  }

  // ----- gateway answers -----

  /** The gateway returned the canonical envelope, or JSON with that canonical form. */
  ghost predicate Serves(k: Kernel, cp: Json, gateway: string, fetch: Fetch) {
    var got := fetch(TrimSlashes(gateway) + "/" + StrOr(Get(cp, TxId), ""));
    got.Some? && EnvelopeBytes(k, cp).Some?
    && (got == EnvelopeBytes(k, cp)
        || (k.parse(got.value).Some? && Canonical(k, k.parse(got.value).value) == EnvelopeBytes(k, cp)))
  }

  /** A trace verified against gateways has every resolvable checkpoint served by one of them, and whatever any other
      answered was no contradiction. */
  lemma VerifiedMeansAnchored(k: Kernel, bundle: Json, env: Environment, i: nat)
    requires IsTrace(k, bundle) && BundleVerdict(k, bundle, env).status == Status.Verified && env.gateways != []
    requires i < |Items(Get(Get(bundle, Body), Checkpoints))|
    ensures env.fetch.Some?
    ensures var cps := Items(Get(Get(bundle, Body), Checkpoints));
            var id := StrOr(Get(cps[i], TxId), "");
            id in FirstWins(cps) ==>
              var cp := FirstWins(cps)[id];
              (exists g :: g in env.gateways && Serves(k, cp, g, env.fetch.value))
              && forall g :: g in env.gateways ==>
                   Serves(k, cp, g, env.fetch.value) || Probe(k, cp, g, env.fetch.value) == Unreachable
  {
    hide BundleVerdict, TraceStatus, FirstWins, EventVerdict, OfflineView, IsTrace, Probe, Serves, Refetch,
         UnreachableView, Canonical;
    var cps, evs := Items(Get(Get(bundle, Body), Checkpoints)), Items(Get(Get(bundle, Body), Events));
    TraceBranch(k, bundle, env);
    var views := Views(k, cps, env);
    VerifiedStatus(views, EventVerdicts(k, evs, FirstWins(cps), env.content), GatewayUnavailable(views, env));
    assert env.fetch.Some?;
    var id := StrOr(Get(cps[i], TxId), "");
    if id in FirstWins(cps) {
      assert views[i] in views && views[i].ok && !UnreachableView(views[i]);
      OfflineId(k, cps, i);
      OnlineViewOk(k, OfflineViews(k, cps)[i], FirstWins(cps), env.gateways, env.fetch.value);
      ConfirmedBySome(k, FirstWins(cps)[id], env.gateways, env.fetch.value);
    }
  }

  lemma OfflineId(k: Kernel, cps: seq<Json>, i: nat)
    requires i < |cps|
    ensures OfflineViews(k, cps)[i].txId == StrOr(Get(cps[i], TxId), "")
  {
    hide CheckpointSigned, RootCommitted, CheckpointNotes, FirstWins;
  }

  lemma VerifiedStatus(views: seq<CheckpointView>, events: seq<EventResult>, unavailable: bool)
    requires TraceStatus(views, events, unavailable) == Status.Verified
    ensures !unavailable && forall v :: v in views ==> v.ok
  {
  }

  lemma OnlineViewOk(k: Kernel, v: CheckpointView, byTxId: map<string, Json>, gateways: seq<string>, fetch: Fetch)
    requires v.txId in byTxId
    ensures var w, r := OnlineView(k, v, byTxId, gateways, fetch), Refetch(k, byTxId[v.txId], gateways, fetch);
            (w.ok ==> r.rollup != Mismatch) && (UnreachableView(w) <==> r.rollup == Unreachable)
  {
    hide Probe;
  }

  lemma ConfirmedBySome(k: Kernel, cp: Json, gateways: seq<string>, fetch: Fetch)
    requires Refetch(k, cp, gateways, fetch).rollup == Confirm
    ensures exists g :: g in gateways && Serves(k, cp, g, fetch)
    ensures forall g :: g in gateways ==> Serves(k, cp, g, fetch) || Probe(k, cp, g, fetch) == Unreachable
  {
    hide Probe, Serves;
    var outcomes := Refetch(k, cp, gateways, fetch).perGateway;
    forall g | g in gateways
      ensures Probe(k, cp, g, fetch) != Mismatch && (Probe(k, cp, g, fetch) == Confirm <==> Serves(k, cp, g, fetch))
    {
      var i :| 0 <= i < |gateways| && gateways[i] == g;
      assert outcomes[i] in outcomes;
      ConfirmIsServed(k, cp, g, fetch);
    }
    var o :| o in outcomes && o.outcome == Confirm;
    var i :| 0 <= i < |outcomes| && outcomes[i] == o;
    assert gateways[i] in gateways && Serves(k, cp, gateways[i], fetch);
  }

  lemma ConfirmIsServed(k: Kernel, cp: Json, g: string, fetch: Fetch)
    ensures Probe(k, cp, g, fetch) == Confirm <==> Serves(k, cp, g, fetch)
  {
    hide Canonical, TrimSlashes;
  }

  // ----- what the producer asserts -----

  /** Of a wrapper that verifies, only the body, its type and the date are read: the status the producer asserts, like
      the issuer, the gateway and the custody pointer, is shown and otherwise changes nothing. */
  lemma ProducerClaimsAreIgnored(k: Kernel, a: Json, b: Json, env: Environment)
    requires WrapperVerified(k, a) && WrapperVerified(k, b)
    requires Get(a, Body) == Get(b, Body) && Get(a, BodyType) == Get(b, BodyType)
    requires Get(a, GeneratedAt) == Get(b, GeneratedAt)
    ensures BundleVerdict(k, a, env).(assertedStatus := None) == BundleVerdict(k, b, env).(assertedStatus := None)
  {
    hide BodyHashed, WrapperSigned, VersionOk, AssertedStatus, ExportShaped, TraceVerdict, ExportVerdict;
    if IsTrace(k, a) {
      SameTrace(k, a, b, env);
    } else if Descends(k, a) {
      SameExportBody(k, a, b, BundleVerdict(k, SourceOf(a), env));
    }
  }

  lemma SameTrace(k: Kernel, a: Json, b: Json, env: Environment)
    requires Get(a, Body) == Get(b, Body) && Get(a, BodyType) == Get(b, BodyType)
    ensures TraceVerdict(k, a, env).(assertedStatus := None) == TraceVerdict(k, b, env).(assertedStatus := None)
  {
    hide Views, EventVerdicts, FirstWins, TraceStatus, AssertedStatus, GatewayUnavailable;
  }

  lemma SameExportBody(k: Kernel, a: Json, b: Json, source: BundleResult)
    requires Get(a, Body) == Get(b, Body) && Get(a, BodyType) == Get(b, BodyType)
    requires Get(a, GeneratedAt) == Get(b, GeneratedAt)
    ensures ExportVerdict(k, a, source).(assertedStatus := None) == ExportVerdict(k, b, source).(assertedStatus := None)
  {
    hide AttestationVerdicts, AllWellFormed, VerdictOf, Agrees, SourceLinked, ExportStatus, Summarize, AssertedStatus,
         SourceCheckpoints, Get, Items, StrOption, FromSourceNotes;
    var body := Get(a, Body);
    if AllWellFormed(k, Items(Get(body, Attestations))) {
      var x, y := ExportVerdict(k, a, source), ExportVerdict(k, b, source);
      assert x.exported == y.exported;
    } else {
      assert ExportVerdict(k, b, source).status == Malformed;
    }
  }
}
