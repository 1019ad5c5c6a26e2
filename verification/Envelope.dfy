/** Signed envelopes: what the signature covers, verification, signing. */
module Envelopes {
  import opened Octets
  import opened JsonValues
  import opened KernelPrimitives

  type Object = map<Key, Json>

  const AGENT_MAJOR := "ario.agent/v1"
  const EVENTS_MAJOR := "ario.events/v1"
  const MLFLOW_MAJOR := "ario.mlflow/v1"

  predicate SpecVersionSupported(lang: Language, version: Json) {
    version.JStr?
    && (MatchesMajor(version.s, AGENT_MAJOR) || MatchesMajor(version.s, EVENTS_MAJOR)
        || (lang.Python? && MatchesMajor(version.s, MLFLOW_MAJOR)))
  }

  /** Whether underscore names are unsigned annotations: the mlflow profile and legacy envelopes, in Python. */
  predicate StripsAnnotations(lang: Language, env: Object) {
    var version := Get(JObj(env), SpecVersion);
    lang.Python? && (version.JNull? || (version.JStr? && MatchesMajor(version.s, MLFLOW_MAJOR)))
  }

  function SignedScope(lang: Language, env: Object): Object {
    map key | key in env
              && key != Signature && key != CoSignatures && !(StripsAnnotations(lang, env) && key.Annotation?)
            :: env[key]
  }

  /** Names a reader may edit without touching the signed scope. */
  predicate OutsideScope(lang: Language, env: Object, key: Key) {
    key == Signature || key == CoSignatures || (StripsAnnotations(lang, env) && key.Annotation?)
  }

  predicate AgreeOn(a: Object, b: Object, key: Key) {
    (key in a <==> key in b) && (key in a && key in b ==> a[key] == b[key])
  }

  lemma ScopeKeeps(lang: Language, env: Object, key: Key)
    ensures !OutsideScope(lang, env, key) ==> AgreeOn(env, SignedScope(lang, env), key)
    ensures OutsideScope(lang, env, key) ==> key !in SignedScope(lang, env)
  {
    hide StripsAnnotations;
  }

  lemma SpecVersionIsSigned(lang: Language, env: Object)
    ensures !OutsideScope(lang, env, SpecVersion)
  {
  }

  /** Envelopes with the same version leave the same names out. */
  lemma SameOutside(lang: Language, a: Object, b: Object, key: Key)
    requires AgreeOn(a, b, SpecVersion)
    ensures OutsideScope(lang, a, key) == OutsideScope(lang, b, key)
  {
    hide MatchesMajor;
  }

  lemma EqualMaps(a: Object, b: Object)
    requires forall key :: AgreeOn(a, b, key)
    ensures a == b
  {
    forall key
      ensures key in a <==> key in b
      ensures key in a ==> a[key] == b[key]
    {
      assert AgreeOn(a, b, key);
    }
  }

  /** Two envelopes share a signed scope exactly when they agree on every name inside the scope of either one. */
  lemma SameScope(lang: Language, a: Object, b: Object)
    ensures SignedScope(lang, a) == SignedScope(lang, b)
            <==> forall key :: !OutsideScope(lang, a, key) ==> AgreeOn(a, b, key)
  {
    hide SignedScope, OutsideScope;
    SpecVersionIsSigned(lang, a);
    SpecVersionIsSigned(lang, b);
    if forall key :: !OutsideScope(lang, a, key) ==> AgreeOn(a, b, key) {
      forall key ensures AgreeOn(SignedScope(lang, a), SignedScope(lang, b), key) {
        SameOutside(lang, a, b, key);
        ScopeKeeps(lang, a, key);
        ScopeKeeps(lang, b, key);
      }
      EqualMaps(SignedScope(lang, a), SignedScope(lang, b));
    }
    if SignedScope(lang, a) == SignedScope(lang, b) {
      ScopeKeeps(lang, a, SpecVersion);
      ScopeKeeps(lang, b, SpecVersion);
      forall key | !OutsideScope(lang, a, key)
        ensures AgreeOn(a, b, key)
      {
        SameOutside(lang, a, b, key);
        ScopeKeeps(lang, a, key);
        ScopeKeeps(lang, b, key);
      }
    }
  }

  // ----- committed content hashes -----

  datatype Role = Asset | BaselineRole | ObservedRole

  function HashOf(lang: Language, role: Role, j: Json): seq<(Role, string)> {
    var hash := Get(j, Key.Hash);
    if hash.JStr? && (lang.Python? || hash.s != "") then [(role, hash.s)] else []
  }

  function ContentHashes(lang: Language, env: Object): seq<(Role, string)> {
    var payload, eventType := Get(JObj(env), Payload), Get(JObj(env), EventType);
    if !payload.JObj? then []
    else if eventType == JStr("asset_registered") then HashOf(lang, Asset, payload)
    else if eventType == JStr("asset_missing") then HashOf(lang, BaselineRole, Get(payload, Baseline))
    else if eventType == JStr("tamper_detected") then
      HashOf(lang, ObservedRole, Get(payload, Observed)) + HashOf(lang, BaselineRole, Get(payload, Baseline))
    else []
  }

  /** The first committed hash equal to `wanted` up to letter case. */
  function FirstMatch(hashes: seq<(Role, string)>, wanted: string): (role: Option<Role>)
    ensures role.None? <==> forall i :: 0 <= i < |hashes| ==> Lower(hashes[i].1) != wanted
  {
    if hashes == [] then None
    else if Lower(hashes[0].1) == wanted then Some(hashes[0].0)
    else FirstMatch(hashes[1..], wanted)
  }

  // ----- verification -----

  datatype EnvelopeResult = EnvelopeResult(
    ok: bool,
    specVersionOk: bool,
    payloadHashOk: Tri,
    signatureOk: bool,
    contentHashOk: Tri,
    contentRole: Option<Role>,
    legacy: bool)

  predicate SignatureValid(k: Kernel, env: Object) {
    var message, sig, pub := Canonical(k, JObj(SignedScope(k.lang, env))), Get(JObj(env), Signature),
        Get(JObj(env), PublicKey);
    message.Some? && sig.JStr? && pub.JStr? && k.ed25519(message.value, sig.s, pub.s)
  }

  predicate VersionAccepted(lang: Language, env: Object, allowLegacy: bool) {
    if Get(JObj(env), SpecVersion).JNull? then lang.Python? && allowLegacy
    else SpecVersionSupported(lang, Get(JObj(env), SpecVersion))
  }

  /** Whether `payload_hash` is the hash of whatever there is to compare it with; undetermined if there is nothing. */
  function PayloadBinding(k: Kernel, env: Object, payloadBytes: Option<Bytes>): Tri {
    var stored := Get(JObj(env), PayloadHash);
    if !stored.JStr? then No
    else if Payload in env && CanonicalShaHex(k, env[Payload]) != Some(stored.s) then No
    else if payloadBytes.Some? && k.ShaHex(payloadBytes.value) != stored.s then No
    else if Payload in env || payloadBytes.Some? then Yes
    else Unknown
  }

  function EnvelopeVerdict(k: Kernel, envelope: Json, payloadBytes: Option<Bytes>, expected: Option<string>,
                           allowLegacy: bool)
    : EnvelopeResult
  {
    if !envelope.JObj? then
      EnvelopeResult(false, false, if k.lang.Python? then Unknown else No, false,
                     if expected.None? then Unknown else No, None, false)
    else
      var env := envelope.fields;
      var version, binding, sig := VersionAccepted(k.lang, env, allowLegacy), PayloadBinding(k, env, payloadBytes),
          SignatureValid(k, env);
      var role := if expected.None? then None else FirstMatch(ContentHashes(k.lang, env), Lower(expected.value));
      EnvelopeResult(version && sig && binding != No, version, binding, sig,
                     if expected.None? then Unknown else ToTri(role.Some?), role, Get(envelope, SpecVersion).JNull?)
  }

  method CheckPayload(k: Kernel, env: Object, payloadBytes: Option<Bytes>) returns (payloadHashOk: Tri)
    ensures payloadHashOk == PayloadBinding(k, env, payloadBytes)
  {
    var stored := Get(JObj(env), PayloadHash);
    if !stored.JStr? {
      return No;
    }
    var checks: seq<bool> := [];
    if Payload in env {
      var bytes := CanonicalJson(k, env[Payload]);
      checks := checks + [bytes.Some? && k.ShaHex(bytes.value) == stored.s];
    }
    if payloadBytes.Some? {
      checks := checks + [k.ShaHex(payloadBytes.value) == stored.s];
    }
    return if checks == [] then Unknown else ToTri(false !in checks);
  }

  method MatchContent(candidates: seq<(Role, string)>, wanted: string) returns (role: Option<Role>)
    ensures role == FirstMatch(candidates, wanted)
  {
    for i := 0 to |candidates|
      invariant FirstMatch(candidates, wanted) == FirstMatch(candidates[i..], wanted)
    {
      if Lower(candidates[i].1) == wanted {
        return Some(candidates[i].0);
      }
    }
    return None;
  }

  method VerifyEnvelope(k: Kernel, envelope: Json, payloadBytes: Option<Bytes>, expected: Option<string>,
                        allowLegacy: bool)
    returns (r: EnvelopeResult)
    ensures r == EnvelopeVerdict(k, envelope, payloadBytes, expected, allowLegacy)
  {
    if !envelope.JObj? {
      return EnvelopeResult(false, false, if k.lang.Python? then Unknown else No, false,
                            if expected.None? then Unknown else No, None, false);
    }
    var env := envelope.fields;
    var version := Get(envelope, SpecVersion);
    var legacy := version.JNull?;
    var specVersionOk := if legacy then k.lang.Python? && allowLegacy else SpecVersionSupported(k.lang, version);

    var payloadHashOk := CheckPayload(k, env, payloadBytes);

    var signatureOk := false;
    var message := CanonicalJson(k, JObj(SignedScope(k.lang, env)));
    var sig, pub := Get(envelope, Signature), Get(envelope, PublicKey);
    if message.Some? && sig.JStr? && pub.JStr? {
      signatureOk := k.ed25519(message.value, sig.s, pub.s);
    }

    var contentHashOk, contentRole := Unknown, None;
    if expected.Some? {
      contentRole := MatchContent(ContentHashes(k.lang, env), Lower(expected.value));
      contentHashOk := ToTri(contentRole.Some?);
    }
    return EnvelopeResult(specVersionOk && signatureOk && payloadHashOk != No, specVersionOk, payloadHashOk,
                          signatureOk, contentHashOk, contentRole, legacy);
  }

  /** What acceptance rests on: the signature covers the hash, and the hash is that of the material. */
  lemma AcceptedEnvelope(k: Kernel, env: Object, payloadBytes: Option<Bytes>)
    requires EnvelopeVerdict(k, JObj(env), payloadBytes, None, false).ok
    ensures SignatureValid(k, env) && PayloadHash in SignedScope(k.lang, env) && env[PayloadHash].JStr?
    ensures payloadBytes.Some? ==> k.ShaHex(payloadBytes.value) == env[PayloadHash].s
    ensures Payload in env ==> Payload in SignedScope(k.lang, env)
                               && CanonicalShaHex(k, env[Payload]) == Some(env[PayloadHash].s)
  {
    hide EnvelopeVerdict, PayloadBinding, SignatureValid, VersionAccepted, CanonicalShaHex, StripsAnnotations;
    VerdictParts(k, env, payloadBytes, false);
    BindingOfMaterial(k, env, payloadBytes);
  }

  // ----- signing -----

  /** An Ed25519 key: its public half in hex, and the hex signature it makes of a message. */
  datatype SigningKey = SigningKey(publicHex: string, sign: Bytes -> string)

  /** The one thing known about a key: a signature it made verifies under its public half. */
  ghost predicate KeyWorks(k: Kernel, key: SigningKey) {
    forall m :: k.ed25519(m, key.sign(m), key.publicHex)
  }

  /** The envelope with `payload_hash` and `public_key` filled in; `None` for a refusal. */
  function Completed(k: Kernel, env: Object, key: SigningKey): Option<Object> {
    var computed := if Payload in env then CanonicalShaHex(k, env[Payload]) else None;
    if Signature in env then None
    else if Payload in env && (computed.None? || (PayloadHash in env && env[PayloadHash] != JStr(computed.value)))
        then None
    else if Payload !in env && PayloadHash !in env then None
    else if PublicKey in env && env[PublicKey] != JStr(key.publicHex) then None
    else
      var bound := if Payload in env then env[PayloadHash := JStr(computed.value)] else env;
      Some(bound[PublicKey := JStr(key.publicHex)])
  }

  method SignEnvelope(k: Kernel, envelope: Object, key: SigningKey) returns (signed: Option<Object>)
    ensures signed.Some? <==>
            Completed(k, envelope, key).Some?
            && Canonical(k, JObj(SignedScope(k.lang, Completed(k, envelope, key).value))).Some?
    ensures signed.Some? ==>
              var env := Completed(k, envelope, key).value;
              signed.value == env[Signature := JStr(key.sign(Canonical(k, JObj(SignedScope(k.lang, env))).value))]
  {
    if Signature in envelope {
      return None;
    }
    var env := envelope;
    if Payload in env {
      var bytes := CanonicalJson(k, env[Payload]);
      if bytes.None? {
        return None;
      }
      var computed := JStr(k.ShaHex(bytes.value));
      if PayloadHash !in env {
        env := env[PayloadHash := computed];
      }
      if env[PayloadHash] != computed {
        return None;
      }
      assert env == envelope[PayloadHash := computed];
    } else if PayloadHash !in env {
      return None;
    }
    if PublicKey !in env {
      env := env[PublicKey := JStr(key.publicHex)];
    }
    if env[PublicKey] != JStr(key.publicHex) {
      return None;
    }
    assert Completed(k, envelope, key) == Some(env) by {
      assert env[PublicKey := JStr(key.publicHex)] == env;
    }
    var message := CanonicalJson(k, JObj(SignedScope(k.lang, env)));
    if message.None? {
      return None;
    }
    return Some(env[Signature := JStr(key.sign(message.value))]);
  }

  /** What `SignEnvelope` returned, and any later edit outside the signed scope. */
  ghost predicate SignedBy(k: Kernel, envelope: Object, key: SigningKey, signed: Object) {
    var env := Completed(k, envelope, key);
    env.Some?
    && var message := Canonical(k, JObj(SignedScope(k.lang, env.value)));
       message.Some? && signed == env.value[Signature := JStr(key.sign(message.value))]
  }

  ghost predicate EditedOutsideScope(lang: Language, signed: Object, edited: Object) {
    forall key :: key == Signature || !OutsideScope(lang, signed, key) ==> AgreeOn(signed, edited, key)
  }

  lemma VerdictParts(k: Kernel, env: Object, payloadBytes: Option<Bytes>, allowLegacy: bool)
    ensures var r := EnvelopeVerdict(k, JObj(env), payloadBytes, None, allowLegacy);
            r.signatureOk == SignatureValid(k, env)
            && r.ok == (VersionAccepted(k.lang, env, allowLegacy) && SignatureValid(k, env)
                        && PayloadBinding(k, env, payloadBytes) != No)
  {
    hide SignatureValid, PayloadBinding, VersionAccepted;
  }

  lemma EditKeepsMembers(lang: Language, signed: Object, edited: Object)
    requires EditedOutsideScope(lang, signed, edited)
    ensures AgreeOn(signed, edited, SpecVersion) && AgreeOn(signed, edited, Payload)
            && AgreeOn(signed, edited, PayloadHash)
  {
    hide StripsAnnotations;
  }

  /** A signed envelope verifies, under any edit outside its scope, exactly when its version is accepted, its
      `payload_hash` is a string, and bytes supplied for it hash to it. */
  lemma SignThenVerify(k: Kernel, envelope: Object, key: SigningKey, signed: Object, edited: Object,
                       payloadBytes: Option<Bytes>, allowLegacy: bool)
    requires KeyWorks(k, key) && SignedBy(k, envelope, key, signed) && EditedOutsideScope(k.lang, signed, edited)
    ensures var r := EnvelopeVerdict(k, JObj(edited), payloadBytes, None, allowLegacy);
            r.signatureOk
            && (r.ok <==> VersionAccepted(k.lang, signed, allowLegacy)
                          && Get(JObj(signed), PayloadHash).JStr?
                          && (payloadBytes.Some? ==> JStr(k.ShaHex(payloadBytes.value)) == signed[PayloadHash]))
  {
    hide Canonical, CanonicalShaHex, MatchesMajor, SpecVersionSupported, SignedScope, PayloadBinding, Completed,
         SignatureValid, EnvelopeVerdict, EditedOutsideScope;
    var env := Completed(k, envelope, key).value;
    CompletedBinds(k, envelope, key);
    EditKeepsScope(k, env, signed, edited);
    SignatureSurvives(k, env, key, edited);
    BindingOfMaterial(k, edited, payloadBytes);
    VerdictParts(k, edited, payloadBytes, allowLegacy);
    EditKeepsMembers(k.lang, signed, edited);
  }

  lemma SignatureSurvives(k: Kernel, env: Object, key: SigningKey, edited: Object)
    requires KeyWorks(k, key) && SignedScope(k.lang, edited) == SignedScope(k.lang, env)
    requires var message := Canonical(k, JObj(SignedScope(k.lang, env)));
             message.Some? && Signature in edited && edited[Signature] == JStr(key.sign(message.value))
    requires PublicKey in edited && edited[PublicKey] == JStr(key.publicHex)
    ensures SignatureValid(k, edited)
  {
    hide Canonical, SignedScope;
  }

  lemma EditKeepsScope(k: Kernel, env: Object, signed: Object, edited: Object)
    requires Signature in signed && signed == env[Signature := signed[Signature]]
    requires EditedOutsideScope(k.lang, signed, edited)
    ensures SignedScope(k.lang, edited) == SignedScope(k.lang, env)
    ensures AgreeOn(signed, edited, Signature) && AgreeOn(signed, edited, PublicKey)
  {
    SignatureOutsideScope(k.lang, env, signed);
    SameScope(k.lang, signed, edited);
  }

  lemma CompletedBinds(k: Kernel, envelope: Object, key: SigningKey)
    requires Completed(k, envelope, key).Some?
    ensures var env := Completed(k, envelope, key).value;
            PublicKey in env && env[PublicKey] == JStr(key.publicHex) && PayloadHash in env
            && (Payload in env ==> CanonicalShaHex(k, env[Payload]).Some?
                                   && env[PayloadHash] == JStr(CanonicalShaHex(k, env[Payload]).value))
  {
    hide Canonical, CanonicalShaHex;
  }

  lemma BindingOfMaterial(k: Kernel, env: Object, payloadBytes: Option<Bytes>)
    ensures PayloadBinding(k, env, payloadBytes) != No
            <==> Get(JObj(env), PayloadHash).JStr?
                 && (Payload in env ==> CanonicalShaHex(k, env[Payload]) == Some(env[PayloadHash].s))
                 && (payloadBytes.Some? ==> k.ShaHex(payloadBytes.value) == env[PayloadHash].s)
  {
    hide Canonical, CanonicalShaHex;
  }

  lemma SignatureOutsideScope(lang: Language, env: Object, signed: Object)
    requires Signature in signed && signed == env[Signature := signed[Signature]]
    ensures SignedScope(lang, signed) == SignedScope(lang, env)
  {
    hide SignedScope, MatchesMajor;
    SameScope(lang, env, signed);
  }
}
