/** The `ario.agent.proof/v1` inclusion-proof bundle. */
module ProofBundles {
  import opened Octets
  import opened JsonValues
  import opened KernelPrimitives
  import opened Envelopes
  import opened Merkle
  import opened MerkleSoundness

  const BUNDLE_SPEC_VERSION := "ario.agent.proof/v1"

  datatype ProofBundleResult = ProofBundleResult(
    ok: bool, specVersionOk: bool, envelope: Option<EnvelopeResult>, inclusionOk: bool)

  function HexBytes(j: Json): Option<Bytes> {
    if j.JStr? then Pairs(j.s, true) else None
  }

  /** Every element decoded, or `None` on the first that does not decode to 32 bytes. */
  function Digests(items: seq<Json>): (path: Option<seq<Digest>>)
    ensures path.Some?
            <==> forall i :: 0 <= i < |items| ==> HexBytes(items[i]).Some? && |HexBytes(items[i]).value| == 32
    ensures path.Some? ==> |path.value| == |items|
                           && forall i :: 0 <= i < |items| ==> HexBytes(items[i]) == Some(path.value[i])
  {
    if items == [] then Some([])
    else
      var first, rest := HexBytes(items[0]), Digests(items[1..]);
      if first.Some? && |first.value| == 32 && rest.Some? then
        var d: Digest := first.value;
        assert forall i :: 0 < i < |items| ==> items[i] == items[1..][i - 1];
        Some([d] + rest.value)
      else None
  }

  /** An object iterates by its names, an empty string or object like an empty list. */
  function AuditPathOf(k: Kernel, j: Json): Option<seq<Digest>> {
    if j.JArr? then Digests(j.items)
    else if j.JObj? && j.fields != map[] then Digests(k.Names(j))
    else if j == JStr("") || j == JObj(map[]) then Some([])
    else None
  }

  predicate Shaped(k: Kernel, bundle: Json) {
    bundle.JObj? && !Nests(bundle, MAX_CANONICAL_DEPTH) && Get(bundle, SpecVersion) == JStr(BUNDLE_SPEC_VERSION)
  }

  predicate Complete(bundle: Json) {
    Get(bundle, CheckpointEnvelope).JObj? && Get(bundle, Leaf).JObj?
    && Get(bundle, CheckpointTxId).JStr? && Get(bundle, CheckpointTxId).s != ""
  }

  /** The signed count and root, the claimed index and path, and the leaf's own bytes meet in one inclusion proof. */
  ghost predicate InclusionHolds(k: Kernel, bundle: Json) {
    var payload, doc := Get(Get(bundle, CheckpointEnvelope), Payload), Canonical(k, Get(bundle, Leaf));
    var count, index := Get(payload, LeafCount), Get(bundle, LeafIndex);
    var root, path := HexBytes(Get(payload, MerkleRoot)), AuditPathOf(k, Get(bundle, Key.AuditPath));
    doc.Some? && count.JInt? && index.JInt? && root.Some? && |root.value| == 32 && path.Some?
    && Accepts(k.sha, Merkle.LeafHash(k.sha, doc.value), index.n, count.n, path.value, root.value)
  }

  method VerifyProofBundle(k: Kernel, bundle: Json) returns (r: ProofBundleResult)
    ensures r.specVersionOk == Shaped(k, bundle)
    ensures r.envelope == if Shaped(k, bundle) && Complete(bundle)
                          then Some(EnvelopeVerdict(k, Get(bundle, CheckpointEnvelope), None, None, false)) else None
    ensures r.inclusionOk <==> Shaped(k, bundle) && Complete(bundle) && InclusionHolds(k, bundle)
    ensures r.ok <==> r.envelope.Some? && r.envelope.value.ok && r.inclusionOk
  {
    if !bundle.JObj? {
      return ProofBundleResult(false, false, None, false);
    }
    NestsIsDepth(bundle, MAX_CANONICAL_DEPTH);
    var deep := ExceedsDepth(bundle, MAX_CANONICAL_DEPTH);
    if deep || Get(bundle, SpecVersion) != JStr(BUNDLE_SPEC_VERSION) {
      return ProofBundleResult(false, false, None, false);
    }
    var envelope, leaf, txId := Get(bundle, CheckpointEnvelope), Get(bundle, Leaf), Get(bundle, CheckpointTxId);
    if !envelope.JObj? || !leaf.JObj? || !txId.JStr? || txId.s == "" {
      return ProofBundleResult(false, true, None, false);
    }
    var envResult := VerifyEnvelope(k, envelope, None, None, false);
    var failed := ProofBundleResult(false, true, Some(envResult), false);
    var doc := CanonicalJson(k, leaf);
    if doc.None? {
      return failed;
    }
    var payload := Get(envelope, Payload);
    if !payload.JObj? {
      return failed;
    }
    var count := Get(payload, LeafCount);
    if !count.JInt? {
      return failed;
    }
    var expectedRoot := HexBytes(Get(payload, MerkleRoot));
    var path := AuditPathOf(k, Get(bundle, Key.AuditPath));
    var index := Get(bundle, LeafIndex);
    if expectedRoot.None? || path.None? || |expectedRoot.value| != 32 || !index.JInt? {
      return failed;
    }
    var inclusionOk := VerifyInclusion(k.sha, Merkle.LeafHash(k.sha, doc.value), index.n, count.n, path.value,
                                       expectedRoot.value);
    return ProofBundleResult(envResult.ok && inclusionOk, true, Some(envResult), inclusionOk);
  }

  /** The bundle's leaf is the document at its index, and its path that document's audit path. */
  ghost predicate LeafAtIndex(k: Kernel, bundle: Json, docs: seq<Bytes>) {
    var doc, path, m := Canonical(k, Get(bundle, Leaf)), AuditPathOf(k, Get(bundle, Key.AuditPath)),
        Get(bundle, LeafIndex);
    m.JInt? && 0 <= m.n < |docs| && doc == Some(docs[m.n])
    && path == Some(Siblings(k.sha, m.n, LeafHashes(k.sha, docs)))
  }

  ghost predicate BundleCollides(k: Kernel, bundle: Json, docs: seq<Bytes>)
    requires InclusionHolds(k, bundle)
  {
    var doc, path := Canonical(k, Get(bundle, Leaf)).value, AuditPathOf(k, Get(bundle, Key.AuditPath)).value;
    var sides := Sides(Get(bundle, LeafIndex).n, Get(Get(Get(bundle, CheckpointEnvelope), Payload), LeafCount).n);
    Collides(k.sha, BuilderInputs(k.sha, docs), VerifierInputs(k.sha, doc, sides, path))
  }

  /** In every tree with the signed count and root, an included leaf sits at its index, or two strings actually
      hashed collide. */
  lemma BundleSoundness(k: Kernel, bundle: Json, docs: seq<Bytes>)
    requires InclusionHolds(k, bundle)
    requires Get(Get(Get(bundle, CheckpointEnvelope), Payload), LeafCount) == JInt(|docs|)
    requires HexBytes(Get(Get(Get(bundle, CheckpointEnvelope), Payload), MerkleRoot))
             == Some(Root(k.sha, LeafHashes(k.sha, docs)))
    ensures LeafAtIndex(k, bundle, docs) || BundleCollides(k, bundle, docs)
  {
    var doc, m := Canonical(k, Get(bundle, Leaf)).value, Get(bundle, LeafIndex).n;
    DocumentAtIndex(k.sha, doc, m, AuditPathOf(k, Get(bundle, Key.AuditPath)).value, docs);
  }

  /** The count and the root are the signer's: the payload they are read from hashes to the signed `payload_hash`. */
  lemma BundlePayloadIsSigned(k: Kernel, bundle: Json)
    requires Complete(bundle) && InclusionHolds(k, bundle)
    requires EnvelopeVerdict(k, Get(bundle, CheckpointEnvelope), None, None, false).ok
    ensures var env := Get(bundle, CheckpointEnvelope).fields;
            SignatureValid(k, env) && Payload in SignedScope(k.lang, env) && PayloadHash in SignedScope(k.lang, env)
            && env[PayloadHash].JStr? && CanonicalShaHex(k, env[Payload]) == Some(env[PayloadHash].s)
  {
    AcceptedEnvelope(k, Get(bundle, CheckpointEnvelope).fields, None);
  }
}
