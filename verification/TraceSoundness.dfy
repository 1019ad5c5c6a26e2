/** What a verified anchor trace says about hashes. */
module TraceSoundness {
  import opened Octets
  import opened JsonValues
  import opened KernelPrimitives
  import opened Envelopes
  import opened Merkle
  import opened MerkleSoundness
  import opened MerkleJs
  import opened Traces
  import opened Evidence

  /** The sides an accepted proof was folded with. */
  ghost function InclusionSides(k: Kernel, incl: Json, len: nat): (sides: seq<Side>)
    ensures |sides| == len
  {
    var i, n := IntegerOf(k.lang, Get(incl, LeafIndex)), IntegerOf(k.lang, Get(incl, LeafCount));
    var js := if i.None? || CountOf(k, incl).None? then None
              else JsSidesFrom(i.value, CountOf(k, incl).value.Less1(), len);
    if k.lang.TypeScript? && js.Some? then js.value
    else if k.lang.Python? && i.Some? && n.Some? && 0 <= i.value < n.value && |Sides(i.value, n.value)| == len then
      Sides(i.value, n.value)
    else seq(len, x => Left)
  }

  lemma AcceptedIsFolded(k: Kernel, incl: Json, leaf: Bytes, path: seq<Bytes>, root: Bytes)
    requires InclusionAccepts(k, incl, leaf, path, root)
    ensures Fold(k.sha, leaf, InclusionSides(k, incl, |path|), path) == root
  {
    FoldNothing(k.sha, leaf);
  }

  /** The checkpoint's record is the preimage of the `payload_hash` its signed envelope covers, and names the root
      the checkpoint claims. */
  ghost predicate Anchored(k: Kernel, cp: Json) {
    var env, record := Get(cp, Key.Envelope), RecordOf(k, cp);
    env.JObj? && record.Some? && SignatureValid(k, env.fields)
    && PayloadHash in SignedScope(k.lang, env.fields) && env.fields[PayloadHash] == JStr(k.ShaHex(record.value))
    && k.parse(record.value).Some?
    && Get(cp, MerkleRoot).JStr? && Get(Get(k.parse(record.value).value, Event), MerkleRoot) == Get(cp, MerkleRoot)
  }

  lemma CheckpointAnchored(k: Kernel, cp: Json)
    requires CheckpointSigned(k, cp) && RootCommitted(k, cp)
    ensures Anchored(k, cp)
  {
    hide EnvelopeVerdict, SignatureValid, SignedScope, Canonical;
    EventSigned(k, cp);
    AcceptedEnvelope(k, Get(cp, Key.Envelope).fields, RecordOf(k, cp));
  }

  /** The strings hashed to fold the event's envelope along its path. */
  ghost function EventInputs(k: Kernel, ev: Json): set<Bytes> {
    var doc, incl := EnvelopeBytes(k, ev), Get(ev, Inclusion);
    var path := PathOf(k, Get(incl, Key.AuditPath));
    if doc.None? || path.None? then {}
    else VerifierInputs(k.sha, doc.value, InclusionSides(k, incl, |path.value|), path.value)
  }

  /** The event's canonical envelope is among the documents, or a builder string and a verifier string collide. */
  ghost predicate AmongOrCollides(k: Kernel, ev: Json, docs: seq<Bytes>) {
    var doc := EnvelopeBytes(k, ev);
    doc.Some? && (doc.value in docs || Collides(k.sha, BuilderInputs(k.sha, docs), EventInputs(k, ev)))
  }

  ghost predicate RootOf(k: Kernel, cp: Json, docs: seq<Bytes>) {
    HexArg(k, Get(cp, MerkleRoot)) == Some(Root(k.sha, LeafHashes(k.sha, docs)))
  }

  /** An included event whose leaf was compared is a leaf of every tree of documents with the checkpoint's root. */
  lemma InclusionSoundness(k: Kernel, ev: Json, cp: Json, docs: seq<Bytes>)
    requires Included(k, ev, cp) && !LeafUncompared(k, ev) && RootOf(k, cp, docs)
    ensures AmongOrCollides(k, ev, docs)
  {
    hide Root, InclusionAccepts, Canonical, Fold;
    var incl, doc := Get(ev, Inclusion), EnvelopeBytes(k, ev).value;
    var path := PathOf(k, Get(incl, Key.AuditPath)).value;
    var root := Root(k.sha, LeafHashes(k.sha, docs));
    LeafDecodes(k, ev);
    AcceptedIsFolded(k, incl, Merkle.LeafHash(k.sha, doc), path, root);
    FoldedDocumentIsMember(k.sha, doc, InclusionSides(k, incl, |path|), path, docs);
  }

  lemma LeafDecodes(k: Kernel, ev: Json)
    requires LeafMatches(k, ev)
    ensures HexArg(k, Get(Get(ev, Inclusion), Key.LeafHash)) == Some(Merkle.LeafHash(k.sha, EnvelopeBytes(k, ev).value))
  {
    hide EnvelopeBytes, Merkle.LeafHash, Hex;
    UnhexOfHex(Get(Get(ev, Inclusion), Key.LeafHash).s, Merkle.LeafHash(k.sha, EnvelopeBytes(k, ev).value),
               k.lang.Python?);
  }

  /** The proof claims `n` leaves, and the kernel's integers hold that. */
  ghost predicate ClaimsCount(k: Kernel, incl: Json, n: nat) {
    IntegerOf(k.lang, Get(incl, LeafIndex)).Some?
    && (if k.lang.TypeScript? then CountOf(k, incl) == Some(Whole(n)) && n <= TWO_TO_31
        else IntegerOf(k.lang, Get(incl, LeafCount)) == Some(n))
  }

  /** The event is the document at its index, with that document's audit path, or two hashed strings collide. */
  ghost predicate AtIndexOrCollides(k: Kernel, ev: Json, docs: seq<Bytes>) {
    var doc, incl := EnvelopeBytes(k, ev), Get(ev, Inclusion);
    var path, m := PathOf(k, Get(incl, Key.AuditPath)), IntegerOf(k.lang, Get(incl, LeafIndex));
    doc.Some? && path.Some? && m.Some? && 0 <= m.value < |docs|
    && ((docs[m.value] == doc.value && path.value == Siblings(k.sha, m.value, LeafHashes(k.sha, docs)))
        || Collides(k.sha, BuilderInputs(k.sha, docs), EventInputs(k, ev)))
  }

  lemma ClaimedSides(k: Kernel, incl: Json, leaf: Bytes, path: seq<Bytes>, root: Bytes, n: nat)
    requires InclusionAccepts(k, incl, leaf, path, root) && ClaimsCount(k, incl, n)
    ensures var m := IntegerOf(k.lang, Get(incl, LeafIndex)).value;
            Accepts(k.sha, leaf, m, n, path, root) && InclusionSides(k, incl, |path|) == Sides(m, n)
  {
    hide Fold, JsSides, Sides;
    var m := IntegerOf(k.lang, Get(incl, LeafIndex)).value;
    if k.lang.TypeScript? {
      WholeCountAccepts(k.sha, leaf, m, n, path, root);
      JsAgrees(k.sha, leaf, m, n, path, root);
      WalkIsSides(m, n);
      JsSidesIsWalk(m, n - 1, |path|);
    }
  }

  /** With the true count the event sits at its claimed index. */
  lemma PositionalInclusion(k: Kernel, ev: Json, cp: Json, docs: seq<Bytes>)
    requires Included(k, ev, cp) && !LeafUncompared(k, ev) && RootOf(k, cp, docs)
    requires ClaimsCount(k, Get(ev, Inclusion), |docs|)
    ensures AtIndexOrCollides(k, ev, docs)
  {
    hide Root, InclusionAccepts, Canonical, Fold, InclusionSides, ClaimsCount, Sides, Siblings, BuilderInputs,
         VerifierInputs, Collides;
    var incl, doc := Get(ev, Inclusion), EnvelopeBytes(k, ev).value;
    var path := PathOf(k, Get(incl, Key.AuditPath)).value;
    LeafDecodes(k, ev);
    assert IntegerOf(k.lang, Get(incl, LeafIndex)).Some? by {
      IndexIsInteger(k, incl, |docs|);
    }
    ClaimedSides(k, incl, Merkle.LeafHash(k.sha, doc), path, Root(k.sha, LeafHashes(k.sha, docs)), |docs|);
    DocumentAtIndex(k.sha, doc, IntegerOf(k.lang, Get(incl, LeafIndex)).value, path, docs);
  }

  lemma IndexIsInteger(k: Kernel, incl: Json, n: nat)
    requires ClaimsCount(k, incl, n)
    ensures IntegerOf(k.lang, Get(incl, LeafIndex)).Some?
  {
  }

  /** A member, and at its index if the claimed count is the true one. */
  ghost predicate Placed(k: Kernel, ev: Json, docs: seq<Bytes>) {
    AmongOrCollides(k, ev, docs) && (ClaimsCount(k, Get(ev, Inclusion), |docs|) ==> AtIndexOrCollides(k, ev, docs))
  }

  /** The event's checkpoint id resolves to an anchored checkpoint, the event is signed, and under whatever documents
      have that checkpoint's root the event is one of them, the one at its index if the claimed count is theirs. */
  ghost predicate EventSound(k: Kernel, ev: Json, cps: seq<Json>) {
    var cp := CheckpointFor(ev, FirstWins(cps));
    cp.Some? && cp.value in cps && Get(cp.value, TxId) == Get(Get(ev, Inclusion), CheckpointTxId)
    && Anchored(k, cp.value) && Included(k, ev, cp.value)
    && Get(ev, Key.Envelope).JObj? && SignatureValid(k, Get(ev, Key.Envelope).fields)
    && forall docs :: RootOf(k, cp.value, docs) ==> Placed(k, ev, docs)
  }

  lemma OkEventIsSound(k: Kernel, ev: Json, cps: seq<Json>, content: map<string, Disclosed>)
    requires EventVerdict(k, ev, FirstWins(cps), content).ok && !LeafUncompared(k, ev)
    requires forall x :: 0 <= x < |cps| ==> CheckpointSigned(k, cps[x]) && RootCommitted(k, cps[x])
    ensures EventSound(k, ev, cps)
  {
    hide *;
    OkEventParts(k, ev, FirstWins(cps), content);
    var cp := CheckpointFor(ev, FirstWins(cps)).value;
    FoundCheckpoint(ev, cps);
    var x :| 0 <= x < |cps| && cps[x] == cp;
    CheckpointAnchored(k, cp);
    forall docs | RootOf(k, cp, docs)
      ensures Placed(k, ev, docs)
    {
      InclusionSoundness(k, ev, cp, docs);
      if ClaimsCount(k, Get(ev, Inclusion), |docs|) {
        PositionalInclusion(k, ev, cp, docs);
      }
      PlacedFrom(k, ev, docs);
    }
    SoundFrom(k, ev, cps);
  }

  lemma PlacedFrom(k: Kernel, ev: Json, docs: seq<Bytes>)
    requires AmongOrCollides(k, ev, docs)
    requires ClaimsCount(k, Get(ev, Inclusion), |docs|) ==> AtIndexOrCollides(k, ev, docs)
    ensures Placed(k, ev, docs)
  {
    hide AmongOrCollides, ClaimsCount, AtIndexOrCollides;
  }

  lemma SoundFrom(k: Kernel, ev: Json, cps: seq<Json>)
    requires var cp := CheckpointFor(ev, FirstWins(cps));
             cp.Some? && cp.value in cps && Get(cp.value, TxId) == Get(Get(ev, Inclusion), CheckpointTxId)
             && Anchored(k, cp.value) && Included(k, ev, cp.value)
             && forall docs :: RootOf(k, cp.value, docs) ==> Placed(k, ev, docs)
    requires Get(ev, Key.Envelope).JObj? && SignatureValid(k, Get(ev, Key.Envelope).fields)
    ensures EventSound(k, ev, cps)
  {
    hide Anchored, Included, Placed, RootOf, SignatureValid, CheckpointFor, FirstWins;
  }

  lemma FoundCheckpoint(ev: Json, cps: seq<Json>)
    requires CheckpointFor(ev, FirstWins(cps)).Some?
    ensures var cp := CheckpointFor(ev, FirstWins(cps)).value;
            cp in cps && Get(cp, TxId) == Get(Get(ev, Inclusion), CheckpointTxId)
  {
    hide FirstWins;
    FirstWinsFinds(cps, Get(Get(ev, Inclusion), CheckpointTxId).s);
  }

  /** The claimed leaf is not the empty list. */
  predicate LeafNamed(ev: Json) {
    Get(Get(ev, Inclusion), Key.LeafHash) != JArr([])
  }

  /** In a body that hashed, every envelope canonicalizes, so only an unnamed leaf can go uncompared. */
  lemma NamedIsCompared(k: Kernel, bundle: Json, ev: Json, cp: Json)
    requires IsTrace(k, bundle) && ev in Items(Get(Get(bundle, Body), Events))
    requires Get(ev, Key.Envelope).JObj? && Included(k, ev, cp)
    requires k.lang.Python? || LeafNamed(ev)
    ensures !LeafUncompared(k, ev)
  {
    hide InclusionAccepts, PathOf, WrapperSigned, VersionOk, Nests, Representable, LeafMatches, Canonical;
    GetCanonical(k, Get(bundle, Body), Events);
    ItemCanonical(k, Get(Get(bundle, Body), Events), ev);
    GetCanonical(k, ev, Key.Envelope);
  }

  lemma ItemCanonical(k: Kernel, list: Json, item: Json)
    requires Canonical(k, list).Some? && item in Items(list)
    ensures Canonical(k, item).Some?
  {
    NestsIsDepth(list, MAX_CANONICAL_DEPTH);
    NestsIsDepth(item, MAX_CANONICAL_DEPTH);
    assert IsChild(item, list);
    ChildDepth(item, list);
  }

  /** End to end: every event of a trace that comes out verified is sound, in TypeScript provided its leaf is named. */
  lemma VerifiedTraceIsSound(k: Kernel, bundle: Json, env: Environment)
    requires IsTrace(k, bundle) && BundleVerdict(k, bundle, env).status == Status.Verified
    ensures var cps := Items(Get(Get(bundle, Body), Checkpoints));
            forall ev :: ev in Items(Get(Get(bundle, Body), Events)) && (k.lang.Python? || LeafNamed(ev)) ==>
                           EventSound(k, ev, cps)
  {
    hide BundleVerdict, IsTrace, EventVerdict, EventSound, FirstWins, CheckpointSigned, RootCommitted, LeafUncompared,
         LeafNamed, Included;
    var cps, evs := Items(Get(Get(bundle, Body), Checkpoints)), Items(Get(Get(bundle, Body), Events));
    VerifiedTraceIsOk(k, bundle, env);
    var results := EventVerdicts(k, evs, FirstWins(cps), env.content);
    forall ev | ev in evs && (k.lang.Python? || LeafNamed(ev))
      ensures EventSound(k, ev, cps)
    {
      var i :| 0 <= i < |evs| && evs[i] == ev;
      assert results[i] in results && results[i].ok;
      OkEventParts(k, ev, FirstWins(cps), env.content);
      NamedIsCompared(k, bundle, ev, CheckpointFor(ev, FirstWins(cps)).value);
      OkEventIsSound(k, ev, cps, env.content);
    }
  }

  lemma OkEventParts(k: Kernel, ev: Json, byTxId: map<string, Json>, content: map<string, Disclosed>)
    requires EventVerdict(k, ev, byTxId, content).ok
    ensures Get(ev, Key.Envelope).JObj? && SignatureValid(k, Get(ev, Key.Envelope).fields)
    ensures CheckpointFor(ev, byTxId).Some? && Included(k, ev, CheckpointFor(ev, byTxId).value)
  {
    hide Included, ContentVerdict, CheckpointFor, EnvelopeVerdict, SignatureValid;
    EventSigned(k, ev);
  }

  lemma EventSigned(k: Kernel, ev: Json)
    requires EnvelopeVerdict(k, Get(ev, Key.Envelope), RecordOf(k, ev), None, false).ok
    ensures Get(ev, Key.Envelope).JObj? && SignatureValid(k, Get(ev, Key.Envelope).fields)
  {
    AcceptedEnvelope(k, Get(ev, Key.Envelope).fields, RecordOf(k, ev));
  }

  lemma {:induction false} FirstWinsFinds(cps: seq<Json>, id: string)
    requires id in FirstWins(cps)
    ensures FirstWins(cps)[id] in cps && Get(FirstWins(cps)[id], TxId) == JStr(id)
  {
    var last, earlier := cps[|cps| - 1], FirstWins(cps[..|cps| - 1]);
    if id in earlier {
      FirstWinsFinds(cps[..|cps| - 1], id);
    }
  }

  /** A verified status leaves no checkpoint and no event unproved. */
  lemma VerifiedTraceIsOk(k: Kernel, bundle: Json, env: Environment)
    requires IsTrace(k, bundle) && BundleVerdict(k, bundle, env).status == Status.Verified
    ensures var cps, evs := Items(Get(Get(bundle, Body), Checkpoints)), Items(Get(Get(bundle, Body), Events));
            cps != []
            && (forall x :: 0 <= x < |cps| ==> CheckpointSigned(k, cps[x]) && RootCommitted(k, cps[x]))
            && (forall e :: e in EventVerdicts(k, evs, FirstWins(cps), env.content) ==>
                  e.ok && e.payloadBindingOk != Unknown)
  {
    hide EventVerdict, CheckpointSigned, RootCommitted, FirstWins, Views, BodyHashed, WrapperSigned, GatewayUnavailable;
    var cps, evs := Items(Get(Get(bundle, Body), Checkpoints)), Items(Get(Get(bundle, Body), Events));
    var views, events := Views(k, cps, env), EventVerdicts(k, evs, FirstWins(cps), env.content);
    assert TraceStatus(views, events, GatewayUnavailable(views, env)) == Status.Verified;
    forall x | 0 <= x < |cps|
      ensures CheckpointSigned(k, cps[x]) && RootCommitted(k, cps[x])
    {
      assert views[x] in views && views[x].ok;
      OkViewIsChecked(k, cps, env, x);
    }
  }

  lemma OkViewIsChecked(k: Kernel, cps: seq<Json>, env: Environment, x: nat)
    requires x < |cps| && Views(k, cps, env)[x].ok
    ensures CheckpointSigned(k, cps[x]) && RootCommitted(k, cps[x])
  {
    hide CheckpointSigned, RootCommitted, Refetch, CheckpointNotes, FirstWins;
  }
}
