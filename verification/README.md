# ario-proof: the verification kernels

The repository verifies signed evidence: Ed25519 envelopes, RFC 9162 inclusion proofs, `ario.anchor.trace/v1` bundles of
checkpoints and events, and `ario.evidence.export/v1` bundles that wrap another bundle with operator attestations and a
cached verdict. This project models the Python and TypeScript kernels, the TypeScript export composer and the Go text
scanner, and proves what a verdict means.

Layout, one module a file:

| file | module | subject |
|---|---|---|
| `Bytes.dfy` | `Octets` | bytes, hex in both spellings, the hash as a parameter, collisions |
| `Merkle.dfy`, `MerkleSoundness.dfy`, `MerkleJs.dfy` | same names | the tree, the bit walk, soundness, the 32-bit walk |
| `Json.dfy`, `Kernel.dfy` | `JsonValues`, `KernelPrimitives` | JSON values, nesting, the canonicalization guard, library calls |
| `Base64.dfy`, `RsaPss.dfy` | same names | base64url and Python's decoder of it, the readers of an attestation's signature and key |
| `Utf16.dfy`, `JsonText.dfy` | same names | the surrogate scan and the byte scanner |
| `Envelope.dfy`, `ProofBundle.dfy` | `Envelopes`, `ProofBundles` | signed envelopes and the inclusion-proof bundle |
| `Trace.dfy`, `Evidence.dfy` | `Traces`, `Evidence` | the verdict engine: trace bodies, wrapper, exports |
| `TraceSoundness.dfy`, `LeafComparison.dfy`, `EnvironmentProperties.dfy`, `ContentProperties.dfy`, `ExportProperties.dfy`, `DepthProperties.dfy`, `ExitCodes.dfy`, `Bindings.dfy` | same names | what holds of every verdict |
| `Compose.dfy` | `Composer` | the composer and its round trip |
| `PlainTraces.dfy`, `Witnesses.dfy` | same names | the simplest traces, and bundles that meet the hypotheses and reach the nesting bound |

`dafny verify dfyconfig.toml` checks everything.

How to read the statements:

- SHA-256, JCS, Ed25519, the RSA-PSS primitive and JSON parsing are fields of `Kernel`: arbitrary functions. No statement
  assumes the hash injective. A soundness lemma ends in "or `Collides`", which says that one particular string hashed by
  whoever built the tree and one particular other string hashed by the verifier have the same hash; both sets are finite
  and given by functions.
- `Kernel.lang` selects the kernel. The two follow the same steps and differ where the code differs: accepted profiles,
  annotation stripping, hex leniency, number coercions, the width of shifts, what an absent envelope canonicalizes to,
  and which values can be read at all.
- Methods follow the loops and in-place updates of the code; each is proved equal to a specification function, and the
  lemmas are about those functions. Where the code keeps a result object and rewrites it, the model has a class
  (`Traces.CheckpointResult`). Where verification raises, the methods return `None`, and `Evidence.Raises` says when (a
  reader or check of a single record returns `Checked`, with one answer for a malformed input and one for an exception);
  `BundleVerdict` is defined there too, but says nothing about the code then.
- A string the exit code looks at keeps its identity (`Note`); other message texts are dropped.

Where code and documentation disagree the model follows the code, and the exact condition is proved:

- `evidence.py` says that verification never raises (`src/ario_proof/evidence.py:23-25`). It raises on a trace body,
  checkpoint or event that cannot be read. In Python it also raises on an attestation whose signature is an odd number of
  hex digits and a newline, or is hex while the exponent is another than 65537 and the modulus has a newline behind it:
  the `$` of both patterns also matches before a final newline (`src/ario_proof/rsa_pss.py:50-51`), the decoders then
  raise (`rsa_pss.py:72`, `:85`), and the handlers catch only their own error (`rsa_pss.py:154`,
  `src/ario_proof/evidence.py:964`, `:978`). It raises on these, down the nesting, and on nothing else
  (`RaisesIsExact`), and it does so (`RaisesSomewhere`, `ReadableExportRaises`). A record that some kernel can judge
  raises in none (`JudgeableNeverThrows`), so no record of a composed export does (`ComposedNeverRaises`).
- `verify_inclusion` promises the RFC's inclusion proof (`src/ario_proof/merkle.py:82-92`) but takes bytes of any length.
  Positional soundness holds exactly unless the leaf is not 32 bytes long and makes 64 with its first sibling
  (`PositionalSoundness`, `LengthConditionIsNeeded`, `LengthConditionIsExact`). `bundle.py` passes a digest;
  `evidence.py:546-552` passes decoded hex of any length, and relies on comparing the claimed leaf afterwards.
- That comparison is announced as a must (`ts/src/evidence.ts:648-650`), but it stands in a block whose exceptions keep
  the finding made so far, and the TypeScript decoder takes an empty list for empty hex. A verified status makes the
  events that claim a given leaf sound if and only if that leaf is not the empty list (`VerifiedLeafIsExact`; for the
  recorded inclusion alone `LeafNameIsExact`), and a verified TypeScript trace with an unsound event is given
  (`VerifiedTraceWithUnsoundEvent`). In Python the empty list is never accepted, so every event is sound.
- `compose.ts` says that the cached verdict agrees with the verifier's later recompute (`ts/src/compose.ts:111-114`).
  Under disclosed content it does exactly when that content changes no event's content finding wherever content is
  read, which can be told before verifying (`ContentNeutral`, `ContentIsExact`), short of two projections that
  canonicalize alike; content that truly matches flips a verified export to failed (`TrueContentFlips`).

## Model

| member | source | states |
|---|---|---|
| `Merkle.LargestPow2LessThan` | src/ario_proof/merkle.py:120-127 | the doubling loop ends at the split point, 0 below two leaves |
| `Merkle.SplitIsTheOnlyPow2` | src/ario_proof/merkle.py:120-127 | for n of at least 2, k is the split point if and only if it is a power of two with k < n <= 2k |
| `Merkle.SidesFromBelow` | src/ario_proof/merkle.py:65-72 | the top-down split of (m, n) read from below: the first sibling follows from the parity of m and from being last, the rest is the path of (m/2, (n+1)/2) |
| `Merkle.WalkIsSides` | src/ario_proof/merkle.py:93-117 | the left/right choices the bits of `fn` and `sn` make are exactly those of the recursive split, for every index and size |
| `Merkle.VerifyInclusion` | src/ario_proof/merkle.py:75-117 | for every integer index and count, the bit walk with its inner shift loop and early rejections accepts exactly when the index is in range, the path has the length the recursive split gives, and folding it by the recursive sides gives the root; the inner loop terminates and `fn <= sn` throughout |
| `Merkle.Completeness` | src/ario_proof/merkle.py:38-117 | an audit path exists exactly for indices in range, and every leaf verifies with its audit path against the root |
| `Merkle.ProofLength` | src/ario_proof/merkle.py:93-117 | no accepted path is longer than ceil(log2 n) |
| `MerkleSoundness.PositionalSoundness` | src/ario_proof/merkle.py:53-117 | with the true count, and a path that is empty or a leaf of 32 bytes or of a length that does not make 64 with its first sibling, acceptance at m forces leaf and path to be leaf m and its audit path, or a builder string and a verifier string collide |
| `MerkleSoundness.ProofIsUnique` | src/ario_proof/merkle.py:53-117 | under the same guard and barring such a collision, acceptance at the true count is equivalent to being leaf m with its audit path |
| `MerkleSoundness.LengthConditionIsNeeded` | src/ario_proof/merkle.py:75-117 | for every l up to 64 but 32, the two digests of any two-leaf tree cut after l bytes are accepted as leaf and sibling at either position, are not the true proof, and nothing hashed collides |
| `MerkleSoundness.LengthConditionIsExact` | src/ario_proof/merkle.py:75-117 | positional soundness over all hashes, trees, indices and paths with a leaf of l bytes and a first sibling of s bytes holds if and only if l is 32 or l + s is not 64 |
| `MerkleSoundness.FoldedDocumentIsMember` | src/ario_proof/merkle.py:28-35 | whatever the sides and the path, a document folded into the root of a tree of documents is one of them or collides: the 0x00/0x01 prefixes separate leaves from nodes |
| `MerkleSoundness.MembershipSoundness` | src/ario_proof/merkle.py:28-117 | acceptance for any claimed index and count makes the document a member or yields a collision |
| `MerkleSoundness.DocumentAtIndex` | src/ario_proof/merkle.py:28-117 | with the true count, the accepted document is the one at the claimed index, with its own audit path, or a collision is produced |
| `MerkleJs.VerifyInclusionJs` | ts/src/merkle.ts:69-103 | the walk with ToInt32 shifts, for any integer index and for any count, integral, fractional or no number, equals its specification by sides; it terminates even when counters turn negative |
| `MerkleJs.NotANumberAccepts` | ts/src/merkle.ts:69-103 | an absent or non-numeric count is accepted with one-element paths only, at any index, on the side its parity says |
| `MerkleJs.JsAgrees` | ts/src/merkle.ts:69-103 | up to 2^31 leaves the 32-bit walk and the unbounded walk give the same answer on every input |
| `MerkleJs.JsRefusesAbove` | ts/src/merkle.ts:69-103 | above 2^31 leaves the 32-bit walk refuses every genuine proof of leaf 0 |
| `MerkleJs.JsBoundIsTight` | ts/src/merkle.ts:69-103 | the walks agree on all proofs for a count exactly when it is at most 2^31 |
| `JsonValues.ExceedsDepth` | src/ario_proof/canonicalize.py:45-65 | the explicit-stack walk returns true exactly when the value is a container and its recursively defined nesting exceeds the bound, for any bound and child order, by a measure on the total size on the stack |
| `JsonValues.PushChildren` | ts/src/verifier.ts:45-55 | one expansion conserves size and hands the over-deep question to the children, in whatever order they are pushed |
| `JsonValues.NestsIsDepth` | src/ario_proof/canonicalize.py:45-65 | the bounded recursive test agrees with the depth |
| `Base64.DecodeEncode` | src/ario_proof/rsa_pss.py:75-90 | decoding what was encoded gives the bytes back, for every byte string |
| `RsaPss.HexIsExact` | src/ario_proof/rsa_pss.py:62-72 | both kernels read the same texts, an even number of hex digits, as the same bytes; Python raises exactly on an odd number of digits and a newline, TypeScript never (ts/src/crypto.ts:132-135) |
| `RsaPss.Base64IsExact` | src/ario_proof/rsa_pss.py:75-85 | both kernels read the same texts, base64url characters of a length that is not 1 mod 4, as the same bytes; Python raises exactly on characters and a newline of such a length, TypeScript never (ts/src/crypto.ts:211-224) |
| `RsaPss.BytesToBigInt` | ts/src/crypto.ts:235-239 | the loop computes the big-endian number |
| `RsaPss.ExponentIsExact` | ts/src/crypto.ts:232-239 | that number is 65537 if and only if the bytes are 1, 0, 1 after any number of zeros |
| `RsaPss.VerifyRsaPssSha256` | src/ario_proof/rsa_pss.py:140-187 | the order of signature text, exponent, key and primitive: which inputs are malformed, which are false without asking the primitive, and which raise |
| `RsaPss.OnlyTheOperatorExponent` | src/ario_proof/rsa_pss.py:117-165 | nothing verifies under an exponent that reads as another number, and only readable hex verifies |
| `RsaPss.AddressBindsModulus` | src/ario_proof/rsa_pss.py:190-202 | equal addresses come from equal modulus bytes, or the two moduli collide |
| `RsaPss.RaisingIsExact` | src/ario_proof/rsa_pss.py:140-202 | checking a signature and then deriving the address raises exactly, in Python, on hex with such a newline, or on a readable signature, another exponent and a modulus with such a newline |
| `KernelPrimitives.CanonicalJson` | src/ario_proof/canonicalize.py:68-81 | bytes come back exactly for values within 128 levels whose strings hold no lone surrogate and whose numbers the canonicalization takes (the guard order of `jcs`, ts/src/verifier.ts:71-107) |
| `KernelPrimitives.MatchesMajorGrammar` | src/ario_proof/envelope.py:95-106 | a version matches exactly when it is the major or the major, a dot and one or more digits |
| `Utf16.HasLoneSurrogate` | ts/src/verifier.ts:109-123 | the pair-skipping scan finds a surrogate exactly when some code unit is a high one without a low after it or a low one without a high before it |
| `Utf16.PairedIsUtf16` | ts/src/verifier.ts:109-123 | no lone surrogate if and only if the code units are the UTF-16 encoding of some sequence of scalar values (section 2.1 of RFC 2781) |
| `JsonText.ReadHex4` | cross-kernel/vendor-agent/pkg/proof/proof.go:374-393 | four hex digits at a position, or a refusal; never reads past the end |
| `JsonText.RejectMalformedText` | cross-kernel/vendor-agent/pkg/proof/proof.go:323-371 | the index-and-flag loop accepts exactly UTF-8 that the recursive scanner accepts |
| `JsonText.ScanText` | cross-kernel/vendor-agent/pkg/proof/proof.go:323-371 | over a rendered JSON text the scanner accepts exactly when every literal's decoded code units are paired |
| `JsonText.TwoScannersOneLanguage` | cross-kernel/vendor-agent/pkg/proof/proof.go:316-371 | rendered JSON text is UTF-8, and the Go scanner accepts it exactly when the TypeScript scan passes every decoded string, that is, when each is the UTF-16 form of some text |
| `Envelopes.SameScope` | src/ario_proof/envelope.py:116-133 | two envelopes share a signed scope exactly when they agree on every name but the signatures and, for mlflow and legacy profiles, underscore names |
| `Envelopes.FirstMatch` | src/ario_proof/envelope.py:264-275 | a role is found exactly when some committed hash equals the wanted one up to case |
| `Envelopes.MatchContent` | src/ario_proof/envelope.py:264-275 | the loop with its break returns the role of the first match |
| `Envelopes.CheckPayload` | src/ario_proof/envelope.py:218-248 | the collected checks give no on any mismatch or missing `payload_hash`, unknown when there is nothing to compare, yes otherwise |
| `Envelopes.VerifyEnvelope` | src/ario_proof/envelope.py:161-290 | every field of the result for every input, in both kernels (ts/src/verifier.ts:202-315) |
| `Envelopes.AcceptedEnvelope` | src/ario_proof/envelope.py:203-290 | `ok` implies: the signature covers `payload_hash` (and `payload` if present), and that is the hash of the supplied bytes and of the canonical payload |
| `Envelopes.SignEnvelope` | src/ario_proof/envelope.py:293-324 | an envelope is returned exactly when completion and canonicalization succeed, and is the completed one plus the key's signature of its scope |
| `Envelopes.SignThenVerify` | src/ario_proof/envelope.py:161-324 | whatever `sign_envelope` returned, after any edit outside its scope, has a valid signature, and verifies exactly when its version is accepted, `payload_hash` is a string, and supplied bytes hash to it |
| `ProofBundles.VerifyProofBundle` | src/ario_proof/bundle.py:64-141 | which shape each field requires, and `ok` exactly when the embedded envelope verifies and the leaf's own bytes, the signed count and root and the claimed path (a list, or an object read by its names) meet in one inclusion proof |
| `ProofBundles.Digests` | src/ario_proof/bundle.py:118-126 | the path is usable exactly when every element decodes to 32 bytes |
| `ProofBundles.BundleSoundness` | src/ario_proof/bundle.py:96-141 | in every tree with the signed count and root, an included leaf is the document at its index with its own audit path, or two hashed strings collide |
| `ProofBundles.BundlePayloadIsSigned` | src/ario_proof/bundle.py:90-115 | the payload that count and root are read from hashes to a `payload_hash` inside the signed scope |
| `Traces.CheckpointResult.constructor` | src/ario_proof/evidence.py:479-489 | a fresh checkpoint result: no on-chain finding, `ok` from envelope and root |
| `Traces.CheckpointResult.Refold` | src/ario_proof/evidence.py:603-613 | the in-place rewrite touches the on-chain fields, `ok` and notes, and nothing else |
| `Traces.VerifyCheckpoints` | src/ario_proof/evidence.py:435-489 | raises exactly on a checkpoint that cannot be read; otherwise one distinct fresh result per checkpoint, in order, and the map in which the first checkpoint with an id wins |
| `Traces.CheckRecord` | src/ario_proof/evidence.py:451-478 | envelope with a definite payload binding, and the record's root compared with the claimed one |
| `Traces.CheckInclusion` | src/ario_proof/evidence.py:543-567 | inclusion is recorded exactly when the proof reconstructs the checkpoint's root and the claimed leaf is the hash of the event's own canonical envelope, or that comparison throws (also ts/src/evidence.ts:636-662) |
| `Traces.VerifyEvents` | src/ario_proof/evidence.py:503-585 | raises exactly on an event that cannot be read; otherwise the result of every event, in order |
| `Traces.RefetchCheckpoints` | src/ario_proof/evidence.py:596-613 | every resolvable result is refolded once from its old value, the others are unchanged, and unavailability is reported exactly when one was unreachable everywhere |
| `Evidence.VerifyAnchorTrace` | src/ario_proof/evidence.py:415-651 | raises exactly when the body, a checkpoint or an event cannot be read; otherwise the whole result, from which the lemmas below start |
| `Evidence.VerifyAttestation` | src/ario_proof/evidence.py:892-1016 | malformed, raising or judged exactly on the listed conditions, and every dimension of the result when judged |
| `Evidence.ThrowsIsNewline` | src/ario_proof/evidence.py:953-979 | a record raises if and only if the kernel is Python, the record is complete, and one of the two newlines above is in it |
| `Evidence.JudgeableNeverThrows` | src/ario_proof/evidence.py:953-979 | a record that any kernel judges, in either language, raises in no other kernel |
| `Evidence.VerifyAttestations` | src/ario_proof/evidence.py:816-822 | all records in order; otherwise the first that is not well-formed decides between malformed and raising |
| `Evidence.LastByTxId` | src/ario_proof/evidence.py:808-814 | the map in which the last checkpoint with an id wins |
| `Evidence.GroupEntries` | src/ario_proof/evidence.py:1058-1069 | one pass groups the entries: each id gets exactly its own, in record order |
| `Evidence.CountAll` | src/ario_proof/evidence.py:1093-1107 | the three counters of the two loops |
| `Evidence.BuildVerdictObject` | src/ario_proof/evidence.py:1055-1120 | the verdict object of any source result and attestations |
| `Evidence.CheckLinkage` | src/ario_proof/evidence.py:791-801 | linked means that the inline source canonicalizes and that every value with the stored hash has its canonical form, or the two collide |
| `Evidence.JudgeExport` | src/ario_proof/evidence.py:791-889 | the export result for any result of the source, or an exception exactly where the loop over the records raises |
| `Evidence.VerifyExportBody` | src/ario_proof/evidence.py:732-889 | an export body, by recursion on its inline source, terminating on the size of the bundle, raising exactly where the source does or its records do |
| `Evidence.VerifyEvidenceBundle` | src/ario_proof/evidence.py:266-407 | raises exactly where `Raises` says, and returns the verdict for every other JSON value |
| `ExportProperties.RaisesIsExact` | src/ario_proof/evidence.py:425-443 | verification raises if and only if the bundle at the bottom of the nesting is a wrapper-verified trace whose body, or one of whose checkpoints or events (504-506), cannot be read, or, in Python, some export on the way down has, behind well-formed records only, a complete one with such a newline (816-819, 958-979) |
| `TraceSoundness.InclusionSoundness` | src/ario_proof/evidence.py:543-567 | an included event whose leaf was compared is among the documents of any tree that has the checkpoint's root, or two hashed strings collide, in either kernel and whatever the claimed count |
| `TraceSoundness.PositionalInclusion` | src/ario_proof/evidence.py:543-567 | if moreover the claimed count is the number of documents (in TypeScript at most 2^31), the event is the document at its claimed index with that document's audit path, or a collision is produced |
| `TraceSoundness.NamedIsCompared` | src/ario_proof/evidence.py:543-567 | in a wrapper-verified trace the comparison cannot be skipped, but for an empty list as claimed leaf in TypeScript |
| `LeafComparison.LeafNameIsExact` | ts/src/evidence.ts:636-662 | membership holds for all events recorded as included that claim a given leaf if and only if that leaf is not the empty list |
| `LeafComparison.EmptyLeafAlwaysAccepted` | ts/src/evidence.ts:636-662 | under every TypeScript kernel and for every checkpoint over at least two documents, an event with the empty list for a leaf, index 1, count 2 and the joined top two digests for a path is recorded as included, whatever its envelope |
| `LeafComparison.VerifiedTraceWithUnsoundEvent` | ts/src/evidence.ts:636-662 | some trace is verified offline although one of its events, which claims the empty list for its leaf, is not sound in the sense of `VerifiedTraceIsSound` |
| `LeafComparison.VerifiedLeafIsExact` | ts/src/evidence.ts:636-662 | end to end and at any nesting: every event that claims a given leaf under any verified bundle is sound if and only if that leaf is not the empty list |
| `TraceSoundness.OkEventIsSound` | src/ario_proof/evidence.py:503-585 | an event that passes, its leaf compared, is signed, resolves to an anchored checkpoint of the bundle with its id, and is placed in every tree with that root |
| `TraceSoundness.VerifiedTraceIsSound` | src/ario_proof/evidence.py:435-639 | end to end: in a verified trace every event's checkpoint has a record that hashes to its signed payload hash and commits the claimed root, and the event is a leaf of every tree with that root, at its index if its count is the true one, or a collision is produced; in TypeScript for events whose claimed leaf is not the empty list |
| `EnvironmentProperties.EnvironmentIndependence` | src/ario_proof/evidence.py:587-613 | any two gateway sets and fetches give equal events, attestations, linkage, agreement and verdict projection, at any nesting |
| `EnvironmentProperties.OnlyOnChain` | src/ario_proof/evidence.py:596-613 | the on-chain pass leaves id, envelope and root findings alone and can only turn `ok` off |
| `EnvironmentProperties.ProjectionIgnores` | src/ario_proof/evidence.py:1141-1189 | verdicts with equal events and checkpoints equal but for on-chain blocks project alike, whatever their status, counts, date and summary |
| `EnvironmentProperties.ProjectionIsExact` | src/ario_proof/evidence.py:1141-1189 | two verdicts project alike if and only if they have the same findings: events but for status, checkpoints but for on-chain blocks, attestations but for gateway and level |
| `Composer.AgreementMeans` | src/ario_proof/evidence.py:829-843 | a cached verdict with the recomputed findings and representable text agrees, and one that agrees has the recomputed findings unless two different projections canonicalize alike |
| `ContentProperties.EventsComeAlike` | src/ario_proof/evidence.py:503-585 | under any two environments the events of a result differ at most in their content findings and the `ok` that follows, at any nesting |
| `ContentProperties.EventsDecide` | src/ario_proof/evidence.py:266-407 | disclosed content acts through the events alone: if they are as without it, so is the whole result, at any nesting |
| `ContentProperties.NeutralTrace` | src/ario_proof/evidence.py:654-724 | on a trace, content leaves the events alone if and only if the trace lacks its lists or no event's content finding changes |
| `ContentProperties.NeutralIsExact` | src/ario_proof/evidence.py:654-724 | at any nesting, content leaves the events as they are if and only if it is neutral: it changes no content finding of the trace at the bottom, where that trace has its lists and no export above it holds a malformed record |
| `ContentProperties.NeutralContent` | src/ario_proof/evidence.py:654-724 | neutral content changes nothing in the whole result |
| `EnvironmentProperties.GatewaysNeverImprove` | src/ario_proof/evidence.py:615-637 | in the order verified, partial, failed, a run with gateways is at least as bad as the offline run, at any nesting |
| `ExportProperties.VerifiedMeansAllTheWay` | src/ario_proof/evidence.py:850-889 | a bundle is verified if and only if it ends in a flawless trace with no gateway question open and every export above it links, agrees with its displayed verdict, and carries only attestations bound in all four dimensions, with zero failed and zero undetermined |
| `ExportProperties.VerifiedIsSoundAtTheBottom` | src/ario_proof/evidence.py:803-889 | under every verified export, however deep, lies a verified trace all of whose events are sound in the sense above |
| `ExportProperties.CountsConserve` | src/ario_proof/evidence.py:1093-1107 | the three counts of any export result sum to its events plus its attestations |
| `ExportProperties.EntriesInRecordOrder` | src/ario_proof/evidence.py:1058-1069 | a checkpoint's list is the increasing subsequence of records with its id, none left out |
| `ExportProperties.FirstAndLastAgree` | src/ario_proof/evidence.py:436-449 | with distinct string ids the first-wins map and the last-wins map (808-814) are the same |
| `ExportProperties.AttestationsAreConserved` | src/ario_proof/evidence.py:1055-1090 | with distinct ids and all attestations resolved, the lists of the verdict flatten to a permutation of the attestations, and both maps coincide |
| `DepthProperties.RecursionIsBounded` | src/ario_proof/evidence.py:291-299 | bundle and export verification recurse through at most 64 bundle objects |
| `Witnesses.BoundIsReached` | src/ario_proof/evidence.py:291-299 | 64 is reached, in both languages: some kernel and bundle recurse through exactly that many |
| `DepthProperties.GuardPassesOnce` | src/ario_proof/evidence.py:291-299 | once the outer guard passes, no canonicalization of a value in the bundle, of a part of one, or of an agreement projection meets the depth bound |
| `DepthProperties.ScopesAreParts` | src/ario_proof/evidence.py:336-344 | the signed scopes of wrapper and envelope are such parts |
| `DepthProperties.ProjectDepth` | src/ario_proof/evidence.py:1141-1189 | the projection of any cached value is no deeper than the value or than five levels |
| `DepthProperties.RecomputedProjectionDepth` | src/ario_proof/evidence.py:1141-1189 | the projection of a recomputed verdict has at most five levels, even if an attestation level or on-chain block is large |
| `Witnesses.VerifiedTraceExists` | src/ario_proof/evidence.py:615-639 | the hypotheses above can be met, in both languages: some trace with an event, checked against a gateway, is verified and does not raise |
| `Witnesses.VerifiedExportExists` | src/ario_proof/evidence.py:850-889 | so can those on exports: one over a trace with distinct ids is verified with one attestation bound in every dimension |
| `Witnesses.RaisesSomewhere` | src/ario_proof/evidence.py:435-443 | verification raises on some trace, in both languages |
| `Witnesses.ReadableExportRaises` | src/ario_proof/rsa_pss.py:62-85 | in Python it raises on some export over a trace it can read, for one record with the signature `0` and a newline, and for one with the modulus `AAA` and a newline |
| `Witnesses.CompositionExists` | ts/src/compose.ts:120-189 | under some TypeScript kernel a composition over a verified trace with a bound attestation succeeds and announces verified |
| `Witnesses.TrueContentFlips` | src/ario_proof/evidence.py:829-857 | in both languages some export verifies, and fails once content is disclosed that truly matches the committed hash of every event |
| `ExitCodes.TraceExitCode` | src/ario_proof/evidence.py:187-205 | a wrapper-verified trace exits 2 without its lists, else 1 exactly on a failed checkpoint or event, else 3 exactly when gateways were requested and there is no fetch or some resolvable checkpoint was unreachable on all of them, else 0 |
| `ExitCodes.ExportExitsAsSource` | src/ario_proof/evidence.py:845-862 | an export that is neither failed nor malformed has the status and exit code of its source |
| `ExitCodes.OfflineNeverExits3` | src/ario_proof/evidence.py:187-205 | offline, a bundle whose sources are inline down to a trace never exits 3 |
| `Bindings.EnvelopeBindsPayload` | src/ario_proof/envelope.py:218-248 | no envelope accepts two external payloads, or they collide |
| `Bindings.InlineAndExternalAgree` | src/ario_proof/envelope.py:218-248 | inline and external payload accepted together are the same bytes, or they collide |
| `Bindings.LinkBindsSource` | src/ario_proof/evidence.py:791-801 | bodies linked by the same hash hold sources of the same canonical form, or those collide |
| `Bindings.AttestationBindsEnvelope` | src/ario_proof/evidence.py:892-1016 | a passing attestation has a readable signature that verifies over its payload under the modulus whose address it names, with 65537 for an exponent if that decodes, and passes over two sources only if its checkpoint has the same canonical envelope in both, or those collide |
| `Bindings.OperatorBindsModulus` | src/ario_proof/evidence.py:967-979 | two passing attestations that name one operator, in whatever exports, have the same modulus bytes, or the two moduli collide |
| `Bindings.ContentMeans` | src/ario_proof/evidence.py:654-724 | content fails exactly on contradicting or mismatching disclosures, passes exactly when the one disclosed string hashes to a committed hash, and is undetermined otherwise |
| `Bindings.VerifiedMeansAnchored` | src/ario_proof/evidence.py:1214-1269 | in a trace verified against gateways every resolvable checkpoint was served by at least one, and every other gateway was silent rather than contradicting |
| `Bindings.ProducerClaimsAreIgnored` | src/ario_proof/evidence.py:346-407 | of wrapper-verified bundles only body, type and date matter: the asserted status and every other wrapper member change nothing in the result but the displayed copy |
| `Composer.NormalizeAttestation` | ts/src/compose.ts:99-106 | refuses exactly a record without a string signature or with one that is neither hex nor base64url; otherwise the signature becomes strict hex of the same bytes and every other member is cloned, which leaves it as it is if its numbers are within the double range |
| `Composer.NormalizeAttestations` | ts/src/compose.ts:143-144 | all records in order, or a refusal if any throws |
| `Composer.NormalizedKeepsRecord` | ts/src/compose.ts:88-106 | the same of the specification: whatever the record, transcoding keeps the signature's bytes and clones all the operator signed |
| `Composer.ClonedIsExact` | ts/src/compose.ts:100 | writing a value as JSON text and reading it again gives it back if and only if no number in it rounds to an infinity; those become null |
| `Composer.RecomputeExportVerdict` | ts/src/evidence.ts:1058-1109 | the composer's verdict, by the verifier's own path, or a refusal exactly on a record that is malformed or raises, or a source that raises |
| `Composer.ComposeExport` | ts/src/compose.ts:120-189 | a bundle is returned exactly when every throwing step passes, and its parts and the announced status, hash and count are as composed |
| `Composer.WrapperRoundTrip` | ts/src/compose.ts:161-181 | a wrapper signed without its signature member verifies with it, and stays within the depth bound |
| `Composer.CachedVerdictAgrees` | ts/src/compose.ts:146-158 | a verdict embedded in a body that canonicalizes agrees with any recomputation of equal projection |
| `Composer.ComposedExport` | ts/src/compose.ts:120-189 | what verifying a composed bundle in any environment comes to, given what the source verifies to there: signature, body hash and linkage hold, and status and verdict follow from agreement alone |
| `Composer.ComposeThenVerify` | ts/src/compose.ts:120-189 | if the public key is derived from the private key, offline verification of the composed bundle does not raise, has signature, body hash, linkage and agreement all true, and exactly the composed status and verdict, under any neutral content |
| `Composer.ComposedNeverRaises` | ts/src/compose.ts:120-189 | verifying a composed bundle does not raise, and its records raise in no kernel of either language |
| `Composer.ContentIsExact` | ts/src/compose.ts:120-189 | under any disclosed content and any nesting of the source: if the content is neutral to the source, agreement and the announced status hold; if not, the export disagrees and fails, or two different projections canonicalize alike |
| `Composer.ComposeThenVerifyOnline` | ts/src/compose.ts:120-189 | the same checks hold with any gateways and neutral content, and the status is then no better than announced |

## Left out

- SHA-256, JCS serialization, Ed25519, RSA key import and the RSA-PSS primitive, JSON parsing and the summary sentence: uninterpreted fields of `Kernel` and `Signer`; the only hypothesis ever made is that a signature made by a key verifies under it.
- Texts of per-checkpoint, per-event and per-attestation messages, except the notes the exit code reads, and with them Python's refusal to print integers of more than 4300 digits, which its JSON parser refuses already; `subject_ref` shapes only such a text and is always undetermined.
- Traces.CheckInclusion: JavaScript numbers beyond 2^53 are not rounded; what a string, list or object converts to as a number is an uninterpreted `Kernel.toNumber`, and the order of an object's names, which Python iterates when `audit_path` is an object, an uninterpreted `Kernel.memberNames`.
- Which numbers canonicalization refuses is an uninterpreted `Kernel.numberOk`.
- JsonText.TwoScannersOneLanguage: speaks of text whose literals follow section 7 of RFC 8259 between other ASCII bytes, which includes every JSON text; it is about the literals in the text, so a duplicate member that a parser drops is not excused, and whether bytes are UTF-8 is the answer of Go's library.
- JSON member names are a datatype of the names the kernels use plus numbered others; objects have no duplicate names and no member order.
- A JSON string with a lone surrogate is one that `Kernel.wellFormed` rejects, since Dafny strings hold scalar values; the code-unit scan itself is modelled in `Utf16`.
- Letter case is folded for ASCII only.
- Gateways are one function from URL to optional bytes; retries, timing and URL building beyond trailing slashes are not modelled, nor is TypeScript's default global fetch, which the caller is taken to have resolved.
- The current time in `composeExport` is the parameter `generatedAt`; the exporter seed stays behind `Signer`.
- Message and error texts of `verify_proof_bundle`.
- General equality of the two kernels: they differ on non-object envelopes and on accepted profiles; only the statements above hold across kernels.
- `normalize_floats`, the command-line tools, `ts/src/agent-proof.ts`, the vector generators, and the Go envelope functions other than the text scanner.
