/** Verification of an `ario.anchor.trace/v1` body: checkpoints, events, gateways, rollup. */
module Traces {
  import opened Octets
  import opened JsonValues
  import opened KernelPrimitives
  import opened Envelopes
  import opened Merkle
  import opened MerkleJs

  datatype Status = Verified | Partial | Failed | Malformed

  datatype Outcome = Confirm | Mismatch | Unreachable

  datatype GatewayOutcome = GatewayOutcome(gateway: string, outcome: Outcome)

  datatype OnChainResult = OnChainResult(rollup: Outcome, onChainOk: Tri, perGateway: seq<GatewayOutcome>)

  datatype CheckpointNote =
    | MissingTxId | DuplicateTxId | RecordNotHex | SignatureFailed | RecordUnbound | RecordMissing
    | RootMismatch | RecordNotJson | OnChainMismatch | OnChainUnreachable

  /** The value of a checkpoint result at some moment. */
  datatype CheckpointView = CheckpointView(
    txId: string, envelopeOk: bool, merkleRootOk: bool, onChainOk: Tri, onChain: Option<OnChainResult>, ok: bool,
    notes: seq<CheckpointNote>)

  datatype EventResult = EventResult(
    eventId: string, envelopeOk: bool, payloadBindingOk: Tri, inclusionOk: bool, checkpointBound: bool, contentOk: Tri,
    ok: bool)

  /** A note of the bundle result. Only the text the exit code reads is kept. */
  datatype Note =
    | Rejected | BodyHashWrong | WrapperSignatureWrong | UnknownBodyType(bodyType: Option<string>)
    | NoFetchImplementation | CouldNotRefetch | SourceUnavailableOffline | SourceHashWrong | VerdictDisagrees
    | FromSource(note: Note)

  type Fetch = string -> Option<Bytes>

  datatype Disclosed = RawBytes(bytes: Bytes) | HexText(text: string)

  /** What the caller supplies besides the bundle; a gateway that raises answers `None`. */
  datatype Environment = Environment(gateways: seq<string>, fetch: Option<Fetch>, content: map<string, Disclosed>)

  // ----- checkpoints -----

  function RecordOf(k: Kernel, j: Json): Option<Bytes> {
    k.FromHex(Get(j, RecordBytes))
  }

  /** The record as JSON; reading a member of a parsed null throws in TypeScript and counts as no JSON there. */
  function Parsed(k: Kernel, record: Bytes): Option<Json> {
    if k.lang.TypeScript? && k.parse(record) == Some(JNull) then None else k.parse(record)
  }

  function RecordEvent(k: Kernel, record: Option<Bytes>): Json {
    if record.Some? && Parsed(k, record.value).Some? then Get(Parsed(k, record.value).value, Event) else JNull
  }

  /** The canonical envelope of a checkpoint or event; an absent one has no canonical form in TypeScript, and that of
      null in Python. */
  function EnvelopeBytes(k: Kernel, j: Json): Option<Bytes> {
    if k.lang.TypeScript? && Key.Envelope !in Fields(j) then None else Canonical(k, Get(j, Key.Envelope))
  }

  predicate RootCommitted(k: Kernel, cp: Json) {
    var committed := Get(RecordEvent(k, RecordOf(k, cp)), MerkleRoot);
    committed.JStr? && committed == Get(cp, MerkleRoot)
  }

  predicate CheckpointSigned(k: Kernel, cp: Json) {
    var r := EnvelopeVerdict(k, Get(cp, Key.Envelope), RecordOf(k, cp), None, false);
    r.ok && r.payloadHashOk == Yes
  }

  function IdNotes(txId: Json, known: map<string, Json>): seq<CheckpointNote> {
    if !txId.JStr? then [MissingTxId] else if txId.s in known then [DuplicateTxId] else []
  }

  function EnvelopeNotes(r: EnvelopeResult): seq<CheckpointNote> {
    (if !r.signatureOk then [SignatureFailed] else [])
    + (if r.payloadHashOk == No then [RecordUnbound] else if r.payloadHashOk == Unknown then [RecordMissing] else [])
  }

  function CheckpointNotes(k: Kernel, cp: Json): seq<CheckpointNote> {
    var record := RecordOf(k, cp);
    (if record.None? && Get(cp, RecordBytes).JStr? then [RecordNotHex] else [])
    + EnvelopeNotes(EnvelopeVerdict(k, Get(cp, Key.Envelope), record, None, false))
    + (if record.None? || RootCommitted(k, cp) then []
       else if Parsed(k, record.value).None? then [RecordNotJson] else [RootMismatch])
  }

  function OfflineView(k: Kernel, cp: Json, known: map<string, Json>): CheckpointView {
    var signed, root := CheckpointSigned(k, cp), RootCommitted(k, cp);
    CheckpointView(StrOr(Get(cp, TxId), ""), signed, root, Unknown, None, signed && root,
                   IdNotes(Get(cp, TxId), known) + CheckpointNotes(k, cp))
  }

  /** First occurrence of an id wins: where events look for their checkpoint. */
  function FirstWins(cps: seq<Json>): map<string, Json> {
    if cps == [] then map[]
    else
      var last, earlier := cps[|cps| - 1], FirstWins(cps[..|cps| - 1]);
      if Get(last, TxId).JStr? && Get(last, TxId).s !in earlier then earlier[Get(last, TxId).s := last] else earlier
  }

  lemma FirstWinsStart()
    ensures FirstWins([]) == map[]
  {
  }

  lemma FirstWinsStep(cps: seq<Json>, i: nat)
    requires i < |cps|
    ensures var id, earlier := Get(cps[i], TxId), FirstWins(cps[..i]);
            FirstWins(cps[..i + 1]) == if id.JStr? && id.s !in earlier then earlier[id.s := cps[i]] else earlier
  {
    assert cps[..i + 1][..i] == cps[..i];
  }

  function OfflineViews(k: Kernel, cps: seq<Json>): (views: seq<CheckpointView>)
    ensures |views| == |cps|
    ensures forall i :: 0 <= i < |cps| ==> views[i] == OfflineView(k, cps[i], FirstWins(cps[..i]))
  {
    seq(|cps|, i requires 0 <= i < |cps| => OfflineView(k, cps[i], FirstWins(cps[..i])))
  }

  // ----- events -----

  /** What counts as an integer: Python's booleans do, and so does any JavaScript number with an integral value. */
  function IntegerOf(lang: Language, j: Json): Option<int> {
    match j
    case JInt(n) => Some(n)
    case JBool(b) => if lang.Python? then Some(if b then 1 else 0) else None
    case JFloat(v) => if lang.TypeScript? && v.Floor as real == v then Some(v.Floor) else None
    case _ => None
  }

  function RealOf(j: Json): Option<real> {
    match j
    case JInt(n) => Some(n as real)
    case JBool(b) => Some(if b then 1.0 else 0.0)
    case JFloat(v) => Some(v)
    case _ => None
  }

  /** The leaf count of the TypeScript kernel; `None` where converting it to a number throws. */
  function CountOf(k: Kernel, incl: Json): Option<JsCount> {
    if LeafCount !in Fields(incl) then Some(NotANumber)
    else
      match Get(incl, LeafCount)
      case JNull => Some(Whole(0))
      case JBool(b) => Some(Whole(if b then 1 else 0))
      case JInt(n) => Some(Whole(n))
      case JFloat(v) => Some(CountOfReal(v))
      case other => k.toNumber(other)
  }

  /** Python meets a float index or count only in a one-leaf tree; otherwise its bit operations raise. */
  predicate FloatInclusion(index: Json, count: Json, leaf: Bytes, path: seq<Bytes>, root: Bytes) {
    var i, n := RealOf(index), RealOf(count);
    i.Some? && n.Some? && n.value == 1.0 && 0.0 <= i.value < 1.0 && path == [] && leaf == root
  }

  ghost predicate InclusionAccepts(k: Kernel, incl: Json, leaf: Bytes, path: seq<Bytes>, root: Bytes) {
    var i := IntegerOf(k.lang, Get(incl, LeafIndex));
    if k.lang.TypeScript? then
      i.Some? && CountOf(k, incl).Some? && JsCountAccepts(k.sha, leaf, i.value, CountOf(k, incl).value, path, root)
    else
      var n := IntegerOf(k.lang, Get(incl, LeafCount));
      if i.Some? && n.Some? then Accepts(k.sha, leaf, i.value, n.value, path, root)
      else FloatInclusion(Get(incl, LeafIndex), Get(incl, LeafCount), leaf, path, root)
  }

  /** A hex field of an inclusion proof; the TypeScript decoder takes an empty list for an empty string. */
  function HexArg(k: Kernel, j: Json): Option<Bytes> {
    if k.lang.TypeScript? && j == JArr([]) then Some([]) else k.FromHex(j)
  }

  function HexList(k: Kernel, items: seq<Json>): (path: Option<seq<Bytes>>)
    ensures path.Some? ==> |path.value| == |items|
  {
    if items == [] then Some([])
    else
      var first, rest := HexArg(k, items[0]), HexList(k, items[1..]);
      if first.Some? && rest.Some? then Some([first.value] + rest.value) else None
  }

  /** `audit_path`; what Python calls false, or null in TypeScript, counts as the empty path, and Python iterates an
      object by its names. */
  function PathOf(k: Kernel, j: Json): Option<seq<Bytes>> {
    if j.JArr? then HexList(k, j.items)
    else if k.lang.Python? && j.JObj? && j.fields != map[] then HexList(k, k.Names(j))
    else if j.JNull? || (k.lang.Python? && j in {JBool(false), JInt(0), JFloat(0.0), JStr(""), JObj(map[])}) then
      Some([])
    else None
  }

  /** The proof reconstructs the checkpoint's root. */
  ghost predicate ProofAccepted(k: Kernel, incl: Json, cp: Json) {
    var leaf, path := HexArg(k, Get(incl, Key.LeafHash)), PathOf(k, Get(incl, Key.AuditPath));
    var root := HexArg(k, Get(cp, MerkleRoot));
    leaf.Some? && path.Some? && root.Some? && InclusionAccepts(k, incl, leaf.value, path.value, root.value)
  }

  /** The claimed leaf is the hash of the event's own envelope. */
  predicate LeafMatches(k: Kernel, ev: Json) {
    var doc, claimed := EnvelopeBytes(k, ev), Get(Get(ev, Inclusion), Key.LeafHash);
    doc.Some? && claimed.JStr? && Hex(Merkle.LeafHash(k.sha, doc.value)) == Lower(claimed.s)
  }

  /** The comparison throws, and then leaves the finding of the proof as it is. */
  predicate LeafUncompared(k: Kernel, ev: Json) {
    EnvelopeBytes(k, ev).None? || !Get(Get(ev, Inclusion), Key.LeafHash).JStr?
  }

  /** The finding recorded for an event whose checkpoint is known. */
  ghost predicate Included(k: Kernel, ev: Json, cp: Json) {
    ProofAccepted(k, Get(ev, Inclusion), cp) && (LeafUncompared(k, ev) || LeafMatches(k, ev))
  }

  function CheckpointFor(ev: Json, byTxId: map<string, Json>): Option<Json> {
    var id := Get(Get(ev, Inclusion), CheckpointTxId);
    if id.JStr? && id.s in byTxId then Some(byTxId[id.s]) else None
  }

  function EventIdOf(ev: Json): string {
    StrOr(Get(Get(ev, Key.Envelope), EventId), "<unknown>")
  }

  /** The committed hashes: the record's own, else those the envelope discloses. */
  function CommittedHashes(k: Kernel, ev: Json): seq<string> {
    var ch, env := Get(RecordEvent(k, RecordOf(k, ev)), ContentHash), Get(ev, Key.Envelope);
    if ch.JStr? && ch.s != "" then [Lower(ch.s)]
    else if env.JObj? then
      var hashes := ContentHashes(k.lang, env.fields);
      seq(|hashes|, i requires 0 <= i < |hashes| => Lower(hashes[i].1))
    else []
  }

  function SideContent(k: Kernel, content: map<string, Disclosed>, eventId: string): Option<Bytes> {
    if eventId !in content then None
    else
      match content[eventId]
      case RawBytes(b) => Some(b)
      case HexText(s) => Unhex(s, k.lang.Python?)
  }

  function ContentVerdict(k: Kernel, ev: Json, content: map<string, Disclosed>): Tri {
    var committed := CommittedHashes(k, ev);
    var inBody, side := k.FromHex(Get(ev, Content)), SideContent(k, content, EventIdOf(ev));
    if inBody.Some? && side.Some? && inBody != side then No
    else
      var disclosed := if inBody.Some? then inBody else side;
      if disclosed.None? || committed == [] then Unknown
      else ToTri(k.ShaHex(disclosed.value) in committed)
  }

  ghost function EventVerdict(k: Kernel, ev: Json, byTxId: map<string, Json>,
                              content: map<string, Disclosed>): EventResult {
    var r := EnvelopeVerdict(k, Get(ev, Key.Envelope), RecordOf(k, ev), None, false);
    var cp, contentOk := CheckpointFor(ev, byTxId), ContentVerdict(k, ev, content);
    var included := cp.Some? && Included(k, ev, cp.value);
    EventResult(EventIdOf(ev), r.ok, r.payloadHashOk, included, cp.Some?, contentOk,
                r.ok && included && cp.Some? && contentOk != No)
  }

  ghost function EventVerdicts(k: Kernel, evs: seq<Json>, byTxId: map<string, Json>, content: map<string, Disclosed>)
    : (r: seq<EventResult>)
    ensures |r| == |evs| && forall i :: 0 <= i < |evs| ==> r[i] == EventVerdict(k, evs[i], byTxId, content)
  {
    seq(|evs|, i requires 0 <= i < |evs| => EventVerdict(k, evs[i], byTxId, content))
  }

  // ----- gateways -----

  function TrimSlashes(s: string): string {
    if s != "" && s[|s| - 1] == '/' then TrimSlashes(s[..|s| - 1]) else s
  }

  function Probe(k: Kernel, cp: Json, gateway: string, fetch: Fetch): Outcome {
    var got := fetch(TrimSlashes(gateway) + "/" + StrOr(Get(cp, TxId), ""));
    var expected := EnvelopeBytes(k, cp);
    if got.None? then Unreachable
    else if expected.None? then Mismatch
    else if got == expected then Confirm
    else if k.parse(got.value).Some? && Canonical(k, k.parse(got.value).value) == expected then Confirm
    else Mismatch
  }

  /** Worst finding first, then best evidence. */
  function RollupOnChain(perGateway: seq<GatewayOutcome>): OnChainResult {
    var rollup :=
      if exists g | g in perGateway :: g.outcome == Mismatch then Mismatch
      else if exists g | g in perGateway :: g.outcome == Confirm then Confirm
      else Unreachable;
    OnChainResult(rollup, if rollup == Mismatch then No else if rollup == Confirm then Yes else Unknown, perGateway)
  }

  function Refetch(k: Kernel, cp: Json, gateways: seq<string>, fetch: Fetch): OnChainResult {
    RollupOnChain(seq(|gateways|, i requires 0 <= i < |gateways| =>
                        GatewayOutcome(gateways[i], Probe(k, cp, gateways[i], fetch))))
  }

  function RollupNotes(rollup: Outcome): seq<CheckpointNote> {
    if rollup == Mismatch then [OnChainMismatch] else if rollup == Unreachable then [OnChainUnreachable] else []
  }

  function OnlineView(k: Kernel, v: CheckpointView, byTxId: map<string, Json>, gateways: seq<string>,
                      fetch: Fetch): CheckpointView {
    if v.txId !in byTxId then v
    else
      var r := Refetch(k, byTxId[v.txId], gateways, fetch);
      v.(onChain := Some(r), onChainOk := r.onChainOk, ok := v.envelopeOk && v.merkleRootOk && r.onChainOk != No,
         notes := v.notes + RollupNotes(r.rollup))
  }

  /** A resolvable checkpoint that every gateway left unanswered. */
  predicate UnreachableView(v: CheckpointView) {
    v.onChain.Some? && v.onChain.value.rollup == Unreachable
  }

  function OnlineViews(k: Kernel, cps: seq<Json>, gateways: seq<string>, fetch: Fetch): (views: seq<CheckpointView>)
    ensures |views| == |cps|
    ensures forall i :: 0 <= i < |cps| ==> views[i] == OnlineView(k, OfflineViews(k, cps)[i], FirstWins(cps),
                                                                  gateways, fetch)
  {
    seq(|cps|, i requires 0 <= i < |cps| => OnlineView(k, OfflineViews(k, cps)[i], FirstWins(cps), gateways, fetch))
  }

  function Views(k: Kernel, cps: seq<Json>, env: Environment): (views: seq<CheckpointView>)
    ensures |views| == |cps|
  {
    if env.gateways == [] || env.fetch.None? then OfflineViews(k, cps)
    else OnlineViews(k, cps, env.gateways, env.fetch.value)
  }

  predicate GatewayUnavailable(views: seq<CheckpointView>, env: Environment) {
    env.gateways != [] && (env.fetch.None? || exists v | v in views :: UnreachableView(v))
  }

  // ----- rollup -----

  predicate AnyFailure(views: seq<CheckpointView>, events: seq<EventResult>) {
    (exists v | v in views :: !v.ok) || (exists e | e in events :: !e.ok)
  }

  function TraceStatus(views: seq<CheckpointView>, events: seq<EventResult>, unavailable: bool): Status {
    if AnyFailure(views, events) then Status.Failed
    else if unavailable || (exists e | e in events :: e.payloadBindingOk == Unknown) || views == [] then Partial
    else Status.Verified
  }

  /** One checkpoint's result; the on-chain pass rewrites it in place. */
  class CheckpointResult {
    const txId: string
    const envelopeOk: bool
    const merkleRootOk: bool
    var onChainOk: Tri
    var onChain: Option<OnChainResult>
    var ok: bool
    var notes: seq<CheckpointNote>

    ghost function View(): CheckpointView
      reads this
    {
      CheckpointView(txId, envelopeOk, merkleRootOk, onChainOk, onChain, ok, notes)
    }

    constructor (txId: string, envelopeOk: bool, merkleRootOk: bool, notes: seq<CheckpointNote>)
      ensures View() == CheckpointView(txId, envelopeOk, merkleRootOk, Unknown, None, envelopeOk && merkleRootOk, notes)
    {
      this.txId, this.envelopeOk, this.merkleRootOk := txId, envelopeOk, merkleRootOk;
      onChainOk, onChain, ok, this.notes := Unknown, None, envelopeOk && merkleRootOk, notes;
    }

    method Refold(r: OnChainResult)
      modifies this
      ensures View() == old(View()).(onChain := Some(r), onChainOk := r.onChainOk,
                                     ok := envelopeOk && merkleRootOk && r.onChainOk != No,
                                     notes := old(notes) + RollupNotes(r.rollup))
    {
      onChain := Some(r);
      onChainOk := r.onChainOk;
      if r.rollup == Mismatch {
        notes := notes + [OnChainMismatch];
      } else if r.rollup == Unreachable {
        notes := notes + [OnChainUnreachable];
      }
      ok := envelopeOk && merkleRootOk && onChainOk != No;
    }
  }

  /** Reading a member raises: of anything but an object in Python, of null in TypeScript. */
  predicate Unreadable(lang: Language, j: Json) {
    if lang.Python? then !j.JObj? else j.JNull?
  }

  predicate AnyUnreadable(lang: Language, items: seq<Json>) {
    exists j | j in items :: Unreadable(lang, j)
  }

  /** One result after the other; `raised` when a checkpoint cannot be read. */
  method VerifyCheckpoints(k: Kernel, cps: seq<Json>)
    returns (results: seq<CheckpointResult>, byTxId: map<string, Json>, raised: bool)
    ensures raised == AnyUnreadable(k.lang, cps)
    ensures forall i :: 0 <= i < |results| ==> fresh(results[i])
    ensures !raised ==> byTxId == FirstWins(cps) && |results| == |cps|
    ensures !raised ==> forall i, j :: 0 <= i < j < |results| ==> results[i] != results[j]
    ensures !raised ==>
              forall i :: 0 <= i < |results| ==>
                results[i].View() == OfflineViews(k, cps)[i] && results[i].onChain.None?
  {
    hide OfflineView, EnvelopeVerdict, FirstWins, Unreadable;
    FirstWinsStart();
    assert cps[..0] == [];
    byTxId, results := map[], [];
    ghost var views := OfflineViews(k, cps);
    for i := 0 to |cps|
      invariant byTxId == FirstWins(cps[..i])
      invariant forall a :: 0 <= a < i ==> !Unreadable(k.lang, cps[a])
      invariant |results| == i && forall a :: 0 <= a < i ==> fresh(results[a])
      invariant forall a, b :: 0 <= a < b < i ==> results[a] != results[b]
      invariant forall a :: 0 <= a < i ==> results[a].View() == views[a] && results[a].onChain.None?
    {
      var cp := cps[i];
      if Unreadable(k.lang, cp) {
        return results, byTxId, true;
      }
      var result := VerifyCheckpoint(k, cp, byTxId);
      var txId := Get(cp, TxId);
      if txId.JStr? && txId.s !in byTxId {
        byTxId := byTxId[txId.s := cp];
      }
      FirstWinsStep(cps, i);
      results := results + [result];
    }
    assert cps[..|cps|] == cps;
    raised := false;
  }

  method VerifyCheckpoint(k: Kernel, cp: Json, byTxId: map<string, Json>) returns (result: CheckpointResult)
    ensures fresh(result) && result.View() == OfflineView(k, cp, byTxId) && result.onChain.None?
  {
    var txId := Get(cp, TxId);
    var notes: seq<CheckpointNote> := [];
    if !txId.JStr? {
      notes := [MissingTxId];
    } else if txId.s in byTxId {
      notes := [DuplicateTxId];
    }
    var envelopeOk, merkleRootOk, more := CheckRecord(k, cp);
    result := new CheckpointResult(StrOr(txId, ""), envelopeOk, merkleRootOk, notes + more);
  }

  method CheckRecord(k: Kernel, cp: Json) returns (envelopeOk: bool, merkleRootOk: bool, notes: seq<CheckpointNote>)
    ensures envelopeOk == CheckpointSigned(k, cp) && merkleRootOk == RootCommitted(k, cp)
            && notes == CheckpointNotes(k, cp)
  {
    hide EnvelopeVerdict;
    notes := [];
    var record := k.FromHex(Get(cp, RecordBytes));
    if record.None? && Get(cp, RecordBytes).JStr? {
      notes := [RecordNotHex];
    }
    var r := VerifyEnvelope(k, Get(cp, Key.Envelope), record, None, false);
    envelopeOk := r.ok && r.payloadHashOk == Yes;
    notes := notes + EnvelopeNotes(r);
    merkleRootOk := false;
    if record.Some? {
      var parsed := Parsed(k, record.value);
      if parsed.None? {
        notes := notes + [RecordNotJson];
      } else {
        var committed := Get(Get(parsed.value, Event), MerkleRoot);
        merkleRootOk := committed.JStr? && committed == Get(cp, MerkleRoot);
        if !merkleRootOk {
          notes := notes + [RootMismatch];
        }
      }
    }
  }

  method CheckInclusion(k: Kernel, ev: Json, cp: Json) returns (ok: bool)
    ensures ok == Included(k, ev, cp)
  {
    var incl := Get(ev, Inclusion);
    var leaf, path := HexArg(k, Get(incl, Key.LeafHash)), PathOf(k, Get(incl, Key.AuditPath));
    var root := HexArg(k, Get(cp, MerkleRoot));
    if leaf.None? || path.None? || root.None? {
      return false;
    }
    ok := CheckProof(k, incl, leaf.value, path.value, root.value);
    var doc := EnvelopeBytes(k, ev);
    if doc.None? || !Get(incl, Key.LeafHash).JStr? {
      return;
    }
    if Hex(Merkle.LeafHash(k.sha, doc.value)) != Lower(Get(incl, Key.LeafHash).s) {
      ok := false;
    }
  }

  /** `verify_inclusion` on the index and count as they come, false where it raises. */
  method CheckProof(k: Kernel, incl: Json, leaf: Bytes, path: seq<Bytes>, root: Bytes) returns (ok: bool)
    ensures ok == InclusionAccepts(k, incl, leaf, path, root)
  {
    var i := IntegerOf(k.lang, Get(incl, LeafIndex));
    if k.lang.TypeScript? {
      var count := CountOf(k, incl);
      if i.None? || count.None? {
        return false;
      }
      ok := VerifyInclusionJs(k.sha, leaf, i.value, count.value, path, root);
    } else {
      var n := IntegerOf(k.lang, Get(incl, LeafCount));
      if i.None? || n.None? {
        return FloatInclusion(Get(incl, LeafIndex), Get(incl, LeafCount), leaf, path, root);
      }
      ok := VerifyInclusion(k.sha, leaf, i.value, n.value, path, root);
    }
  }

  /** `None` when an event cannot be read. */
  method VerifyEvents(k: Kernel, evs: seq<Json>, byTxId: map<string, Json>, content: map<string, Disclosed>)
    returns (events: Option<seq<EventResult>>)
    ensures events == if AnyUnreadable(k.lang, evs) then None else Some(EventVerdicts(k, evs, byTxId, content))
  {
    hide EnvelopeVerdict, ContentVerdict, Included, CheckpointFor, EventIdOf, Unreadable;
    var results: seq<EventResult> := [];
    for i := 0 to |evs|
      invariant |results| == i
      invariant forall a :: 0 <= a < i ==> !Unreadable(k.lang, evs[a])
      invariant forall a :: 0 <= a < i ==> results[a] == EventVerdict(k, evs[a], byTxId, content)
    {
      var ev := evs[i];
      if Unreadable(k.lang, ev) {
        return None;
      }
      var r := VerifyEnvelope(k, Get(ev, Key.Envelope), k.FromHex(Get(ev, RecordBytes)), None, false);
      var cp := CheckpointFor(ev, byTxId);
      var inclusionOk := false;
      if cp.Some? {
        inclusionOk := CheckInclusion(k, ev, cp.value);
      }
      var contentOk := ContentVerdict(k, ev, content);
      results := results + [EventResult(EventIdOf(ev), r.ok, r.payloadHashOk, inclusionOk, cp.Some?, contentOk,
                                        r.ok && inclusionOk && cp.Some? && contentOk != No)];
    }
    assert results == EventVerdicts(k, evs, byTxId, content);
    return Some(results);
  }

  /** The on-chain pass: each resolvable result is refolded in place, the others are left as they were. */
  method RefetchCheckpoints(k: Kernel, results: seq<CheckpointResult>, byTxId: map<string, Json>,
                            gateways: seq<string>, fetch: Fetch)
    returns (unavailable: bool)
    requires forall i, j :: 0 <= i < j < |results| ==> results[i] != results[j]
    requires forall i :: 0 <= i < |results| ==> results[i].onChain.None?
    modifies results
    ensures forall i :: 0 <= i < |results| ==>
              results[i].View() == OnlineView(k, old(results[i].View()), byTxId, gateways, fetch)
    ensures unavailable <==> exists i :: 0 <= i < |results| && UnreachableView(results[i].View())
  {
    hide Refetch, RollupNotes;
    unavailable := false;
    for i := 0 to |results|
      invariant forall a :: 0 <= a < i ==>
                  results[a].View() == OnlineView(k, old(results[a].View()), byTxId, gateways, fetch)
      invariant forall a :: i <= a < |results| ==> results[a].View() == old(results[a].View())
      invariant unavailable <==> exists a :: 0 <= a < i && UnreachableView(results[a].View())
    {
      label before:
      var result := results[i];
      if result.txId in byTxId {
        var r := Refetch(k, byTxId[result.txId], gateways, fetch);
        result.Refold(r);
        if r.rollup == Unreachable {
          unavailable := true;
        }
      }
      assert forall a :: 0 <= a < |results| && a != i ==> results[a].View() == old@before(results[a].View());
    }
  }
}
