/** The depth guard: how deep exports nest, and why no later canonicalization meets the bound. */
module DepthProperties {
  import opened Octets
  import opened JsonValues
  import opened KernelPrimitives
  import opened Envelopes
  import opened Evidence
  import opened EnvironmentProperties

  /** How many bundle objects the mutual recursion of bundle and export verification visits. */
  ghost function Levels(k: Kernel, bundle: Json): nat
    decreases bundle
  {
    if !bundle.JObj? then 0
    else if !Descends(k, bundle) then 1
    else
      SourceIsSmaller(bundle);
      1 + Levels(k, SourceOf(bundle))
  }

  /** Every level of nesting takes two containers, the body and the source within it. */
  lemma {:induction false} LevelsTakeDepth(k: Kernel, bundle: Json)
    ensures Levels(k, bundle) > 0 ==> Depth(bundle) >= 2 * Levels(k, bundle) - 1
    decreases bundle
  {
    hide Descends;
    if Descends(k, bundle) {
      DescendsHasSource(k, bundle);
      SourceIsSmaller(bundle);
      LevelsTakeDepth(k, SourceOf(bundle));
      GetDepth(bundle, Body);
      GetDepth(Get(bundle, Body), SourceBundle);
    } else if bundle.JObj? {
      DepthByChildren(bundle, 0);
    }
  }

  lemma RecursionIsBounded(k: Kernel, bundle: Json)
    ensures Levels(k, bundle) <= 64
  {
    hide BodyHashed, WrapperSigned, ExportShaped;
    if Descends(k, bundle) {
      NestsIsDepth(bundle, MAX_CANONICAL_DEPTH);
      LevelsTakeDepth(k, bundle);
    }
  }

  // ----- below the outer guard -----

  /** `j` is `root` or some value nested in it. */
  ghost predicate Within(j: Json, root: Json)
    decreases root
  {
    j == root || exists c :: IsChild(c, root) && c < root && Within(j, c)
  }

  lemma {:induction false} WithinIsNoDeeper(j: Json, root: Json)
    requires Within(j, root)
    ensures Depth(j) <= Depth(root)
    decreases root
  {
    if j != root {
      var c :| IsChild(c, root) && c < root && Within(j, c);
      WithinIsNoDeeper(j, c);
      ChildDepth(c, root);
    }
  }

  ghost predicate Part(a: Json, b: Json) {
    a.JObj? && b.JObj? && forall key :: key in a.fields ==> key in b.fields && a.fields[key] == b.fields[key]
  }

  /** Dropping members, as every signed scope does, never deepens an object. */
  lemma PartIsNoDeeper(a: Json, b: Json)
    requires Part(a, b)
    ensures Depth(a) <= Depth(b)
  {
    DepthByChildren(b, 0);
    if Depth(a) > Depth(b) {
      DepthByChildren(a, Depth(b) - 1);
      var c :| IsChild(c, a) && Depth(c) > Depth(b) - 1;
      assert IsChild(c, b);
      ChildDepth(c, b);
    }
  }

  lemma FlatObject(fields: map<Key, Json>, d: nat)
    requires forall key :: key in fields ==> Depth(fields[key]) <= d
    ensures Depth(JObj(fields)) <= d + 1
  {
    DepthByChildren(JObj(fields), d);
  }

  lemma ListDepth(items: seq<Json>, d: nat)
    requires forall i :: 0 <= i < |items| ==> Depth(items[i]) <= d
    ensures Depth(JArr(items)) <= d + 1
  {
    DepthByChildren(JArr(items), d);
  }

  lemma ItemsDepth(j: Json, i: nat)
    requires i < |Items(j)|
    ensures Depth(Items(j)[i]) + 1 <= Depth(j)
  {
    assert IsChild(Items(j)[i], j);
    ChildDepth(Items(j)[i], j);
  }

  lemma ProjectEventDepth(e: Json)
    ensures Depth(ProjectEvent(e)) <= Max(Depth(e), 1)
  {
    GetDepth(e, EventId);
    GetDepth(e, SignatureOk);
    GetDepth(e, PayloadBound);
    GetDepth(e, InclusionOk);
    GetDepth(e, ContentOk);
    FlatObject(ProjectEvent(e).fields, if Depth(e) > 0 then Depth(e) - 1 else 0);
  }

  lemma ProjectAttestationDepth(a: Json)
    ensures Depth(ProjectAttestation(a)) <= Max(Depth(a), 1)
  {
    GetDepth(a, Operator);
    GetDepth(a, SignatureOk);
    GetDepth(a, OperatorAddressBound);
    GetDepth(a, DataHashBound);
    GetDepth(a, SubjectRefOk);
    FlatObject(ProjectAttestation(a).fields, if Depth(a) > 0 then Depth(a) - 1 else 0);
  }

  lemma ProjectCheckpointDepth(c: Json)
    ensures Depth(ProjectCheckpoint(c)) <= Max(Depth(c), 3)
  {
    hide ProjectAttestation, Depth;
    var d := Max(Depth(c), 3);
    GetDepth(c, CheckpointTxId);
    GetDepth(c, MerkleRootOk);
    GetDepth(c, Attestations);
    NullDepth();
    var atts := Items(Get(c, Attestations));
    forall i | 0 <= i < |atts|
      ensures Depth(ProjectAttestation(atts[i])) <= d - 2
    {
      ItemsDepth(Get(c, Attestations), i);
      ProjectAttestationDepth(atts[i]);
    }
    ListDepth(ProjectAll(atts, ProjectAttestation), d - 2);
    FlatObject(ProjectCheckpoint(c).fields, d - 1);
  }

  lemma NullDepth()
    ensures Depth(JNull) == 0
    ensures forall s :: Depth(JStr(s)) == 0
  {
  }

  lemma IntDepth()
    ensures forall n :: Depth(JInt(n)) == 0
  {
  }

  /** The projection is no deeper than the verdict it is taken from, or than the five levels of its own shape. */
  lemma ProjectDepth(v: Json)
    ensures Depth(Project(v)) <= Max(Depth(v), 5)
  {
    hide ProjectEvent, ProjectCheckpoint, Depth;
    var d := Max(Depth(v), 5);
    NullDepth();
    GetDepth(v, SchemaVersion);
    GetDepth(v, Events);
    GetDepth(v, Checkpoints);
    var events, cps := Items(Get(v, Events)), Items(Get(v, Checkpoints));
    forall i | 0 <= i < |events|
      ensures Depth(ProjectEvent(events[i])) <= d - 2
    {
      ItemsDepth(Get(v, Events), i);
      ProjectEventDepth(events[i]);
    }
    forall i | 0 <= i < |cps|
      ensures Depth(ProjectCheckpoint(cps[i])) <= d - 2
    {
      ItemsDepth(Get(v, Checkpoints), i);
      ProjectCheckpointDepth(cps[i]);
    }
    ListDepth(ProjectAll(events, ProjectEvent), d - 2);
    ListDepth(ProjectAll(cps, ProjectCheckpoint), d - 2);
    FlatObject(Project(v).fields, d - 1);
  }

  lemma ScalarsAreFlat(fields: map<Key, Json>)
    requires forall key :: key in fields ==> !IsContainer(fields[key])
    ensures Depth(JObj(fields)) <= 1
  {
    FlatObject(fields, 0);
  }

  lemma ProjectedEventIsFlat(e: VerdictEvent)
    ensures Depth(ProjectEvent(EventJson(e))) <= 1
  {
    ProjectEventJson(e);
    ScalarsAreFlat(ProjectEvent(EventJson(e)).fields);
  }

  lemma ProjectedAttestationIsFlat(a: VerdictAttestation)
    ensures Depth(ProjectAttestation(AttestationJson(a))) <= 1
  {
    hide AttestationJson, Depth;
    AttestationJsonParts(a);
    ScalarsAreFlat(ProjectAttestation(AttestationJson(a)).fields);
  }

  lemma AttestationJsonParts(a: VerdictAttestation)
    ensures var j := AttestationJson(a);
            Get(j, Operator) == JStr(a.operator) && Get(j, SignatureOk) == JBool(a.signatureOk)
            && Get(j, OperatorAddressBound) == JBool(a.operatorAddressBound)
            && Get(j, DataHashBound) == JBool(a.dataHashBound)
            && Get(j, SubjectRefOk) == TriJson(a.subjectRefOk)
  {
  }

  lemma ProjectedCheckpointDepth(c: VerdictCheckpoint)
    ensures Depth(ProjectCheckpoint(CheckpointJson(c))) <= 3
  {
    hide ProjectAttestation, AttestationJson, Depth, OnChainJson;
    var j := CheckpointJson(c);
    NullDepth();
    assert Get(j, CheckpointTxId) == JStr(c.checkpointTxId) && Get(j, MerkleRootOk) == JBool(c.merkleRootOk);
    assert Get(j, Attestations) == JArr(AttestationsJson(c.attestations));
    var atts := ProjectAll(Items(Get(j, Attestations)), ProjectAttestation);
    forall i | 0 <= i < |atts|
      ensures Depth(atts[i]) <= 1
    {
      ProjectedAttestationIsFlat(c.attestations[i]);
    }
    ListDepth(atts, 1);
    BoolDepth(c.merkleRootOk);
    FlatObject(ProjectCheckpoint(j).fields, 2);
  }

  lemma BoolDepth(b: bool)
    ensures Depth(JBool(b)) == 0
  {
  }

  /** The projection of a recomputed verdict has at most five levels, however large the verdict. */
  lemma RecomputedProjectionDepth(v: VerdictObject)
    ensures Depth(Project(VerdictJson(v))) <= 5
  {
    hide ProjectEvent, ProjectCheckpoint, EventJson, CheckpointJson, Depth, VerdictJson;
    VerdictJsonParts(v);
    NullDepth();
    var j := VerdictJson(v);
    var events, cps := ProjectAll(Items(Get(j, Events)), ProjectEvent),
        ProjectAll(Items(Get(j, Checkpoints)), ProjectCheckpoint);
    forall i | 0 <= i < |events|
      ensures Depth(events[i]) <= 3
    {
      ProjectedEventIsFlat(v.events[i]);
    }
    forall i | 0 <= i < |cps|
      ensures Depth(cps[i]) <= 3
    {
      ProjectedCheckpointDepth(v.checkpoints[i]);
    }
    ListDepth(events, 3);
    ListDepth(cps, 3);
    FlatObject(Project(j).fields, 4);
  }

  /** The guard inside canonicalization stays silent: only unrepresentable text can make it fail. */
  ghost predicate OnlyTextCanFail(k: Kernel, j: Json) {
    Canonical(k, j) == if Representable(k, j) then Some(k.jcs(j)) else None
  }

  lemma ShallowIsSilent(k: Kernel, j: Json)
    requires Depth(j) <= MAX_CANONICAL_DEPTH
    ensures OnlyTextCanFail(k, j)
  {
    NestsIsDepth(j, MAX_CANONICAL_DEPTH);
  }

  /** Once the outer guard has passed, every value within the bundle, every part of such a value (all signed scopes
      are parts), and every agreement projection canonicalizes unless its text is unrepresentable. */
  lemma GuardPassesOnce(k: Kernel, bundle: Json, j: Json, scope: Json, v: VerdictObject)
    requires VersionOk(bundle) && Within(j, bundle) && Part(scope, j)
    ensures OnlyTextCanFail(k, j) && OnlyTextCanFail(k, scope)
    ensures OnlyTextCanFail(k, Project(j)) && OnlyTextCanFail(k, Project(VerdictJson(v)))
  {
    hide Canonical, Representable, OnlyTextCanFail, Project, VerdictJson, MatchesMajor;
    NestsIsDepth(bundle, MAX_CANONICAL_DEPTH);
    WithinIsNoDeeper(j, bundle);
    PartIsNoDeeper(scope, j);
    ProjectDepth(j);
    RecomputedProjectionDepth(v);
    ShallowIsSilent(k, j);
    ShallowIsSilent(k, scope);
    ShallowIsSilent(k, Project(j));
    ShallowIsSilent(k, Project(VerdictJson(v)));
  }

  /** The scopes the two signature checks canonicalize are parts of the objects they are taken from. */
  lemma ScopesAreParts(lang: Language, env: Object, bundle: Json)
    requires bundle.JObj?
    ensures Part(JObj(SignedScope(lang, env)), JObj(env)) && Part(WrapperScope(bundle), bundle)
  {
  }
}
