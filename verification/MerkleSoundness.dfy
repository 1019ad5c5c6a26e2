/** What an accepted inclusion proof implies, down to a collision among the strings actually hashed. */
module MerkleSoundness {
  import opened Octets
  import opened Merkle

  /** The strings hashed while the tree over `leaves` is built. */
  ghost function TreeInputs(h: Hash, leaves: seq<Bytes>): set<Bytes> {
    if leaves == [] then {[]}
    else if |leaves| == 1 then {}
    else
      var k := Split(|leaves|);
      {[1] + Root(h, leaves[..k]) + Root(h, leaves[k..])} + TreeInputs(h, leaves[..k]) + TreeInputs(h, leaves[k..])
  }

  /** The strings hashed while a path is folded into a leaf. */
  ghost function FoldInputs(h: Hash, leaf: Bytes, sides: seq<Side>, path: seq<Bytes>): set<Bytes>
    requires |sides| == |path|
  {
    if path == [] then {}
    else
      var i := |path| - 1;
      var r := Fold(h, leaf, sides[..i], path[..i]);
      {[1] + (if sides[i].Left? then path[i] + r else r + path[i])} + FoldInputs(h, leaf, sides[..i], path[..i])
  }

  lemma CollidesGrows(h: Hash, xs: set<Bytes>, ys: set<Bytes>, xs': set<Bytes>, ys': set<Bytes>)
    requires Collides(h, xs, ys) && xs <= xs' && ys <= ys'
    ensures Collides(h, xs', ys')
  {
    var x, y :| x in xs && y in ys && x != y && h(x) == h(y);
    assert x in xs' && y in ys';
  }

  lemma {:induction false} RootLength(h: Hash, leaves: seq<Digest>)
    ensures |Root(h, leaves)| == 32
  {
  }

  lemma FoldLength(h: Hash, leaf: Bytes, sides: seq<Side>, path: seq<Bytes>)
    requires |sides| == |path|
    ensures path != [] ==> |Fold(h, leaf, sides, path)| == 32
  {
  }

  /** Two node inputs with the same hash agree part by part, or collide, unless the second one is cut elsewhere: 64
      bytes in all and its parts not 32 bytes each. */
  lemma NodeInputs(h: Hash, l: Digest, r: Digest, side: Side, sibling: Bytes, v: Bytes, xs: set<Bytes>, ys: set<Bytes>)
    requires Join(h, side, sibling, v) == NodeHash(h, l, r)
    requires |v| == 32 || |v| + |sibling| != 64
    requires [1] + l + r in xs
    requires [1] + (if side.Left? then sibling + v else v + sibling) in ys
    ensures Collides(h, xs, ys)
            || (if side.Left? then sibling == l && v == r else v == l && sibling == r)
  {
    var a, b := if side.Left? then sibling else v, if side.Left? then v else sibling;
    var x, y := [1] + l + r, [1] + (a + b);
    assert [1] + a + b == y;
    if x == y {
      assert x[1..] == l + r && y[1..] == a + b;
      assert |a| + |b| == 64;
      assert |a| == 32 && |b| == 32;
      assert (l + r)[..32] == l && (a + b)[..32] == a;
      assert (l + r)[32..] == r && (a + b)[32..] == b;
    }
  }

  /** The leaf and its first sibling cannot pass for two digests cut elsewhere. */
  predicate WellCut(leaf: Bytes, path: seq<Bytes>) {
    path == [] || |leaf| == 32 || |leaf| + |path[0]| != 64
  }

  ghost predicate TrueProof(h: Hash, leaf: Bytes, m: nat, leaves: seq<Digest>, path: seq<Bytes>)
    requires m < |leaves|
  {
    leaf == leaves[m] && path == Siblings(h, m, leaves)
  }

  /** Some string hashed by the builder and a different one hashed by the verifier have the same hash. */
  ghost predicate ProofCollides(h: Hash, leaf: Bytes, m: nat, leaves: seq<Digest>, path: seq<Bytes>)
    requires m < |leaves| && |path| == |Sides(m, |leaves|)|
  {
    Collides(h, TreeInputs(h, leaves), FoldInputs(h, leaf, Sides(m, |leaves|), path))
  }

  /** With the true size, an accepted proof is the audit path of the very leaf, or a builder string and a
      verifier string collide. */
  lemma {:induction false} PositionalSoundness(h: Hash, leaf: Bytes, m: nat, leaves: seq<Digest>, path: seq<Bytes>)
    requires Accepts(h, leaf, m, |leaves|, path, Root(h, leaves)) && WellCut(leaf, path)
    ensures TrueProof(h, leaf, m, leaves, path) || ProofCollides(h, leaf, m, leaves, path)
    decreases |leaves|
  {
    hide ProofCollides, TrueProof, TopSplits, Accepts;
    AcceptedLength(h, leaf, m, leaves, path);
    if |leaves| == 1 {
      OneLeafProof(h, leaf, m, leaves, path);
    } else if !TopSplits(h, leaf, m, leaves, path) {
      TopSplitsOrCollides(h, leaf, m, leaves, path);
    } else {
      var k := Split(|leaves|);
      var part, m' := if m < k then leaves[..k] else leaves[k..], if m < k then m else m - k;
      PartAccepts(h, leaf, m, leaves, path);
      PositionalSoundness(h, leaf, m', part, path[..|path| - 1]);
      PositionStep(h, leaf, m, leaves, path, m', part);
    }
  }

  lemma AcceptedLength(h: Hash, leaf: Bytes, m: nat, leaves: seq<Digest>, path: seq<Bytes>)
    requires Accepts(h, leaf, m, |leaves|, path, Root(h, leaves))
    ensures m < |leaves| && |path| == |Sides(m, |leaves|)|
    ensures |leaves| > 1 ==> path != []
  {
  }

  lemma OneLeafProof(h: Hash, leaf: Bytes, m: nat, leaves: seq<Digest>, path: seq<Bytes>)
    requires |leaves| == 1 && Accepts(h, leaf, m, 1, path, Root(h, leaves))
    ensures TrueProof(h, leaf, m, leaves, path)
  {
  }

  lemma PartAccepts(h: Hash, leaf: Bytes, m: nat, leaves: seq<Digest>, path: seq<Bytes>)
    requires |leaves| > 1 && Accepts(h, leaf, m, |leaves|, path, Root(h, leaves))
    requires TopSplits(h, leaf, m, leaves, path)
    ensures var k := Split(|leaves|);
            var part, m' := if m < k then leaves[..k] else leaves[k..], if m < k then m else m - k;
            Sides(m', |part|) == Sides(m, |leaves|)[..|path| - 1]
            && Accepts(h, leaf, m', |part|, path[..|path| - 1], Root(h, part))
  {
    hide Split, Sides, Root, Fold, Siblings;
    TopStep(h, m, leaves);
    var k, n := Split(|leaves|), |leaves|;
    if m < k {
      assert Sides(m, n)[..|path| - 1] == Sides(m, k);
    } else {
      assert Sides(m, n)[..|path| - 1] == Sides(m - k, n - k);
    }
  }

  lemma PositionStep(h: Hash, leaf: Bytes, m: nat, leaves: seq<Digest>, path: seq<Bytes>, m': nat, part: seq<Digest>)
    requires m < |leaves| && |leaves| > 1 && |path| == |Sides(m, |leaves|)| && path != []
    requires if m < Split(|leaves|) then m' == m && part == leaves[..Split(|leaves|)]
             else m' == m - Split(|leaves|) && part == leaves[Split(|leaves|)..]
    requires TopSplits(h, leaf, m, leaves, path)
    requires Sides(m', |part|) == Sides(m, |leaves|)[..|path| - 1]
    requires TrueProof(h, leaf, m', part, path[..|path| - 1]) || ProofCollides(h, leaf, m', part, path[..|path| - 1])
    ensures TrueProof(h, leaf, m, leaves, path) || ProofCollides(h, leaf, m, leaves, path)
  {
    hide Split, Sides, Fold, FoldInputs, TreeInputs, Collides, Root, Siblings;
    var i, sides' := |path| - 1, Sides(m', |part|);
    var xs, ys := TreeInputs(h, part), FoldInputs(h, leaf, sides', path[..i]);
    if Collides(h, xs, ys) {
      TreeInputsGrow(h, leaves);
      FoldInputsGrow(h, leaf, Sides(m, |leaves|), path);
      CollidesGrows(h, xs, ys, TreeInputs(h, leaves), FoldInputs(h, leaf, Sides(m, |leaves|), path));
    } else {
      assert leaves[m] == part[m'];
      SiblingsStep(h, m, leaves, path);
    }
  }

  lemma TreeInputsGrow(h: Hash, leaves: seq<Digest>)
    requires |leaves| > 1
    ensures TreeInputs(h, leaves[..Split(|leaves|)]) <= TreeInputs(h, leaves)
    ensures TreeInputs(h, leaves[Split(|leaves|)..]) <= TreeInputs(h, leaves)
  {
  }

  lemma FoldInputsGrow(h: Hash, leaf: Bytes, sides: seq<Side>, path: seq<Bytes>)
    requires |sides| == |path| && path != []
    ensures FoldInputs(h, leaf, sides[..|path| - 1], path[..|path| - 1]) <= FoldInputs(h, leaf, sides, path)
  {
  }

  lemma SiblingsStep(h: Hash, m: nat, leaves: seq<Digest>, path: seq<Bytes>)
    requires m < |leaves| && |leaves| > 1 && path != []
    requires var k := Split(|leaves|); var i := |path| - 1;
             if m < k then path[..i] == Siblings(h, m, leaves[..k]) && path[i] == Root(h, leaves[k..])
             else path[..i] == Siblings(h, m - k, leaves[k..]) && path[i] == Root(h, leaves[..k])
    ensures path == Siblings(h, m, leaves)
  {
    hide Split, Sides, Root, Siblings;
    TopStep(h, m, leaves);
    assert path == path[..|path| - 1] + [path[|path| - 1]];
  }

  /** The last hash of the fold is the last hash of the tree, part by part. */
  ghost predicate TopSplits(h: Hash, leaf: Bytes, m: nat, leaves: seq<Digest>, path: seq<Bytes>)
    requires m < |leaves| && |leaves| > 1 && |path| == |Sides(m, |leaves|)|
  {
    var k, i := Split(|leaves|), |path| - 1;
    var v := Fold(h, leaf, Sides(m, |leaves|)[..i], path[..i]);
    if m < k then v == Root(h, leaves[..k]) && path[i] == Root(h, leaves[k..])
    else path[i] == Root(h, leaves[..k]) && v == Root(h, leaves[k..])
  }

  lemma TopSplitsOrCollides(h: Hash, leaf: Bytes, m: nat, leaves: seq<Digest>, path: seq<Bytes>)
    requires |leaves| > 1 && Accepts(h, leaf, m, |leaves|, path, Root(h, leaves)) && WellCut(leaf, path)
    ensures |path| == |Sides(m, |leaves|)|
    ensures TopSplits(h, leaf, m, leaves, path) || ProofCollides(h, leaf, m, leaves, path)
  {
    hide Collides;
    var k, i, sides := Split(|leaves|), |path| - 1, Sides(m, |leaves|);
    RootLength(h, leaves[..k]);
    RootLength(h, leaves[k..]);
    FoldLength(h, leaf, sides[..i], path[..i]);
    NodeInputs(h, Root(h, leaves[..k]), Root(h, leaves[k..]), sides[i], path[i], Fold(h, leaf, sides[..i], path[..i]),
               TreeInputs(h, leaves), FoldInputs(h, leaf, sides, path));
  }

  /** So, collisions among the hashed strings aside, acceptance at the true size is exactly the true proof. */
  lemma ProofIsUnique(h: Hash, leaf: Bytes, m: nat, leaves: seq<Digest>, path: seq<Bytes>)
    requires m < |leaves| && WellCut(leaf, path)
    requires |path| == |Sides(m, |leaves|)| ==> !ProofCollides(h, leaf, m, leaves, path)
    ensures Accepts(h, leaf, m, |leaves|, path, Root(h, leaves)) <==> TrueProof(h, leaf, m, leaves, path)
  {
    if Accepts(h, leaf, m, |leaves|, path, Root(h, leaves)) {
      PositionalSoundness(h, leaf, m, leaves, path);
    }
    SiblingsFold(h, m, leaves);
  }

  /** Cut anywhere but in the middle, the two digests of a two-leaf tree pass for a leaf and its sibling, at either
      position, although builder and verifier hash the very same string. */
  lemma LengthConditionIsNeeded(h: Hash, a: Digest, b: Digest, l: nat)
    requires l <= 64 && l != 32
    ensures var leaf, path := (a + b)[..l], [(a + b)[l..]];
            |Sides(0, 2)| == 1 && Accepts(h, leaf, 0, 2, path, Root(h, [a, b]))
            && !TrueProof(h, leaf, 0, [a, b], path) && !ProofCollides(h, leaf, 0, [a, b], path)
    ensures var leaf, path := (a + b)[64 - l..], [(a + b)[..64 - l]];
            |Sides(1, 2)| == 1 && Accepts(h, leaf, 1, 2, path, Root(h, [a, b]))
            && !TrueProof(h, leaf, 1, [a, b], path) && !ProofCollides(h, leaf, 1, [a, b], path)
  {
    hide TreeInputs, Root, Fold, FoldInputs;
    assert Sides(0, 2) == [Right] && Sides(1, 2) == [Left];
    TwoLeafTree(h, a, b);
    assert (a + b)[..l] + (a + b)[l..] == a + b;
    assert (a + b)[..64 - l] + (a + b)[64 - l..] == a + b;
    assert [1] + (a + b)[..l] + (a + b)[l..] == [1] + (a + b);
    assert [1] + (a + b)[..64 - l] + (a + b)[64 - l..] == [1] + (a + b);
    OneJoin(h, (a + b)[..l], Right, (a + b)[l..]);
    OneJoin(h, (a + b)[64 - l..], Left, (a + b)[..64 - l]);
  }

  lemma TwoLeafTree(h: Hash, a: Digest, b: Digest)
    ensures Root(h, [a, b]) == h([1] + (a + b)) && TreeInputs(h, [a, b]) == {[1] + (a + b)}
  {
    var ls := [a, b];
    assert Split(2) == 1 && ls[..1] == [a] && ls[1..] == [b];
    assert [1] + (a + b) == [1] + a + b;
    assert TreeInputs(h, [a]) == {} && TreeInputs(h, [b]) == {};
  }

  lemma OneJoin(h: Hash, leaf: Bytes, side: Side, sibling: Bytes)
    ensures Fold(h, leaf, [side], [sibling]) == Join(h, side, sibling, leaf)
    ensures FoldInputs(h, leaf, [side], [sibling])
            == {[1] + (if side.Left? then sibling + leaf else leaf + sibling)}
  {
    FoldNothing(h, leaf);
    assert FoldInputs(h, leaf, [], []) == {};
  }

  /** Positional soundness for every tree, index and path, given only the lengths of the leaf and its first sibling. */
  ghost predicate SoundAtLengths(l: nat, s: nat) {
    forall h, leaf, m: nat, leaves: seq<Digest>, path: seq<Bytes> ::
      path != [] && |leaf| == l && |path[0]| == s && Accepts(h, leaf, m, |leaves|, path, Root(h, leaves)) ==>
        TrueProof(h, leaf, m, leaves, path) || ProofCollides(h, leaf, m, leaves, path)
  }

  /** The guard is exact: it shuts out the lengths at which the walk accepts wrong proofs, and no others. */
  lemma LengthConditionIsExact(l: nat, s: nat)
    ensures SoundAtLengths(l, s) <==> l == 32 || l + s != 64
  {
    hide TrueProof, ProofCollides, Root, Fold, Sides;
    if l == 32 || l + s != 64 {
      forall h, leaf, m: nat, leaves: seq<Digest>, path: seq<Bytes>
        | path != [] && |leaf| == l && |path[0]| == s && Accepts(h, leaf, m, |leaves|, path, Root(h, leaves))
        ensures TrueProof(h, leaf, m, leaves, path) || ProofCollides(h, leaf, m, leaves, path)
      {
        PositionalSoundness(h, leaf, m, leaves, path);
      }
    } else {
      var zero: Digest := seq(32, i => 0);
      var h: Hash := (b: Bytes) => zero;
      var leaf, path := (zero + zero)[..l], [(zero + zero)[l..]];
      LengthConditionIsNeeded(h, zero, zero, l);
      assert |leaf| == l && |path[0]| == s && |[zero, zero]| == 2;
    }
  }

  function LeafHashes(h: Hash, docs: seq<Bytes>): (ls: seq<Digest>)
    ensures |ls| == |docs| && forall i :: 0 <= i < |docs| ==> ls[i] == LeafHash(h, docs[i])
  {
    seq(|docs|, i requires 0 <= i < |docs| => LeafHash(h, docs[i]))
  }

  /** The strings hashed by whoever builds the tree over the documents. */
  ghost function BuilderInputs(h: Hash, docs: seq<Bytes>): set<Bytes> {
    (set d | d in docs :: [0] + d) + TreeInputs(h, LeafHashes(h, docs))
  }

  /** The strings hashed by whoever checks one document against a root. */
  ghost function VerifierInputs(h: Hash, doc: Bytes, sides: seq<Side>, path: seq<Bytes>): set<Bytes>
    requires |sides| == |path|
  {
    {[0] + doc} + FoldInputs(h, LeafHash(h, doc), sides, path)
  }

  lemma LeafHashParts(h: Hash, docs: seq<Bytes>, k: nat)
    requires k <= |docs|
    ensures LeafHashes(h, docs)[..k] == LeafHashes(h, docs[..k])
    ensures LeafHashes(h, docs)[k..] == LeafHashes(h, docs[k..])
  {
    hide LeafHash;
  }

  lemma BuilderParts(h: Hash, docs: seq<Bytes>, k: nat)
    requires |docs| > 1 && k == Split(|docs|)
    ensures LeafHashes(h, docs)[..k] == LeafHashes(h, docs[..k])
    ensures LeafHashes(h, docs)[k..] == LeafHashes(h, docs[k..])
    ensures BuilderInputs(h, docs[..k]) <= BuilderInputs(h, docs)
    ensures BuilderInputs(h, docs[k..]) <= BuilderInputs(h, docs)
  {
    hide TreeInputs, Split, LeafHashes;
    LeafHashParts(h, docs, k);
    TreeInputsGrow(h, LeafHashes(h, docs));
    assert forall d :: d in docs[..k] || d in docs[k..] ==> d in docs;
  }

  /** The last string hashed for a root starts with 1 only above two or more leaves. */
  lemma TopInput(h: Hash, docs: seq<Bytes>) returns (x: Bytes)
    ensures x in BuilderInputs(h, docs) && h(x) == Root(h, LeafHashes(h, docs))
    ensures |docs| <= 1 ==> |x| == 0 || x[0] == 0
    ensures |docs| == 1 ==> x == [0] + docs[0]
    ensures |docs| > 1 ==> |x| > 0 && x[0] == 1
  {
    var ls := LeafHashes(h, docs);
    if |docs| == 0 {
      x := [];
    } else if |docs| == 1 {
      x := [0] + docs[0];
    } else {
      var k := Split(|docs|);
      x := [1] + Root(h, ls[..k]) + Root(h, ls[k..]);
    }
  }

  /** A document folded by any sides and any path into the root of a tree of documents is one of them, or a
      builder string and a verifier string collide: leaf and node hashing are kept apart by their first byte. */
  lemma {:induction false} FoldedDocumentIsMember(h: Hash, doc: Bytes, sides: seq<Side>, path: seq<Bytes>,
                                                  docs: seq<Bytes>)
    requires |sides| == |path|
    requires Fold(h, LeafHash(h, doc), sides, path) == Root(h, LeafHashes(h, docs))
    ensures doc in docs || Collides(h, BuilderInputs(h, docs), VerifierInputs(h, doc, sides, path))
    decreases |path|
  {
    var leaf := LeafHash(h, doc);
    var xs, ys := BuilderInputs(h, docs), VerifierInputs(h, doc, sides, path);
    var top := TopInput(h, docs);
    if path == [] {
      var y := [0] + doc;
      assert y in ys && h(y) == h(top);
      if top == y {
        assert top[1..] == doc && ([0] + docs[0])[1..] == docs[0];
      }
    } else {
      var i := |path| - 1;
      var v := Fold(h, leaf, sides[..i], path[..i]);
      FoldLength(h, leaf, sides[..i], path[..i]);
      var y := [1] + (if sides[i].Left? then path[i] + v else v + path[i]);
      assert y in ys;
      assert [1] + path[i] + v == [1] + (path[i] + v) && [1] + v + path[i] == [1] + (v + path[i]);
      assert h(y) == h(top);
      if |docs| <= 1 {
        assert y != top;
      } else {
        var k, ls := Split(|docs|), LeafHashes(h, docs);
        BuilderParts(h, docs, k);
        RootLength(h, ls[..k]);
        RootLength(h, ls[k..]);
        NodeInputs(h, Root(h, ls[..k]), Root(h, ls[k..]), sides[i], path[i], v, xs, ys);
        var part := if sides[i].Left? then docs[k..] else docs[..k];
        if v == Root(h, LeafHashes(h, part)) {
          FoldedDocumentIsMember(h, doc, sides[..i], path[..i], part);
          if Collides(h, BuilderInputs(h, part), VerifierInputs(h, doc, sides[..i], path[..i])) {
            CollidesGrows(h, BuilderInputs(h, part), VerifierInputs(h, doc, sides[..i], path[..i]), xs, ys);
          }
        }
      }
    }
  }

  /** Membership needs neither the true index nor the true size. */
  lemma MembershipSoundness(h: Hash, doc: Bytes, m: int, n: int, path: seq<Bytes>, docs: seq<Bytes>)
    requires Accepts(h, LeafHash(h, doc), m, n, path, Root(h, LeafHashes(h, docs)))
    ensures doc in docs || Collides(h, BuilderInputs(h, docs), VerifierInputs(h, doc, Sides(m, n), path))
  {
    FoldedDocumentIsMember(h, doc, Sides(m, n), path, docs);
  }

  /** With the true count, an accepted document is the one at the claimed index, with its own audit path. */
  lemma DocumentAtIndex(h: Hash, doc: Bytes, m: nat, path: seq<Bytes>, docs: seq<Bytes>)
    requires Accepts(h, LeafHash(h, doc), m, |docs|, path, Root(h, LeafHashes(h, docs)))
    ensures (docs[m] == doc && path == Siblings(h, m, LeafHashes(h, docs)))
            || Collides(h, BuilderInputs(h, docs), VerifierInputs(h, doc, Sides(m, |docs|), path))
  {
    hide Root, Siblings, Sides, TreeInputs, FoldInputs;
    var ls, leaf := LeafHashes(h, docs), LeafHash(h, doc);
    var xs, ys := BuilderInputs(h, docs), VerifierInputs(h, doc, Sides(m, |docs|), path);
    PositionalSoundness(h, leaf, m, ls, path);
    if Collides(h, TreeInputs(h, ls), FoldInputs(h, leaf, Sides(m, |docs|), path)) {
      CollidesGrows(h, TreeInputs(h, ls), FoldInputs(h, leaf, Sides(m, |docs|), path), xs, ys);
    } else if docs[m] != doc {
      var x, y := [0] + docs[m], [0] + doc;
      assert x[1..] == docs[m] && y[1..] == doc;
      assert x in xs && y in ys && h(x) == h(y);
    }
  }
}
