/** The RFC 9162 Merkle tree: root and audit path by recursion on the split, verification by a bit walk. */
module Merkle {
  import opened Octets

  function LeafHash(h: Hash, leaf: Bytes): Digest {
    h([0] + leaf)
  }

  function NodeHash(h: Hash, left: Bytes, right: Bytes): Digest {
    h([1] + left + right)
  }

  ghost predicate IsPow2(k: nat) {
    k == 1 || (k > 1 && k % 2 == 0 && IsPow2(k / 2))
  }

  /** The split point: half of it is the split point of the tree one level up. */
  function Split(n: nat): (k: nat)
    ensures n >= 2 ==> 0 < k < n <= 2 * k
    ensures n < 2 ==> k == 0
  {
    if n < 2 then 0 else if n == 2 then 1 else 2 * Split((n + 1) / 2)
  }

  /** The split is the largest power of two below `n`. */
  lemma {:induction false} SplitIsTheOnlyPow2(n: nat, k: nat)
    requires n >= 2
    ensures k == Split(n) <==> IsPow2(k) && k < n <= 2 * k
  {
    if n > 2 {
      SplitIsTheOnlyPow2((n + 1) / 2, k / 2);
    }
  }

  method LargestPow2LessThan(n: nat) returns (k: nat)
    ensures k == Split(n)
  {
    if n < 2 {
      return 0;
    }
    k := 1;
    while k * 2 < n
      invariant IsPow2(k) && k < n
      decreases n - k
    {
      k := k * 2;
    }
    SplitIsTheOnlyPow2(n, k);
  }

  function Root(h: Hash, leaves: seq<Bytes>): Bytes {
    if leaves == [] then h([])
    else if |leaves| == 1 then leaves[0]
    else NodeHash(h, Root(h, leaves[..Split(|leaves|)]), Root(h, leaves[Split(|leaves|)..]))
  }

  /** The sibling hashes of leaf `m`, bottom up. */
  function Siblings(h: Hash, m: nat, leaves: seq<Bytes>): seq<Bytes>
    requires m < |leaves|
    decreases |leaves|
  {
    var k := Split(|leaves|);
    if |leaves| == 1 then []
    else if m < k then Siblings(h, m, leaves[..k]) + [Root(h, leaves[k..])]
    else Siblings(h, m - k, leaves[k..]) + [Root(h, leaves[..k])]
  }

  /** `None` stands for the index error. */
  function AuditPath(h: Hash, m: int, leaves: seq<Bytes>): Option<seq<Bytes>> {
    if m < 0 || m >= |leaves| then None else Some(Siblings(h, m, leaves))
  }

  /** On which side of the running hash the next path element goes. */
  datatype Side = Left | Right

  function Join(h: Hash, side: Side, sibling: Bytes, r: Bytes): Digest {
    if side.Left? then NodeHash(h, sibling, r) else NodeHash(h, r, sibling)
  }

  /** The sides on the way from leaf `m` up to the root of a tree of `n` leaves, by the recursive split. */
  ghost function Sides(m: nat, n: nat): (sides: seq<Side>)
    requires m < n
    decreases n
  {
    var k := Split(n);
    if n == 1 then []
    else if m < k then Sides(m, k) + [Right]
    else Sides(m - k, n - k) + [Left]
  }

  /** Hashing a path into a leaf, bottom up, as the last split sees it. */
  ghost function Fold(h: Hash, leaf: Bytes, sides: seq<Side>, path: seq<Bytes>): Bytes
    requires |sides| == |path|
  {
    if path == [] then leaf
    else
      var i := |path| - 1;
      Join(h, sides[i], path[i], Fold(h, leaf, sides[..i], path[..i]))
  }

  /** RFC 9162 acceptance, read off the recursive tree. */
  ghost predicate Accepts(h: Hash, leaf: Bytes, m: int, n: int, path: seq<Bytes>, root: Bytes) {
    0 <= m < n && |path| == |Sides(m, n)| && Fold(h, leaf, Sides(m, n), path) == root
  }

  // ----- the bit walk meets the recursive split -----

  /** The sides chosen by the bits of `fn` against `sn`. */
  ghost function WalkSides(fn: nat, sn: nat): (sides: seq<Side>)
    requires fn <= sn
    ensures sides == [] <==> sn == 0
    decreases sn
  {
    if sn == 0 then []
    else if fn % 2 == 1 then [Left] + WalkSides(fn / 2, sn / 2)
    else if fn < sn then [Right] + WalkSides(fn / 2, sn / 2)
    else WalkSides(fn / 2, sn / 2)
  }

  /** Bottom-up reading of the top-down split: the last leaf of an odd row moves up without a sibling. */
  ghost function FirstSide(m: nat, n: nat): seq<Side> {
    if m % 2 == 1 then [Left] else if m + 1 < n then [Right] else []
  }

  lemma {:induction false} SidesFromBelow(m: nat, n: nat)
    requires m < n && n >= 2
    ensures m / 2 < (n + 1) / 2
    ensures Sides(m, n) == FirstSide(m, n) + Sides(m / 2, (n + 1) / 2)
    decreases n
  {
    hide Sides, FirstSide;
    if n == 2 {
      SidesOfTwo(m);
    } else {
      var n', k' := (n + 1) / 2, Split((n + 1) / 2);
      if m < 2 * k' {
        SidesFromBelow(m, 2 * k');
        SidesBelowLeft(m, n, k');
      } else {
        if n - 2 * k' >= 2 {
          SidesFromBelow(m - 2 * k', n - 2 * k');
        }
        SidesBelowRight(m, n, k');
      }
    }
  }

  lemma SidesOfTwo(m: nat)
    requires m < 2
    ensures Sides(m, 2) == FirstSide(m, 2) + Sides(m / 2, 1)
  {
  }

  lemma SplitDoubles(n: nat)
    requires n > 2
    ensures Split(n) == 2 * Split((n + 1) / 2)
  {
  }

  /** The first side depends on the parity of the index and on being last, which an even split leaves alone. */
  lemma FirstSideInside(m: nat, n: nat, k': nat)
    requires m < n
    ensures m < 2 * k' < n ==> FirstSide(m, 2 * k') == FirstSide(m, n)
    ensures 2 * k' <= m ==> FirstSide(m - 2 * k', n - 2 * k') == FirstSide(m, n)
  {
  }

  lemma SidesBelowLeft(m: nat, n: nat, k': nat)
    requires n > 2 && k' == Split((n + 1) / 2) && m < 2 * k'
    requires Sides(m, 2 * k') == FirstSide(m, 2 * k') + Sides(m / 2, (2 * k' + 1) / 2)
    ensures m / 2 < (n + 1) / 2
    ensures Sides(m, n) == FirstSide(m, n) + Sides(m / 2, (n + 1) / 2)
  {
    hide Split, FirstSide;
    SplitDoubles(n);
    FirstSideInside(m, n, k');
    assert (2 * k' + 1) / 2 == k';
    var rest := Sides(m / 2, k');
    assert Sides(m, n) == (FirstSide(m, n) + rest) + [Right];
    assert Sides(m / 2, (n + 1) / 2) == rest + [Right];
    assert (FirstSide(m, n) + rest) + [Right] == FirstSide(m, n) + (rest + [Right]);
  }

  lemma SidesBelowRight(m: nat, n: nat, k': nat)
    requires n > 2 && k' == Split((n + 1) / 2) && 2 * k' <= m < n
    requires n - 2 * k' >= 2 ==>
               Sides(m - 2 * k', n - 2 * k')
               == FirstSide(m - 2 * k', n - 2 * k') + Sides((m - 2 * k') / 2, (n - 2 * k' + 1) / 2)
    ensures m / 2 < (n + 1) / 2
    ensures Sides(m, n) == FirstSide(m, n) + Sides(m / 2, (n + 1) / 2)
  {
    hide Split;
    SplitDoubles(n);
    FirstSideInside(m, n, k');
    assert (m - 2 * k') / 2 == m / 2 - k' && (n - 2 * k' + 1) / 2 == (n + 1) / 2 - k';
    var rest := Sides(m / 2 - k', (n + 1) / 2 - k');
    assert Sides(m - 2 * k', n - 2 * k') == FirstSide(m, n) + rest;
    assert Sides(m, n) == (FirstSide(m, n) + rest) + [Left];
    assert Sides(m / 2, (n + 1) / 2) == rest + [Left];
    assert (FirstSide(m, n) + rest) + [Left] == FirstSide(m, n) + (rest + [Left]);
  }

  lemma WalkSteps(fn: nat, sn: nat)
    requires fn <= sn && sn > 0
    ensures fn % 2 == 1 ==> WalkSides(fn, sn) == [Left] + WalkSides(fn / 2, sn / 2)
    ensures fn % 2 == 0 && fn < sn ==> WalkSides(fn, sn) == [Right] + WalkSides(fn / 2, sn / 2)
    ensures fn % 2 == 0 && fn == sn ==> WalkSides(fn, sn) == WalkSides(fn / 2, sn / 2)
  {
  }

  /** The recurrence of the sides, for the walk. */
  lemma WalkFromBelow(m: nat, n: nat)
    requires m < n && n >= 2
    ensures m / 2 < (n + 1) / 2
    ensures WalkSides(m, n - 1) == FirstSide(m, n) + WalkSides(m / 2, (n + 1) / 2 - 1)
  {
    hide WalkSides;
    WalkSteps(m, n - 1);
    assert (n - 1) / 2 == (n + 1) / 2 - 1;
    var rest := WalkSides(m / 2, (n + 1) / 2 - 1);
    assert [] + rest == rest;
  }

  lemma {:induction false} WalkIsSides(m: nat, n: nat)
    requires m < n
    ensures WalkSides(m, n - 1) == Sides(m, n)
    decreases n
  {
    if n >= 2 {
      hide Sides, WalkSides, FirstSide;
      SidesFromBelow(m, n);
      WalkFromBelow(m, n);
      WalkIsSides(m / 2, (n + 1) / 2);
    }
  }

  lemma {:induction false} FoldSnoc(h: Hash, leaf: Bytes, sides: seq<Side>, path: seq<Bytes>, side: Side,
                                    sibling: Bytes)
    requires |sides| == |path|
    ensures Fold(h, leaf, sides + [side], path + [sibling]) == Join(h, side, sibling, Fold(h, leaf, sides, path))
  {
    assert (sides + [side])[..|path|] == sides && (path + [sibling])[..|path|] == path;
  }

  lemma FoldNothing(h: Hash, leaf: Bytes)
    ensures Fold(h, leaf, [], []) == leaf
  {
  }

  /** The state of the walk after `i` path elements: the sides left to choose, and the hash so far. */
  ghost predicate Walking(h: Hash, leaf: Bytes, sides: seq<Side>, path: seq<Bytes>, i: nat, fn: int, sn: int, r: Bytes)
  {
    i <= |path| && i <= |sides| && 0 <= fn <= sn
    && sides[i..] == WalkSides(fn, sn) && r == Fold(h, leaf, sides[..i], path[..i])
  }

  lemma WalkStarts(h: Hash, leaf: Bytes, m: nat, n: nat, path: seq<Bytes>)
    requires m < n
    ensures Walking(h, leaf, Sides(m, n), path, 0, m, n - 1, leaf)
  {
    hide Sides, WalkSides, Fold;
    WalkIsSides(m, n);
    FoldNothing(h, leaf);
    assert Sides(m, n)[..0] == [] && path[..0] == [];
  }

  /** One path element, joined on the side the counters say. */
  lemma WalkAdvances(h: Hash, leaf: Bytes, sides: seq<Side>, path: seq<Bytes>, i: nat, fn: nat, sn: nat, r: Bytes,
                     side: Side, fn': nat, sn': nat)
    requires Walking(h, leaf, sides, path, i, fn, sn, r) && i < |path|
    requires fn' <= sn' && WalkSides(fn, sn) == [side] + WalkSides(fn', sn')
    ensures Walking(h, leaf, sides, path, i + 1, fn', sn', Join(h, side, path[i], r))
  {
    hide WalkSides, Fold, NodeHash;
    var rest := sides[i..];
    assert rest[0] == sides[i] && rest[1..] == sides[i + 1..];
    assert path[..i + 1] == path[..i] + [path[i]] && sides[..i + 1] == sides[..i] + [sides[i]];
    FoldSnoc(h, leaf, sides[..i], path[..i], side, path[i]);
  }

  lemma WalkEnds(h: Hash, leaf: Bytes, m: nat, n: nat, path: seq<Bytes>, fn: nat, sn: nat, r: Bytes, root: Bytes)
    requires m < n && Walking(h, leaf, Sides(m, n), path, |path|, fn, sn, r)
    ensures (sn == 0 && r == root) == Accepts(h, leaf, m, n, path, root)
  {
    hide Sides, Fold;
    assert path[..|path|] == path;
    if sn == 0 {
      assert Sides(m, n)[..|path|] == Sides(m, n);
    }
  }

  /** A path longer than the sides there are to choose. */
  lemma WalkIsOver(h: Hash, leaf: Bytes, m: nat, n: nat, path: seq<Bytes>, i: nat, fn: nat, r: Bytes, root: Bytes)
    requires m < n && Walking(h, leaf, Sides(m, n), path, i, fn, 0, r) && i < |path|
    ensures !Accepts(h, leaf, m, n, path, root)
  {
    hide Sides, Fold;
  }

  lemma SingleLeaf(h: Hash, leaf: Bytes, path: seq<Bytes>, root: Bytes)
    ensures Accepts(h, leaf, 0, 1, path, root) == (path == [] && leaf == root)
  {
  }

  /** The verifier as written: two counters, an inner shift loop and early rejection. */
  method VerifyInclusion(h: Hash, leaf: Bytes, leafIndex: int, totalLeaves: int, path: seq<Bytes>, expectedRoot: Bytes)
    returns (ok: bool)
    ensures ok == Accepts(h, leaf, leafIndex, totalLeaves, path, expectedRoot)
  {
    if leafIndex < 0 || leafIndex >= totalLeaves || totalLeaves == 0 {
      return false;
    }
    hide Accepts, Walking, Fold, Sides, WalkSides;
    if totalLeaves == 1 {
      SingleLeaf(h, leaf, path, expectedRoot);
      return |path| == 0 && leaf == expectedRoot;
    }
    var fn, sn, r := leafIndex, totalLeaves - 1, leaf;
    ghost var sides := Sides(leafIndex, totalLeaves);
    WalkStarts(h, leaf, leafIndex, totalLeaves, path);
    for i := 0 to |path|
      invariant 0 <= fn <= sn
      invariant Walking(h, leaf, sides, path, i, fn, sn, r)
    {
      if sn == 0 {
        WalkIsOver(h, leaf, leafIndex, totalLeaves, path, i, fn, r, expectedRoot);
        return false;
      }
      ghost var fn0, sn0, r0 := fn, sn, r;
      ghost var side := if fn % 2 == 1 || fn == sn then Left else Right;
      WalkSteps(fn, sn);
      if fn % 2 == 1 || fn == sn {
        r := NodeHash(h, path[i], r);
        if fn % 2 == 0 {
          while fn % 2 == 0 && fn != 0
            invariant 0 < fn == sn && WalkSides(fn, sn) == WalkSides(fn0, sn0)
            decreases fn
          {
            WalkSteps(fn, sn);
            fn, sn := fn / 2, sn / 2;
          }
          WalkSteps(fn, sn);
        }
      } else {
        r := NodeHash(h, r, path[i]);
      }
      fn, sn := fn / 2, sn / 2;
      WalkAdvances(h, leaf, sides, path, i, fn0, sn0, r0, side, fn, sn);
    }
    WalkEnds(h, leaf, leafIndex, totalLeaves, path, fn, sn, r, expectedRoot);
    return sn == 0 && r == expectedRoot;
  }

  // ----- completeness and proof length -----

  /** The leaf folds into the root along its siblings. */
  ghost predicate Reaches(h: Hash, m: nat, leaves: seq<Bytes>)
    requires m < |leaves|
  {
    |Siblings(h, m, leaves)| == |Sides(m, |leaves|)|
    && Fold(h, leaves[m], Sides(m, |leaves|), Siblings(h, m, leaves)) == Root(h, leaves)
  }

  lemma {:induction false} SiblingsFold(h: Hash, m: nat, leaves: seq<Bytes>)
    requires m < |leaves|
    ensures Reaches(h, m, leaves)
    decreases |leaves|
  {
    hide Reaches, Siblings, Sides, Root, Fold;
    var k := Split(|leaves|);
    if |leaves| == 1 {
      ReachesOne(h, leaves);
    } else if m < k {
      SiblingsFold(h, m, leaves[..k]);
      ReachesLeft(h, m, leaves);
    } else {
      SiblingsFold(h, m - k, leaves[k..]);
      ReachesRight(h, m, leaves);
    }
  }

  lemma ReachesOne(h: Hash, leaves: seq<Bytes>)
    requires |leaves| == 1
    ensures Reaches(h, 0, leaves)
  {
  }

  /** The definitions one level down. */
  lemma TopStep(h: Hash, m: nat, leaves: seq<Bytes>)
    requires m < |leaves| && |leaves| > 1
    ensures var k := Split(|leaves|);
            Root(h, leaves) == NodeHash(h, Root(h, leaves[..k]), Root(h, leaves[k..]))
            && (m < k ==> Sides(m, |leaves|) == Sides(m, k) + [Right]
                          && Siblings(h, m, leaves) == Siblings(h, m, leaves[..k]) + [Root(h, leaves[k..])])
            && (m >= k ==> Sides(m, |leaves|) == Sides(m - k, |leaves| - k) + [Left]
                           && Siblings(h, m, leaves) == Siblings(h, m - k, leaves[k..]) + [Root(h, leaves[..k])])
  {
    hide NodeHash, Split;
  }

  lemma ReachesLeft(h: Hash, m: nat, leaves: seq<Bytes>)
    requires m < Split(|leaves|) && Reaches(h, m, leaves[..Split(|leaves|)])
    ensures Reaches(h, m, leaves)
  {
    hide Siblings, Sides, Root, Fold, NodeHash, Split;
    var k := Split(|leaves|);
    var left := leaves[..k];
    assert |left| == k && left[m] == leaves[m];
    TopStep(h, m, leaves);
    FoldSnoc(h, left[m], Sides(m, k), Siblings(h, m, left), Right, Root(h, leaves[k..]));
    assert |Siblings(h, m, leaves)| == |Siblings(h, m, left)| + 1;
  }

  lemma ReachesRight(h: Hash, m: nat, leaves: seq<Bytes>)
    requires |leaves| > 1 && Split(|leaves|) <= m < |leaves|
    requires Reaches(h, m - Split(|leaves|), leaves[Split(|leaves|)..])
    ensures Reaches(h, m, leaves)
  {
    hide Siblings, Sides, Root, Fold, NodeHash, Split;
    var k := Split(|leaves|);
    var right, m' := leaves[k..], m - k;
    assert |right| == |leaves| - k && right[m'] == leaves[m];
    TopStep(h, m, leaves);
    FoldSnoc(h, right[m'], Sides(m', |right|), Siblings(h, m', right), Left, Root(h, leaves[..k]));
    assert |Siblings(h, m, leaves)| == |Siblings(h, m', right)| + 1;
  }

  /** An index has an audit path exactly when it names a leaf, and that leaf then verifies with it. */
  lemma Completeness(h: Hash, m: int, leaves: seq<Bytes>)
    ensures AuditPath(h, m, leaves).Some? <==> 0 <= m < |leaves|
    ensures 0 <= m < |leaves| ==>
              Accepts(h, leaves[m], m, |leaves|, AuditPath(h, m, leaves).value, Root(h, leaves))
  {
    if 0 <= m < |leaves| {
      SiblingsFold(h, m, leaves);
    }
  }

  function Pow2(e: nat): (p: nat)
    ensures p > 0
  {
    if e == 0 then 1 else 2 * Pow2(e - 1)
  }

  /** The least exponent whose power of two reaches `n`. */
  function CeilLog2(n: nat): (e: nat)
    requires n > 0
    ensures n <= Pow2(e) && (e > 0 ==> Pow2(e - 1) < n)
  {
    if n == 1 then 0 else 1 + CeilLog2((n + 1) / 2)
  }

  lemma {:induction false} SidesAreFew(m: nat, n: nat)
    requires m < n
    ensures |Sides(m, n)| <= CeilLog2(n)
    decreases n
  {
    if n >= 2 {
      SidesFromBelow(m, n);
      SidesAreFew(m / 2, (n + 1) / 2);
    }
  }

  /** No accepted proof is longer than the height of a perfect tree over the claimed leaves. */
  lemma ProofLength(h: Hash, leaf: Bytes, m: int, n: int, path: seq<Bytes>, root: Bytes)
    requires Accepts(h, leaf, m, n, path, root)
    ensures |path| <= CeilLog2(n)
  {
    SidesAreFew(m, n);
  }
}
