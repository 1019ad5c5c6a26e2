/** The inclusion walk of the TypeScript kernel, whose shifts act on the low 32 bits. */
module MerkleJs {
  import opened Octets
  import opened Merkle

  const TWO_TO_31: int := 0x8000_0000

  /** ECMA-262 ToInt32. */
  function ToInt32(x: int): (r: int)
    ensures -TWO_TO_31 <= r < TWO_TO_31
    ensures -TWO_TO_31 <= x < TWO_TO_31 ==> r == x
  {
    var u := x % 0x1_0000_0000;
    if u < TWO_TO_31 then u else u - 0x1_0000_0000
  }

  /** `x >> 1`. */
  function Shr(x: int): int {
    ToInt32(x) / 2
  }

  /** `(x & 1) === 1`. */
  predicate IsOdd(x: int) {
    ToInt32(x) % 2 == 1
  }

  function StripMeasure(fn: int): nat {
    if -TWO_TO_31 <= fn < TWO_TO_31 then (if fn < 0 then -fn else fn) else TWO_TO_31 + 1
  }

  lemma ShrShrinks(fn: int)
    ensures !IsOdd(fn) && fn != 0 ==> StripMeasure(Shr(fn)) < StripMeasure(fn)
  {
  }

  /** The inner shift loop. */
  function Strip(fn: int, sn: int): (int, int)
    decreases StripMeasure(fn)
  {
    if !IsOdd(fn) && fn != 0 then Strip(Shr(fn), Shr(sn)) else (fn, sn)
  }

  /** The sides the walk takes over a path of `len` elements; `None` when it rejects on `sn`. */
  function JsSides(fn: int, sn: int, len: nat): (sides: Option<seq<Side>>)
    ensures sides.Some? ==> |sides.value| == len
    decreases len
  {
    if len == 0 then (if sn == 0 then Some([]) else None)
    else if sn == 0 then None
    else if IsOdd(fn) || fn == sn then
      var (fn', sn') := if IsOdd(fn) then (fn, sn) else Strip(fn, sn);
      Prepend([Left], JsSides(Shr(fn'), Shr(sn'), len - 1))
    else
      Prepend([Right], JsSides(Shr(fn), Shr(sn), len - 1))
  }

  function Prepend(front: seq<Side>, back: Option<seq<Side>>): Option<seq<Side>> {
    if back.None? then None else Some(front + back.value)
  }

  lemma PrependNothing(back: Option<seq<Side>>)
    ensures Prepend([], back) == back
  {
    if back.Some? {
      assert [] + back.value == back.value;
    }
  }

  lemma PrependTwice(a: seq<Side>, b: seq<Side>, back: Option<seq<Side>>)
    ensures Prepend(a, Prepend(b, back)) == Prepend(a + b, back)
  {
    if back.Some? {
      assert a + (b + back.value) == a + b + back.value;
    }
  }

  ghost predicate JsAccepts(h: Hash, leaf: Bytes, m: int, n: int, path: seq<Bytes>, root: Bytes) {
    if m < 0 || n <= 0 || m >= n then false
    else if n == 1 then path == [] && leaf == root
    else
      var sides := JsSides(m, n - 1, |path|);
      sides.Some? && Fold(h, leaf, sides.value, path) == root
  }

  // ----- counts that are not integers -----

  /** A leaf count as the walk sees it: an integer, a number strictly between `below` and `below + 1`, or something that
      is no number, an absent count included, and compares false with everything. */
  datatype JsCount = Whole(n: int) | Fraction(below: int) | NotANumber {
    /** `count - 1`. */
    function Less1(): JsCount {
      match this
      case Whole(n) => Whole(n - 1)
      case Fraction(below) => Fraction(below - 1)
      case NotANumber => NotANumber
    }

    /** The integer part that a shift acts on; NaN counts as 0. */
    function Trunc(): int {
      match this
      case Whole(n) => n
      case Fraction(below) => if below >= 0 then below else below + 1
      case NotANumber => 0
    }

    /** `count <= 0`. */
    predicate NotPositive() {
      match this
      case Whole(n) => n <= 0
      case Fraction(below) => below < 0
      case NotANumber => false
    }

    /** `m >= count`. */
    predicate AtMost(m: int) {
      match this
      case Whole(n) => m >= n
      case Fraction(below) => m > below
      case NotANumber => false
    }
  }

  function CountOfReal(v: real): JsCount {
    if v.Floor as real == v then Whole(v.Floor) else Fraction(v.Floor)
  }

  /** The sides of the walk from any counter; only the first step sees one that is not an integer. */
  function JsSidesFrom(fn: int, sn: JsCount, len: nat): (sides: Option<seq<Side>>)
    ensures sides.Some? ==> |sides.value| == len
  {
    if sn.Whole? then JsSides(fn, sn.n, len)
    else if len == 0 then None
    else Prepend([if IsOdd(fn) then Left else Right], JsSides(Shr(fn), Shr(sn.Trunc()), len - 1))
  }

  /** Acceptance for any claimed count. */
  ghost predicate JsCountAccepts(h: Hash, leaf: Bytes, m: int, count: JsCount, path: seq<Bytes>, root: Bytes) {
    if m < 0 || count.NotPositive() || count.AtMost(m) then false
    else if count == Whole(1) then path == [] && leaf == root
    else
      var sides := JsSidesFrom(m, count.Less1(), |path|);
      sides.Some? && Fold(h, leaf, sides.value, path) == root
  }

  lemma WholeCountAccepts(h: Hash, leaf: Bytes, m: int, n: int, path: seq<Bytes>, root: Bytes)
    ensures JsCountAccepts(h, leaf, m, Whole(n), path, root) == JsAccepts(h, leaf, m, n, path, root)
  {
  }

  /** What the sides so far and those still ahead make of the whole walk. */
  ghost predicate JsWalking(h: Hash, leaf: Bytes, whole: Option<seq<Side>>, sides: seq<Side>, path: seq<Bytes>, i: nat,
                            fn: int, sn: JsCount, r: Bytes)
  {
    i <= |path| && |sides| == i && r == Fold(h, leaf, sides, path[..i])
    && whole == Prepend(sides, JsSidesFrom(fn, sn, |path| - i))
  }

  lemma JsWalkStarts(h: Hash, leaf: Bytes, path: seq<Bytes>, fn: int, sn: JsCount)
    ensures JsWalking(h, leaf, JsSidesFrom(fn, sn, |path|), [], path, 0, fn, sn, leaf)
  {
    hide JsSidesFrom, Fold;
    FoldNothing(h, leaf);
    PrependNothing(JsSidesFrom(fn, sn, |path|));
    assert path[..0] == [];
  }

  lemma JsWalkAdvances(h: Hash, leaf: Bytes, whole: Option<seq<Side>>, sides: seq<Side>, path: seq<Bytes>, i: nat,
                       fn: int, sn: JsCount, r: Bytes, side: Side, fn': int, sn': JsCount)
    requires JsWalking(h, leaf, whole, sides, path, i, fn, sn, r) && i < |path|
    requires JsSidesFrom(fn, sn, |path| - i) == Prepend([side], JsSidesFrom(fn', sn', |path| - i - 1))
    ensures JsWalking(h, leaf, whole, sides + [side], path, i + 1, fn', sn', Join(h, side, path[i], r))
  {
    hide JsSidesFrom, Fold, NodeHash, Prepend;
    assert path[..i + 1] == path[..i] + [path[i]];
    FoldSnoc(h, leaf, sides, path[..i], side, path[i]);
    PrependTwice(sides, [side], JsSidesFrom(fn', sn', |path| - i - 1));
  }

  lemma JsWalkEnds(h: Hash, leaf: Bytes, whole: Option<seq<Side>>, sides: seq<Side>, path: seq<Bytes>, fn: int,
                   sn: JsCount, r: Bytes)
    requires JsWalking(h, leaf, whole, sides, path, |path|, fn, sn, r)
    ensures whole.Some? <==> sn == Whole(0)
    ensures whole.Some? ==> |whole.value| == |path| && Fold(h, leaf, whole.value, path) == r
  {
    hide Fold;
    assert path[..|path|] == path && sides + [] == sides;
  }

  lemma JsWalkIsOver(h: Hash, leaf: Bytes, whole: Option<seq<Side>>, sides: seq<Side>, path: seq<Bytes>, i: nat,
                     fn: int, r: Bytes)
    requires JsWalking(h, leaf, whole, sides, path, i, fn, Whole(0), r) && i < |path|
    ensures whole.None?
  {
  }

  /** One step of the walk, from any counter that is not 0. */
  lemma JsStep(fn: int, sn: JsCount, len: nat)
    requires sn != Whole(0) && len > 0
    ensures IsOdd(fn) ==>
              JsSidesFrom(fn, sn, len) == Prepend([Left], JsSidesFrom(Shr(fn), Whole(Shr(sn.Trunc())), len - 1))
    ensures !IsOdd(fn) && sn != Whole(fn) ==>
              JsSidesFrom(fn, sn, len) == Prepend([Right], JsSidesFrom(Shr(fn), Whole(Shr(sn.Trunc())), len - 1))
    ensures !IsOdd(fn) && sn == Whole(fn) ==>
              var (fn', sn') := Strip(fn, fn);
              JsSidesFrom(fn, sn, len) == Prepend([Left], JsSidesFrom(Shr(fn'), Whole(Shr(sn')), len - 1))
  {
    hide Shr, IsOdd, ToInt32, Strip;
  }

  /** The walk as written, for an integer index and whatever the count is. */
  method VerifyInclusionJs(h: Hash, leaf: Bytes, leafIndex: int, totalLeaves: JsCount, path: seq<Bytes>,
                           expectedRoot: Bytes)
    returns (ok: bool)
    ensures ok == JsCountAccepts(h, leaf, leafIndex, totalLeaves, path, expectedRoot)
  {
    hide ToInt32, Shr, IsOdd, StripMeasure, JsSidesFrom, JsWalking, Fold;
    if leafIndex < 0 || totalLeaves.NotPositive() || totalLeaves.AtMost(leafIndex) {
      return false;
    }
    if totalLeaves == Whole(1) {
      return |path| == 0 && leaf == expectedRoot;
    }
    var fn, sn, r := leafIndex, totalLeaves.Less1(), leaf;
    ghost var whole, sides: seq<Side> := JsSidesFrom(fn, sn, |path|), [];
    JsWalkStarts(h, leaf, path, fn, sn);
    for i := 0 to |path|
      invariant JsWalking(h, leaf, whole, sides, path, i, fn, sn, r)
    {
      if sn == Whole(0) {
        JsWalkIsOver(h, leaf, whole, sides, path, i, fn, r);
        return false;
      }
      ghost var fn0, sn0, r0 := fn, sn, r;
      ghost var side := if IsOdd(fn) || sn == Whole(fn) then Left else Right;
      JsStep(fn, sn, |path| - i);
      if IsOdd(fn) || sn == Whole(fn) {
        r := NodeHash(h, path[i], r);
        if !IsOdd(fn) {
          var s := fn;
          while !IsOdd(fn) && fn != 0
            invariant Strip(fn, s) == Strip(fn0, fn0)
            decreases StripMeasure(fn)
          {
            ShrShrinks(fn);
            fn, s := Shr(fn), Shr(s);
          }
          sn := Whole(s);
        }
      } else {
        r := NodeHash(h, r, path[i]);
      }
      fn, sn := Shr(fn), Whole(Shr(sn.Trunc()));
      JsWalkAdvances(h, leaf, whole, sides, path, i, fn0, sn0, r0, side, fn, sn);
      sides := sides + [side];
    }
    JsWalkEnds(h, leaf, whole, sides, path, fn, sn, r);
    return sn == Whole(0) && r == expectedRoot;
  }

  /** Without a numeric count the walk accepts one-element paths only, at any index, on the side its parity says. */
  lemma NotANumberAccepts(h: Hash, leaf: Bytes, m: int, path: seq<Bytes>, root: Bytes)
    ensures JsCountAccepts(h, leaf, m, NotANumber, path, root)
            <==> m >= 0 && |path| == 1 && Join(h, if IsOdd(m) then Left else Right, path[0], leaf) == root
  {
    if |path| == 1 {
      var side := if IsOdd(m) then Left else Right;
      FoldNothing(h, leaf);
      assert Fold(h, leaf, [side], path) == Join(h, side, path[0], leaf);
      assert [side] + [] == [side];
    }
  }

  // ----- 32 bits are enough up to 2^31 leaves, and not one leaf more -----

  lemma {:induction false} StripOnEqual(fn: nat)
    requires 0 < fn < TWO_TO_31 && fn % 2 == 0
    ensures var (fn', sn') := Strip(fn, fn);
            fn' == sn' && 0 < fn' < TWO_TO_31 && fn' % 2 == 1 && WalkSides(fn', fn') == WalkSides(fn, fn)
  {
    assert WalkSides(fn, fn) == WalkSides(fn / 2, fn / 2);
    if (fn / 2) % 2 == 0 {
      StripOnEqual(fn / 2);
    }
  }

  /** One step of the 32-bit walk is one step of the walk while the counters fit. */
  lemma JsStepEqual(fn: nat, len: nat)
    requires 0 < fn < TWO_TO_31 && fn % 2 == 0 && len > 0
    ensures var fn' := Strip(fn, fn).0;
            0 < fn' < TWO_TO_31
            && JsSides(fn, fn, len) == Prepend([Left], JsSides(fn' / 2, fn' / 2, len - 1))
            && WalkSides(fn, fn) == [Left] + WalkSides(fn' / 2, fn' / 2)
  {
    StripOnEqual(fn);
  }

  lemma SmallShift(x: nat)
    requires x < TWO_TO_31
    ensures Shr(x) == x / 2 && (IsOdd(x) <==> x % 2 == 1)
  {
  }

  lemma JsStepApart(fn: nat, sn: nat, len: nat)
    requires fn <= sn < TWO_TO_31 && sn > 0 && len > 0 && (fn % 2 == 1 || fn < sn)
    ensures var side := if fn % 2 == 1 then Left else Right;
            JsSides(fn, sn, len) == Prepend([side], JsSides(fn / 2, sn / 2, len - 1))
            && WalkSides(fn, sn) == [side] + WalkSides(fn / 2, sn / 2)
  {
    hide Shr, IsOdd, ToInt32, Strip;
    SmallShift(fn);
    SmallShift(sn);
  }

  lemma {:induction false} JsSidesIsWalk(fn: nat, sn: nat, len: nat)
    requires fn <= sn < TWO_TO_31
    ensures JsSides(fn, sn, len) == if len == |WalkSides(fn, sn)| then Some(WalkSides(fn, sn)) else None
    decreases len
  {
    hide Strip, Shr, ToInt32, IsOdd;
    if len > 0 && sn > 0 {
      if fn % 2 == 1 || fn < sn {
        JsStepApart(fn, sn, len);
        JsSidesIsWalk(fn / 2, sn / 2, len - 1);
      } else {
        JsStepEqual(fn, len);
        var fn' := Strip(fn, fn).0;
        JsSidesIsWalk(fn' / 2, fn' / 2, len - 1);
      }
    }
  }

  lemma JsAgrees(h: Hash, leaf: Bytes, m: int, n: int, path: seq<Bytes>, root: Bytes)
    requires n <= TWO_TO_31
    ensures JsAccepts(h, leaf, m, n, path, root) == Accepts(h, leaf, m, n, path, root)
  {
    hide Sides, Fold;
    if 0 <= m < n {
      WalkIsSides(m, n);
      FoldNothing(h, leaf);
      JsSidesIsWalk(m, n - 1, |path|);
    }
  }

  lemma {:induction false} NegativeNeverEnds(sn: int, len: nat)
    requires -TWO_TO_31 <= sn < 0
    ensures JsSides(0, sn, len).None?
    decreases len
  {
    if len > 0 {
      NegativeNeverEnds(sn / 2, len - 1);
    }
  }

  lemma {:induction false} ShortNeverTakesLong(sn: nat, e: nat, len: nat)
    requires sn < Pow2(e) && sn < TWO_TO_31 && len > e
    ensures JsSides(0, sn, len).None?
    decreases len
  {
    if sn > 0 {
      ShortNeverTakesLong(sn / 2, e - 1, len - 1);
    }
  }

  lemma {:induction false} WalkIsLong(sn: nat, e: nat)
    requires Pow2(e) <= sn
    ensures |WalkSides(0, sn)| > e
    decreases sn
  {
    if e > 0 {
      WalkIsLong(sn / 2, e - 1);
    }
  }

  lemma {:induction false} Pow2Sum(a: nat, b: nat)
    ensures Pow2(a + b) == Pow2(a) * Pow2(b)
  {
    if a > 0 {
      Pow2Sum(a - 1, b);
    }
  }

  lemma Pow2Of30And31()
    ensures Pow2(30) == 0x4000_0000 && Pow2(31) == TWO_TO_31
  {
    assert Pow2(2) == 4;
    Pow2Sum(2, 3);
    Pow2Sum(5, 5);
    hide Pow2;
    Pow2Sum(10, 10);
    Pow2Sum(10, 20);
    Pow2Sum(1, 30);
  }

  lemma FirstShift(sn: nat, len: nat)
    requires sn >= TWO_TO_31 && len > 31
    ensures JsSides(0, sn, len).None?
  {
    var sn' := Shr(sn);
    assert JsSides(0, sn, len) == Prepend([Right], JsSides(Shr(0), sn', len - 1));
    Pow2Of30And31();
    if sn' < 0 {
      NegativeNeverEnds(sn', len - 1);
    } else {
      ShortNeverTakesLong(sn', 30, len - 1);
    }
  }

  /** Above 2^31 leaves the genuine proof of leaf 0 is refused. */
  lemma JsRefusesAbove(h: Hash, leaf: Bytes, n: int, path: seq<Bytes>, root: Bytes)
    requires n > TWO_TO_31 && Accepts(h, leaf, 0, n, path, root)
    ensures !JsAccepts(h, leaf, 0, n, path, root)
  {
    hide Fold, JsSides, WalkSides, Pow2;
    Pow2Of30And31();
    WalkIsSides(0, n);
    WalkIsLong(n - 1, 31);
    FirstShift(n - 1, |path|);
  }

  /** The two kernels agree on every proof for a claimed leaf count exactly when it is at most 2^31. */
  lemma JsBoundIsTight(h: Hash, n: int)
    ensures n <= TWO_TO_31 <==>
            forall leaf, m, path, root :: JsAccepts(h, leaf, m, n, path, root) == Accepts(h, leaf, m, n, path, root)
  {
    if n <= TWO_TO_31 {
      forall leaf, m, path, root
        ensures JsAccepts(h, leaf, m, n, path, root) == Accepts(h, leaf, m, n, path, root)
      {
        JsAgrees(h, leaf, m, n, path, root);
      }
    } else {
      var path: seq<Bytes> := seq(|Sides(0, n)|, i => []);
      var root := Fold(h, [], Sides(0, n), path);
      assert Accepts(h, [], 0, n, path, root);
      JsRefusesAbove(h, [], n, path, root);
    }
  }
}
