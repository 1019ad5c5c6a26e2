/** UTF-16 code units and the surrogate scan of the TypeScript kernel. */
module Utf16 {

  type CodeUnit = u: int | 0 <= u < 0x10000

  /** A Unicode scalar value. */
  type Scalar = c: int | 0 <= c < 0xD800 || 0xE000 <= c < 0x110000

  predicate IsHigh(u: int) {
    0xD800 <= u <= 0xDBFF
  }

  predicate IsLow(u: int) {
    0xDC00 <= u <= 0xDFFF
  }

  /** A surrogate at `i` that is not half of an adjacent high-low pair. */
  predicate LoneAt(s: seq<CodeUnit>, i: nat)
    requires i < |s|
  {
    || (IsHigh(s[i]) && !(i + 1 < |s| && IsLow(s[i + 1])))
    || (IsLow(s[i]) && !(i > 0 && IsHigh(s[i - 1])))
  }

  ghost predicate Paired(s: seq<CodeUnit>) {
    forall i :: 0 <= i < |s| ==> !LoneAt(s, i)
  }

  method HasLoneSurrogate(s: seq<CodeUnit>) returns (lone: bool)
    ensures lone <==> !Paired(s)
  {
    var i := 0;
    while i < |s|
      invariant 0 <= i <= |s|
      invariant forall k :: 0 <= k < i ==> !LoneAt(s, k)
      invariant i > 0 ==> !IsHigh(s[i - 1])
    {
      var c := s[i];
      if IsHigh(c) {
        var next := if i + 1 < |s| then s[i + 1] else 0;
        if !IsLow(next) {
          assert LoneAt(s, i);
          return true;
        }
        i := i + 1;
      } else if IsLow(c) {
        assert LoneAt(s, i);
        return true;
      }
      i := i + 1;
    }
    return false;
  }

  /** RFC 2781, section 2.1. */
  function EncodeScalar(c: Scalar): (s: seq<CodeUnit>)
    ensures Paired(s) && s != []
  {
    if c < 0x10000 then [c]
    else [0xD800 + (c - 0x10000) / 0x400, 0xDC00 + (c - 0x10000) % 0x400]
  }

  function Encode(cs: seq<Scalar>): seq<CodeUnit> {
    if cs == [] then [] else EncodeScalar(cs[0]) + Encode(cs[1..])
  }

  lemma PairedStep(s: seq<CodeUnit>)
    requires s != []
    ensures Paired(s) <==>
            if IsHigh(s[0]) then |s| > 1 && IsLow(s[1]) && Paired(s[2..])
            else !IsLow(s[0]) && Paired(s[1..])
  {
    var n := if IsHigh(s[0]) then 2 else 1;
    if |s| >= n && (if n == 2 then IsLow(s[1]) else !IsLow(s[0])) {
      forall i | n <= i < |s| ensures LoneAt(s, i) <==> LoneAt(s[n..], i - n) {}
      if Paired(s) {
        forall i | 0 <= i < |s[n..]| ensures !LoneAt(s[n..], i) { assert !LoneAt(s, i + n); }
      } else {
        var i :| 0 <= i < |s| && LoneAt(s, i);
        assert i >= n;
      }
    } else {
      assert LoneAt(s, 0);
    }
  }

  lemma {:induction false} EncodedIsPaired(cs: seq<Scalar>)
    ensures Paired(Encode(cs))
  {
    if cs != [] {
      EncodedIsPaired(cs[1..]);
      var s := Encode(cs);
      assert s[|EncodeScalar(cs[0])|..] == Encode(cs[1..]);
      PairedStep(s);
    }
  }

  lemma {:induction false} Decode(s: seq<CodeUnit>) returns (cs: seq<Scalar>)
    requires Paired(s)
    ensures Encode(cs) == s
  {
    if s == [] {
      return [];
    }
    PairedStep(s);
    var n := if IsHigh(s[0]) then 2 else 1;
    var rest := Decode(s[n..]);
    var c: Scalar := if n == 2 then 0x10000 + (s[0] as int - 0xD800) * 0x400 + (s[1] as int - 0xDC00) else s[0];
    assert EncodeScalar(c) == s[..n];
    cs := [c] + rest;
    assert cs[1..] == rest && s == s[..n] + s[n..];
  }

  ghost predicate IsUtf16(s: seq<CodeUnit>) {
    exists cs: seq<Scalar> :: Encode(cs) == s
  }

  /** The scan finds nothing exactly on the UTF-16 encodings of sequences of scalar values. */
  lemma PairedIsUtf16(s: seq<CodeUnit>)
    ensures Paired(s) <==> IsUtf16(s)
  {
    if Paired(s) {
      var cs := Decode(s);
    }
    if cs: seq<Scalar> :| Encode(cs) == s {
      EncodedIsPaired(cs);
    }
  }
}
