/** Octets, SHA-256 digests as an uninterpreted hash, and lowercase hexadecimal. */
module Octets {

  datatype Option<+T> = None | Some(value: T)

  newtype byte = x: int | 0 <= x < 256

  type Bytes = seq<byte>

  /** The output of SHA-256. */
  type Digest = d: Bytes | |d| == 32 witness seq(32, i => 0)

  /** The hash is a parameter of every statement: nothing but its output length is known. */
  type Hash = Bytes -> Digest

  /** Some string of `xs` and a different string of `ys` have the same hash. */
  ghost predicate Collides(h: Hash, xs: set<Bytes>, ys: set<Bytes>) {
    exists x, y :: x in xs && y in ys && x != y && h(x) == h(y)
  }

  predicate IsHexDigit(c: char) {
    '0' <= c <= '9' || 'a' <= c <= 'f' || 'A' <= c <= 'F'
  }

  function HexValue(c: char): (v: byte)
    requires IsHexDigit(c)
    ensures v < 16
  {
    if '0' <= c <= '9' then (c as int - '0' as int) as byte
    else if 'a' <= c <= 'f' then (c as int - 'a' as int + 10) as byte
    else (c as int - 'A' as int + 10) as byte
  }

  function HexDigit(v: byte): (c: char)
    requires v < 16
    ensures IsHexDigit(c) && HexValue(c) == v && LowerChar(c) == c
  {
    if v < 10 then ('0' as int + v as int) as char else ('a' as int + v as int - 10) as char
  }

  function LowerChar(c: char): char {
    if 'A' <= c <= 'Z' then (c as int - 'A' as int + 'a' as int) as char else c
  }

  function Lower(s: string): (r: string)
    ensures |r| == |s|
    ensures forall i :: 0 <= i < |s| ==> r[i] == LowerChar(s[i])
  {
    seq(|s|, i requires 0 <= i < |s| => LowerChar(s[i]))
  }

  function Hex(b: Bytes): (s: string)
    ensures |s| == 2 * |b|
  {
    if b == [] then "" else [HexDigit(b[0] / 16), HexDigit(b[0] % 16)] + Hex(b[1..])
  }

  /** Hex digits in pairs; `skipSpace` is the leniency of Python's `bytes.fromhex` between pairs. */
  function Pairs(s: string, skipSpace: bool): Option<Bytes> {
    if s == "" then Some([])
    else if skipSpace && IsSpace(s[0]) then Pairs(s[1..], skipSpace)
    else if |s| >= 2 && IsHexDigit(s[0]) && IsHexDigit(s[1]) then
      match Pairs(s[2..], skipSpace)
      case None => None
      case Some(rest) => Some([HexValue(s[0]) * 16 + HexValue(s[1])] + rest)
    else None
  }

  predicate IsSpace(c: char) {
    c == ' ' || '\t' as int <= c as int <= '\r' as int
  }

  /** Strict even-length decoding: `_hex_to_bytes` when `skipSpace`, else `hexToBytes`. */
  function Unhex(s: string, skipSpace: bool): Option<Bytes> {
    if |s| % 2 != 0 then None else Pairs(s, skipSpace)
  }

  /** Whatever decoder and letter case: a string whose lowercase form is the hex of `b` decodes to `b`. */
  lemma {:induction false} UnhexOfHex(s: string, b: Bytes, skipSpace: bool)
    requires Lower(s) == Hex(b)
    ensures Unhex(s, skipSpace) == Some(b)
  {
    if b != [] {
      var l := Lower(s);
      assert l[0] == HexDigit(b[0] / 16) && l[1] == HexDigit(b[0] % 16);
      assert Lower(s[2..]) == Hex(b[1..]) by {
        assert Lower(s[2..]) == l[2..];
        assert l[2..] == Hex(b[1..]);
      }
      UnhexOfHex(s[2..], b[1..], skipSpace);
      assert b == [b[0]] + b[1..];
    }
  }

  lemma {:induction false} HexInjective(a: Bytes, b: Bytes)
    requires Hex(a) == Hex(b)
    ensures a == b
  {
    assert Lower(Hex(a)) == Hex(a) by { HexIsLower(a); }
    UnhexOfHex(Hex(a), a, false);
    UnhexOfHex(Hex(a), b, false);
  }

  lemma {:induction false} HexIsLower(b: Bytes)
    ensures Lower(Hex(b)) == Hex(b)
  {
    if b != [] {
      HexIsLower(b[1..]);
      assert forall i :: 2 <= i < |Hex(b)| ==> Lower(Hex(b))[i] == Lower(Hex(b[1..]))[i - 2];
    }
  }
}
