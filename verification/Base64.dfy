/** Unpadded base64url, section 5 of RFC 4648, and Python's lenient decoder. */
module Base64 {
  import opened Octets

  predicate IsBase64(c: char) {
    'A' <= c <= 'Z' || 'a' <= c <= 'z' || '0' <= c <= '9' || c == '-' || c == '_'
  }

  function Sextet(c: char): (v: byte)
    requires IsBase64(c)
    ensures v < 64
  {
    if 'A' <= c <= 'Z' then (c as int - 'A' as int) as byte
    else if 'a' <= c <= 'z' then (c as int - 'a' as int + 26) as byte
    else if '0' <= c <= '9' then (c as int - '0' as int + 52) as byte
    else if c == '-' then 62
    else 63
  }

  function Base64Char(v: byte): (c: char)
    requires v < 64
    ensures IsBase64(c) && Sextet(c) == v
  {
    if v < 26 then ('A' as int + v as int) as char
    else if v < 52 then ('a' as int + v as int - 26) as char
    else if v < 62 then ('0' as int + v as int - 52) as char
    else if v == 62 then '-'
    else '_'
  }

  predicate AllBase64(s: string) {
    forall i | 0 <= i < |s| :: IsBase64(s[i])
  }

  /** Text that some bytes encode to, but for the bits a last short group leaves over. */
  predicate Decodable(s: string) {
    AllBase64(s) && |s| % 4 != 1
  }

  // ----- three bytes in four sextets -----

  function Left(x: byte): (a: byte)
    ensures a < 64
  {
    x / 4
  }

  function MiddleLeft(x: byte, y: byte): (b: byte)
    ensures b < 64
  {
    x % 4 * 16 + y / 16
  }

  function MiddleRight(y: byte, z: byte): (c: byte)
    ensures c < 64
  {
    y % 16 * 4 + z / 64
  }

  function Right(z: byte): (d: byte)
    ensures d < 64
  {
    z % 64
  }

  function First(a: byte, b: byte): byte
    requires a < 64 && b < 64
  {
    a * 4 + b / 16
  }

  function Second(b: byte, c: byte): byte
    requires b < 64 && c < 64
  {
    b % 16 * 16 + c / 4
  }

  function Third(c: byte, d: byte): byte
    requires c < 64 && d < 64
  {
    c % 4 * 64 + d
  }

  lemma Regrouped(x: byte, y: byte, z: byte)
    ensures First(Left(x), MiddleLeft(x, y)) == x
    ensures Second(MiddleLeft(x, y), MiddleRight(y, z)) == y
    ensures Third(MiddleRight(y, z), Right(z)) == z
  {
  }

  function Decode(s: string): Bytes
    requires Decodable(s)
  {
    if s == "" then []
    else if |s| == 2 then [First(Sextet(s[0]), Sextet(s[1]))]
    else if |s| == 3 then [First(Sextet(s[0]), Sextet(s[1])), Second(Sextet(s[1]), Sextet(s[2]))]
    else
      [First(Sextet(s[0]), Sextet(s[1])), Second(Sextet(s[1]), Sextet(s[2])), Third(Sextet(s[2]), Sextet(s[3]))]
      + Decode(s[4..])
  }

  function Group(x: byte, y: byte, z: byte): (s: string)
    ensures |s| == 4 && AllBase64(s)
  {
    [Base64Char(Left(x)), Base64Char(MiddleLeft(x, y)), Base64Char(MiddleRight(y, z)), Base64Char(Right(z))]
  }

  function Encode(b: Bytes): string {
    if b == [] then ""
    else if |b| == 1 then Group(b[0], 0, 0)[..2]
    else if |b| == 2 then Group(b[0], b[1], 0)[..3]
    else Group(b[0], b[1], b[2]) + Encode(b[3..])
  }

  lemma GroupDecodes(x: byte, y: byte, z: byte, rest: string)
    requires Decodable(rest)
    ensures Decodable(Group(x, y, z) + rest) && Decode(Group(x, y, z) + rest) == [x, y, z] + Decode(rest)
  {
    hide Sextet, Base64Char, IsBase64, Left, MiddleLeft, MiddleRight, Right, First, Second, Third;
    Regrouped(x, y, z);
    var s := Group(x, y, z) + rest;
    assert s[4..] == rest;
  }

  lemma ShortGroupDecodes(x: byte, y: byte)
    ensures Decodable(Group(x, 0, 0)[..2]) && Decode(Group(x, 0, 0)[..2]) == [x]
    ensures Decodable(Group(x, y, 0)[..3]) && Decode(Group(x, y, 0)[..3]) == [x, y]
  {
    hide Sextet, Base64Char, IsBase64, Left, MiddleLeft, MiddleRight, Right, First, Second, Third;
    Regrouped(x, 0, 0);
    Regrouped(x, y, 0);
  }

  lemma EmptyDecodes()
    ensures Decodable("") && Decode("") == []
  {
  }

  lemma {:induction false} DecodeEncode(b: Bytes)
    ensures Decodable(Encode(b)) && Decode(Encode(b)) == b
  {
    hide Group, Decode, Decodable;
    if b == [] {
      EmptyDecodes();
    } else if |b| <= 2 {
      ShortGroupDecodes(b[0], if |b| == 2 then b[1] else 0);
    } else {
      DecodeEncode(b[3..]);
      GroupDecodes(b[0], b[1], b[2], Encode(b[3..]));
      assert b == [b[0], b[1], b[2]] + b[3..];
    }
  }

  lemma EncodeInjective(a: Bytes, b: Bytes)
    requires Encode(a) == Encode(b)
    ensures a == b
  {
    DecodeEncode(a);
    DecodeEncode(b);
  }

  // ----- Python's decoder -----

  /** The characters Python decodes out of padded text when `data` and then `pads` pads were read already: what is
      outside the alphabet is skipped, a pad that completes a group ends the reading, an incomplete group is refused. */
  function Lenient(s: string, data: string, pads: nat): (r: Option<string>)
    requires AllBase64(data)
    ensures r.Some? ==> Decodable(r.value)
  {
    if s == "" then if |data| % 4 == 0 then Some(data) else None
    else if s[0] == '=' then
      if |data| % 4 < 2 then Lenient(s[1..], data, pads)
      else if |data| % 4 + pads + 1 >= 4 then Some(data)
      else Lenient(s[1..], data, pads + 1)
    else if IsBase64(s[0]) then Lenient(s[1..], data + [s[0]], 0)
    else Lenient(s[1..], data, pads)
  }

  /** The pads that fill the last group up. */
  function Pads(s: string): string {
    if |s| % 4 == 2 then "==" else if |s| % 4 == 3 then "=" else ""
  }

  lemma {:induction false} LenientReads(s: string, rest: string, data: string)
    requires AllBase64(s) && AllBase64(data)
    ensures AllBase64(data + s) && Lenient(s + rest, data, 0) == Lenient(rest, data + s, 0)
  {
    if s == "" {
      assert s + rest == rest && data + s == data;
    } else {
      LenientReads(s[1..], rest, data + [s[0]]);
      assert (s + rest)[1..] == s[1..] + rest && (data + [s[0]]) + s[1..] == data + s;
    }
  }

  /** Decodable text is read whole. */
  lemma LenientPadded(s: string)
    requires Decodable(s)
    ensures Lenient(s + Pads(s), "", 0) == Some(s)
  {
    LenientReads(s, Pads(s), "");
    assert "" + s == s;
    if |s| % 4 == 2 {
      assert "=="[1..] == "=";
    }
  }

  /** With a newline behind it, text that still has the length of decodable text leaves a group incomplete. */
  lemma LenientNewline(s: string)
    requires AllBase64(s) && |s + "\n"| % 4 != 1
    ensures Lenient(s + "\n" + Pads(s + "\n"), "", 0) == None
  {
    var pads := Pads(s + "\n");
    assert s + "\n" + pads == s + ("\n" + pads);
    LenientReads(s, "\n" + pads, "");
    assert "" + s == s && ("\n" + pads)[1..] == pads;
    assert Lenient("\n" + pads, s, 0) == Lenient(pads, s, 0);
    assert "=="[1..] == "=" && "="[1..] == "";
    if |s| % 4 == 1 {
      assert Lenient(pads, s, 0) == Lenient("=", s, 0) == Lenient("", s, 0);
    } else if |s| % 4 == 2 {
      assert Lenient(pads, s, 0) == Lenient("", s, 1);
    }
  }
}
