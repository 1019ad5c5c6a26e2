/** JSON text as bytes, and the surrogate-escape scanner of the Go kernel. */
module JsonText {
  import opened Octets
  import opened Utf16

  const QUOTE: byte := 0x22
  const BACKSLASH: byte := 0x5C
  const LETTER_U: byte := 0x75

  predicate IsHexByte(b: byte) {
    0x30 <= b <= 0x39 || 0x61 <= b <= 0x66 || 0x41 <= b <= 0x46
  }

  function HexByteValue(b: byte): (v: int)
    requires IsHexByte(b)
    ensures 0 <= v < 16
  {
    if b <= 0x39 then b as int - 0x30 else if b >= 0x61 then b as int - 0x61 + 10 else b as int - 0x41 + 10
  }

  /** The value of the first four bytes when they are hex digits. */
  function Hex4(s: Bytes): (v: Option<CodeUnit>)
    ensures v.Some? ==> |s| >= 4
  {
    if |s| >= 4 && IsHexByte(s[0]) && IsHexByte(s[1]) && IsHexByte(s[2]) && IsHexByte(s[3]) then
      Some(((HexByteValue(s[0]) * 16 + HexByteValue(s[1])) * 16 + HexByteValue(s[2])) * 16 + HexByteValue(s[3]))
    else None
  }

  /** Reading the digits left to right; `v <<= 4; v |= d` is `16 * v + d` for a digit `d`. */
  ghost function HexPrefix(s: Bytes, n: nat): int
    requires n <= |s| && forall i :: 0 <= i < n ==> IsHexByte(s[i])
  {
    if n == 0 then 0 else HexPrefix(s, n - 1) * 16 + HexByteValue(s[n - 1])
  }

  method ReadHex4(raw: Bytes, pos: nat) returns (v: int, ok: bool)
    requires pos <= |raw|
    ensures ok == Hex4(raw[pos..]).Some?
    ensures ok ==> v == Hex4(raw[pos..]).value
  {
    if pos + 4 > |raw| {
      return 0, false;
    }
    v := 0;
    ghost var digits := raw[pos..];
    for i := 0 to 4
      invariant forall k :: 0 <= k < i ==> IsHexByte(digits[k])
      invariant v == HexPrefix(digits, i)
    {
      var c := raw[pos + i];
      assert c == digits[i];
      if !IsHexByte(c) {
        return 0, false;
      }
      v := v * 16 + HexByteValue(c);
    }
    assert HexPrefix(digits, 2) == HexByteValue(digits[0]) * 16 + HexByteValue(digits[1]);
    assert HexPrefix(digits, 4) == HexPrefix(digits, 3) * 16 + HexByteValue(digits[3]);
    return v, true;
  }

  /** What the scanner decides about the bytes still ahead of it. */
  function Scan(s: Bytes, inString: bool): bool {
    if s == [] then true
    else if !inString then Scan(s[1..], s[0] == QUOTE)
    else if s[0] == QUOTE then Scan(s[1..], false)
    else if s[0] != BACKSLASH then Scan(s[1..], true)
    else if |s| < 2 then false
    else if s[1] != LETTER_U then Scan(s[2..], true)
    else
      match Hex4(s[2..])
      case None => false
      case Some(cp) =>
        if IsLow(cp) then false
        else if IsHigh(cp) then LowEscapeAt(s[6..]) && Scan(s[12..], true)
        else Scan(s[6..], true)
  }

  predicate LowEscapeAt(s: Bytes) {
    |s| >= 6 && s[0] == BACKSLASH && s[1] == LETTER_U && Hex4(s[2..]).Some? && IsLow(Hex4(s[2..]).value)
  }

  /** `utf8Valid` is the library's answer to whether the bytes are UTF-8. */
  method RejectMalformedText(raw: Bytes, utf8Valid: bool) returns (ok: bool)
    requires utf8Valid <==> IsUtf8(raw)
    ensures ok <==> IsUtf8(raw) && Scan(raw, false)
  {
    hide Hex4, IsUtf8;
    if !utf8Valid {
      return false;
    }
    var inString := false;
    var i := 0;
    while i < |raw|
      invariant 0 <= i <= |raw|
      invariant Scan(raw, false) == Scan(raw[i..], inString)
    {
      var c := raw[i];
      ghost var here := raw[i..];
      assert forall k :: 0 <= k <= |raw| - i ==> here[k..] == raw[i + k..];
      if !inString {
        if c == QUOTE {
          inString := true;
        }
      } else if c == QUOTE {
        inString := false;
      } else if c == BACKSLASH {
        if i + 1 >= |raw| {
          return false;
        }
        if raw[i + 1] != LETTER_U {
          i := i + 1;
        } else {
          var cp, isHex := ReadHex4(raw, i + 2);
          if !isHex {
            return false;
          }
          if IsLow(cp) {
            return false;
          } else if IsHigh(cp) {
            var j := i + 6;
            var paired := false;
            if j + 1 < |raw| && raw[j] == BACKSLASH && raw[j + 1] == LETTER_U {
              assert here[6..][2..] == raw[j + 2..];
              var lo, isHex2 := ReadHex4(raw, j + 2);
              paired := isHex2 && IsLow(lo);
            }
            if !paired {
              return false;
            }
            i := j + 5;
          } else {
            i := i + 5;
          }
        }
      }
      i := i + 1;
    }
    return true;
  }

  // ----- JSON text, read as RFC 8259 strings between other ASCII bytes -----

  /** One character of a string literal. */
  datatype StrChar = Raw(c: Scalar) | Escaped(e: byte) | Unicode(d0: byte, d1: byte, d2: byte, d3: byte) {
    predicate Valid() {
      match this
      case Raw(c) => c >= 0x20 && c != 0x22 && c != 0x5C
      case Escaped(e) => e in [0x22, 0x5C, 0x2F, 0x62, 0x66, 0x6E, 0x72, 0x74]
      case Unicode(d0, d1, d2, d3) => IsHexByte(d0) && IsHexByte(d1) && IsHexByte(d2) && IsHexByte(d3)
    }

    function Render(): (s: Bytes)
      ensures s != []
    {
      match this
      case Raw(c) => Utf8(c)
      case Escaped(e) => [BACKSLASH, e]
      case Unicode(d0, d1, d2, d3) => [BACKSLASH, LETTER_U, d0, d1, d2, d3]
    }

    /** The code units the character stands for. */
    function Units(): (s: seq<CodeUnit>)
      requires Valid()
      ensures s != []
    {
      match this
      case Raw(c) => EncodeScalar(c)
      case Escaped(e) =>
        [if e == 0x62 then 0x08 else if e == 0x66 then 0x0C else if e == 0x6E then 0x0A
         else if e == 0x72 then 0x0D else if e == 0x74 then 0x09 else e as int]
      case Unicode(d0, d1, d2, d3) => [Hex4([d0, d1, d2, d3]).value]
    }
  }

  type JsonChar = ch: StrChar | ch.Valid() witness Escaped(QUOTE)

  /** Structure, numbers and blanks are ASCII bytes other than the quotation mark. */
  type Structural = b: byte | b < 0x80 && b != QUOTE

  datatype Piece = Outside(b: Structural) | Literal(chars: seq<JsonChar>)

  function RenderChars(chars: seq<JsonChar>): Bytes {
    if chars == [] then [] else chars[0].Render() + RenderChars(chars[1..])
  }

  function UnitsOf(chars: seq<JsonChar>): seq<CodeUnit>
  {
    if chars == [] then [] else chars[0].Units() + UnitsOf(chars[1..])
  }

  function Render(text: seq<Piece>): Bytes {
    if text == [] then []
    else
      (match text[0]
       case Outside(b) => [b]
       case Literal(chars) => [QUOTE] + RenderChars(chars) + [QUOTE])
      + Render(text[1..])
  }

  /** RFC 3629, section 3. */
  function Utf8(c: Scalar): (s: Bytes)
    ensures s != []
    ensures c < 0x80 ==> s == [c as byte]
    ensures c >= 0x80 ==> forall i :: 0 <= i < |s| ==> s[i] >= 0x80
  {
    if c < 0x80 then [c as byte]
    else if c < 0x800 then [(0xC0 + c / 0x40) as byte, (0x80 + c % 0x40) as byte]
    else if c < 0x10000 then
      [(0xE0 + c / 0x1000) as byte, (0x80 + c / 0x40 % 0x40) as byte, (0x80 + c % 0x40) as byte]
    else
      [(0xF0 + c / 0x40000) as byte, (0x80 + c / 0x1000 % 0x40) as byte,
       (0x80 + c / 0x40 % 0x40) as byte, (0x80 + c % 0x40) as byte]
  }

  function Utf8Of(cs: seq<Scalar>): Bytes {
    if cs == [] then [] else Utf8(cs[0]) + Utf8Of(cs[1..])
  }

  ghost predicate IsUtf8(s: Bytes) {
    exists cs: seq<Scalar> :: Utf8Of(cs) == s
  }

  lemma {:induction false} Utf8Append(a: seq<Scalar>, b: seq<Scalar>)
    ensures Utf8Of(a + b) == Utf8Of(a) + Utf8Of(b)
  {
    hide Utf8, Utf8Of;
    if a == [] {
      assert a + b == b;
      NothingInUtf8();
    } else {
      Utf8Append(a[1..], b);
      Utf8Cons(a[0], a[1..]);
      Utf8Cons(a[0], a[1..] + b);
      assert [a[0]] + a[1..] == a && [a[0]] + (a[1..] + b) == a + b;
    }
  }

  lemma NothingInUtf8()
    ensures Utf8Of([]) == []
  {
  }

  lemma Utf8Cons(c: Scalar, cs: seq<Scalar>)
    ensures Utf8Of([c] + cs) == Utf8(c) + Utf8Of(cs)
  {
    hide Utf8;
    assert ([c] + cs)[1..] == cs;
  }

  lemma IsUtf8Append(a: Bytes, b: Bytes)
    requires IsUtf8(a) && IsUtf8(b)
    ensures IsUtf8(a + b)
  {
    var x: seq<Scalar>, y: seq<Scalar> :| Utf8Of(x) == a && Utf8Of(y) == b;
    Utf8Append(x, y);
  }

  type Ascii = b: byte | b < 0x80

  lemma {:induction false} AsciiIsUtf8(s: seq<Ascii>)
    ensures IsUtf8(s)
  {
    if s == [] {
      assert Utf8Of([]) == s;
    } else {
      AsciiIsUtf8(s[1..]);
      ScalarIsUtf8(s[0] as int);
      assert s == [s[0]] + s[1..];
      IsUtf8Append([s[0]], s[1..]);
    }
  }

  lemma ScalarIsUtf8(c: Scalar)
    ensures IsUtf8(Utf8(c))
  {
    assert Utf8Of([c]) == Utf8(c) + Utf8Of([]);
    assert Utf8Of([c]) == Utf8(c);
  }

  lemma {:induction false} CharsAreUtf8(chars: seq<JsonChar>)
    ensures IsUtf8(RenderChars(chars))
  {
    if chars == [] {
      AsciiIsUtf8([]);
    } else {
      CharsAreUtf8(chars[1..]);
      if chars[0].Raw? {
        ScalarIsUtf8(chars[0].c);
      } else {
        AsciiIsUtf8(chars[0].Render());
      }
      IsUtf8Append(chars[0].Render(), RenderChars(chars[1..]));
    }
  }

  lemma {:induction false} TextIsUtf8(text: seq<Piece>)
    ensures IsUtf8(Render(text))
  {
    if text == [] {
      AsciiIsUtf8([]);
    } else {
      TextIsUtf8(text[1..]);
      match text[0] {
        case Outside(b) =>
          AsciiIsUtf8([b]);
          IsUtf8Append([b], Render(text[1..]));
        case Literal(chars) =>
          CharsAreUtf8(chars);
          AsciiIsUtf8([QUOTE]);
          IsUtf8Append([QUOTE], RenderChars(chars));
          IsUtf8Append([QUOTE] + RenderChars(chars), [QUOTE]);
          IsUtf8Append([QUOTE] + RenderChars(chars) + [QUOTE], Render(text[1..]));
      }
    }
  }

  lemma {:induction false} ScanSkips(plain: Bytes, s: Bytes)
    requires forall i :: 0 <= i < |plain| ==> plain[i] != QUOTE && plain[i] != BACKSLASH
    ensures Scan(plain + s, true) == Scan(s, true)
  {
    if plain == [] {
      assert plain + s == s;
    } else {
      assert (plain + s)[1..] == plain[1..] + s;
      ScanSkips(plain[1..], s);
    }
  }

  lemma Hex4Prefix(d: StrChar, s: Bytes)
    requires d.Unicode? && d.Valid()
    ensures Hex4((d.Render() + s)[2..]) == Some(d.Units()[0])
    ensures (d.Render() + s)[6..] == s
  {
    var w := (d.Render() + s)[2..];
    assert w[0] == d.d0 && w[1] == d.d1 && w[2] == d.d2 && w[3] == d.d3;
  }

  /** Scanning one escape that is not a surrogate, or one plain character. */
  lemma ScanOne(ch: StrChar, s: Bytes)
    requires ch.Valid() && !(ch.Unicode? && (IsHigh(ch.Units()[0]) || IsLow(ch.Units()[0])))
    ensures Scan(ch.Render() + s, true) == Scan(s, true)
  {
    match ch {
      case Raw(c) => ScanSkips(Utf8(c), s);
      case Escaped(e) => assert ([BACKSLASH, e] + s)[2..] == s;
      case Unicode(_, _, _, _) => Hex4Prefix(ch, s);
    }
  }

  /** What may follow a high escape: only a low escape continues the scan. */
  lemma AfterHigh(next: StrChar, s: Bytes)
    requires next.Valid()
    ensures LowEscapeAt(next.Render() + s) <==> next.Unicode? && IsLow(next.Units()[0])
    ensures IsLow(next.Units()[0]) ==> next.Unicode?
  {
    match next {
      case Raw(c) => assert (next.Render() + s)[0] == Utf8(c)[0];
      case Escaped(e) => assert (next.Render() + s)[1] == e;
      case Unicode(_, _, _, _) => Hex4Prefix(next, s);
    }
  }

  /** A high escape with nothing, or with anything but a low escape, after it. */
  lemma ScanLoneHigh(ch: JsonChar, more: seq<JsonChar>, rest: Bytes)
    requires ch.Unicode? && IsHigh(ch.Units()[0])
    requires more != [] ==> !IsLow(more[0].Units()[0])
    ensures !Scan(ch.Render() + (RenderChars(more) + [QUOTE] + rest), true)
  {
    hide Hex4, Utf8;
    var s := RenderChars(more) + [QUOTE] + rest;
    Hex4Prefix(ch, s);
    if more == [] {
      assert s[0] == QUOTE;
    } else {
      var s' := RenderChars(more[1..]) + [QUOTE] + rest;
      assert s == more[0].Render() + s';
      AfterHigh(more[0], s');
    }
  }

  lemma ScanPair(ch: JsonChar, next: JsonChar, s: Bytes)
    requires ch.Unicode? && IsHigh(ch.Units()[0]) && IsLow(next.Units()[0])
    ensures next.Unicode?
    ensures Scan(ch.Render() + (next.Render() + s), true) == Scan(s, true)
  {
    Hex4Prefix(ch, next.Render() + s);
    AfterHigh(next, s);
    assert (ch.Render() + (next.Render() + s))[12..] == s;
  }

  /** The scanner's answer on a literal and what follows is the pairing of its code units. */
  ghost predicate Faithful(chars: seq<JsonChar>, rest: Bytes) {
    Scan(RenderChars(chars) + [QUOTE] + rest, true) <==> Paired(UnitsOf(chars)) && Scan(rest, false)
  }

  lemma FaithfulEnd(rest: Bytes)
    ensures Faithful([], rest)
  {
    assert RenderChars([]) + [QUOTE] + rest == [QUOTE] + rest;
    assert ([QUOTE] + rest)[1..] == rest;
  }

  lemma Unroll(ch: JsonChar, more: seq<JsonChar>, rest: Bytes)
    ensures RenderChars([ch] + more) + [QUOTE] + rest == ch.Render() + (RenderChars(more) + [QUOTE] + rest)
    ensures UnitsOf([ch] + more) == ch.Units() + UnitsOf(more)
  {
    assert ([ch] + more)[1..] == more;
  }

  lemma FaithfulOne(ch: JsonChar, more: seq<JsonChar>, rest: Bytes)
    requires !(ch.Unicode? && (IsHigh(ch.Units()[0]) || IsLow(ch.Units()[0])))
    requires Faithful(more, rest)
    ensures Faithful([ch] + more, rest)
  {
    hide Scan, RenderChars, Hex4, UnitsOf, Paired;
    Unroll(ch, more, rest);
    ScanOne(ch, RenderChars(more) + [QUOTE] + rest);
    var units := UnitsOf([ch] + more);
    PairedStep(units);
    assert units[|ch.Units()|..] == UnitsOf(more);
  }

  lemma FaithfulPair(ch: JsonChar, next: JsonChar, more: seq<JsonChar>, rest: Bytes)
    requires ch.Unicode? && IsHigh(ch.Units()[0]) && IsLow(next.Units()[0])
    requires Faithful(more, rest)
    ensures Faithful([ch] + ([next] + more), rest)
  {
    hide Scan, RenderChars, Hex4, Utf8, UnitsOf, Paired;
    Unroll(ch, [next] + more, rest);
    Unroll(next, more, rest);
    ScanPair(ch, next, RenderChars(more) + [QUOTE] + rest);
    var units := UnitsOf([ch] + ([next] + more));
    PairedStep(units);
    assert units[2..] == UnitsOf(more);
  }

  lemma FaithfulLone(ch: JsonChar, more: seq<JsonChar>, rest: Bytes)
    requires ch.Unicode? && (IsHigh(ch.Units()[0]) || IsLow(ch.Units()[0]))
    requires IsHigh(ch.Units()[0]) && more != [] ==> !IsLow(more[0].Units()[0])
    ensures Faithful([ch] + more, rest)
  {
    Unroll(ch, more, rest);
    PairedStep(UnitsOf([ch] + more));
    if IsHigh(ch.Units()[0]) {
      ScanLoneHigh(ch, more, rest);
      if more != [] {
        assert UnitsOf([ch] + more)[1] == more[0].Units()[0];
      }
    } else {
      Hex4Prefix(ch, RenderChars(more) + [QUOTE] + rest);
    }
  }

  lemma {:induction false} ScanLiteral(chars: seq<JsonChar>, rest: Bytes)
    ensures Faithful(chars, rest)
    decreases |chars|
  {
    if chars == [] {
      FaithfulEnd(rest);
    } else {
      var ch, more := chars[0], chars[1..];
      assert chars == [ch] + more;
      if !(ch.Unicode? && (IsHigh(ch.Units()[0]) || IsLow(ch.Units()[0]))) {
        ScanLiteral(more, rest);
        FaithfulOne(ch, more, rest);
      } else if IsHigh(ch.Units()[0]) && more != [] && IsLow(more[0].Units()[0]) {
        assert more == [more[0]] + more[1..];
        ScanLiteral(more[1..], rest);
        FaithfulPair(ch, more[0], more[1..], rest);
      } else {
        FaithfulLone(ch, more, rest);
      }
    }
  }

  ghost predicate AllPaired(text: seq<Piece>)
  {
    forall p :: p in text && p.Literal? ==> Paired(UnitsOf(p.chars))
  }

  lemma {:induction false} ScanText(text: seq<Piece>)
    ensures Scan(Render(text), false) <==> AllPaired(text)
  {
    hide Paired, UnitsOf, RenderChars, Hex4, LowEscapeAt;
    if text != [] {
      var more := text[1..];
      ScanText(more);
      assert text == [text[0]] + more;
      assert AllPaired(text) <==> (text[0].Literal? ==> Paired(UnitsOf(text[0].chars))) && AllPaired(more);
      match text[0] {
        case Outside(b) => assert Render(text)[1..] == Render(more);
        case Literal(chars) =>
          assert Render(text)[1..] == RenderChars(chars) + [QUOTE] + Render(more);
          ScanLiteral(chars, Render(more));
      }
    }
  }

  /** Two scanners, one language: the Go scanner accepts a JSON text exactly when the TypeScript scan finds no
      lone surrogate in any of its decoded strings, that is, when each is the UTF-16 form of some text. */
  lemma TwoScannersOneLanguage(text: seq<Piece>)
    ensures IsUtf8(Render(text))
    ensures Scan(Render(text), false) <==> AllPaired(text)
    ensures Scan(Render(text), false)
            <==> forall p :: p in text && p.Literal? ==> IsUtf16(UnitsOf(p.chars))
  {
    TextIsUtf8(text);
    ScanText(text);
    forall p | p in text && p.Literal?
      ensures Paired(UnitsOf(p.chars)) <==> IsUtf16(UnitsOf(p.chars))
    {
      PairedIsUtf16(UnitsOf(p.chars));
    }
  }
}
