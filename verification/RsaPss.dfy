/** The key, signature and address readers of an RSA-PSS attestation, and where one of them raises what its callers do
    not handle. */
module RsaPss {
  import opened Octets
  import opened KernelPrimitives
  import opened Base64

  /** A value, the malformed-input error that every caller handles, or an exception that none does. */
  datatype Checked<+T> = Done(value: T) | Refused | Raised

  predicate AllHex(s: string) {
    forall i | 0 <= i < |s| :: IsHexDigit(s[i])
  }

  predicate EndsLine(s: string) {
    s != "" && s[|s| - 1] == '\n'
  }

  /** What a pattern anchored by `^` and `$` looks at: in Python `$` also matches before a final newline. */
  function BeforeEnd(lang: Language, s: string): string {
    if lang.Python? && EndsLine(s) then s[..|s| - 1] else s
  }

  function StrictHex(lang: Language, s: string): Checked<Bytes> {
    if |s| % 2 != 0 || !AllHex(BeforeEnd(lang, s)) then Refused
    else
      var bytes := Pairs(s, lang.Python?);
      if bytes.Some? then Done(bytes.value) else Raised
  }

  function FromBase64Url(lang: Language, s: string): Checked<Bytes> {
    if !AllBase64(BeforeEnd(lang, s)) || |s| % 4 == 1 then Refused
    else if lang.TypeScript? then Done(Decode(s))
    else
      var read := Lenient(s + Pads(s), "", 0);
      if read.Some? then Done(Decode(read.value)) else Raised
  }

  /** An odd number of hex digits, then a newline. */
  predicate HexLine(s: string) {
    |s| % 2 == 0 && EndsLine(s) && AllHex(s[..|s| - 1])
  }

  /** Base64url characters, any number but a multiple of four, then a newline. */
  predicate Base64Line(s: string) {
    |s| % 4 != 1 && EndsLine(s) && AllBase64(s[..|s| - 1])
  }

  lemma {:induction false} HexPairs(s: string, skipSpace: bool)
    requires |s| % 2 == 0 && AllHex(s)
    ensures Pairs(s, skipSpace).Some? && Pairs(s, skipSpace) == Pairs(s, false)
  {
    hide HexValue;
    if s != "" {
      HexPairs(s[2..], skipSpace);
    }
  }

  lemma {:induction false} LinePairs(s: string)
    requires HexLine(s)
    ensures Pairs(s, true) == None
  {
    hide HexValue;
    if |s| > 2 {
      assert s[2..][..|s| - 3] == s[..|s| - 1][2..];
      LinePairs(s[2..]);
    }
  }

  /** Both kernels take the same hex to the same bytes; Python raises on an odd number of digits before a newline, and
      on nothing else. */
  lemma {:induction false} HexIsExact(lang: Language, s: string)
    ensures StrictHex(lang, s).Done? <==> |s| % 2 == 0 && AllHex(s)
    ensures StrictHex(lang, s).Done? ==> Some(StrictHex(lang, s).value) == Pairs(s, false)
    ensures StrictHex(lang, s).Raised? <==> lang.Python? && HexLine(s)
  {
    hide Pairs, IsHexDigit;
    if |s| % 2 == 0 && AllHex(s) {
      HexPairs(s, lang.Python?);
      NewlineIsOutside(s);
    } else if HexLine(s) {
      LinePairs(s);
      NewlineIsOutside(s);
    }
  }

  lemma NewlineIsOutside(s: string)
    ensures EndsLine(s) ==> !AllHex(s) && !AllBase64(s)
  {
    if EndsLine(s) {
      assert !IsHexDigit(s[|s| - 1]) && !IsBase64(s[|s| - 1]);
    }
  }

  /** Both kernels take the same base64url to the same bytes; Python raises on text before a newline, and on nothing
      else. */
  lemma Base64IsExact(lang: Language, s: string)
    ensures FromBase64Url(lang, s).Done? <==> Decodable(s)
    ensures FromBase64Url(lang, s).Done? ==> FromBase64Url(lang, s).value == Decode(s)
    ensures FromBase64Url(lang, s).Raised? <==> lang.Python? && Base64Line(s)
  {
    hide Lenient, IsBase64, Decode, Pads;
    NewlineIsOutside(s);
    if Decodable(s) {
      LenientPadded(s);
    } else if Base64Line(s) {
      assert s == s[..|s| - 1] + "\n";
      LenientNewline(s[..|s| - 1]);
    }
  }

  // ----- the public exponent -----

  function BigEndian(b: Bytes): nat {
    if b == [] then 0 else BigEndian(b[..|b| - 1]) * 256 + b[|b| - 1] as nat
  }

  lemma BigEndianStep(b: Bytes, i: nat)
    requires i < |b|
    ensures BigEndian(b[..i + 1]) == BigEndian(b[..i]) * 256 + b[i] as nat
  {
    assert b[..i + 1][..i] == b[..i];
  }

  method BytesToBigInt(b: Bytes) returns (v: nat)
    ensures v == BigEndian(b)
  {
    v := 0;
    for i := 0 to |b|
      invariant v == BigEndian(b[..i])
    {
      BigEndianStep(b, i);
      v := v * 256 + b[i] as nat;
    }
    assert b[..|b|] == b;
  }

  const RSA_PUBLIC_EXPONENT := 65537

  /** Zeros and then the three bytes of 65537. */
  predicate EncodesExponent(b: Bytes) {
    |b| >= 3 && b[|b| - 3..] == [1, 0, 1] && forall i | 0 <= i < |b| - 3 :: b[i] == 0
  }

  lemma {:induction false} ZeroIsZeros(b: Bytes)
    ensures BigEndian(b) == 0 <==> forall i :: 0 <= i < |b| ==> b[i] == 0
  {
    if b != [] {
      ZeroIsZeros(b[..|b| - 1]);
    }
  }

  lemma LastDigits(head: nat, x: nat, y: nat, z: nat)
    requires x < 256 && y < 256 && z < 256
    ensures ((head * 256 + x) * 256 + y) * 256 + z == RSA_PUBLIC_EXPONENT <==> head == 0 && x == 1 && y == 0 && z == 1
  {
  }

  /** 65537 is read off the last three bytes. */
  lemma LastBytes(b: Bytes)
    requires |b| >= 3
    ensures var n := |b|;
            BigEndian(b) == RSA_PUBLIC_EXPONENT
            <==> BigEndian(b[..n - 3]) == 0 && b[n - 3] == 1 && b[n - 2] == 0 && b[n - 1] == 1
  {
    hide *;
    var n := |b|;
    BigEndianStep(b, n - 1);
    BigEndianStep(b, n - 2);
    BigEndianStep(b, n - 3);
    assert b[..n] == b;
    LastDigits(BigEndian(b[..n - 3]), b[n - 3] as nat, b[n - 2] as nat, b[n - 1] as nat);
  }

  lemma ShortIsSmall(b: Bytes)
    requires |b| < 3
    ensures BigEndian(b) < RSA_PUBLIC_EXPONENT
  {
    if b != [] {
      assert |b| == 2 ==> b[..1][..0] == [];
    }
  }

  /** The exponent compared is 65537 however many zeros it is padded with, and only then. */
  lemma ExponentIsExact(b: Bytes)
    ensures BigEndian(b) == RSA_PUBLIC_EXPONENT <==> EncodesExponent(b)
  {
    hide BigEndian;
    if |b| < 3 {
      ShortIsSmall(b);
    } else {
      var n := |b|;
      LastBytes(b);
      ZeroIsZeros(b[..n - 3]);
      assert b[n - 3..] == [b[n - 3], b[n - 2], b[n - 1]];
    }
  }

  // ----- signature and address -----

  /** No bytes at all are a malformed exponent, as is text that does not decode: the key import settles the latter. */
  function RsaVerdict(k: Kernel, message: Bytes, signature: string, n: string, e: string): Checked<bool> {
    match StrictHex(k.lang, signature)
    case Refused => Refused
    case Raised => Raised
    case Done(sig) =>
      var exponent, modulus := FromBase64Url(k.lang, e), FromBase64Url(k.lang, n);
      if exponent == Done([]) then Refused
      else if exponent.Done? && BigEndian(exponent.value) != RSA_PUBLIC_EXPONENT then Done(false)
      else if k.lang.Python? && !(exponent.Done? && modulus.Done? && BigEndian(modulus.value) > 0) then Refused
      else
        var verified := k.rsaPss(message, sig, n, e);
        if verified.Some? then Done(verified.value) else Refused
  }

  method VerifyRsaPssSha256(k: Kernel, message: Bytes, signature: string, n: string, e: string)
    returns (result: Checked<bool>)
    ensures result == RsaVerdict(k, message, signature, n, e)
  {
    hide StrictHex, FromBase64Url, BigEndian;
    var sig := StrictHex(k.lang, signature);
    if !sig.Done? {
      return if sig.Raised? then Raised else Refused;
    }
    var bytes := FromBase64Url(k.lang, e);
    if bytes == Done([]) {
      return Refused;
    }
    if bytes.Done? {
      var exponent := BytesToBigInt(bytes.value);
      if exponent != RSA_PUBLIC_EXPONENT {
        return Done(false);
      }
    }
    if k.lang.Python? {
      var modulus := FromBase64Url(k.lang, n);
      if !bytes.Done? || !modulus.Done? {
        return Refused;
      }
      var number := BytesToBigInt(modulus.value);
      if number <= 0 {
        return Refused;
      }
    }
    var verified := k.rsaPss(message, sig.value, n, e);
    return if verified.Some? then Done(verified.value) else Refused;
  }

  function OperatorAddress(k: Kernel, n: string): Checked<string> {
    match FromBase64Url(k.lang, n)
    case Refused => Refused
    case Raised => Raised
    case Done(modulus) => Done(Encode(k.sha(modulus)))
  }

  /** Nothing verifies under an exponent that decodes to another number. */
  lemma OnlyTheOperatorExponent(k: Kernel, message: Bytes, signature: string, n: string, e: string)
    requires RsaVerdict(k, message, signature, n, e) == Done(true) && (k.lang.Python? || Decodable(e))
    ensures Decodable(e) && EncodesExponent(Decode(e)) && |signature| % 2 == 0 && AllHex(signature)
  {
    hide StrictHex, FromBase64Url, BigEndian, EncodesExponent, Decodable, AllHex, Decode;
    HexIsExact(k.lang, signature);
    Base64IsExact(k.lang, e);
    ExponentIsExact(if Decodable(e) then Decode(e) else []);
  }

  /** Equal addresses: the same modulus, or the two moduli collide. */
  lemma AddressBindsModulus(k: Kernel, a: string, b: string)
    requires OperatorAddress(k, a).Done? && OperatorAddress(k, a) == OperatorAddress(k, b)
    ensures Decodable(a) && Decodable(b)
            && (Decode(a) == Decode(b) || Collides(k.sha, {Decode(a)}, {Decode(b)}))
  {
    hide FromBase64Url, Decode, Encode, Decodable;
    Base64IsExact(k.lang, a);
    Base64IsExact(k.lang, b);
    EncodeInjective(k.sha(Decode(a)), k.sha(Decode(b)));
  }

  // ----- where the readers raise -----

  /** An exponent that decodes to some other number than 65537. */
  predicate OtherExponent(e: string) {
    Decodable(e) && Decode(e) != [] && !EncodesExponent(Decode(e))
  }

  /** Judging a signature and then deriving the address raises, in Python, on hex with a newline behind it, and on a
      modulus with one behind it where the exponent ended the judgement early. TypeScript never raises. */
  lemma RaisingIsExact(k: Kernel, message: Bytes, signature: string, n: string, e: string)
    ensures RsaVerdict(k, message, signature, n, e).Raised? <==> k.lang.Python? && HexLine(signature)
    ensures RsaVerdict(k, message, signature, n, e).Done? && OperatorAddress(k, n).Raised?
            <==> k.lang.Python? && |signature| % 2 == 0 && AllHex(signature) && OtherExponent(e) && Base64Line(n)
  {
    hide StrictHex, FromBase64Url, BigEndian, Decode, Decodable, EncodesExponent, Base64Line, HexLine, AllHex;
    HexIsExact(k.lang, signature);
    Base64IsExact(k.lang, e);
    Base64IsExact(k.lang, n);
    if Decodable(e) {
      ExponentIsExact(Decode(e));
    }
    LineIsNotText(n);
  }

  lemma LineIsNotText(s: string)
    ensures Base64Line(s) ==> !Decodable(s)
  {
    NewlineIsOutside(s);
  }
}
