/** What the kernels take from libraries, and the guard in front of every canonicalization. */
module KernelPrimitives {
  import opened Octets
  import opened JsonValues
  import opened MerkleJs

  datatype Language = Python | TypeScript

  /** Three-valued check results: `null` is undetermined, never a failure. */
  datatype Tri = Yes | No | Unknown

  function ToTri(b: bool): Tri {
    if b then Yes else No
  }

  /** Library calls as parameters. Ed25519 takes signature and key as the hex strings found in the document and
      answers false on malformed ones; RSA-PSS takes message, signature bytes, modulus and exponent, and answers `None`
      for a key that does not import, as does the JavaScript conversion of a string, list or object to a number when it
      throws; `memberNames` are the names of an object in its order. */
  datatype Kernel = Kernel(
    lang: Language,
    sha: Hash,
    jcs: Json -> Bytes,
    wellFormed: string -> bool,
    wellFormedName: Key -> bool,
    numberOk: Json -> bool,
    parse: Bytes -> Option<Json>,
    ed25519: (Bytes, string, string) -> bool,
    rsaPss: (Bytes, Bytes, string, string) -> Option<bool>,
    toNumber: Json -> Option<JsCount>,
    memberNames: Json -> seq<string>,
    summary: (string, string, nat, nat, nat, nat) -> string)
  {
    function ShaHex(b: Bytes): string {
      Hex(sha(b))
    }

    /** What iterating over an object yields in Python. */
    function Names(j: Json): (names: seq<Json>)
      ensures |names| == |memberNames(j)| && forall i :: 0 <= i < |names| ==> names[i] == JStr(memberNames(j)[i])
    {
      seq(|memberNames(j)|, i requires 0 <= i < |memberNames(j)| => JStr(memberNames(j)[i]))
    }

    function FromHex(j: Json): Option<Bytes> {
      if j.JStr? then Unhex(j.s, lang.Python?) else None
    }
  }

  const MAX_CANONICAL_DEPTH := 128

  /** No string of the value, member names included, holds a lone surrogate, and no number is outside the range that
      canonicalization takes. */
  predicate Representable(k: Kernel, j: Json) {
    match j
    case JStr(s) => k.wellFormed(s)
    case JInt(_) => k.numberOk(j)
    case JFloat(_) => k.numberOk(j)
    case JArr(items) => forall c | c in items :: Representable(k, c)
    case JObj(fields) =>
      forall key | key in fields ::
        (key.Annotation? || key.Other? ==> k.wellFormedName(key)) && Representable(k, fields[key])
    case _ => true
  }

  /** `None` stands for the exception. */
  function Canonical(k: Kernel, j: Json): Option<Bytes> {
    if Nests(j, MAX_CANONICAL_DEPTH) || !Representable(k, j) then None else Some(k.jcs(j))
  }

  function CanonicalShaHex(k: Kernel, j: Json): Option<string> {
    var bytes := Canonical(k, j);
    if bytes.None? then None else Some(k.ShaHex(bytes.value))
  }

  method CanonicalJson(k: Kernel, j: Json) returns (bytes: Option<Bytes>)
    ensures bytes == Canonical(k, j)
  {
    NestsIsDepth(j, MAX_CANONICAL_DEPTH);
    var deep := ExceedsDepth(j, MAX_CANONICAL_DEPTH);
    if deep {
      return None;
    }
    return if Representable(k, j) then Some(k.jcs(j)) else None;
  }

  lemma GetRepresentable(k: Kernel, j: Json, key: Key)
    requires Representable(k, j)
    ensures Representable(k, Get(j, key))
  {
  }

  lemma NullRepresentable(k: Kernel)
    ensures Representable(k, JNull)
  {
  }

  lemma ListRepresentable(k: Kernel, items: seq<Json>)
    requires forall i :: 0 <= i < |items| ==> Representable(k, items[i])
    ensures Representable(k, JArr(items))
  {
  }

  /** Interned names are plain ASCII, so an object over them is as representable as its members. */
  lemma ObjectRepresentable(k: Kernel, fields: map<Key, Json>)
    requires forall key :: key in fields ==> !key.Annotation? && !key.Other? && Representable(k, fields[key])
    ensures Representable(k, JObj(fields))
  {
  }

  /** Below a value that canonicalizes, everything canonicalizes. */
  lemma GetCanonical(k: Kernel, j: Json, key: Key)
    requires Canonical(k, j).Some?
    ensures Canonical(k, Get(j, key)).Some?
  {
    NestsIsDepth(j, MAX_CANONICAL_DEPTH);
    NestsIsDepth(Get(j, key), MAX_CANONICAL_DEPTH);
    GetDepth(j, key);
  }

  // ----- what a hash comparison binds -----

  /** Equal hex hashes: equal bytes, or these two strings collide. */
  lemma HexHashBinds(k: Kernel, x: Bytes, y: Bytes)
    requires k.ShaHex(x) == k.ShaHex(y)
    ensures x == y || Collides(k.sha, {x}, {y})
  {
    HexInjective(k.sha(x), k.sha(y));
  }

  /** The same canonical bytes, or two different ones with the same hash. */
  ghost predicate SameCanonicalOrCollides(k: Kernel, a: Json, b: Json) {
    var x, y := Canonical(k, a), Canonical(k, b);
    x.Some? && y.Some? && (x == y || Collides(k.sha, {x.value}, {y.value}))
  }

  lemma CanonicalHashBinds(k: Kernel, a: Json, b: Json)
    requires CanonicalShaHex(k, a).Some? && CanonicalShaHex(k, a) == CanonicalShaHex(k, b)
    ensures SameCanonicalOrCollides(k, a, b)
  {
    hide Nests, Representable;
    HexHashBinds(k, Canonical(k, a).value, Canonical(k, b).value);
  }

  // ----- version tokens -----

  predicate IsDigit(c: char) {
    '0' <= c <= '9'
  }

  /** The major exactly, or the major, a dot and a non-empty run of digits. */
  predicate MatchesMajor(version: string, major: string) {
    version == major
    || (|version| > |major| + 1 && version[..|major|] == major && version[|major|] == '.'
        && forall i :: |major| < i < |version| ==> IsDigit(version[i]))
  }

  lemma MatchesMajorGrammar(version: string, major: string)
    ensures MatchesMajor(version, major)
            <==> version == major
                 || exists minor: string ::
                      minor != "" && version == major + "." + minor
                      && forall i :: 0 <= i < |minor| ==> IsDigit(minor[i])
  {
    if version != major && MatchesMajor(version, major) {
      var minor := version[|major| + 1..];
      assert version == major + "." + minor;
      assert forall i :: 0 <= i < |minor| ==> minor[i] == version[|major| + 1 + i];
    }
  }
}
