/** Protocol version numbers: a pair of unsigned 32-bit fields written
    "major.minor", read back with wrap-around, and ordered lexicographically
    like `std::pair`. The parser itself is not part of this model; the rules
    below are the ones its test vectors pin down. */
module Version {
  import opened Wrappers
  import opened Decimal
  import Text

  const Modulus: nat := 0x1_0000_0000

  type U32 = x: int | 0 <= x < 0x1_0000_0000

  datatype VersionNumber = VersionNumber(major: U32, minor: U32)

  /** The version this SDK announces to the agent. */
  const ClientVersion := VersionNumber(1, 0)

  /** The value a default-constructed pair holds. */
  const Zero := VersionNumber(0, 0)

  /** A field is decimal digits, optionally after one leading '-'. */
  predicate ValidField(t: string) {
    if 0 < |t| && t[0] == '-' then 1 < |t| && AllDigits(t[1..]) else 0 < |t| && AllDigits(t)
  }

  /** The value of a field, reduced modulo 2^32; a '-' negates modulo 2^32. */
  function FieldValue(t: string): (v: U32)
    requires ValidField(t)
    ensures 0 < |t| && t[0] == '-' ==> (v + Value(t[1..])) % Modulus == 0
    ensures !(0 < |t| && t[0] == '-') ==> v % Modulus == Value(t) % Modulus
  {
    if t[0] == '-' then (Modulus - Value(t[1..]) % Modulus) % Modulus else Value(t) % Modulus
  }

  /** Parses "major.minor"; `None` unless the text is exactly two valid fields
      around one '.'. */
  function FromString(s: string): (r: Option<VersionNumber>)
    ensures r.Some? ==>
      var i := Text.IndexOf(s, '.');
      0 < i < |s| - 1 && s[i] == '.'
      && ValidField(s[..i]) && ValidField(s[i + 1..])
      && r.value == VersionNumber(FieldValue(s[..i]), FieldValue(s[i + 1..]))
  {
    var i := Text.IndexOf(s, '.');
    if i < |s| && ValidField(s[..i]) && ValidField(s[i + 1..]) then
      Some(VersionNumber(FieldValue(s[..i]), FieldValue(s[i + 1..])))
    else None
  }

  /** "major.minor" in shortest decimal; reading it back gives `v` again. */
  function ToString(v: VersionNumber): (s: string)
    ensures FromString(s) == Some(v)
  {
    var a := ToDecimal(v.major);
    var b := ToDecimal(v.minor);
    FromStringOf(a, b);
    ValueOfToDecimal(v.major);
    ValueOfToDecimal(v.minor);
    a + "." + b
  }

  /** Two valid fields around a '.' parse to their values. */
  lemma FromStringOf(a: string, b: string)
    requires ValidField(a) && ValidField(b)
    ensures FromString(a + "." + b) == Some(VersionNumber(FieldValue(a), FieldValue(b)))
  {
    var s := a + "." + b;
    assert forall j :: 0 <= j < |a| ==> a[j] != '.' by {
      forall j | 0 <= j < |a| ensures a[j] != '.' {
        if a[0] == '-' && j > 0 { assert a[j] == a[1..][j - 1]; }
      }
    }
    Text.IndexOfAfterPrefix(a, "." + b, '.');
    assert s == a + ("." + b);
    assert s[..|a|] == a;
    assert s[|a| + 1..] == b;
  }

  /** Text without a '.' is never a version. */
  lemma FromStringNeedsDot(s: string)
    requires forall j :: 0 <= j < |s| ==> s[j] != '.'
    ensures FromString(s) == None
  {
    Text.IndexOfUnique(s, '.', |s|);
  }

  /** The test reads into a default pair, so a failed parse reads as (0, 0). */
  function FromStringOrZero(s: string): (v: VersionNumber)
    ensures FromString(s).Some? ==> v == FromString(s).value
    ensures FromString(s).None? ==> v == Zero
  {
    FromString(s).GetOr(Zero)
  }

  /** `std::pair` ordering: first fields, then second fields. */
  predicate Less(a: VersionNumber, b: VersionNumber) {
    a.major < b.major || (a.major == b.major && a.minor < b.minor)
  }

  predicate LessEq(a: VersionNumber, b: VersionNumber) {
    !Less(b, a)
  }

  predicate Greater(a: VersionNumber, b: VersionNumber) {
    Less(b, a)
  }

  predicate GreaterEq(a: VersionNumber, b: VersionNumber) {
    !Less(a, b)
  }

  /** A version as one 64-bit number, major in the upper half. */
  function Key(v: VersionNumber): nat {
    v.major * Modulus + v.minor
  }

  /** The lexicographic order is the numeric order of the packed 64-bit value. */
  lemma LessIsKeyOrder(a: VersionNumber, b: VersionNumber)
    ensures Less(a, b) <==> Key(a) < Key(b)
    ensures a == b <==> Key(a) == Key(b)
  {
    if a.major < b.major {
      assert Key(a) < (a.major + 1) * Modulus <= Key(b);
    } else if a.major > b.major {
      assert Key(b) < (b.major + 1) * Modulus <= Key(a);
    }
  }

  /** Exactly one of less, equal, greater holds. */
  lemma Trichotomy(a: VersionNumber, b: VersionNumber)
    ensures Less(a, b) || a == b || Greater(a, b)
    ensures !(Less(a, b) && Greater(a, b))
    ensures Less(a, b) ==> a != b
  {
  }

  /** The version both sides speak: the smaller of ours and the agent's reply,
      where an unreadable reply counts as (0, 0). */
  function NegotiatedVersion(reply: string): (v: VersionNumber)
    ensures v == ClientVersion || v == FromStringOrZero(reply)
    ensures LessEq(v, ClientVersion) && LessEq(v, FromStringOrZero(reply))
  {
    var server := FromStringOrZero(reply);
    if Less(ClientVersion, server) then ClientVersion else server
  }

  /** A reply that does not parse negotiates version "0.0". */
  lemma NegotiateUnreadable(reply: string)
    requires FromString(reply).None?
    ensures NegotiatedVersion(reply) == Zero
    ensures ToString(NegotiatedVersion(reply)) == "0.0"
  {
  }
}
