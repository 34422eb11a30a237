/** URL parsing for the communication layer (`ParseUrl`, `GetTransportFramework`).

    The accepted syntax is a narrowed subset of the generic URI syntax of
    RFC 3986 section 3: `scheme "://" host [":" port] path`, with the scheme
    of section 3.1 (a letter, then letters, digits, '+', '-', '.'), compared
    case-insensitively and returned lower-cased. The implementation of the
    parser is not part of this model; the rules below are the ones its test
    vectors pin down. */
module Url {
  import opened Wrappers
  import opened Text
  import Decimal

  datatype UrlComponents = UrlComponents(scheme: string, host: string, port: nat, path: string)

  datatype TransportFramework = GRPCTransport | TCPSocketTransport | UnknownTransport

  const MaxPort: nat := 65535

  predicate IsSchemeChar(c: char) {
    IsAsciiLetter(c) || Decimal.IsDigit(c) || c == '+' || c == '-' || c == '.'
  }

  predicate ValidScheme(s: string) {
    0 < |s| && IsAsciiLetter(s[0]) && forall i :: 0 <= i < |s| ==> IsSchemeChar(s[i])
  }

  predicate IsHostChar(c: char) {
    IsAsciiLetter(c) || Decimal.IsDigit(c) || c == '.' || c == '-' || c == '_'
  }

  predicate ValidHost(h: string) {
    forall i :: 0 <= i < |h| ==> IsHostChar(h[i])
  }

  predicate IsPathChar(c: char) {
    IsAsciiLetter(c) || Decimal.IsDigit(c) || c == '/' || c == '.' || c == '-' || c == '_'
  }

  /** Empty, or rooted at '/', with no empty segment. */
  predicate ValidPath(p: string) {
    (p == [] || p[0] == '/')
    && (forall i :: 0 <= i < |p| ==> IsPathChar(p[i]))
    && !HasDouble(p, '/')
  }

  /** An explicit port: decimal, no leading zero, 1 to 65535. */
  predicate ValidPortText(t: string) {
    0 < |t| && Decimal.AllDigits(t) && t[0] != '0' && Decimal.Value(t) <= MaxPort
  }

  /** Components as the parser produces them: the scheme is lower case and a
      port of 0 stands for "no port given". */
  predicate ValidComponents(c: UrlComponents) {
    ValidScheme(c.scheme)
    && (forall i :: 0 <= i < |c.scheme| ==> IsAsciiLower(c.scheme[i]))
    && ValidHost(c.host)
    && c.port <= MaxPort
    && ValidPath(c.path)
  }

  /** The scheme text before the first ':' and the text after the "://"
      that must follow it. */
  function SplitScheme(url: string): (r: Option<(string, string)>)
    ensures r.Some? ==> ValidScheme(r.value.0) && url == r.value.0 + "://" + r.value.1
  {
    var i := IndexOf(url, ':');
    if |url| < i + 3 || url[i + 1] != '/' || url[i + 2] != '/' || !ValidScheme(url[..i]) then None
    else
      assert url == url[..i] + "://" + url[i + 3..];
      Some((url[..i], url[i + 3..]))
  }

  /** The authority runs up to the first '/', the path is the rest. */
  function SplitAuthority(rest: string): (r: (string, string))
    ensures rest == r.0 + r.1
    ensures r.1 == [] || r.1[0] == '/'
    ensures forall i :: 0 <= i < |r.0| ==> r.0[i] != '/'
  {
    var j := IndexOf(rest, '/');
    assert rest == rest[..j] + rest[j..];
    (rest[..j], rest[j..])
  }

  /** `host [":" port]`; an absent port reads as 0. */
  function ParseAuthority(authority: string): (r: Option<(string, nat)>)
    ensures r.Some? ==> ValidHost(r.value.0) && r.value.1 <= MaxPort
    ensures r.Some? ==> authority == r.value.0 + PortText(r.value.1)
  {
    var k := IndexOf(authority, ':');
    var host := authority[..k];
    if !ValidHost(host) then None
    else if k == |authority| then
      assert authority == host;
      Some((host, 0))
    else
      var portText := authority[k + 1..];
      if ValidPortText(portText) then
        Decimal.ValuePositive(portText);
        Decimal.ToDecimalOfValue(portText);
        assert authority == host + ":" + portText;
        Some((host, Decimal.Value(portText)))
      else None
  }

  /** Splits `url` into its components; `None` for a malformed URL. */
  function ParseUrl(url: string): (r: Option<UrlComponents>)
    ensures r.Some? ==> ValidComponents(r.value)
  {
    match SplitScheme(url)
    case None => None
    case Some((scheme, rest)) =>
      var (authority, path) := SplitAuthority(rest);
      match ParseAuthority(authority)
      case None => None
      case Some((host, port)) =>
        if ValidPath(path) then Some(UrlComponents(ToLower(scheme), host, port, path)) else None
  }

  /** The text form of `c`; the port is left out when it is 0. */
  function FormatUrl(c: UrlComponents): string {
    c.scheme + "://" + c.host + PortText(c.port) + c.path
  }

  function PortText(port: nat): string {
    if port == 0 then "" else ":" + Decimal.ToDecimal(port)
  }

  /** Transport chosen by the (lower-case) scheme. */
  function GetTransportFramework(scheme: string): (f: TransportFramework)
    ensures f == GRPCTransport <==> scheme == "unix"
    ensures f == TCPSocketTransport <==> scheme == "tcp+tv" || scheme == "tv+tcp"
  {
    if scheme == "unix" then GRPCTransport
    else if scheme == "tcp+tv" || scheme == "tv+tcp" then TCPSocketTransport
    else UnknownTransport
  }

  lemma NoCharIn(s: string, pred: char -> bool, c: char)
    requires forall i :: 0 <= i < |s| ==> pred(s[i])
    requires !pred(c)
    ensures forall i :: 0 <= i < |s| ==> s[i] != c
  {
  }

  lemma SplitSchemeOf(scheme: string, tail: string)
    requires ValidScheme(scheme)
    ensures SplitScheme(scheme + "://" + tail) == Some((scheme, tail))
  {
    var url := scheme + "://" + tail;
    assert url == scheme + ("://" + tail);
    NoCharIn(scheme, IsSchemeChar, ':');
    IndexOfAfterPrefix(scheme, "://" + tail, ':');
    assert url[..|scheme|] == scheme;
    assert url[|scheme| + 3..] == tail;
  }

  lemma SplitAuthorityOf(authority: string, path: string)
    requires forall i :: 0 <= i < |authority| ==> authority[i] != '/'
    requires path == [] || path[0] == '/'
    ensures SplitAuthority(authority + path) == (authority, path)
  {
    IndexOfAfterPrefix(authority, path, '/');
    assert (authority + path)[..|authority|] == authority;
  }

  lemma ParseAuthorityOf(host: string, port: nat)
    requires ValidHost(host) && port <= MaxPort
    ensures ParseAuthority(host + PortText(port)) == Some((host, port))
  {
    var pt := PortText(port);
    NoCharIn(host, IsHostChar, ':');
    IndexOfAfterPrefix(host, pt, ':');
    assert (host + pt)[..|host|] == host;
    if port != 0 {
      assert (host + pt)[|host| + 1..] == Decimal.ToDecimal(port);
      Decimal.ValueOfToDecimal(port);
    }
  }

  /** A URL whose scheme lower-cases to the scheme of a valid component
      record, followed by that record's remaining text, parses to the record. */
  lemma ParseOf(scheme: string, c: UrlComponents)
    requires ValidComponents(c) && ValidScheme(scheme) && ToLower(scheme) == c.scheme
    ensures ParseUrl(scheme + "://" + c.host + PortText(c.port) + c.path) == Some(c)
  {
    var pt := PortText(c.port);
    var authority := c.host + pt;
    assert scheme + "://" + c.host + pt + c.path == scheme + "://" + (authority + c.path);
    SplitSchemeOf(scheme, authority + c.path);
    NoCharIn(c.host, IsHostChar, '/');
    if c.port != 0 {
      NoCharIn(Decimal.ToDecimal(c.port), Decimal.IsDigit, '/');
      assert forall j :: 0 <= j < |pt| ==> pt[j] != '/' by {
        forall j | 0 <= j < |pt| ensures pt[j] != '/' {
          if j > 0 { assert pt[j] == Decimal.ToDecimal(c.port)[j - 1]; }
        }
      }
    }
    assert forall j :: 0 <= j < |authority| ==> authority[j] != '/' by {
      forall j | 0 <= j < |authority| ensures authority[j] != '/' {
        if j >= |c.host| { assert authority[j] == pt[j - |c.host|]; }
      }
    }
    SplitAuthorityOf(authority, c.path);
    ParseAuthorityOf(c.host, c.port);
  }

  /** A valid port has at most five digits. */
  lemma OverlongPortText(t: string)
    requires |t| > 5
    ensures !ValidPortText(t)
  {
    if 0 < |t| && Decimal.AllDigits(t) && t[0] != '0' {
      Decimal.ValueAtLeast(t);
      PowMonotone(5, |t| - 1);
    }
  }

  lemma {:induction false} PowMonotone(j: nat, k: nat)
    requires j <= k
    ensures Decimal.Pow10(j) <= Decimal.Pow10(k)
    decreases k
  {
    if j < k {
      PowMonotone(j, k - 1);
    }
  }

  /** An authority whose text after the first ':' is not a valid port is rejected. */
  lemma ParseAuthorityRejects(host: string, portText: string)
    requires ValidHost(host) && !ValidPortText(portText)
    ensures ParseAuthority(host + ":" + portText) == None
  {
    var a := host + ":" + portText;
    assert a == host + (":" + portText);
    NoCharIn(host, IsHostChar, ':');
    IndexOfAfterPrefix(host, ":" + portText, ':');
    assert a[..|host|] == host;
    assert a[|host| + 1..] == portText;
  }

  /** A well-split URL whose authority or path is malformed is rejected. */
  lemma ParseRejects(scheme: string, authority: string, path: string)
    requires ValidScheme(scheme)
    requires forall i :: 0 <= i < |authority| ==> authority[i] != '/'
    requires path == [] || path[0] == '/'
    requires ParseAuthority(authority).None? || !ValidPath(path)
    ensures ParseUrl(scheme + "://" + authority + path) == None
  {
    assert scheme + "://" + authority + path == scheme + "://" + (authority + path);
    SplitSchemeOf(scheme, authority + path);
    SplitAuthorityOf(authority, path);
  }

  /** Every valid component record is what its own text parses to. */
  lemma ParseFormat(c: UrlComponents)
    requires ValidComponents(c)
    ensures ParseUrl(FormatUrl(c)) == Some(c)
  {
    assert ToLower(c.scheme) == c.scheme;
    ParseOf(c.scheme, c);
  }

  /** What a successful parse is made of, stage by stage. */
  lemma ParseStages(url: string, c: UrlComponents)
    requires ParseUrl(url) == Some(c)
    ensures SplitScheme(url).Some?
    ensures c.scheme == ToLower(SplitScheme(url).value.0)
    ensures SplitAuthority(SplitScheme(url).value.1).1 == c.path
    ensures ParseAuthority(SplitAuthority(SplitScheme(url).value.1).0) == Some((c.host, c.port))
  {
  }

  /** Conversely, a parsed URL prints back as its input with the scheme lower-cased:
      two URLs parse alike exactly when they differ at most in the case of the scheme. */
  lemma FormatParse(url: string, c: UrlComponents)
    requires ParseUrl(url) == Some(c)
    ensures SplitScheme(url).Some?
    ensures FormatUrl(c) == ToLower(SplitScheme(url).value.0) + "://" + SplitScheme(url).value.1
  {
    ParseStages(url, c);
    var sp := SplitScheme(url).value;
    var ap := SplitAuthority(sp.1);
    assert ap.0 == c.host + PortText(c.port);
    assert sp.1 == ap.0 + ap.1;
    FormatShape(c);
  }

  lemma FormatShape(c: UrlComponents)
    ensures FormatUrl(c) == c.scheme + "://" + (c.host + PortText(c.port) + c.path)
  {
  }
}
