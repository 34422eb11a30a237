/** The URL test vectors of the communication layer, as facts about the model:
    each accepted URL parses to the listed components and selects the listed
    transport, and each malformed one is rejected. A URL that the parser splits
    is written as the concatenation of its scheme, "://", authority and path. */
module UrlVectors {
  import opened Wrappers
  import opened Url
  import Text
  import Decimal

  /** A URL assembled from valid parts, with no port, parses back to those
      parts; the raw scheme may differ from the parsed one in letter case. */
  lemma AcceptsWithoutPort(raw: string, host: string, path: string, scheme: string)
    requires ValidComponents(UrlComponents(scheme, host, 0, path))
    requires ValidScheme(raw) && Text.ToLower(raw) == scheme
    ensures ParseUrl(raw + "://" + host + path) == Some(UrlComponents(scheme, host, 0, path))
  {
    assert raw + "://" + host + PortText(0) + path == raw + "://" + host + path;
    ParseOf(raw, UrlComponents(scheme, host, 0, path));
  }

  /** The same with an explicit port written as `digits`. */
  lemma AcceptsWithPort(raw: string, host: string, digits: string, path: string, scheme: string, port: nat)
    requires ValidComponents(UrlComponents(scheme, host, port, path))
    requires ValidScheme(raw) && Text.ToLower(raw) == scheme
    requires ValidPortText(digits) && Decimal.Value(digits) == port
    ensures ParseUrl(raw + "://" + host + ":" + digits + path) == Some(UrlComponents(scheme, host, port, path))
  {
    Decimal.ValuePositive(digits);
    Decimal.ToDecimalOfValue(digits);
    assert raw + "://" + host + PortText(port) + path == raw + "://" + host + ":" + digits + path;
    ParseOf(raw, UrlComponents(scheme, host, port, path));
  }

  lemma Accepts01()
    ensures ParseUrl("unix" + "://" + "" + "/tmp") == Some(UrlComponents("unix", "", 0, "/tmp"))
    ensures GetTransportFramework("unix") == GRPCTransport
  {
    AcceptsWithoutPort("unix", "", "/tmp", "unix");
  }

  lemma Accepts02()
    ensures ParseUrl("Unix" + "://" + "" + "/tmp") == Some(UrlComponents("unix", "", 0, "/tmp"))
    ensures GetTransportFramework("unix") == GRPCTransport
  {
    AcceptsWithoutPort("Unix", "", "/tmp", "unix");
  }

  lemma Accepts03()
    ensures ParseUrl("UNIX" + "://" + "" + "/tmp") == Some(UrlComponents("unix", "", 0, "/tmp"))
    ensures GetTransportFramework("unix") == GRPCTransport
  {
    AcceptsWithoutPort("UNIX", "", "/tmp", "unix");
  }

  lemma Accepts04()
    ensures ParseUrl("unix" + "://" + "" + "/Path/_SubDir/d.-2/") == Some(UrlComponents("unix", "", 0, "/Path/_SubDir/d.-2/"))
    ensures GetTransportFramework("unix") == GRPCTransport
  {
    AcceptsWithoutPort("unix", "", "/Path/_SubDir/d.-2/", "unix");
  }

  lemma Accepts05()
    ensures ParseUrl("unix" + "://" + "" + "/") == Some(UrlComponents("unix", "", 0, "/"))
    ensures GetTransportFramework("unix") == GRPCTransport
  {
    AcceptsWithoutPort("unix", "", "/", "unix");
  }

  lemma Accepts06()
    ensures ParseUrl("foo" + "://" + "" + "/path/to/file") == Some(UrlComponents("foo", "", 0, "/path/to/file"))
    ensures GetTransportFramework("foo") == UnknownTransport
  {
    AcceptsWithoutPort("foo", "", "/path/to/file", "foo");
  }

  lemma Accepts07()
    ensures ParseUrl("http" + "://" + "localhost" + ":" + "80" + "") == Some(UrlComponents("http", "localhost", 80, ""))
    ensures GetTransportFramework("http") == UnknownTransport
  {
    assert Decimal.PrefixValue("80", 2) == 80;
    AcceptsWithPort("http", "localhost", "80", "", "http", 80);
  }

  lemma Accepts08()
    ensures ParseUrl("http" + "://" + "localhost" + ":" + "80" + "/") == Some(UrlComponents("http", "localhost", 80, "/"))
    ensures GetTransportFramework("http") == UnknownTransport
  {
    assert Decimal.PrefixValue("80", 2) == 80;
    AcceptsWithPort("http", "localhost", "80", "/", "http", 80);
  }

  lemma Accepts09()
    ensures ParseUrl("http" + "://" + "localhost" + ":" + "8000" + "/path") == Some(UrlComponents("http", "localhost", 8000, "/path"))
    ensures GetTransportFramework("http") == UnknownTransport
  {
    assert Decimal.PrefixValue("8000", 4) == 8000;
    AcceptsWithPort("http", "localhost", "8000", "/path", "http", 8000);
  }

  lemma Accepts10()
    ensures ParseUrl("http" + "://" + "localhost" + ":" + "8000" + "/path/") == Some(UrlComponents("http", "localhost", 8000, "/path/"))
    ensures GetTransportFramework("http") == UnknownTransport
  {
    assert Decimal.PrefixValue("8000", 4) == 8000;
    AcceptsWithPort("http", "localhost", "8000", "/path/", "http", 8000);
  }

  lemma Accepts11()
    ensures ParseUrl("http" + "://" + "localhost" + ":" + "8000" + "/path/subpath") == Some(UrlComponents("http", "localhost", 8000, "/path/subpath"))
    ensures GetTransportFramework("http") == UnknownTransport
  {
    assert Decimal.PrefixValue("8000", 4) == 8000;
    AcceptsWithPort("http", "localhost", "8000", "/path/subpath", "http", 8000);
  }

  lemma Accepts12()
    ensures ParseUrl("https" + "://" + "example.com" + ":" + "433" + "/path/subpath") == Some(UrlComponents("https", "example.com", 433, "/path/subpath"))
    ensures GetTransportFramework("https") == UnknownTransport
  {
    assert Decimal.PrefixValue("433", 3) == 433;
    AcceptsWithPort("https", "example.com", "433", "/path/subpath", "https", 433);
  }

  lemma Accepts13()
    ensures ParseUrl("ftp" + "://" + "host.example.com" + ":" + "21" + "/path_1/_2") == Some(UrlComponents("ftp", "host.example.com", 21, "/path_1/_2"))
    ensures GetTransportFramework("ftp") == UnknownTransport
  {
    assert Decimal.PrefixValue("21", 2) == 21;
    AcceptsWithPort("ftp", "host.example.com", "21", "/path_1/_2", "ftp", 21);
  }

  lemma Accepts14()
    ensures ParseUrl("tcp" + "://" + "localhost" + ":" + "12345" + "") == Some(UrlComponents("tcp", "localhost", 12345, ""))
    ensures GetTransportFramework("tcp") == UnknownTransport
  {
    assert Decimal.PrefixValue("12345", 5) == 12345;
    AcceptsWithPort("tcp", "localhost", "12345", "", "tcp", 12345);
  }

  lemma Accepts15()
    ensures ParseUrl("svn+ssh" + "://" + "localhost" + ":" + "12345" + "") == Some(UrlComponents("svn+ssh", "localhost", 12345, ""))
    ensures GetTransportFramework("svn+ssh") == UnknownTransport
  {
    assert Decimal.PrefixValue("12345", 5) == 12345;
    AcceptsWithPort("svn+ssh", "localhost", "12345", "", "svn+ssh", 12345);
  }

  lemma Accepts16()
    ensures ParseUrl("TCP+TV" + "://" + "host" + ":" + "456" + "") == Some(UrlComponents("tcp+tv", "host", 456, ""))
    ensures GetTransportFramework("tcp+tv") == TCPSocketTransport
  {
    assert Decimal.PrefixValue("456", 3) == 456;
    AcceptsWithPort("TCP+TV", "host", "456", "", "tcp+tv", 456);
  }

  lemma Accepts17()
    ensures ParseUrl("tCp+tV" + "://" + "192.168.52.1" + ":" + "999" + "") == Some(UrlComponents("tcp+tv", "192.168.52.1", 999, ""))
    ensures GetTransportFramework("tcp+tv") == TCPSocketTransport
  {
    assert Decimal.PrefixValue("999", 3) == 999;
    AcceptsWithPort("tCp+tV", "192.168.52.1", "999", "", "tcp+tv", 999);
  }

  lemma Accepts18()
    ensures ParseUrl("tcp+tv+0" + "://" + "192.168.52.1" + ":" + "999" + "") == Some(UrlComponents("tcp+tv+0", "192.168.52.1", 999, ""))
    ensures GetTransportFramework("tcp+tv+0") == UnknownTransport
  {
    assert Decimal.PrefixValue("999", 3) == 999;
    AcceptsWithPort("tcp+tv+0", "192.168.52.1", "999", "", "tcp+tv+0", 999);
  }

  lemma Accepts19()
    ensures ParseUrl("tv+tcp" + "://" + "myhost" + ":" + "2" + "") == Some(UrlComponents("tv+tcp", "myhost", 2, ""))
    ensures GetTransportFramework("tv+tcp") == TCPSocketTransport
  {
    assert Decimal.PrefixValue("2", 1) == 2;
    AcceptsWithPort("tv+tcp", "myhost", "2", "", "tv+tcp", 2);
  }

  lemma Accepts20()
    ensures ParseUrl("tv+tcp" + "://" + "myhost" + "") == Some(UrlComponents("tv+tcp", "myhost", 0, ""))
    ensures GetTransportFramework("tv+tcp") == TCPSocketTransport
  {
    AcceptsWithoutPort("tv+tcp", "myhost", "", "tv+tcp");
  }

  lemma Accepts21()
    ensures ParseUrl("tcp+tv+2" + "://" + "192.168.52.1" + ":" + "999" + "") == Some(UrlComponents("tcp+tv+2", "192.168.52.1", 999, ""))
    ensures GetTransportFramework("tcp+tv+2") == UnknownTransport
  {
    assert Decimal.PrefixValue("999", 3) == 999;
    AcceptsWithPort("tcp+tv+2", "192.168.52.1", "999", "", "tcp+tv+2", 999);
  }


  lemma Rejects01()
    ensures ParseUrl("") == None
  {
  }

  lemma Rejects02()
    ensures ParseUrl("?") == None
  {
  }

  lemma Rejects03()
    ensures ParseUrl("foo") == None
  {
  }

  lemma Rejects04()
    ensures ParseUrl("12") == None
  {
  }

  lemma Rejects05()
    ensures ParseUrl("123://") == None
  {
  }

  lemma Rejects06()
    ensures ParseUrl("123://path") == None
  {
  }

  lemma Rejects07()
    ensures ParseUrl("123:///path") == None
  {
  }

  lemma Rejects08()
    ensures ParseUrl("unix" + "://" + "" + "/tmp//") == None
  {
    assert "/tmp//"[4] == '/' && "/tmp//"[5] == '/';
    ParseRejects("unix", "", "/tmp//");
  }

  lemma Rejects09()
    ensures ParseUrl("unix" + "://" + "" + "/tmp//foo") == None
  {
    assert "/tmp//foo"[4] == '/' && "/tmp//foo"[5] == '/';
    ParseRejects("unix", "", "/tmp//foo");
  }

  lemma Rejects10()
    ensures ParseUrl("unix" + "://" + "" + "/tmp//foo/") == None
  {
    assert "/tmp//foo/"[4] == '/' && "/tmp//foo/"[5] == '/';
    ParseRejects("unix", "", "/tmp//foo/");
  }

  lemma Rejects11()
    ensures ParseUrl("unix" + "://" + "" + "//tmp") == None
  {
    assert "//tmp"[0] == '/' && "//tmp"[1] == '/';
    ParseRejects("unix", "", "//tmp");
  }

  lemma Rejects12()
    ensures ParseUrl("unix" + "://" + "" + "//") == None
  {
    assert "//"[0] == '/' && "//"[1] == '/';
    ParseRejects("unix", "", "//");
  }

  lemma Rejects13()
    ensures ParseUrl("http" + "://" + ("localhost" + ":" + "0") + "") == None
  {
    ParseAuthorityRejects("localhost", "0");
    ParseRejects("http", "localhost" + ":" + "0", "");
  }

  lemma Rejects14()
    ensures ParseUrl("http" + "://" + ("localhost" + ":" + "00") + "") == None
  {
    ParseAuthorityRejects("localhost", "00");
    ParseRejects("http", "localhost" + ":" + "00", "");
  }

  lemma Rejects15()
    ensures ParseUrl("http" + "://" + ("localhost" + ":" + "01") + "") == None
  {
    ParseAuthorityRejects("localhost", "01");
    ParseRejects("http", "localhost" + ":" + "01", "");
  }

  lemma Rejects16()
    ensures ParseUrl("http" + "://" + ("localhost" + ":" + "80:80") + "") == None
  {
    assert !Decimal.IsDigit("80:80"[2]);
    ParseAuthorityRejects("localhost", "80:80");
    ParseRejects("http", "localhost" + ":" + "80:80", "");
  }

  lemma Rejects17()
    ensures ParseUrl("http" + "://" + ("localhost" + ":" + "65536") + "") == None
  {
    assert Decimal.PrefixValue("65536", 5) == 65536;
    ParseAuthorityRejects("localhost", "65536");
    ParseRejects("http", "localhost" + ":" + "65536", "");
  }

  lemma Rejects18()
    ensures ParseUrl("http" + "://" + ("localhost" + ":" + "9999999999999999999999999999999999999") + "") == None
  {
    OverlongPortText("9999999999999999999999999999999999999");
    ParseAuthorityRejects("localhost", "9999999999999999999999999999999999999");
    ParseRejects("http", "localhost" + ":" + "9999999999999999999999999999999999999", "");
  }

  lemma Rejects19()
    ensures ParseUrl("http" + "://" + "" + "/localhost:80") == None
  {
    assert !IsPathChar("/localhost:80"[10]);
    ParseRejects("http", "", "/localhost:80");
  }

  lemma Rejects20()
    ensures ParseUrl("http" + "://" + "" + "/localhost:80/path") == None
  {
    assert !IsPathChar("/localhost:80/path"[10]);
    ParseRejects("http", "", "/localhost:80/path");
  }

  lemma Rejects21()
    ensures ParseUrl("http" + "://" + "localhost:80" + "/path//") == None
  {
    assert "/path//"[5] == '/' && "/path//"[6] == '/';
    ParseRejects("http", "localhost:80", "/path//");
  }

  lemma Rejects22()
    ensures ParseUrl("http" + "://" + "localhost:80" + "/path:123") == None
  {
    assert !IsPathChar("/path:123"[5]);
    ParseRejects("http", "localhost:80", "/path:123");
  }
}
