/** The communication channel's configuration logic: choosing the base and
    agent URLs (`setUrls`, `setRemoteScreenSdkBaseUrlChecked`), the message
    ID sent when loading chat history, how an obtained chat list is handed
    on, and the rule that decides whether the
    client and server setup succeeded. Threads, sockets and logging are left
    out; the channel's state is the part those operations read and write. */
module CommunicationChannel {
  import opened Wrappers
  import Url
  import Text
  import Decimal
  import Enumerate
  import Med = ServicesMediator
  import Cs = ChatService
  import Sb = ServiceBase

  /** `BaseUrlParseResultCode`. */
  datatype BaseUrlParseResultCode = Success | CharacterLimitForPathExceeded | SchemaNotValid | ConnectionIsInUse

  /** The longest socket path gRPC accepts. */
  const MaxSizeOfSocketPath: nat := 107
  /** Room kept for the communication ID at the end of a socket path. */
  const UuidSize: nat := 32
  /** The agent's registration socket under the base path. */
  const RegistrationServicePath: string := RegistrationServiceDir + "/remoteScreen/registrationService"
  const RegistrationServiceDir: string := "teamviewer-iot-agent-services"
  const RegistrationServicePort: nat := 9221
  /** Sent in place of an empty "last message" ID, which the agent refuses. */
  const NilUuid: string := "00000000-0000-0000-0000-000000000000"

  /** The part of the channel the URL setters read and write. */
  datatype Channel = Channel(
    running: bool,
    server: Url.UrlComponents,
    framework: Url.TransportFramework,
    mediator: Med.Mediator)

  /** `ParseUrlIntoUrlComponentsAndFramework`. */
  function ParseWithFramework(url: string): (r: Option<(Url.UrlComponents, Url.TransportFramework)>)
    ensures r.Some? <==> Url.ParseUrl(url).Some?
    ensures r.Some? ==> Url.ValidComponents(r.value.0) && Url.ParseUrl(Url.FormatUrl(r.value.0)) == Some(r.value.0)
    ensures r.Some? ==> (r.value.1 == Url.GRPCTransport <==> r.value.0.scheme == "unix")
    ensures r.Some? ==> (r.value.1 == Url.TCPSocketTransport <==> r.value.0.scheme == "tcp+tv" || r.value.0.scheme == "tv+tcp")
  {
    match Url.ParseUrl(url)
    case None => None
    case Some(c) =>
      Url.ParseFormat(c);
      Some((c, Url.GetTransportFramework(c.scheme)))
  }

  /** The server types whose gRPC socket paths `setUrls` measures, in the
      order it measures them. */
  const CheckedSockets: seq<Med.ServiceType> := [
    Med.AccessControlOut, Med.ChatOut, Med.Connectivity, Med.Input, Med.SessionStatus,
    Med.InstantSupportNotification, Med.ConnectionConfirmationRequest]

  /** The length estimate for one socket: the whole base URL text, a full
      communication ID and the server's location. */
  predicate SocketFits(baseUrl: string, t: Med.ServiceType) {
    |baseUrl| + UuidSize + |Med.GrpcLocation(t)| < MaxSizeOfSocketPath
  }

  predicate SocketsFit(baseUrl: string) {
    forall i :: 0 <= i < |CheckedSockets| ==> SocketFits(baseUrl, CheckedSockets[i])
  }

  /** gRPC addresses sockets by path alone: neither URL may name a host or a port. */
  predicate GrpcShape(c: Url.UrlComponents, a: Url.UrlComponents) {
    c.host == [] && c.port == 0 && a.host == [] && a.port == 0
  }

  /** TCP addresses by host and port: no paths; the base URL leaves the
      port to each server, the agent URL must give one. */
  predicate TcpShape(c: Url.UrlComponents, a: Url.UrlComponents) {
    c.path == [] && c.port == 0 && a.path == [] && a.port != 0
  }

  /** `setUrls`: a running channel refuses at once; then both URLs must
      parse to the same known transport and have that transport's shape, and
      for gRPC every checked socket must fit. Only a success stores the base
      components and transport and replaces the mediator. */
  function SetUrls(ch: Channel, baseUrl: string, agentUrl: string): (r: (BaseUrlParseResultCode, Channel))
    ensures ch.running <==> r.0 == ConnectionIsInUse
    ensures r.0 != Success ==> r.1 == ch
    ensures r.0 == Success ==> (
      Url.ParseUrl(baseUrl).Some? && Url.ParseUrl(agentUrl).Some?
      && r.1.server == Url.ParseUrl(baseUrl).value
      && r.1.framework == Url.GetTransportFramework(r.1.server.scheme) != Url.UnknownTransport
      && Url.GetTransportFramework(Url.ParseUrl(agentUrl).value.scheme) == r.1.framework
      && r.1 == ch.(server := r.1.server, framework := r.1.framework,
                    mediator := Med.Create(r.1.server, r.1.framework, agentUrl)))
  {
    if ch.running then (ConnectionIsInUse, ch)
    else match (ParseWithFramework(baseUrl), ParseWithFramework(agentUrl))
      case (Some((c, f)), Some((a, _))) =>
        var v := Verdict(c, a, SocketsFit(baseUrl));
        if v == Success then (Success, ch.(server := c, framework := f, mediator := Med.Create(c, f, agentUrl)))
        else (v, ch)
      case _ => (SchemaNotValid, ch)
  }

  /** Both URLs parse, to the same transport, which is `f`. */
  predicate SameTransport(baseUrl: string, agentUrl: string, f: Url.TransportFramework) {
    Url.ParseUrl(baseUrl).Some? && Url.ParseUrl(agentUrl).Some?
    && Url.GetTransportFramework(Url.ParseUrl(baseUrl).value.scheme) == f
    && Url.GetTransportFramework(Url.ParseUrl(agentUrl).value.scheme) == f
  }

  /** The verdict of an idle channel's `setUrls` on two parsed URLs, with
      `fits` the outcome of the socket length check. */
  function Verdict(c: Url.UrlComponents, a: Url.UrlComponents, fits: bool): (r: BaseUrlParseResultCode)
    ensures r != ConnectionIsInUse
    ensures r == Success ==>
      Url.GetTransportFramework(a.scheme) == Url.GetTransportFramework(c.scheme) != Url.UnknownTransport
    ensures r == Success && Url.GetTransportFramework(c.scheme) == Url.GRPCTransport ==> GrpcShape(c, a) && fits
    ensures r == Success && Url.GetTransportFramework(c.scheme) == Url.TCPSocketTransport ==> TcpShape(c, a)
  {
    var f := Url.GetTransportFramework(c.scheme);
    if Url.GetTransportFramework(a.scheme) != f then SchemaNotValid
    else if f == Url.GRPCTransport && !GrpcShape(c, a) then SchemaNotValid
    else if f == Url.GRPCTransport && !fits then CharacterLimitForPathExceeded
    else if f == Url.TCPSocketTransport && !TcpShape(c, a) then SchemaNotValid
    else if f == Url.UnknownTransport then SchemaNotValid
    else Success
  }

  /** An idle channel's `setUrls` refuses an unparsable URL and otherwise
      follows the verdict on the two parses. */
  lemma SetUrlsByParse(ch: Channel, baseUrl: string, agentUrl: string)
    requires !ch.running
    ensures Url.ParseUrl(baseUrl).None? || Url.ParseUrl(agentUrl).None? ==> SetUrls(ch, baseUrl, agentUrl).0 == SchemaNotValid
    ensures Url.ParseUrl(baseUrl).Some? && Url.ParseUrl(agentUrl).Some? ==>
      SetUrls(ch, baseUrl, agentUrl).0 == Verdict(Url.ParseUrl(baseUrl).value, Url.ParseUrl(agentUrl).value, SocketsFit(baseUrl))
  {
  }

  /** When an idle channel accepts a pair of URLs. */
  lemma SetUrlsSucceeds(ch: Channel, baseUrl: string, agentUrl: string)
    requires !ch.running
    ensures SetUrls(ch, baseUrl, agentUrl).0 == Success <==>
      (SameTransport(baseUrl, agentUrl, Url.GRPCTransport)
         && GrpcShape(Url.ParseUrl(baseUrl).value, Url.ParseUrl(agentUrl).value) && SocketsFit(baseUrl))
      || (SameTransport(baseUrl, agentUrl, Url.TCPSocketTransport)
         && TcpShape(Url.ParseUrl(baseUrl).value, Url.ParseUrl(agentUrl).value))
  {
    SetUrlsByParse(ch, baseUrl, agentUrl);
  }

  /** When it reports a socket path as too long: only for two well-shaped
      gRPC URLs. */
  lemma SetUrlsTooLong(ch: Channel, baseUrl: string, agentUrl: string)
    requires !ch.running
    ensures SetUrls(ch, baseUrl, agentUrl).0 == CharacterLimitForPathExceeded <==>
      SameTransport(baseUrl, agentUrl, Url.GRPCTransport)
      && GrpcShape(Url.ParseUrl(baseUrl).value, Url.ParseUrl(agentUrl).value) && !SocketsFit(baseUrl)
  {
    SetUrlsByParse(ch, baseUrl, agentUrl);
  }

  /** When it reports the URLs as malformed: a parse failure, a transport
      mismatch, an unknown transport, or the wrong shape for the transport. */
  lemma SetUrlsRejectsSchema(ch: Channel, baseUrl: string, agentUrl: string)
    requires !ch.running
    ensures SetUrls(ch, baseUrl, agentUrl).0 == SchemaNotValid <==>
      Url.ParseUrl(baseUrl).None? || Url.ParseUrl(agentUrl).None?
      || (!SameTransport(baseUrl, agentUrl, Url.GRPCTransport) && !SameTransport(baseUrl, agentUrl, Url.TCPSocketTransport))
      || (SameTransport(baseUrl, agentUrl, Url.GRPCTransport)
          && !GrpcShape(Url.ParseUrl(baseUrl).value, Url.ParseUrl(agentUrl).value))
      || (SameTransport(baseUrl, agentUrl, Url.TCPSocketTransport)
          && !TcpShape(Url.ParseUrl(baseUrl).value, Url.ParseUrl(agentUrl).value))
  {
    SetUrlsByParse(ch, baseUrl, agentUrl);
  }

  /** The base URL's text is `"unix://"` and its path when gRPC accepts it. */
  lemma {:induction false} GrpcBaseLength(url: string, c: Url.UrlComponents)
    requires Url.ParseUrl(url) == Some(c) && Url.GetTransportFramework(c.scheme) == Url.GRPCTransport
    requires c.host == [] && c.port == 0
    ensures |url| == 7 + |c.path|
  {
    Url.FormatParse(url, c);
    var sp := Url.SplitScheme(url).value;
    assert |Text.ToLower(sp.0)| == |sp.0|;
    assert |Url.FormatUrl(c)| == |c.scheme| + 3 + |c.path|;
  }

  /** What a successful gRPC `setUrls` leaves behind: the stored server is
      the base URL's parse, host-less and port-less, and the base URL
      passed the length check. */
  lemma AcceptedGrpcFacts(ch: Channel, baseUrl: string, agentUrl: string)
    requires SetUrls(ch, baseUrl, agentUrl).0 == Success
    requires SetUrls(ch, baseUrl, agentUrl).1.framework == Url.GRPCTransport
    ensures var c := SetUrls(ch, baseUrl, agentUrl).1.server;
      Url.ParseUrl(baseUrl) == Some(c) && Url.GetTransportFramework(c.scheme) == Url.GRPCTransport
      && c.host == [] && c.port == 0 && SocketsFit(baseUrl)
  {
    SetUrlsByParse(ch, baseUrl, agentUrl);
  }

  /** A gRPC base URL that `setUrls` accepted has a short path: the check
      on the longest checked location bounds it. */
  lemma {:induction false} AcceptedGrpcPathShort(ch: Channel, baseUrl: string, agentUrl: string)
    requires SetUrls(ch, baseUrl, agentUrl).0 == Success
    requires SetUrls(ch, baseUrl, agentUrl).1.framework == Url.GRPCTransport
    ensures 7 + |SetUrls(ch, baseUrl, agentUrl).1.server.path| + UuidSize + 16 < MaxSizeOfSocketPath
  {
    var c := SetUrls(ch, baseUrl, agentUrl).1.server;
    AcceptedGrpcFacts(ch, baseUrl, agentUrl);
    GrpcBaseLength(baseUrl, c);
    LastSocketFits(baseUrl);
  }

  /** The last checked socket, the longest location, is 16 characters. */
  lemma LastSocketFits(baseUrl: string)
    requires SocketsFit(baseUrl)
    ensures |baseUrl| + UuidSize + 16 < MaxSizeOfSocketPath
  {
    assert SocketFits(baseUrl, CheckedSockets[6]);
    assert |Med.GrpcLocation(Med.ConnectionConfirmationRequest)| == 16;
  }

  /** What the gRPC length check buys: after a successful `setUrls`, the
      socket path of every server, the AugmentRCSession consumer's included
      though it is not among the checked ones, stays under the limit once a
      full-length communication ID is appended. */
  lemma {:induction false} AcceptedSocketPathsFit(
    ch: Channel, baseUrl: string, agentUrl: string, id: string, t: Med.ServiceType)
    requires SetUrls(ch, baseUrl, agentUrl).0 == Success
    requires SetUrls(ch, baseUrl, agentUrl).1.framework == Url.GRPCTransport
    requires |id| == UuidSize && Med.IsServerType(t)
    ensures |Med.GrpcSocketPath(SetUrls(ch, baseUrl, agentUrl).1.mediator.(comId := id), t)| < MaxSizeOfSocketPath
  {
    AcceptedGrpcPathShort(ch, baseUrl, agentUrl);
    Med.GrpcLocationShape(t);
  }

  /** And the servers can be reached: after a successful `setUrls`, every
      server's full location (gRPC: with a '/'-free ID, under a base path
      with no trailing '/') parses back to the configured scheme and host. */
  lemma {:induction false} AcceptedLocationsParse(
    ch: Channel, baseUrl: string, agentUrl: string, id: string, t: Med.ServiceType)
    requires SetUrls(ch, baseUrl, agentUrl).0 == Success
    requires Med.IsServerType(t) && Med.PathSafeId(id)
    ensures var ch' := SetUrls(ch, baseUrl, agentUrl).1;
      var m := ch'.mediator.(comId := id);
      var c := ch'.server;
      && (ch'.framework == Url.TCPSocketTransport ==>
            Url.ParseUrl(Med.FullServerLocation(m, t)) == Some(Url.UrlComponents(c.scheme, c.host, Med.TcpPort(t), [])))
      && (ch'.framework == Url.GRPCTransport && (c.path == [] || c.path[|c.path| - 1] != '/') ==>
            Url.ParseUrl(Med.FullServerLocation(m, t))
              == Some(Url.UrlComponents(c.scheme, [], 0, c.path + "/" + Med.GrpcLocation(t) + id)))
  {
    var ch' := SetUrls(ch, baseUrl, agentUrl).1;
    var m := ch'.mediator.(comId := id);
    SetUrlsSucceeds(ch, baseUrl, agentUrl);
    if ch'.framework == Url.TCPSocketTransport {
      Med.TcpFullLocationParses(m, t);
    } else if ch'.framework == Url.GRPCTransport && (ch'.server.path == [] || ch'.server.path[|ch'.server.path| - 1] != '/') {
      Med.GrpcFullLocationParses(m, t);
    }
  }

  /** The agent's registration URL derived from a parsed base URL. */
  function AgentRegistrationUrl(c: Url.UrlComponents, f: Url.TransportFramework): (r: Option<string>)
    ensures r.None? <==> f == Url.UnknownTransport
  {
    match f
    case GRPCTransport => Some(c.scheme + "://" + (c.path + "/" + RegistrationServicePath))
    case TCPSocketTransport => Some(c.scheme + "://" + c.host + ":" + Decimal.ToDecimal(RegistrationServicePort))
    case UnknownTransport => None
  }

  /** `setRemoteScreenSdkBaseUrlChecked`: parse the base URL, derive the
      agent's registration URL from it, and hand both to `setUrls`. The parse
      comes before the running check, so a malformed URL is reported as such
      even while the channel runs. `setRemoteScreenSdkBaseUrl` is `r.0 == Success`. */
  function SetBaseUrlChecked(ch: Channel, url: string): (r: (BaseUrlParseResultCode, Channel))
    ensures r.0 != Success ==> r.1 == ch
  {
    match ParseWithFramework(url)
    case None => (SchemaNotValid, ch)
    case Some((c, f)) =>
      match AgentRegistrationUrl(c, f)
      case None => (SchemaNotValid, ch)
      case Some(agent) => SetUrls(ch, url, agent)
  }

  lemma RegistrationPathShape()
    ensures var g := RegistrationServicePath;
      0 < |g| && g[0] != '/' && (forall i :: 0 <= i < |g| ==> Url.IsPathChar(g[i]))
      && !Text.HasDouble(g, '/')
  {
    var a := RegistrationServiceDir;
    var b := "/remoteScreen/registrationService";
    assert a[|a| - 1] == 's';
    Med.JoinPath(a, b);
    assert RegistrationServicePath == a + b;
  }

  predicate NoTrailingSlash(p: string) {
    p == [] || p[|p| - 1] != '/'
  }

  /** A relative path `g` joined under a base path with no trailing '/'
      parses back as a host-less URL. */
  lemma {:induction false} JoinedPathParses(c: Url.UrlComponents, g: string)
    requires Url.ValidComponents(c) && NoTrailingSlash(c.path)
    requires 0 < |g| && g[0] != '/' && (forall i :: 0 <= i < |g| ==> Url.IsPathChar(g[i]))
    requires !Text.HasDouble(g, '/')
    ensures Url.ParseUrl(c.scheme + "://" + (c.path + "/" + g)) == Some(Url.UrlComponents(c.scheme, [], 0, c.path + "/" + g))
  {
    var p := c.path + "/" + g;
    assert Url.ValidPath(p) by {
      assert p == c.path + "/" + g + [];
      Med.SocketPathValid(c.path, g, []);
    }
    Med.ParseWithoutHost(c, p);
  }

  /** Under a base path with a trailing '/' the join makes a "//" and the
      result does not parse. */
  lemma {:induction false} JoinedPathRejected(c: Url.UrlComponents, g: string)
    requires Url.ValidComponents(c) && !NoTrailingSlash(c.path)
    ensures Url.ParseUrl(c.scheme + "://" + (c.path + "/" + g)) == None
  {
    var p := c.path + "/" + g;
    var k := |c.path| - 1;
    assert p[k] == '/' && p[k + 1] == '/';
    assert !Url.ValidPath(p);
    assert p[0] == '/' by {
      assert p[0] == c.path[0];
    }
    assert c.scheme + "://" + (c.path + "/" + g) == c.scheme + "://" + [] + p;
    Url.ParseRejects(c.scheme, [], p);
  }

  /** The derived gRPC registration URL parses exactly when the base path
      has no trailing '/'. */
  lemma {:induction false} GrpcRegistrationParses(c: Url.UrlComponents)
    requires Url.ValidComponents(c)
    ensures NoTrailingSlash(c.path) ==>
      Url.ParseUrl(c.scheme + "://" + (c.path + "/" + RegistrationServicePath))
        == Some(Url.UrlComponents(c.scheme, [], 0, c.path + "/" + RegistrationServicePath))
    ensures !NoTrailingSlash(c.path) ==>
      Url.ParseUrl(c.scheme + "://" + (c.path + "/" + RegistrationServicePath)) == None
  {
    if NoTrailingSlash(c.path) {
      RegistrationPathShape();
      JoinedPathParses(c, RegistrationServicePath);
    } else {
      JoinedPathRejected(c, RegistrationServicePath);
    }
  }

  /** The derived TCP registration URL parses to the base host and port 9221. */
  lemma {:induction false} TcpRegistrationParses(c: Url.UrlComponents)
    requires Url.ValidComponents(c)
    ensures Url.ParseUrl(c.scheme + "://" + c.host + ":" + Decimal.ToDecimal(RegistrationServicePort))
      == Some(Url.UrlComponents(c.scheme, c.host, RegistrationServicePort, []))
  {
    Med.ParseWithPort(c.(path := [], port := 0), RegistrationServicePort);
  }

  /** The outcome of the checked base-URL setter in terms of the base URL
      alone: the derived agent URL always has the right shape, so gRPC
      succeeds exactly for a host-less, port-less URL whose path has no
      trailing '/' and whose sockets fit, and TCP exactly for a path-less,
      port-less URL. */
  lemma {:induction false} BaseUrlCheckedOutcomes(ch: Channel, url: string)
    ensures Url.ParseUrl(url).None? ==> SetBaseUrlChecked(ch, url).0 == SchemaNotValid
    ensures Url.ParseUrl(url).Some? ==> (
      var c := Url.ParseUrl(url).value;
      var f := Url.GetTransportFramework(c.scheme);
      var r := SetBaseUrlChecked(ch, url).0;
      && (f == Url.UnknownTransport ==> r == SchemaNotValid)
      && (f != Url.UnknownTransport && ch.running ==> r == ConnectionIsInUse)
      && (f == Url.GRPCTransport && !ch.running ==>
            (r == Success <==> c.host == [] && c.port == 0 && NoTrailingSlash(c.path) && SocketsFit(url))
            && (r == CharacterLimitForPathExceeded <==>
                  c.host == [] && c.port == 0 && NoTrailingSlash(c.path) && !SocketsFit(url)))
      && (f == Url.TCPSocketTransport && !ch.running ==>
            (r == Success <==> c.path == [] && c.port == 0)))
  {
    if Url.ParseUrl(url).Some? {
      var c := Url.ParseUrl(url).value;
      var f := Url.GetTransportFramework(c.scheme);
      if f == Url.GRPCTransport && !ch.running {
        BaseUrlCheckedGrpc(ch, url, c);
      } else if f == Url.TCPSocketTransport && !ch.running {
        BaseUrlCheckedTcp(ch, url, c);
      }
    }
  }

  /** The gRPC half: the registration URL parses exactly when the base path
      has no trailing '/', and then `setUrls` decides. */
  lemma {:induction false} BaseUrlCheckedGrpc(ch: Channel, url: string, c: Url.UrlComponents)
    requires !ch.running && Url.ParseUrl(url) == Some(c)
    requires Url.GetTransportFramework(c.scheme) == Url.GRPCTransport
    ensures var r := SetBaseUrlChecked(ch, url).0;
      && (r == Success <==> c.host == [] && c.port == 0 && NoTrailingSlash(c.path) && SocketsFit(url))
      && (r == CharacterLimitForPathExceeded <==>
            c.host == [] && c.port == 0 && NoTrailingSlash(c.path) && !SocketsFit(url))
  {
    var agent := c.scheme + "://" + (c.path + "/" + RegistrationServicePath);
    assert SetBaseUrlChecked(ch, url) == SetUrls(ch, url, agent);
    GrpcRegistrationParses(c);
    SetUrlsSucceeds(ch, url, agent);
    SetUrlsTooLong(ch, url, agent);
  }

  /** The TCP half: the registration URL always parses, with a port. */
  lemma {:induction false} BaseUrlCheckedTcp(ch: Channel, url: string, c: Url.UrlComponents)
    requires !ch.running && Url.ParseUrl(url) == Some(c)
    requires Url.GetTransportFramework(c.scheme) == Url.TCPSocketTransport
    ensures SetBaseUrlChecked(ch, url).0 == Success <==> c.path == [] && c.port == 0
  {
    var agent := c.scheme + "://" + c.host + ":" + Decimal.ToDecimal(RegistrationServicePort);
    assert SetBaseUrlChecked(ch, url) == SetUrls(ch, url, agent);
    TcpRegistrationParses(c);
    SetUrlsSucceeds(ch, url, agent);
  }

  const DefaultGrpcBaseUrl: string := "unix:///tmp"
  const DefaultTcpBaseUrl: string := "tcp+tv://127.0.0.1"

  /** A gRPC base URL the checked setter accepts is handed to `setUrls`
      with the registration URL under its path. */
  lemma {:induction false} GrpcBaseAccepted(ch: Channel, url: string, c: Url.UrlComponents)
    requires !ch.running && Url.ParseUrl(url) == Some(c)
    requires Url.GetTransportFramework(c.scheme) == Url.GRPCTransport
    requires c.host == [] && c.port == 0 && NoTrailingSlash(c.path) && SocketsFit(url)
    ensures SetBaseUrlChecked(ch, url).0 == Success
    ensures SetBaseUrlChecked(ch, url) == SetUrls(ch, url, c.scheme + "://" + (c.path + "/" + RegistrationServicePath))
  {
    BaseUrlCheckedOutcomes(ch, url);
  }

  /** Any base URL of at most 56 characters passes the length check. */
  lemma ShortBaseFits(url: string)
    requires |url| <= 56
    ensures SocketsFit(url)
  {
    forall t | t in CheckedSockets ensures SocketFits(url, t) {
      Med.GrpcLocationShape(t);
    }
  }

  lemma {:induction false} DefaultGrpcParses(url: string)
    requires url == DefaultGrpcBaseUrl
    ensures Url.ParseUrl(url) == Some(Url.UrlComponents("unix", [], 0, "/tmp"))
  {
    var g := Url.UrlComponents("unix", [], 0, "/tmp");
    DefaultGrpcValid();
    DefaultGrpcText(url);
    Med.ParseWithoutHost(g, g.path);
  }

  lemma DefaultGrpcText(url: string)
    requires url == DefaultGrpcBaseUrl
    ensures url == "unix" + "://" + "/tmp"
  {
  }

  lemma DefaultGrpcValid()
    ensures Url.ValidComponents(Url.UrlComponents("unix", [], 0, "/tmp"))
  {
    assert !Text.HasDouble("/tmp", '/');
  }

  /** The constructor's gRPC default is accepted by an idle channel, and its
      default agent URL is exactly the one the checked setter derives. */
  lemma {:induction false} DefaultGrpcAccepted(ch: Channel, url: string)
    requires !ch.running && url == DefaultGrpcBaseUrl
    ensures SetBaseUrlChecked(ch, url).0 == Success
    ensures SetBaseUrlChecked(ch, url) == SetUrls(ch, url, url + "/" + RegistrationServicePath)
  {
    var g := Url.UrlComponents("unix", [], 0, "/tmp");
    DefaultGrpcParses(url);
    ShortBaseFits(url);
    DefaultAgentUrl(url);
    GrpcBaseAccepted(ch, url, g);
  }

  /** The default agent URL, written as the checked setter derives it. */
  lemma DefaultAgentUrl(url: string)
    requires url == DefaultGrpcBaseUrl
    ensures url + "/" + RegistrationServicePath == "unix" + "://" + ("/tmp" + "/" + RegistrationServicePath)
  {
    var s: string := "unix" + "://";
    assert url == s + "/tmp";
    JoinShape(s, "/tmp", "/", RegistrationServicePath);
  }

  lemma JoinShape(s: string, p: string, x: string, r: string)
    ensures s + p + x + r == s + (p + x + r)
  {
  }

  /** The same for the TCP default, whose agent URL is the registration port
      on the same host. */
  lemma {:induction false} TcpBaseAccepted(ch: Channel, url: string, c: Url.UrlComponents)
    requires !ch.running && Url.ParseUrl(url) == Some(c)
    requires Url.GetTransportFramework(c.scheme) == Url.TCPSocketTransport
    requires c.path == [] && c.port == 0
    ensures SetBaseUrlChecked(ch, url).0 == Success
    ensures SetBaseUrlChecked(ch, url)
      == SetUrls(ch, url, c.scheme + "://" + c.host + ":" + Decimal.ToDecimal(RegistrationServicePort))
  {
    BaseUrlCheckedOutcomes(ch, url);
  }

  lemma RegistrationPortText()
    ensures Decimal.ToDecimal(RegistrationServicePort) == "9221"
  {
    assert Decimal.ToDecimal(9221) == "9221";
  }

  lemma DefaultTcpAccepted(ch: Channel)
    requires !ch.running
    ensures SetBaseUrlChecked(ch, DefaultTcpBaseUrl).0 == Success
    ensures SetBaseUrlChecked(ch, DefaultTcpBaseUrl)
      == SetUrls(ch, DefaultTcpBaseUrl, DefaultTcpBaseUrl + ":" + Decimal.ToDecimal(RegistrationServicePort))
  {
    var t := Url.UrlComponents("tcp+tv", "127.0.0.1", 0, []);
    assert DefaultTcpBaseUrl == t.scheme + "://" + t.host + Url.PortText(0) + t.path;
    assert DefaultTcpBaseUrl == t.scheme + "://" + t.host;
    Url.ParseOf(t.scheme, t);
    TcpBaseAccepted(ch, DefaultTcpBaseUrl, t);
  }

  /** `loadMessages`: the "last message" ID passed to the agent. */
  function LoadMessagesLastId(lastId: string): (r: string)
    ensures r != []
    ensures lastId != [] ==> r == lastId
    ensures lastId == [] ==> |r| == UuidSize + 4 && forall i :: 0 <= i < |r| ==> r[i] == '0' || r[i] == '-'
  {
    if lastId == [] then NilUuid else lastId
  }

  /** The names `setupClientAndServer` logs; their order is the order the
      steps run. */
  const ConnectivityClient: string := "Connectivity client"
  const ConnectivityService: string := "Connectivity service"
  const MandatorySetups: seq<string> := [ConnectivityClient, ConnectivityService]
  const OptionalSetups: seq<string> := [
    "Session control client", "Session status service", "Image client", "Image notification client",
    "Instant support client", "Access control-in client", "Input service", "Access control-out service",
    "View geometry client", "Instant support notification service", "Chat-in client", "Chat-out service",
    "Instant support confirmation request service", "Instant support confirmation response client",
    "AugmentRCSession consumer service", "AugmentRCSession control client"]

  const MandatoryFailed: string := "Mandatory setup failed for: "
  const OptionalFailed: string := "Optional setup failed for: "

  /** The steps among `steps` that fail, in order. */
  function Failures(steps: seq<string>, succeeds: string -> bool): (r: seq<string>)
    ensures forall s :: s in r <==> s in steps && !succeeds(s)
    ensures |r| <= |steps|
  {
    if steps == [] then []
    else (if succeeds(steps[0]) then [] else [steps[0]]) + Failures(steps[1..], succeeds)
  }

  /** One log line per name. */
  function Logged(prefix: string, names: seq<string>): (r: seq<string>)
    ensures |r| == |names|
    ensures forall i :: 0 <= i < |names| ==> r[i] == prefix + names[i]
  {
    if names == [] then [] else [prefix + names[0]] + Logged(prefix, names[1..])
  }

  /** `setupClientAndServer`: the mandatory steps run in order and the first
      failure ends setup with false, logged; then every optional step runs
      and a failure is only logged. `succeeds` says what each step returns.
      The result is the verdict and the log, in order. */
  function RunSetups(mandatory: seq<string>, optional: seq<string>, succeeds: string -> bool): (r: (bool, seq<string>))
    ensures r.0 <==> forall i :: 0 <= i < |mandatory| ==> succeeds(mandatory[i])
    ensures !r.0 ==> exists k :: (
      0 <= k < |mandatory| && !succeeds(mandatory[k]) && (forall j :: 0 <= j < k ==> succeeds(mandatory[j]))
      && r.1 == [MandatoryFailed + mandatory[k]])
    ensures r.0 ==> r.1 == Logged(OptionalFailed, Failures(optional, succeeds))
  {
    var k := Enumerate.FirstWhere(mandatory, (s: string) => !succeeds(s));
    if k < |mandatory| then (false, [MandatoryFailed + mandatory[k]])
    else (true, Logged(OptionalFailed, Failures(optional, succeeds)))
  }

  /** `setupClientAndServer`: the connectivity client and service first,
      stopping at the first that fails; then every optional step, each
      failure only logged. */
  function SetupClientAndServer(succeeds: string -> bool): (r: (bool, seq<string>))
    ensures r.0 <==> succeeds(ConnectivityClient) && succeeds(ConnectivityService)
    ensures !r.0 ==> |r.1| == 1
    ensures r.0 ==> |r.1| <= |OptionalSetups|
  {
    TwoMandatory(MandatorySetups, OptionalSetups, succeeds);
    RunSetups(MandatorySetups, OptionalSetups, succeeds)
  }

  /** Setup succeeds exactly when both connectivity steps do, whatever the
      optional steps return; the log names the first failed connectivity
      step, or every failed optional one. */
  lemma SetupNeedsConnectivity(succeeds: string -> bool, other: string -> bool)
    requires succeeds(ConnectivityClient) == other(ConnectivityClient)
    requires succeeds(ConnectivityService) == other(ConnectivityService)
    ensures SetupClientAndServer(succeeds).0 <==> succeeds(ConnectivityClient) && succeeds(ConnectivityService)
    ensures SetupClientAndServer(succeeds).0 == SetupClientAndServer(other).0
    ensures !succeeds(ConnectivityClient) ==>
      SetupClientAndServer(succeeds).1 == [MandatoryFailed + ConnectivityClient]
    ensures succeeds(ConnectivityClient) && !succeeds(ConnectivityService) ==>
      SetupClientAndServer(succeeds).1 == [MandatoryFailed + ConnectivityService]
    ensures SetupClientAndServer(succeeds).0 ==>
      |SetupClientAndServer(succeeds).1| == |Failures(OptionalSetups, succeeds)|
  {
    TwoMandatory(MandatorySetups, OptionalSetups, succeeds);
    TwoMandatory(MandatorySetups, OptionalSetups, other);
  }

  /** With two mandatory steps, setup succeeds exactly when both do, and a
      failure names the first that failed. */
  lemma TwoMandatory(m: seq<string>, o: seq<string>, succeeds: string -> bool)
    requires |m| == 2
    ensures RunSetups(m, o, succeeds).0 <==> succeeds(m[0]) && succeeds(m[1])
    ensures !succeeds(m[0]) ==> RunSetups(m, o, succeeds).1 == [MandatoryFailed + m[0]]
    ensures succeeds(m[0]) && !succeeds(m[1]) ==> RunSetups(m, o, succeeds).1 == [MandatoryFailed + m[1]]
  {
    var r := RunSetups(m, o, succeeds);
    if !r.0 {
      var k :| 0 <= k < |m| && !succeeds(m[k]) && (forall j :: 0 <= j < k ==> succeeds(m[j]))
        && r.1 == [MandatoryFailed + m[k]];
      if !succeeds(m[0]) {
        assert k == 0;
      } else {
        assert k == 1;
      }
    }
  }


  /** The hand-over in `sendObtainChatsRequest`: with a chat-in client
      available, an `Ok` response moves its chats into the caller's list and
      answers true; otherwise the list is left as it was. */
  function HandOverChats(clientAvailable: bool, response: Cs.ObtainChatsResponse, prior: seq<Cs.ChatInfo>): (bool, seq<Cs.ChatInfo>) {
    if clientAvailable && response.IsOk() then (true, response.chats) else (false, prior)
  }

  /** `sendObtainChatsRequest` through the chat-in client as intended, from
      the wire entries the agent answers with: the caller receives one chat
      per entry, decoded in order, exactly when a client is available and
      connected, the communication ID is set, the call succeeds and every
      entry decodes; in every other case its list is kept and the answer is
      false. */
  function SendObtainChatsRequest(clientAvailable: bool, c: Sb.Client, comId: string, answer: Sb.Status, ws: seq<Cs.WireChatInfo>, prior: seq<Cs.ChatInfo>): (r: (bool, seq<Cs.ChatInfo>))
    ensures r.0 <==> clientAvailable && c.connected && comId != [] && answer.ok() && Cs.Decodable(ws)
    ensures r.0 ==> |r.1| == |ws| && forall i :: 0 <= i < |ws| ==> Some(r.1[i]) == Cs.DecodeChat(ws[i])
    ensures r.0 ==> r.1 == Cs.DecodeChats(ws).value
    ensures !r.0 ==> r.1 == prior
  {
    HandOverChats(clientAvailable, Cs.ObtainChats(c, comId, answer, ws), prior)
  }

  /** The same through the client as written: the answer no longer depends
      on the entries, and a response with an undecodable entry hands over an
      empty list in place of the caller's. */
  function SendObtainChatsRequestAsWritten(clientAvailable: bool, c: Sb.Client, comId: string, answer: Sb.Status, ws: seq<Cs.WireChatInfo>, prior: seq<Cs.ChatInfo>): (r: (bool, seq<Cs.ChatInfo>))
    ensures r.0 <==> clientAvailable && c.connected && comId != [] && answer.ok()
    ensures r.0 && Cs.Decodable(ws) ==> r.1 == Cs.DecodeChats(ws).value
    ensures r.0 && !Cs.Decodable(ws) ==> r.1 == []
    ensures !r.0 ==> r.1 == prior
  {
    var response := Cs.ObtainChatsAsWritten(c, comId, answer, ws);
    assert Cs.Decodable(ws) ==> response == Cs.ObtainChats(c, comId, answer, ws) by {
      if Cs.Decodable(ws) {
        Cs.HandlersAgreeOnDecodable(c, comId, answer, ws);
      }
    }
    HandOverChats(clientAvailable, response, prior)
  }

  /** What the as-written decoding means one layer up: a response whose
      entries the client cannot decode reaches the channel's caller as a
      successful fetch of no chats, where the intended decoding makes the
      fetch fail and keeps the caller's list. */
  lemma UndecodableChatsLookEmpty(c: Sb.Client, comId: string, raw: int, prior: seq<Cs.ChatInfo>)
    requires c.connected && comId != []
    ensures var ws := [Cs.WireChatInfo("a", "t", Cs.WireUnlistedChatType(raw), 0, Cs.WireOpen)];
      SendObtainChatsRequestAsWritten(true, c, comId, Sb.StatusOk, ws, prior) == (true, [])
      && SendObtainChatsRequest(true, c, comId, Sb.StatusOk, ws, prior) == (false, prior)
  {
    Cs.UndecodableReportedOk(c, comId, raw);
  }
}
