/** The services mediator of the agent API: where each local server listens,
    where each agent-side client connects, which client and server slots are
    filled, and the running-services bitmask built from the slots.

    Creating a client or server object, starting it and stopping it are
    transport calls; whether a server started is a parameter. Both transports
    are taken to be compiled in. */
module ServicesMediator {
  import opened Wrappers
  import Url
  import Decimal
  import Text
  import Enumerate

  /** `ServiceType`. The header that numbers these is not part of this
      model: the ordinals below follow the order of the mediator's factory
      table, with `Unknown` as 0 and `ViewGeometry` as the last service type. */
  datatype ServiceType =
    | Unknown
    | AccessControlIn | AccessControlOut
    | AugmentRCSessionConsumer | AugmentRCSessionControl
    | ChatIn | ChatOut
    | ConnectionConfirmationRequest | ConnectionConfirmationResponse
    | Connectivity | Image | ImageNotification | Input
    | InstantSupport | InstantSupportNotification
    | Registration | SessionControl | SessionStatus | ViewGeometry

  /** The ordinal of `LastServiceType`. */
  const LastOrdinal: nat := 18

  function Ordinal(t: ServiceType): (n: nat)
    ensures n <= LastOrdinal
    ensures n == 0 <==> t == Unknown
  {
    match t
    case Unknown => 0
    case AccessControlIn => 1
    case AccessControlOut => 2
    case AugmentRCSessionConsumer => 3
    case AugmentRCSessionControl => 4
    case ChatIn => 5
    case ChatOut => 6
    case ConnectionConfirmationRequest => 7
    case ConnectionConfirmationResponse => 8
    case Connectivity => 9
    case Image => 10
    case ImageNotification => 11
    case Input => 12
    case InstantSupport => 13
    case InstantSupportNotification => 14
    case Registration => 15
    case SessionControl => 16
    case SessionStatus => 17
    case ViewGeometry => 18
  }

  /** The service type with ordinal `n`. */
  function TypeAt(n: nat): (t: ServiceType)
    requires n <= LastOrdinal
    ensures Ordinal(t) == n
  {
    match n
    case 0 => Unknown
    case 1 => AccessControlIn
    case 2 => AccessControlOut
    case 3 => AugmentRCSessionConsumer
    case 4 => AugmentRCSessionControl
    case 5 => ChatIn
    case 6 => ChatOut
    case 7 => ConnectionConfirmationRequest
    case 8 => ConnectionConfirmationResponse
    case 9 => Connectivity
    case 10 => Image
    case 11 => ImageNotification
    case 12 => Input
    case 13 => InstantSupport
    case 14 => InstantSupportNotification
    case 15 => Registration
    case 16 => SessionControl
    case 17 => SessionStatus
    case _ => ViewGeometry
  }

  /** Every service type has its own ordinal, so a bit of the mask names one type. */
  lemma OrdinalRoundTrip(t: ServiceType, u: ServiceType)
    ensures TypeAt(Ordinal(t)) == t
    ensures Ordinal(t) == Ordinal(u) ==> t == u
  {
    assert TypeAt(Ordinal(u)) == u;
  }

  /** The services the SDK side serves itself; the agent calls into these. */
  predicate IsServerType(t: ServiceType) {
    t == AccessControlOut || t == ChatOut || t == Connectivity || t == Input || t == SessionStatus
    || t == InstantSupportNotification || t == ConnectionConfirmationRequest || t == AugmentRCSessionConsumer
  }

  /** `ServerLocation<gRPCTransport>`: the socket directory of a server,
      relative to the base path. */
  function GrpcLocation(t: ServiceType): string {
    match t
    case AccessControlOut => "TVQtRC/aCOut/"
    case ChatOut => "TVQtRC/chatOut/"
    case Connectivity => "TVQtRC/conn/"
    case Input => "TVQtRC/input/"
    case SessionStatus => "TVQtRC/sesStat/"
    case InstantSupportNotification => "TVQtRC/insSupE/"
    case ConnectionConfirmationRequest => "TVQtRC/ConConRe/"
    case AugmentRCSessionConsumer => "TVQtRC/augSessCons/"
    case _ => ""
  }

  /** The port number behind `ServerLocation<TCPSocketTransport>`. */
  function TcpPort(t: ServiceType): nat {
    match t
    case AccessControlOut => 9237
    case ChatOut => 9238
    case Connectivity => 9322
    case Input => 9323
    case SessionStatus => 9324
    case InstantSupportNotification => 9325
    case ConnectionConfirmationRequest => 9326
    case AugmentRCSessionConsumer => 9327
    case _ => 0
  }

  /** `ServerLocation<TCPSocketTransport>`: the port of a server, as text. */
  function TcpLocation(t: ServiceType): string {
    match t
    case AccessControlOut => "9237"
    case ChatOut => "9238"
    case Connectivity => "9322"
    case Input => "9323"
    case SessionStatus => "9324"
    case InstantSupportNotification => "9325"
    case ConnectionConfirmationRequest => "9326"
    case AugmentRCSessionConsumer => "9327"
    case _ => ""
  }

  /** Exactly the server types have a location, in either transport. */
  lemma ServerLocationsPresent(t: ServiceType)
    ensures GrpcLocation(t) != "" <==> IsServerType(t)
    ensures TcpLocation(t) != "" <==> IsServerType(t)
    ensures TcpPort(t) != 0 <==> IsServerType(t)
  {
  }

  /** No two servers share a socket directory or a port. */
  lemma ServerLocationsDistinct(t: ServiceType, u: ServiceType)
    requires IsServerType(t) && IsServerType(u) && t != u
    ensures GrpcLocation(t) != GrpcLocation(u)
    ensures TcpLocation(t) != TcpLocation(u) && TcpPort(t) != TcpPort(u)
  {
  }

  /** A TCP location is the decimal text of a valid port. */
  lemma TcpLocationIsPort(t: ServiceType)
    requires IsServerType(t)
    ensures TcpLocation(t) == Decimal.ToDecimal(TcpPort(t))
    ensures TcpPort(t) <= Url.MaxPort
  {
    if t in {AccessControlOut, ChatOut, Connectivity, Input} {
      TcpLowPortsText(t);
    } else {
      TcpHighPortsText(t);
    }
  }

  lemma TcpLowPortsText(t: ServiceType)
    requires t in {AccessControlOut, ChatOut, Connectivity, Input}
    ensures TcpLocation(t) == Decimal.ToDecimal(TcpPort(t)) && TcpPort(t) <= Url.MaxPort
  {
    match t
    case AccessControlOut => assert Decimal.ToDecimal(9237) == "9237";
    case ChatOut => assert Decimal.ToDecimal(9238) == "9238";
    case Connectivity => assert Decimal.ToDecimal(9322) == "9322";
    case Input => assert Decimal.ToDecimal(9323) == "9323";
  }

  lemma TcpHighPortsText(t: ServiceType)
    requires t in {SessionStatus, InstantSupportNotification, ConnectionConfirmationRequest, AugmentRCSessionConsumer}
    ensures TcpLocation(t) == Decimal.ToDecimal(TcpPort(t)) && TcpPort(t) <= Url.MaxPort
  {
    match t
    case SessionStatus => assert Decimal.ToDecimal(9324) == "9324";
    case InstantSupportNotification => assert Decimal.ToDecimal(9325) == "9325";
    case ConnectionConfirmationRequest => assert Decimal.ToDecimal(9326) == "9326";
    case AugmentRCSessionConsumer => assert Decimal.ToDecimal(9327) == "9327";
  }

  /** A gRPC location is a run of path segments closed by '/', at most 19
      characters long (the AugmentRCSession consumer's). */
  lemma GrpcLocationShape(t: ServiceType)
    requires IsServerType(t)
    ensures var g := GrpcLocation(t);
      g[0] != '/' && g[|g| - 1] == '/'
      && (forall i :: 0 <= i < |g| ==> Url.IsPathChar(g[i]))
      && !Text.HasDouble(g, '/')
    ensures |GrpcLocation(t)| <= |GrpcLocation(AugmentRCSessionConsumer)| == 19
  {
    GrpcLocationEnds(t);
    GrpcLocationChars(t);
    GrpcLocationSingle(t);
  }

  lemma GrpcLocationEnds(t: ServiceType)
    requires IsServerType(t)
    ensures var g := GrpcLocation(t);
      0 < |g| <= |GrpcLocation(AugmentRCSessionConsumer)| == 19 && g[0] != '/' && g[|g| - 1] == '/'
  {
  }

  lemma GrpcLocationChars(t: ServiceType)
    requires IsServerType(t)
    ensures var g := GrpcLocation(t); forall i :: 0 <= i < |g| ==> Url.IsPathChar(g[i])
  {
  }

  lemma GrpcLocationSingle(t: ServiceType)
    requires IsServerType(t)
    ensures !Text.HasDouble(GrpcLocation(t), '/')
  {
  }

  /** An entry of the agent's service list: where the agent serves a type. */
  datatype ServiceInformation = ServiceInformation(serviceType: ServiceType, location: string)

  /** The mediator: the configuration it was built with, what the agent
      announced, the communication ID, and the filled client and server slots. */
  datatype Mediator = Mediator(
    server: Url.UrlComponents,
    framework: Url.TransportFramework,
    registrationUrl: string,
    servicesInfo: seq<ServiceInformation>,
    comId: string,
    clients: set<ServiceType>,
    servers: set<ServiceType>)

  /** The constructor: nothing announced, no ID, every slot empty. */
  function Create(server: Url.UrlComponents, framework: Url.TransportFramework, registrationUrl: string)
    : (m: Mediator)
    ensures m.server == server && m.framework == framework && m.registrationUrl == registrationUrl
    ensures m.servicesInfo == [] && m.comId == []
    ensures m.clients == {} && m.servers == {}
  {
    Mediator(server, framework, registrationUrl, [], [], {}, {})
  }

  /** `FullServerLocation`: the URL a local server listens on. */
  function FullServerLocation(m: Mediator, t: ServiceType): (r: string)
    ensures r == [] <==> m.framework == Url.UnknownTransport
  {
    match m.framework
    case GRPCTransport => m.server.scheme + "://" + m.server.path + "/" + GrpcLocation(t) + m.comId
    case TCPSocketTransport => m.server.scheme + "://" + m.server.path + m.server.host + ":" + TcpLocation(t)
    case UnknownTransport => []
  }

  /** The file-system path of a gRPC server's socket: its full location
      without the "scheme://" head. */
  function GrpcSocketPath(m: Mediator, t: ServiceType): (p: string)
    requires m.framework == Url.GRPCTransport
    ensures FullServerLocation(m, t) == m.server.scheme + "://" + p
    ensures |p| == |m.server.path| + 1 + |GrpcLocation(t)| + |m.comId|
  {
    m.server.path + "/" + GrpcLocation(t) + m.comId
  }

  /** A communication ID that can sit at the end of a socket path. */
  predicate PathSafeId(id: string) {
    forall i :: 0 <= i < |id| ==> Url.IsPathChar(id[i]) && id[i] != '/'
  }

  /** Concatenated path pieces keep the path alphabet, and no "//" arises
      when the seam is not two slashes. */
  lemma JoinPath(a: string, b: string)
    requires forall i :: 0 <= i < |a| ==> Url.IsPathChar(a[i])
    requires forall i :: 0 <= i < |b| ==> Url.IsPathChar(b[i])
    requires !Text.HasDouble(a, '/') && !Text.HasDouble(b, '/')
    requires a == [] || b == [] || a[|a| - 1] != '/' || b[0] != '/'
    ensures forall i :: 0 <= i < |a + b| ==> Url.IsPathChar((a + b)[i])
    ensures !Text.HasDouble(a + b, '/')
  {
    var s := a + b;
    forall i | 0 <= i < |s| - 1
      ensures !(s[i] == '/' && s[i + 1] == '/')
    {
      if i + 1 < |a| {
        assert s[i] == a[i] && s[i + 1] == a[i + 1];
      } else if i >= |a| {
        assert s[i] == b[i - |a|] && s[i + 1] == b[i + 1 - |a|];
      } else {
        assert s[i] == a[|a| - 1] && s[i + 1] == b[0];
      }
    }
  }

  /** `path + "/" + g + id` is a valid URL path when `path` is one with no
      trailing '/', `g` is a '/'-closed run of segments and `id` has no '/'. */
  lemma {:induction false} SocketPathValid(path: string, g: string, id: string)
    requires Url.ValidPath(path) && (path == [] || path[|path| - 1] != '/')
    requires 0 < |g| && g[0] != '/' && (forall i :: 0 <= i < |g| ==> Url.IsPathChar(g[i]))
    requires !Text.HasDouble(g, '/')
    requires PathSafeId(id)
    ensures Url.ValidPath(path + "/" + g + id)
  {
    var tail := "/" + g;
    JoinPath("/", g);
    assert !Text.HasDouble(id, '/');
    JoinPath(tail, id);
    JoinPath(path, tail + id);
    var p := path + "/" + g + id;
    assert p == path + (tail + id);
    assert p[0] == '/' by {
      if path != [] {
        assert p[0] == path[0];
      } else {
        assert p[0] == tail[0];
      }
    }
  }

  /** A gRPC server location reads back as a URL with the same scheme, no
      host and no port, whose path is the socket path; this needs a base
      path with no trailing '/' and an ID free of '/'. */
  lemma {:induction false} GrpcFullLocationParses(m: Mediator, t: ServiceType)
    requires m.framework == Url.GRPCTransport && Url.ValidComponents(m.server)
    requires m.server.host == [] && m.server.port == 0
    requires m.server.path == [] || m.server.path[|m.server.path| - 1] != '/'
    requires IsServerType(t) && PathSafeId(m.comId)
    ensures Url.ParseUrl(FullServerLocation(m, t))
      == Some(Url.UrlComponents(m.server.scheme, [], 0, GrpcSocketPath(m, t)))
  {
    GrpcLocationShape(t);
    var p := GrpcSocketPath(m, t);
    SocketPathValid(m.server.path, GrpcLocation(t), m.comId);
    ParseWithoutHost(m.server, p);
  }

  /** A valid component record with no host and no port, given a new path,
      prints as `scheme "://" path` and parses back. */
  lemma {:induction false} ParseWithoutHost(c: Url.UrlComponents, p: string)
    requires Url.ValidComponents(c) && Url.ValidPath(p)
    ensures Url.ParseUrl(c.scheme + "://" + p) == Some(Url.UrlComponents(c.scheme, [], 0, p))
  {
    var d := Url.UrlComponents(c.scheme, [], 0, p);
    assert Url.PortText(0) == [];
    assert c.scheme + "://" + d.host + Url.PortText(d.port) + d.path == c.scheme + "://" + p;
    LowerScheme(c);
    Url.ParseOf(c.scheme, d);
  }

  /** A parsed scheme is its own lower-case form. */
  lemma LowerScheme(c: Url.UrlComponents)
    requires Url.ValidComponents(c)
    ensures Text.ToLower(c.scheme) == c.scheme
  {
  }

  /** A valid component record with no path, given a non-zero port, prints
      as `scheme "://" host ":" port` and parses back. */
  lemma {:induction false} ParseWithPort(c: Url.UrlComponents, port: nat)
    requires Url.ValidComponents(c) && c.path == [] && 0 < port <= Url.MaxPort
    ensures Url.ParseUrl(c.scheme + "://" + c.host + ":" + Decimal.ToDecimal(port))
      == Some(Url.UrlComponents(c.scheme, c.host, port, []))
  {
    var d := Url.UrlComponents(c.scheme, c.host, port, []);
    LowerScheme(c);
    PortJoin(c.scheme + "://" + c.host, port);
    Url.ParseOf(c.scheme, d);
  }

  lemma PortJoin(head: string, port: nat)
    requires 0 < port
    ensures head + Url.PortText(port) + [] == head + ":" + Decimal.ToDecimal(port)
  {
  }

  /** A TCP server location of a configuration with no base path reads back
      as a URL with the base scheme and host and the server's port. */
  lemma {:induction false} TcpFullLocationParses(m: Mediator, t: ServiceType)
    requires m.framework == Url.TCPSocketTransport && Url.ValidComponents(m.server)
    requires m.server.path == []
    requires IsServerType(t)
    ensures Url.ParseUrl(FullServerLocation(m, t))
      == Some(Url.UrlComponents(m.server.scheme, m.server.host, TcpPort(t), []))
  {
    TcpLocationText(m, t);
    ParseWithPort(m.server, TcpPort(t));
  }

  /** A TCP server's location is the base host with the server's port. */
  lemma TcpLocationText(m: Mediator, t: ServiceType)
    requires m.framework == Url.TCPSocketTransport && m.server.path == [] && IsServerType(t)
    ensures 0 < TcpPort(t) <= Url.MaxPort
    ensures FullServerLocation(m, t) == m.server.scheme + "://" + m.server.host + ":" + Decimal.ToDecimal(TcpPort(t))
  {
    var c := m.server;
    TcpLocationIsPort(t);
    ServerLocationsPresent(t);
    assert c.scheme + "://" + [] + c.host == c.scheme + "://" + c.host;
  }

  /** `AgentServiceLocation`: the registration URL for the registration
      service, otherwise the location of the first announced entry of the
      type, or "" when the agent announced none. */
  function AgentServiceLocation(m: Mediator, t: ServiceType): (r: string)
    ensures t == Registration ==> r == m.registrationUrl
    ensures t != Registration && (forall i :: 0 <= i < |m.servicesInfo| ==> m.servicesInfo[i].serviceType != t)
      ==> r == []
    ensures forall i :: (
      0 <= i < |m.servicesInfo| && t != Registration && m.servicesInfo[i].serviceType == t
      && (forall j :: 0 <= j < i ==> m.servicesInfo[j].serviceType != t)
      ==> r == m.servicesInfo[i].location)
  {
    if t == Registration then m.registrationUrl
    else
      var i := Enumerate.FirstWhere(m.servicesInfo, (e: ServiceInformation) => e.serviceType == t);
      if i == |m.servicesInfo| then [] else m.servicesInfo[i].location
  }

  /** `SetupClient`: the client slot of `t` ends up filled exactly when the
      transport is known and the agent has a location for `t`; no other slot
      changes. */
  function SetupClient(m: Mediator, t: ServiceType): (r: Mediator)
    ensures t in r.clients <==> m.framework != Url.UnknownTransport && AgentServiceLocation(m, t) != []
    ensures r.clients - {t} == m.clients - {t}
    ensures r == m.(clients := r.clients)
  {
    if m.framework != Url.UnknownTransport && AgentServiceLocation(m, t) != [] then m.(clients := m.clients + {t})
    else m.(clients := m.clients - {t})
  }

  /** `CreateAndStartServer`: the server slot of `t` ends up filled exactly
      when the transport is known and the server started on its full
      location (`started`); no other slot changes. */
  function CreateAndStartServer(m: Mediator, t: ServiceType, started: bool): (r: Mediator)
    ensures t in r.servers <==> m.framework != Url.UnknownTransport && started
    ensures r.servers - {t} == m.servers - {t}
    ensures r == m.(servers := r.servers)
  {
    if m.framework != Url.UnknownTransport && started then m.(servers := m.servers + {t})
    else m.(servers := m.servers - {t})
  }

  /** `TeardownClient`: the slot of `t` is empty afterwards. */
  function TeardownClient(m: Mediator, t: ServiceType): (r: Mediator)
    ensures t !in r.clients
    ensures r.clients + {t} == m.clients + {t}
    ensures r == m.(clients := r.clients)
  {
    m.(clients := m.clients - {t})
  }

  /** `TeardownServer`: the slot of `t` is empty afterwards. */
  function TeardownServer(m: Mediator, t: ServiceType): (r: Mediator)
    ensures t !in r.servers
    ensures r.servers + {t} == m.servers + {t}
    ensures r == m.(servers := r.servers)
  {
    m.(servers := m.servers - {t})
  }

  predicate Running(m: Mediator, t: ServiceType) {
    t in m.clients || t in m.servers
  }

  function Pow2(k: nat): (r: nat)
    ensures r > 0
  {
    if k == 0 then 1 else 2 * Pow2(k - 1)
  }

  /** Bit `i` of `x`. */
  predicate Bit(x: nat, i: nat) {
    if i == 0 then x % 2 == 1 else Bit(x / 2, i - 1)
  }

  /** `GetRunningServiceFlagsRec<k>`: the flags of the types with ordinals
      1 to `k`; the bits are disjoint, so their `|` is their sum. */
  function RunningFlags(m: Mediator, k: nat): nat
    requires k <= LastOrdinal
  {
    if k == 0 then 0
    else (if Running(m, TypeAt(k)) then Pow2(k) else 0) + RunningFlags(m, k - 1)
  }

  /** `GetRunningServicesBitmask`; the value always fits the 64-bit result. */
  function RunningServicesBitmask(m: Mediator): (mask: nat)
    ensures mask < Pow2(64)
  {
    FlagsBits(m, LastOrdinal, 0);
    PowMonotone(LastOrdinal + 1, 64);
    RunningFlags(m, LastOrdinal)
  }

  lemma {:induction false} PowMonotone(j: nat, k: nat)
    requires j <= k
    ensures Pow2(j) <= Pow2(k)
    decreases k
  {
    if j < k {
      PowMonotone(j, k - 1);
    }
  }

  /** A number below `2^k` has no bit at `k` or above. */
  lemma {:induction false} BitBelow(r: nat, k: nat, i: nat)
    requires r < Pow2(k) && k <= i
    ensures !Bit(r, i)
    decreases i
  {
    if i > 0 {
      if k > 0 {
        BitBelow(r / 2, k - 1, i - 1);
      } else {
        BitBelow(r / 2, 0, i - 1);
      }
    }
  }

  /** Adding `2^k` to a number below `2^k` sets bit `k` and keeps the others. */
  lemma {:induction false} BitAddHigh(k: nat, r: nat, i: nat)
    requires r < Pow2(k)
    ensures Bit(Pow2(k) + r, i) <==> i == k || Bit(r, i)
    decreases i
  {
    if i > 0 {
      if k > 0 {
        BitAddHigh(k - 1, r / 2, i - 1);
      } else {
        BitBelow(0, 0, i - 1);
        BitBelow(r, 0, i);
      }
    }
  }

  lemma {:induction false} FlagsBits(m: Mediator, k: nat, i: nat)
    requires k <= LastOrdinal
    ensures Bit(RunningFlags(m, k), i) <==> 1 <= i <= k && Running(m, TypeAt(i))
    ensures RunningFlags(m, k) < Pow2(k + 1)
    decreases k
  {
    if k == 0 {
      BitBelow(0, 0, i);
    } else {
      FlagsBits(m, k - 1, i);
      if Running(m, TypeAt(k)) {
        BitAddHigh(k, RunningFlags(m, k - 1), i);
      }
      if i > k {
        BitBelow(RunningFlags(m, k - 1), k, i);
      }
    }
  }

  /** The bit of a service type is set exactly when its client or server
      slot is filled; `Unknown`'s bit 0 and every bit past the last type are
      never set. */
  lemma BitmaskBits(m: Mediator, t: ServiceType, i: nat)
    ensures Bit(RunningServicesBitmask(m), Ordinal(t)) <==> t != Unknown && Running(m, t)
    ensures LastOrdinal < i ==> !Bit(RunningServicesBitmask(m), i)
  {
    FlagsBits(m, LastOrdinal, Ordinal(t));
    FlagsBits(m, LastOrdinal, i);
    OrdinalRoundTrip(t, t);
  }

  /** A fresh mediator reports no running service. */
  lemma CreatedIdle(server: Url.UrlComponents, framework: Url.TransportFramework, registrationUrl: string)
    ensures RunningServicesBitmask(Create(server, framework, registrationUrl)) == 0
  {
    var m := Create(server, framework, registrationUrl);
    forall k: nat | k <= LastOrdinal
      ensures RunningFlags(m, k) == 0
    {
      ZeroFlags(m, k);
    }
  }

  lemma {:induction false} ZeroFlags(m: Mediator, k: nat)
    requires k <= LastOrdinal && m.clients == {} && m.servers == {}
    ensures RunningFlags(m, k) == 0
    decreases k
  {
    if k > 0 {
      ZeroFlags(m, k - 1);
    }
  }

  /** Tearing down both slots of a type clears its bit and no other. */
  lemma {:induction false} TeardownClearsOneBit(m: Mediator, t: ServiceType, u: ServiceType)
    ensures !Bit(RunningServicesBitmask(TeardownServer(TeardownClient(m, t), t)), Ordinal(t))
    ensures u != t ==> (
      Bit(RunningServicesBitmask(TeardownServer(TeardownClient(m, t), t)), Ordinal(u))
      <==> Bit(RunningServicesBitmask(m), Ordinal(u)))
  {
    var r := TeardownServer(TeardownClient(m, t), t);
    assert !Running(r, t);
    assert u != t ==> (Running(r, u) <==> Running(m, u));
    BitmaskBits(r, t, 0);
    BitmaskBits(r, u, 0);
    BitmaskBits(m, u, 0);
  }

  /** A client needs an announced location: a type the agent did not
      announce gets no client, and setting it up after a teardown leaves the
      slot as the setup alone would. */
  lemma SetupWithoutLocation(m: Mediator, t: ServiceType)
    requires t != Registration
    requires forall i :: 0 <= i < |m.servicesInfo| ==> m.servicesInfo[i].serviceType != t
    ensures !Running(SetupClient(m, t), t) <==> t !in m.servers
    ensures SetupClient(TeardownClient(m, t), t) == SetupClient(m, t)
  {
  }
}
