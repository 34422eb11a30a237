/** The agent connection: its status, the status notifications it queues on
    the dispatcher, its subscriptions to the channel's established/lost
    signals, and its per-type module cache.

    The dispatcher is a FIFO of pending status notifications, drained by
    `processEvents`; a notification reaches the host only if a status
    callback is installed when it is drained. */
module AgentConnection {
  import Seqs

  /** `IAgentConnection::Status`, in declaration order. */
  datatype Status = Disconnected | Disconnecting | Connecting | Connected | ConnectionLost

  datatype ModuleType = AccessControl | Chat | InstantSupport | TVSessionManagement | AugmentRCSession

  datatype Connection = Connection(
    status: Status,
    /** Both channel signals are subscribed. */
    observing: bool,
    /** Notifications posted to the dispatcher and not yet delivered. */
    pending: seq<Status>,
    /** The module created for each type, by identity. */
    modules: map<ModuleType, nat>,
    /** Number of modules created so far; the next identity. */
    created: nat)

  const Initial := Connection(Disconnected, false, [], map[], 0)

  predicate IsActive(s: Status) {
    s == Connecting || s == Connected || s == ConnectionLost
  }

  /** `start`: ignored while active; otherwise subscribes to the channel's
      signals, sets Connecting and queues one Connecting notification. */
  function Start(c: Connection): (r: Connection)
    ensures IsActive(c.status) ==> r == c
    ensures !IsActive(c.status) ==>
      r.status == Connecting && r.observing && r.pending == c.pending + [Connecting]
    ensures r.modules == c.modules && r.created == c.created
  {
    if IsActive(c.status) then c
    else c.(status := Connecting, observing := true, pending := c.pending + [Connecting])
  }

  /** `stop`: ignored when Disconnected or Disconnecting; otherwise drops both
      subscriptions and queues Disconnecting then Disconnected. */
  function Stop(c: Connection): (r: Connection)
    ensures c.status == Disconnected || c.status == Disconnecting ==> r == c
    ensures c.status != Disconnected && c.status != Disconnecting ==>
      r.status == Disconnected && !r.observing && r.pending == c.pending + [Disconnecting, Disconnected]
    ensures r.modules == c.modules && r.created == c.created
  {
    if c.status == Disconnected || c.status == Disconnecting then c
    else c.(status := Disconnected, observing := false, pending := c.pending + [Disconnecting, Disconnected])
  }

  /** The channel reports the agent reachable: a Connected notification is
      queued if subscribed; the status itself is left as it is. */
  function Established(c: Connection): (r: Connection)
    ensures r.status == c.status && r.observing == c.observing
    ensures r.pending == c.pending + (if c.observing then [Connected] else [])
    ensures r.modules == c.modules && r.created == c.created
  {
    if c.observing then c.(pending := c.pending + [Connected]) else c
  }

  /** The channel reports the agent lost; as `Established`, with ConnectionLost. */
  function Lost(c: Connection): (r: Connection)
    ensures r.status == c.status && r.observing == c.observing
    ensures r.pending == c.pending + (if c.observing then [ConnectionLost] else [])
    ensures r.modules == c.modules && r.created == c.created
  {
    if c.observing then c.(pending := c.pending + [ConnectionLost]) else c
  }

  /** `processEvents`: drains the queue; the host sees every pending
      notification, oldest first, if it installed a callback. The answer
      says whether at least one queued action was processed, which does not
      depend on the callback. */
  function ProcessEvents(c: Connection, hasCallback: bool): (r: (Connection, seq<Status>, bool))
    ensures r.0.pending == []
    ensures r.0.status == c.status && r.0.observing == c.observing && r.0.modules == c.modules
    ensures hasCallback ==> r.1 == c.pending
    ensures !hasCallback ==> r.1 == []
    ensures r.2 <==> c.pending != []
  {
    (c.(pending := []), if hasCallback then c.pending else [], c.pending != [])
  }

  /** Processing again right away finds nothing: the host is told nothing
      more and the answer is false, whatever the first call delivered. */
  lemma ProcessEventsTwice(c: Connection, first: bool, second: bool)
    ensures var r := ProcessEvents(ProcessEvents(c, first).0, second);
      r.0 == ProcessEvents(c, first).0 && r.1 == [] && !r.2
  {
  }

  /** `getModule`: the cached module of that type, created on first use. */
  function GetModule(c: Connection, t: ModuleType): (r: (Connection, nat))
    ensures t in r.0.modules && r.1 == r.0.modules[t]
    ensures t in c.modules ==> r.0 == c && r.1 == c.modules[t]
    ensures t !in c.modules ==> r.1 == c.created && r.0.created == c.created + 1
    ensures forall u :: u != t ==> (u in r.0.modules <==> u in c.modules)
    ensures forall u :: u != t && u in c.modules ==> r.0.modules[u] == c.modules[u]
    ensures r.0.status == c.status && r.0.pending == c.pending && r.0.observing == c.observing
  {
    if t in c.modules then (c, c.modules[t])
    else (c.(modules := c.modules[t := c.created], created := c.created + 1), c.created)
  }

  /** The calls a host can make and the signals the channel can raise. */
  datatype Event =
    | StartCall
    | StopCall
    | ChannelEstablished
    | ChannelLost
    | ProcessCall(hasCallback: bool)
    | GetModuleCall(moduleType: ModuleType)

  function Step(c: Connection, e: Event): Connection {
    match e
    case StartCall => Start(c)
    case StopCall => Stop(c)
    case ChannelEstablished => Established(c)
    case ChannelLost => Lost(c)
    case ProcessCall(cb) => ProcessEvents(c, cb).0
    case GetModuleCall(t) => GetModule(c, t).0
  }

  function Run(c: Connection, es: seq<Event>): Connection
    decreases |es|
  {
    if es == [] then c else Run(Step(c, es[0]), es[1..])
  }

  /** What every reachable connection satisfies: the signals are subscribed
      exactly while Connecting, the status is only ever Disconnected or
      Connecting, and module identities are distinct and below `created`. */
  predicate Valid(c: Connection) {
    (c.status == Connecting || c.status == Disconnected)
    && (c.observing <==> c.status == Connecting)
    && (forall t :: t in c.modules ==> c.modules[t] < c.created)
    && (forall t, u :: t in c.modules && u in c.modules && t != u ==> c.modules[t] != c.modules[u])
  }

  lemma StepValid(c: Connection, e: Event)
    requires Valid(c)
    ensures Valid(Step(c, e))
  {
    match e
    case GetModuleCall(t) =>
      var r := GetModule(c, t).0;
      forall u, v | u in r.modules && v in r.modules && u != v
        ensures r.modules[u] != r.modules[v]
      {
        if t !in c.modules && (u == t || v == t) {
          assert r.modules[t] == c.created;
        }
      }
    case _ =>
  }

  /** Every run from the initial connection stays valid. In particular
      `getStatus` never reports Connected, ConnectionLost or Disconnecting:
      those reach the host only as notifications. */
  lemma {:induction false} RunValid(c: Connection, es: seq<Event>)
    requires Valid(c)
    ensures Valid(Run(c, es))
    decreases |es|
  {
    if es != [] {
      StepValid(c, es[0]);
      RunValid(Step(c, es[0]), es[1..]);
    }
  }

  /** Once stopped, channel signals queue nothing until the next `start`. */
  lemma SignalsAfterStop(c: Connection)
    requires Valid(c) && c.status == Connecting
    ensures Established(Stop(c)).pending == Stop(c).pending
    ensures Lost(Stop(c)).pending == Stop(c).pending
  {
  }

  /** Asking twice for a module returns the same module and changes nothing more. */
  lemma GetModuleTwice(c: Connection, t: ModuleType)
    ensures GetModule(GetModule(c, t).0, t) == (GetModule(c, t).0, GetModule(c, t).1)
  {
  }

  /** A connect/disconnect cycle: start, the agent answers, stop, then one
      `processEvents` delivers Connecting, Connected, Disconnecting,
      Disconnected, in that order, and nothing else. */
  lemma ConnectCycle()
    ensures
      var c := Stop(Established(Start(Initial)));
      ProcessEvents(c, true).1 == [Connecting, Connected, Disconnecting, Disconnected]
      && ProcessEvents(c, true).0.status == Disconnected
  {
  }

  /** The notifications a step posts, stated from the step's rules alone. */
  function Posted(c: Connection, e: Event): seq<Status> {
    match e
    case StartCall => if IsActive(c.status) then [] else [Connecting]
    case StopCall => if c.status == Disconnected || c.status == Disconnecting then [] else [Disconnecting, Disconnected]
    case ChannelEstablished => if c.observing then [Connected] else []
    case ChannelLost => if c.observing then [ConnectionLost] else []
    case ProcessCall(_) => []
    case GetModuleCall(_) => []
  }

  /** The notifications a step takes off the queue (and hands to the host's
      callback, when one is installed). */
  function Drained(c: Connection, e: Event): seq<Status> {
    if e.ProcessCall? then c.pending else []
  }

  function AllPosted(c: Connection, es: seq<Event>): seq<Status>
    decreases |es|
  {
    if es == [] then [] else Posted(c, es[0]) + AllPosted(Step(c, es[0]), es[1..])
  }

  function AllDrained(c: Connection, es: seq<Event>): seq<Status>
    decreases |es|
  {
    if es == [] then [] else Drained(c, es[0]) + AllDrained(Step(c, es[0]), es[1..])
  }

  lemma StepFifo(c: Connection, e: Event)
    ensures Drained(c, e) + Step(c, e).pending == c.pending + Posted(c, e)
  {
  }

  /** The dispatcher neither loses, duplicates nor reorders notifications:
      over any run, what was drained followed by what is still queued is
      what was queued before followed by everything posted, in order. */
  lemma {:induction false} RunFifo(c: Connection, es: seq<Event>)
    ensures AllDrained(c, es) + Run(c, es).pending == c.pending + AllPosted(c, es)
    decreases |es|
  {
    if es != [] {
      var d := Step(c, es[0]);
      StepFifo(c, es[0]);
      RunFifo(d, es[1..]);
      var x, y := Drained(c, es[0]), Posted(c, es[0]);
      var dr, po, rest := AllDrained(d, es[1..]), AllPosted(d, es[1..]), Run(d, es[1..]).pending;
      assert AllDrained(c, es) + Run(c, es).pending == (x + dr) + rest;
      Seqs.AppendAssoc(x, dr, rest);
      Seqs.AppendAssoc(x, d.pending, po);
      Seqs.AppendAssoc(c.pending, y, po);
    }
  }
}
