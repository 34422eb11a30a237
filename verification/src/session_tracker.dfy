/** The running-session tracker of the session-management test script: it
    seeds a set of session IDs when the connection comes up, then checks
    every start/stop event against that set and its own running count, and
    records the counts it sees. A failed check ends the script; here it is
    `None`. */
module SessionTracker {
  import opened Wrappers

  datatype Tracker = Tracker(
    /** The script's own count; it starts at 0 whatever the seeded set holds. */
    count: int,
    ids: set<int>,
    /** Every count recorded so far, in order. */
    recorded: seq<int>)

  const Initial := Tracker(0, {}, [])

  /** The connection came up: the running IDs join the set, whose size must
      equal the first expected count; that count is recorded. */
  function OnConnected(t: Tracker, running: seq<int>, expected: seq<int>): (r: Option<Tracker>)
    requires 0 < |expected|
    ensures r.Some? <==> |t.ids + set i | i in running| == expected[0]
    ensures r.Some? ==> (r.value.ids == t.ids + (set i | i in running) && r.value.count == t.count
      && r.value.recorded == t.recorded + [expected[0]])
  {
    var ids := t.ids + set i | i in running;
    if |ids| == expected[0] then Some(Tracker(t.count, ids, t.recorded + [expected[0]])) else None
  }

  /** A session started (`started`) or stopped, with the agent's count. A
      start must bring a new ID and the count one above the tracked count; a
      stop a known ID and the count one below. */
  function OnSessionEvent(t: Tracker, started: bool, id: int, reported: int): (r: Option<Tracker>)
    ensures started ==> (r.Some? <==> id !in t.ids && reported == t.count + 1)
    ensures !started ==> (r.Some? <==> id in t.ids && reported == t.count - 1)
    ensures r.Some? ==> r.value.count == reported && r.value.recorded == t.recorded + [reported]
    ensures r.Some? ==> |r.value.ids| - r.value.count == |t.ids| - t.count
    ensures r.Some? && started ==> r.value.ids == t.ids + {id}
    ensures r.Some? && !started ==> r.value.ids == t.ids - {id}
  {
    if started then
      if id !in t.ids && reported == t.count + 1 then Some(Tracker(t.count + 1, t.ids + {id}, t.recorded + [reported]))
      else None
    else
      if id in t.ids && reported == t.count - 1 then Some(Tracker(t.count - 1, t.ids - {id}, t.recorded + [reported]))
      else None
  }

  datatype Event = Started(id: int, reported: int) | Stopped(id: int, reported: int)

  function Apply(t: Tracker, es: seq<Event>): Option<Tracker>
    decreases |es|
  {
    if es == [] then Some(t)
    else match OnSessionEvent(t, es[0].Started?, es[0].id, es[0].reported)
      case None => None
      case Some(t1) => Apply(t1, es[1..])
  }

  /** The script's loop ends exactly when the recorded counts are the
      expected ones. */
  predicate Finished(t: Tracker, expected: seq<int>) {
    t.recorded == expected
  }

  /** Over any accepted run of events the set and the count move together,
      so the set's size stays the seeded size plus the count; each event
      records its count, and the last one recorded is the current count. */
  lemma {:induction false} ApplyKeepsBalance(t: Tracker, es: seq<Event>)
    requires Apply(t, es).Some?
    ensures |Apply(t, es).value.ids| - Apply(t, es).value.count == |t.ids| - t.count
    ensures |Apply(t, es).value.recorded| == |t.recorded| + |es|
    ensures es != [] ==> Apply(t, es).value.recorded[|Apply(t, es).value.recorded| - 1] == Apply(t, es).value.count
    decreases |es|
  {
    if es != [] {
      var t1 := OnSessionEvent(t, es[0].Started?, es[0].id, es[0].reported).value;
      ApplyKeepsBalance(t1, es[1..]);
    }
  }

  /** After seeding `k` running sessions, the set holds exactly `count + k`
      IDs for as long as the checks pass. */
  lemma SeededBalance(running: seq<int>, expected: seq<int>, es: seq<Event>)
    requires 0 < |expected|
    requires OnConnected(Initial, running, expected).Some?
    requires Apply(OnConnected(Initial, running, expected).value, es).Some?
    ensures var t := Apply(OnConnected(Initial, running, expected).value, es).value;
      |t.ids| == t.count + expected[0]
  {
    ApplyKeepsBalance(OnConnected(Initial, running, expected).value, es);
  }
}
