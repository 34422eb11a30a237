/** The TeamViewer-session management module of the agent API: enumerating
    the running sessions, terminating them, and passing session start/stop
    events on to the host.

    Whether the agent connection is alive and what the channel returns are
    parameters. */
module TVSessionManagementModule {
  import opened Wrappers
  import Enumerate

  /** `TVSessionID` and the session count are `int32_t` values. */
  type Int32 = x: int | -0x8000_0000 <= x < 0x8000_0000

  /** `enumerateRunningSessions`: false, with nothing visited, when there is
      no enumerator, the connection expired or the fetch failed (`fetched` is
      None); otherwise the IDs are visited in order until the enumerator
      declines one, and the result is true. */
  function EnumerateRunningSessions(hasEnumerator: bool, alive: bool, fetched: Option<seq<Int32>>, accept: Int32 -> bool)
    : (r: (bool, seq<Int32>))
    ensures r.0 <==> hasEnumerator && alive && fetched.Some?
    ensures !r.0 ==> r.1 == []
    ensures r.0 ==> |r.1| <= |fetched.value| && r.1 == fetched.value[..|r.1|]
    ensures forall i :: 0 <= i < |r.1| - 1 ==> accept(r.1[i])
    ensures r.0 && |r.1| < |fetched.value| ==> 0 < |r.1| && !accept(r.1[|r.1| - 1])
  {
    if !hasEnumerator || !alive || fetched.None? then (false, [])
    else (true, Enumerate.VisitUntil(fetched.value, accept))
  }

  /** An enumerator that accepts every ID sees all of them. */
  lemma EnumerateAll(fetched: seq<Int32>, accept: Int32 -> bool)
    requires forall i :: 0 <= i < |fetched| ==> accept(fetched[i])
    ensures EnumerateRunningSessions(true, true, Some(fetched), accept) == (true, fetched)
  {
    Enumerate.VisitAll(fetched, accept);
  }

  /** `terminateTeamViewerSessions`: false with no call on an expired
      connection, otherwise the result of the stop request. The second
      component says whether the request was sent. */
  function TerminateSessions(alive: bool, stopOk: bool): (r: (bool, bool))
    ensures r.1 <==> alive
    ensures r.0 <==> alive && stopOk
  {
    if alive then (stopOk, true) else (false, false)
  }

  datatype SessionEvent = SessionStarted(sessionId: Int32, count: Int32) | SessionStopped(sessionId: Int32, count: Int32)

  /** What the host's `sessionStartedCallback`/`sessionStoppedCallback`
      receives for a channel event: the same kind, ID and count. */
  function Forward(e: SessionEvent): (r: SessionEvent)
    ensures r.SessionStarted? <==> e.SessionStarted?
    ensures r.sessionId == e.sessionId && r.count == e.count
  {
    match e
    case SessionStarted(id, n) => SessionStarted(id, n)
    case SessionStopped(id, n) => SessionStopped(id, n)
  }
}
