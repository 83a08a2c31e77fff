/**
 * `check_server_status`: query the server's resources every 30 seconds until
 * a response says it is running. The responses the panel gives are an input;
 * over a finite sequence of them the poll either returns or is still waiting.
 */
module Poller {
  import opened Wrappers
  import opened Events

  const POLL_INTERVAL: int := 30_000_000  // 30 seconds, in microseconds

  /** One answer of the status endpoint: the HTTP status and `attributes.current_state`, if present. */
  datatype Response = Response(status: int, currentState: Option<string>)

  /** `result.get("attributes", {}).get("current_state", "N/A")`. */
  function CurrentState(r: Response): string {
    match r.currentState
    case Some(state) => state
    case None => "N/A"
  }

  /** Status 200 and the state is exactly "running". */
  predicate IsRunning(r: Response) {
    r.status == 200 && CurrentState(r) == "running"
  }

  /** Position of the first response that reports the server running, if any. */
  function FirstRunning(responses: seq<Response>): (k: Option<nat>)
    ensures k.Some? ==> k.value < |responses| && IsRunning(responses[k.value])
    ensures forall j | 0 <= j < |responses| && (k.None? || j < k.value) :: !IsRunning(responses[j])
  {
    if |responses| == 0 then None
    else if IsRunning(responses[0]) then Some(0)
    else match FirstRunning(responses[1..])
      case None => None
      case Some(j) => Some(j + 1)
  }

  /** `n` queries that did not see the server running, each followed by one 30-second sleep. */
  function FailedPolls(n: nat): seq<Event> {
    if n == 0 then [] else FailedPolls(n - 1) + [Poll, Sleep(POLL_INTERVAL)]
  }

  /** The effects of the poll over `responses`: it stops right after the first running answer. */
  function PollTrace(responses: seq<Response>): seq<Event> {
    match FirstRunning(responses)
    case Some(k) => FailedPolls(k) + [Poll]
    case None => FailedPolls(|responses|)
  }

  /** Fixed interval, no backoff: query and sleep alternate, and every sleep is 30 seconds. */
  lemma {:induction false} FailedPollsShape(n: nat)
    ensures |FailedPolls(n)| == 2 * n
    ensures forall j | 0 <= j < n :: FailedPolls(n)[2 * j] == Poll && FailedPolls(n)[2 * j + 1] == Sleep(POLL_INTERVAL)
    ensures Occurrences(FailedPolls(n), Poll) == n && Sleeps(FailedPolls(n)) == seq(n, _ => POLL_INTERVAL)
  {
    if n > 0 {
      FailedPollsShape(n - 1);
      var tail: seq<Event> := [Poll, Sleep(POLL_INTERVAL)];
      OccurrencesAppend(FailedPolls(n - 1), tail, Poll);
      SleepsAppend(FailedPolls(n - 1), tail);
      assert tail[1..] == [Sleep(POLL_INTERVAL)] && tail[1..][1..] == [];
      assert Sleeps(tail[1..]) == [POLL_INTERVAL] && Occurrences(tail[1..], Poll) == 0;
      assert Sleeps(tail) == [POLL_INTERVAL];
      assert Occurrences(tail, Poll) == 1;
    }
  }

  /** The poll never runs an RCON command, never posts to Discord, never restarts. */
  lemma {:induction false} PollTraceIsOnlyPollsAndSleeps(responses: seq<Response>)
    ensures forall ev | ev in PollTrace(responses) :: ev == Poll || ev == Sleep(POLL_INTERVAL)
  {
    var n := match FirstRunning(responses) case Some(k) => k case None => |responses|;
    FailedPollsShape(n);
    forall ev | ev in FailedPolls(n) ensures ev == Poll || ev == Sleep(POLL_INTERVAL) {
      var i :| 0 <= i < |FailedPolls(n)| && FailedPolls(n)[i] == ev;
      assert FailedPolls(n)[2 * (i / 2)] == Poll && FailedPolls(n)[2 * (i / 2) + 1] == Sleep(POLL_INTERVAL);
    }
  }

  /**
   * `check_server_status` over the answers the panel gives, in order.
   * `online` is the `return True`; when it is false the source would still be
   * polling after the last response.
   */
  method CheckServerStatus(responses: seq<Response>) returns (online: bool, queries: nat, events: seq<Event>)
    ensures online <==> exists k | 0 <= k < |responses| :: IsRunning(responses[k])
    ensures online ==> 1 <= queries <= |responses| && IsRunning(responses[queries - 1])
    ensures !online ==> queries == |responses|
    ensures forall j | 0 <= j < queries && (j < queries - 1 || !online) :: !IsRunning(responses[j])
    ensures events == PollTrace(responses)
    ensures Occurrences(events, Poll) == queries
  {
    var i := 0;
    events := [];
    while i < |responses|
      invariant 0 <= i <= |responses|
      invariant forall j | 0 <= j < i :: !IsRunning(responses[j])
      invariant events == FailedPolls(i)
    {
      FailedPollsShape(i);
      OccurrencesAppend(events, [Poll], Poll);
      OccurrencesSingleton(Poll, Poll);
      events := events + [Poll];
      if IsRunning(responses[i]) {
        return true, i + 1, events;
      }
      events := events + [Sleep(POLL_INTERVAL)];
      i := i + 1;
    }
    FailedPollsShape(|responses|);
    return false, |responses|, events;
  }

  /** The poll's effects hold no command line and nothing but queries and their sleeps. */
  lemma PollTraceRunsNoCommand(responses: seq<Response>, x: Event)
    requires x != Poll && x != Sleep(POLL_INTERVAL)
    ensures RconCount(PollTrace(responses)) == 0 && Occurrences(PollTrace(responses), x) == 0
  {
    PollTraceIsOnlyPollsAndSleeps(responses);
    RconCountNoCommands(PollTrace(responses));
    OccurrencesAbsent(PollTrace(responses), x);
  }
}
