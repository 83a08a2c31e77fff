/**
 * `schedule_restart`: one pass of the outer `while True` loop. It captures
 * `now` once, then visits the restart entries in list order. For each entry it
 * sleeps until 30 minutes before that entry's restart instant, runs the
 * countdown, announces the restart, sends the power signal, polls until the
 * server is running and then posts the online notice.
 */
module Orchestrator {
  import opened Wrappers
  import opened Events
  import opened Notifier
  import opened Poller
  import opened Countdown
  import Clock

  /** Commands one entry runs: eight in the countdown, then the final chat line and `save`. */
  const ENTRY_COMMANDS: nat := 10

  /** What follows the restart request: the status poll, then the online notice on Discord alone when it returns. */
  function AfterRestart(s: Sinks, responses: seq<Response>): seq<Event> {
    PollTrace(responses) + (if FirstRunning(responses).Some? then SendMessage(s, BackOnline) else [])
  }

  /**
   * What follows the countdown: the final message on both sinks, the restart
   * request and what follows it. The entry completes when the poll returns.
   */
  function Finale(s: Sinks, issued: nat, responses: seq<Response>): Run {
    var said := SendMessage(s, RestartingNow);
    var sent := SendIngameMessage(RestartingNow, true, issued, s.rconFailAt);
    if sent.status == Aborted then Run(said + sent.events, sent.issued, Aborted)
    else Run(said + sent.events + [Restart] + AfterRestart(s, responses), sent.issued,
      if FirstRunning(responses).Some? then Completed else StillPolling)
  }

  /** One entry of the loop, whose pre-countdown sleep is `wait` microseconds. */
  function EntryRun(wait: int, issued: nat, s: Sinks, responses: seq<Response>): Run {
    var pre := [Sleep(wait)];
    var countdown := CountdownRun(issued, s);
    if countdown.status == Aborted then Prepend(pre, countdown)
    else Prepend(pre + countdown.events, Finale(s, countdown.issued, responses))
  }

  /**
   * The entries `entries`, every one timed from the same `now`, `polls[k]`
   * being what the status endpoint answers after the `k`-th restart. A failed
   * command or a poll that has not returned ends the pass.
   */
  function PassOver(now: Clock.Instant, s: Sinks, entries: seq<Clock.Slot>, polls: seq<seq<Response>>, issued: nat): Run
    requires |polls| == |entries|
  {
    if entries == [] then Run([], issued, Completed)
    else
      var r := EntryRun(Clock.PreCountdownSleep(now, entries[0]), issued, s, polls[0]);
      if r.status != Completed then r
      else Prepend(r.events, PassOver(now, s, entries[1..], polls[1..], r.issued))
  }

  /** One pass of the outer loop over the configured restart times. */
  function Pass(now: Clock.Instant, s: Sinks, polls: seq<seq<Response>>): Run
    requires |polls| == |Clock.RESTART_TIMES|
  {
    PassOver(now, s, Clock.RESTART_TIMES, polls, 0)
  }

  /**
   * The statements after the countdown: `send_message` and
   * `send_ingame_message` of the final message, `restart_server`, then
   * `check_server_status` and, when it returns, the online notice.
   */
  method RunFinale(s: Sinks, issued: nat, responses: seq<Response>)
    returns (events: seq<Event>, issuedAfter: nat, status: Status)
    ensures Run(events, issuedAfter, status) == Finale(s, issued, responses)
  {
    var said := SendMessage(s, RestartingNow);
    var sent := SendIngameMessage(RestartingNow, true, issued, s.rconFailAt);
    if sent.status == Aborted {
      return said + sent.events, sent.issued, Aborted;
    }
    var online, queries, polled := CheckServerStatus(responses);
    var restarted := said + sent.events + [Restart] + polled;
    if !online {
      assert restarted == restarted + [];
      return restarted, sent.issued, StillPolling;
    }
    return restarted + SendMessage(s, BackOnline), sent.issued, Completed;
  }

  /**
   * The body of the `for hour, minute in RESTART_TIMES` loop: the restart
   * instant and the sleep before the countdown are computed from the pass's
   * `now`, however long the earlier entries took.
   */
  method RunEntry(now: Clock.Instant, e: Clock.Entry, issued: nat, s: Sinks, responses: seq<Response>)
    returns (events: seq<Event>, issuedAfter: nat, status: Status)
    requires e.Valid()
    ensures Run(events, issuedAfter, status) == EntryRun(Clock.PreCountdownSleep(now, e), issued, s, responses)
  {
    var restartTime := Clock.AtTimeOfDay(now, e);
    if restartTime < now {
      restartTime := restartTime + Clock.DAY;
    }
    var waitTime := restartTime - now;
    var pre := [Sleep(waitTime - Clock.COUNTDOWN_LEAD)];

    var warned, warnedIssued, countdownStatus := RunCountdown(issued, s);
    if countdownStatus == Aborted {
      return pre + warned, warnedIssued, Aborted;
    }
    var rest, restIssued, restStatus := RunFinale(s, warnedIssued, responses);
    return pre + warned + rest, restIssued, restStatus;
  }

  /** One pass of `schedule_restart`'s outer loop, starting at `now`. */
  method SchedulePass(now: Clock.Instant, s: Sinks, polls: seq<seq<Response>>)
    returns (events: seq<Event>, issued: nat, status: Status)
    requires |polls| == |Clock.RESTART_TIMES|
    ensures Run(events, issued, status) == Pass(now, s, polls)
  {
    events, issued := [], 0;
    ghost var whole := Pass(now, s, polls);
    assert whole == Prepend(events, whole) by {
      assert events + whole.events == whole.events;
    }
    for i := 0 to |Clock.RESTART_TIMES|
      invariant whole == Prepend(events, PassOver(now, s, Clock.RESTART_TIMES[i..], polls[i..], issued))
    {
      assert Clock.RESTART_TIMES[i..][1..] == Clock.RESTART_TIMES[i + 1..] && polls[i..][1..] == polls[i + 1..];
      var entry, entryIssued, entryStatus := RunEntry(now, Clock.RESTART_TIMES[i], issued, s, polls[i]);
      if entryStatus != Completed {
        PrependTwice(events, entry, Run([], entryIssued, entryStatus));
        return events + entry, entryIssued, entryStatus;
      }
      PrependTwice(events, entry, PassOver(now, s, Clock.RESTART_TIMES[i + 1..], polls[i + 1..], entryIssued));
      events, issued := events + entry, entryIssued;
    }
    status := Completed;
  }

  /**
   * The three ways the final message can go: its chat line fails, its `save`
   * fails, or both succeed and the restart request and the poll follow.
   */
  lemma FinaleCases(s: Sinks, issued: nat, responses: seq<Response>)
    ensures var f := Finale(s, issued, responses);
      var said := SendMessage(s, RestartingNow);
      var chat := RconCmd(ServerMsg(RestartingNow));
      (s.rconFailAt == Some(issued) ==> f == Run(said + [chat], issued + 1, Aborted)) &&
      (s.rconFailAt == Some(issued + 1) ==> f == Run(said + [chat, RconCmd(Save)], issued + 2, Aborted)) &&
      (!FailsWithin(s.rconFailAt, issued, issued + 2) ==>
        f.events == said + [chat, RconCmd(Save), Restart] + AfterRestart(s, responses) && f.issued == issued + 2 &&
        f.status == if FirstRunning(responses).Some? then Completed else StillPolling)
  {
    ChatLineBeforeSave(RestartingNow, issued, s.rconFailAt);
    var said := SendMessage(s, RestartingNow);
    var chat := RconCmd(ServerMsg(RestartingNow));
    assert said + [chat, RconCmd(Save)] + [Restart] == said + [chat, RconCmd(Save), Restart];
  }

  /** The countdown of an entry, after its pre-countdown sleep, and what follows when it completes. */
  lemma EntryCases(wait: int, issued: nat, s: Sinks, responses: seq<Response>)
    ensures var r := EntryRun(wait, issued, s, responses);
      var start := [Sleep(wait)] + CountdownRun(issued, s).events;
      (FailsWithin(s.rconFailAt, issued, issued + 8) ==> r == Run(start, CountdownRun(issued, s).issued, Aborted)) &&
      (!FailsWithin(s.rconFailAt, issued, issued + 8) ==>
        start == [Sleep(wait)] + ReferenceCountdown(s) && r == Prepend(start, Finale(s, issued + 8, responses)))
  {
    CountdownFailureIsPrefix(issued, s);
  }

  /**
   * How an entry ends: it aborts exactly when one of its ten commands fails;
   * otherwise it completes exactly when some status response reports the
   * server running, and either way all ten commands have run.
   */
  lemma EntryOutcome(wait: int, issued: nat, s: Sinks, responses: seq<Response>)
    ensures var r := EntryRun(wait, issued, s, responses);
      (r.status == Aborted <==> FailsWithin(s.rconFailAt, issued, issued + ENTRY_COMMANDS)) &&
      (r.status == Completed <==> !FailsWithin(s.rconFailAt, issued, issued + ENTRY_COMMANDS) && FirstRunning(responses).Some?) &&
      (r.status != Aborted ==> r.issued == issued + ENTRY_COMMANDS)
  {
    EntryCases(wait, issued, s, responses);
    FinaleCases(s, issued + 8, responses);
  }

  /**
   * With no failing command, an entry is the pre-countdown sleep, the four
   * warnings, the final message on both sinks and its `save`, the restart
   * request and what follows it, and all ten commands have run.
   */
  lemma EntryWithoutFailure(wait: int, issued: nat, s: Sinks, responses: seq<Response>)
    requires !FailsWithin(s.rconFailAt, issued, issued + ENTRY_COMMANDS)
    ensures var r := EntryRun(wait, issued, s, responses);
      r.events == [Sleep(wait)] + ReferenceCountdown(s) + SendMessage(s, RestartingNow) +
        [RconCmd(ServerMsg(RestartingNow)), RconCmd(Save), Restart] + AfterRestart(s, responses) &&
      r.issued == issued + ENTRY_COMMANDS
  {
    EntryCases(wait, issued, s, responses);
    FinaleCases(s, issued + 8, responses);
    var start := [Sleep(wait)] + ReferenceCountdown(s);
    var said := SendMessage(s, RestartingNow);
    var final := [RconCmd(ServerMsg(RestartingNow)), RconCmd(Save), Restart];
    var after := AfterRestart(s, responses);
    assert EntryRun(wait, issued, s, responses).events == start + (said + final + after);
    AppendAssoc(start, said + final, after);
    AppendAssoc(start, said, final);
  }

  /**
   * With no failing command and a poll that returns, what follows the restart
   * request is the failed queries each with its sleep, the query that sees the
   * server running, and the online notice on Discord.
   */
  lemma EntryHappyPath(wait: int, issued: nat, s: Sinks, responses: seq<Response>)
    requires !FailsWithin(s.rconFailAt, issued, issued + ENTRY_COMMANDS) && FirstRunning(responses).Some?
    ensures EntryRun(wait, issued, s, responses) == Run(
      [Sleep(wait)] + ReferenceCountdown(s) +
      SendMessage(s, RestartingNow) + [RconCmd(ServerMsg(RestartingNow)), RconCmd(Save), Restart] +
      FailedPolls(FirstRunning(responses).value) + [Poll] + SendMessage(s, BackOnline),
      issued + ENTRY_COMMANDS, Completed)
  {
    EntryWithoutFailure(wait, issued, s, responses);
    EntryOutcome(wait, issued, s, responses);
    var head := [Sleep(wait)] + ReferenceCountdown(s) + SendMessage(s, RestartingNow) +
      [RconCmd(ServerMsg(RestartingNow)), RconCmd(Save), Restart];
    var failed := FailedPolls(FirstRunning(responses).value);
    var notice := SendMessage(s, BackOnline);
    assert AfterRestart(s, responses) == failed + [Poll] + notice;
    AppendAssoc(head, failed + [Poll], notice);
    AppendAssoc(head, failed, [Poll]);
  }

  /** What follows a restart whose poll returns sleeps 30 seconds per query that did not see the server running. */
  lemma AfterRestartSleeps(s: Sinks, responses: seq<Response>)
    requires FirstRunning(responses).Some?
    ensures Sleeps(AfterRestart(s, responses)) == seq(FirstRunning(responses).value, _ => POLL_INTERVAL)
  {
    var k := FirstRunning(responses).value;
    var notice := SendMessage(s, BackOnline);
    FailedPollsShape(k);
    SleepsWithoutSleep([Poll]);
    SleepsWithoutSleep(notice);
    SleepsAppend(FailedPolls(k), [Poll]);
    SleepsAppend(PollTrace(responses), notice);
  }

  /** The final message on both sinks and the restart request contain no sleep. */
  lemma FinalMessageSleepsNot(s: Sinks)
    ensures Sleeps(SendMessage(s, RestartingNow) + [RconCmd(ServerMsg(RestartingNow)), RconCmd(Save), Restart]) == []
  {
    var said := SendMessage(s, RestartingNow);
    var final: seq<Event> := [RconCmd(ServerMsg(RestartingNow)), RconCmd(Save), Restart];
    SleepsWithoutSleep(said);
    SleepsWithoutSleep(final);
    SleepsAppend(said, final);
  }

  /** Up to the restart request, an entry that runs the whole countdown sleeps `wait`, then the four countdown delays. */
  lemma StartSleeps(wait: int, s: Sinks)
    ensures Sleeps([Sleep(wait)] + ReferenceCountdown(s) + SendMessage(s, RestartingNow) +
      [RconCmd(ServerMsg(RestartingNow)), RconCmd(Save), Restart]) ==
      [wait, 900 * Clock.SECOND, 600 * Clock.SECOND, 240 * Clock.SECOND, 60 * Clock.SECOND]
  {
    var pre: seq<Event> := [Sleep(wait)];
    var countdown := ReferenceCountdown(s);
    var said := SendMessage(s, RestartingNow);
    var final: seq<Event> := [RconCmd(ServerMsg(RestartingNow)), RconCmd(Save), Restart];
    var start := pre + countdown;
    assert Sleeps(pre) == [wait] by {
      assert pre[1..] == [];
    }
    ReferenceSleeps(s);
    SleepsAppend(pre, countdown);
    FinalMessageSleepsNot(s);
    AppendAssoc(start, said, final);
    SleepsAppend(start, said + final);
  }

  /**
   * The sleeps of an entry that completes: its pre-countdown sleep, the four
   * countdown delays, then one 30-second sleep per query that did not see the
   * server running. Only the first of them is computed from `now`.
   */
  lemma EntrySleeps(wait: int, issued: nat, s: Sinks, responses: seq<Response>)
    requires !FailsWithin(s.rconFailAt, issued, issued + ENTRY_COMMANDS) && FirstRunning(responses).Some?
    ensures Sleeps(EntryRun(wait, issued, s, responses).events) ==
      [wait, 900 * Clock.SECOND, 600 * Clock.SECOND, 240 * Clock.SECOND, 60 * Clock.SECOND] +
      seq(FirstRunning(responses).value, _ => POLL_INTERVAL)
  {
    var head := [Sleep(wait)] + ReferenceCountdown(s) + SendMessage(s, RestartingNow) +
      [RconCmd(ServerMsg(RestartingNow)), RconCmd(Save), Restart];
    EntryWithoutFailure(wait, issued, s, responses);
    StartSleeps(wait, s);
    AfterRestartSleeps(s, responses);
    SleepsAppend(head, AfterRestart(s, responses));
  }

  /**
   * An entry that completes sleeps `wait` plus the 1800-second countdown plus
   * 30 seconds per failed query in all: the next entry's sleep, computed from
   * the pass's `now`, starts that much later than `now`.
   */
  lemma EntrySleepTotal(wait: int, issued: nat, s: Sinks, responses: seq<Response>)
    requires !FailsWithin(s.rconFailAt, issued, issued + ENTRY_COMMANDS) && FirstRunning(responses).Some?
    ensures Total(Sleeps(EntryRun(wait, issued, s, responses).events)) ==
      wait + Clock.COUNTDOWN_LEAD + FirstRunning(responses).value * POLL_INTERVAL
  {
    var k := FirstRunning(responses).value;
    var head := [wait, 900 * Clock.SECOND, 600 * Clock.SECOND, 240 * Clock.SECOND, 60 * Clock.SECOND];
    EntrySleeps(wait, issued, s, responses);
    TotalAppend(head, seq(k, _ => POLL_INTERVAL));
    TotalOfRepeat(k, POLL_INTERVAL);
    var last := head[1..][1..][1..][1..];
    assert last == [60 * Clock.SECOND] && last[1..] == [];
    assert Total(last) == 60 * Clock.SECOND;
    assert Total(head[1..][1..][1..]) == 240 * Clock.SECOND + 60 * Clock.SECOND;
    assert Total(head[1..][1..]) == 600 * Clock.SECOND + 240 * Clock.SECOND + 60 * Clock.SECOND;
    assert Total(head) == wait + Clock.COUNTDOWN_LEAD;
  }

  /** Restart requests after the countdown: one exactly when the final chat line and `save` succeed. */
  lemma FinaleRestarts(s: Sinks, issued: nat, responses: seq<Response>)
    ensures Occurrences(Finale(s, issued, responses).events, Restart) == if FailsWithin(s.rconFailAt, issued, issued + 2) then 0 else 1
  {
    var f := Finale(s, issued, responses);
    var said := SendMessage(s, RestartingNow);
    FinaleCases(s, issued, responses);
    if FailsWithin(s.rconFailAt, issued, issued + 2) {
      assert Restart !in f.events;
      OccurrencesAbsent(f.events, Restart);
    } else {
      var final := [RconCmd(ServerMsg(RestartingNow)), RconCmd(Save)];
      var after := AfterRestart(s, responses);
      PollTraceRunsNoCommand(responses, Restart);
      OccurrencesAppend(PollTrace(responses), if FirstRunning(responses).Some? then SendMessage(s, BackOnline) else [], Restart);
      OccurrencesAbsent(if FirstRunning(responses).Some? then SendMessage(s, BackOnline) else [], Restart);
      OccurrencesAbsent(said + final, Restart);
      OccurrencesSingleton(Restart, Restart);
      assert f.events == said + final + [Restart] + after;
      OccurrencesAppend(said + final, [Restart], Restart);
      OccurrencesAppend(said + final + [Restart], after, Restart);
    }
  }

  /** What an entry does before its final message holds only countdown events. */
  lemma StartLacks(wait: int, issued: nat, s: Sinks, x: Event)
    requires !IsCountdownEvent(x)
    ensures Occurrences([Sleep(wait)] + CountdownRun(issued, s).events, x) == 0
  {
    var start := [Sleep(wait)] + CountdownRun(issued, s).events;
    CountdownEventsAreWarnings(MILESTONES, issued, s);
    assert x !in start;
    OccurrencesAbsent(start, x);
  }

  /** An entry sends the restart request once, and not at all when any of its ten commands failed. */
  lemma EntryRestarts(wait: int, issued: nat, s: Sinks, responses: seq<Response>)
    ensures Occurrences(EntryRun(wait, issued, s, responses).events, Restart) ==
      if FailsWithin(s.rconFailAt, issued, issued + ENTRY_COMMANDS) then 0 else 1
  {
    var start := [Sleep(wait)] + CountdownRun(issued, s).events;
    EntryCases(wait, issued, s, responses);
    StartLacks(wait, issued, s, Restart);
    if !FailsWithin(s.rconFailAt, issued, issued + 8) {
      FinaleRestarts(s, issued + 8, responses);
      OccurrencesAppend(start, Finale(s, issued + 8, responses).events, Restart);
    }
  }

  /** When an entry's commands all succeed, its restart request comes right after the final chat line and its `save`. */
  lemma RestartFollowsFinalSave(wait: int, issued: nat, s: Sinks, responses: seq<Response>)
    requires !FailsWithin(s.rconFailAt, issued, issued + ENTRY_COMMANDS)
    ensures exists before, after ::
      EntryRun(wait, issued, s, responses).events == before + [RconCmd(ServerMsg(RestartingNow)), RconCmd(Save), Restart] + after
  {
    EntryWithoutFailure(wait, issued, s, responses);
    var before := [Sleep(wait)] + ReferenceCountdown(s) + SendMessage(s, RestartingNow);
    var after := AfterRestart(s, responses);
    assert EntryRun(wait, issued, s, responses).events == before + [RconCmd(ServerMsg(RestartingNow)), RconCmd(Save), Restart] + after;
  }

  /** The online notice after the countdown: never a command line, and posted once exactly when the entry completes on a resolved channel. */
  lemma FinaleOnlineNotice(s: Sinks, issued: nat, responses: seq<Response>)
    ensures var f := Finale(s, issued, responses);
      Occurrences(f.events, RconCmd(ServerMsg(BackOnline))) == 0 &&
      Occurrences(f.events, Broadcast(BackOnline)) == if f.status == Completed && s.channelResolves then 1 else 0
  {
    var f := Finale(s, issued, responses);
    var inGame, posted := RconCmd(ServerMsg(BackOnline)), Broadcast(BackOnline);
    var said := SendMessage(s, RestartingNow);
    FinaleCases(s, issued, responses);
    if FailsWithin(s.rconFailAt, issued, issued + 2) {
      OccurrencesAbsent(f.events, inGame);
      OccurrencesAbsent(f.events, posted);
    } else {
      var head := said + [RconCmd(ServerMsg(RestartingNow)), RconCmd(Save), Restart];
      var notice := if FirstRunning(responses).Some? then SendMessage(s, BackOnline) else [];
      OccurrencesAbsent(head, inGame);
      OccurrencesAbsent(head, posted);
      PollTraceRunsNoCommand(responses, inGame);
      PollTraceRunsNoCommand(responses, posted);
      OccurrencesAbsent(notice, inGame);
      if notice != [] {
        OccurrencesSingleton(posted, posted);
      } else {
        OccurrencesAbsent(notice, posted);
      }
      OccurrencesAppend(PollTrace(responses), notice, inGame);
      OccurrencesAppend(PollTrace(responses), notice, posted);
      OccurrencesAppend(head, AfterRestart(s, responses), inGame);
      OccurrencesAppend(head, AfterRestart(s, responses), posted);
    }
  }

  /**
   * The online notice is posted on Discord only: no command line ever carries
   * it, and it is posted once exactly when the entry completes with the
   * channel resolved.
   */
  lemma OnlineNoticeOnlyOnDiscord(wait: int, issued: nat, s: Sinks, responses: seq<Response>)
    ensures var r := EntryRun(wait, issued, s, responses);
      Occurrences(r.events, RconCmd(ServerMsg(BackOnline))) == 0 &&
      Occurrences(r.events, Broadcast(BackOnline)) == if r.status == Completed && s.channelResolves then 1 else 0
  {
    var inGame, posted := RconCmd(ServerMsg(BackOnline)), Broadcast(BackOnline);
    var start := [Sleep(wait)] + CountdownRun(issued, s).events;
    EntryCases(wait, issued, s, responses);
    StartLacks(wait, issued, s, inGame);
    StartLacks(wait, issued, s, posted);
    if !FailsWithin(s.rconFailAt, issued, issued + 8) {
      var f := Finale(s, issued + 8, responses);
      FinaleOnlineNotice(s, issued + 8, responses);
      OccurrencesAppend(start, f.events, inGame);
      OccurrencesAppend(start, f.events, posted);
    }
  }

  /** The command count after the countdown is the number of command lines there. */
  lemma FinaleCounts(s: Sinks, issued: nat, responses: seq<Response>)
    ensures var f := Finale(s, issued, responses);
      f.issued == issued + RconCount(f.events)
  {
    var said := SendMessage(s, RestartingNow);
    var sent := SendIngameMessage(RestartingNow, true, issued, s.rconFailAt);
    SinksCountCommands(s, RestartingNow, true, issued, s.rconFailAt);
    RconCountAppend(said, sent.events);
    if sent.status != Aborted {
      var notice := if FirstRunning(responses).Some? then SendMessage(s, BackOnline) else [];
      SinksCountCommands(s, BackOnline, true, issued, s.rconFailAt);
      PollTraceRunsNoCommand(responses, Restart);
      RconCountAppend(PollTrace(responses), notice);
      OccurrencesSingleton(Restart, Restart);
      assert RconCount([Restart]) == 0;
      RconCountAppend(said + sent.events, [Restart]);
      RconCountAppend(said + sent.events + [Restart], AfterRestart(s, responses));
    }
  }

  /** The entry's command count is the number of command lines in its events. */
  lemma EntryCounts(wait: int, issued: nat, s: Sinks, responses: seq<Response>)
    ensures var r := EntryRun(wait, issued, s, responses);
      r.issued == issued + RconCount(r.events)
  {
    var countdown := CountdownRun(issued, s);
    var start := [Sleep(wait)] + countdown.events;
    CountdownCounts(MILESTONES, issued, s);
    RconCountAppend([Sleep(wait)], countdown.events);
    assert RconCount([Sleep(wait)]) == 0;
    if countdown.status != Aborted {
      FinaleCounts(s, countdown.issued, responses);
      RconCountAppend(start, Finale(s, countdown.issued, responses).events);
    }
  }

  /** An aborted entry ends on the failing command, the one numbered `rconFailAt`. */
  lemma EntryAbortEnds(wait: int, issued: nat, s: Sinks, responses: seq<Response>)
    ensures EndsOnFailure(EntryRun(wait, issued, s, responses), s.rconFailAt)
  {
    var countdown := CountdownRun(issued, s);
    CountdownAbortEnds(MILESTONES, issued, s);
    if countdown.status == Aborted {
      PrependKeepsEnd([Sleep(wait)], countdown, s.rconFailAt);
    } else {
      var said := SendMessage(s, RestartingNow);
      var sent := SendIngameMessage(RestartingNow, true, countdown.issued, s.rconFailAt);
      LastOfAppend([Sleep(wait)] + countdown.events + said, sent.events);
    }
  }

  /** The pass opens with the sleep computed for its first entry from `now`. */
  lemma PassStartsWithSleep(now: Clock.Instant, s: Sinks, entries: seq<Clock.Slot>, polls: seq<seq<Response>>, issued: nat)
    requires |polls| == |entries| && entries != []
    ensures var r := PassOver(now, s, entries, polls, issued);
      r.events != [] && r.events[0] == Sleep(Clock.PreCountdownSleep(now, entries[0]))
  {
  }

  /** The pass's command count is the number of command lines in its events. */
  lemma {:induction false} PassCounts(now: Clock.Instant, s: Sinks, entries: seq<Clock.Slot>, polls: seq<seq<Response>>, issued: nat)
    requires |polls| == |entries|
    ensures var r := PassOver(now, s, entries, polls, issued);
      r.issued == issued + RconCount(r.events)
  {
    if entries != [] {
      var wait := Clock.PreCountdownSleep(now, entries[0]);
      var first := EntryRun(wait, issued, s, polls[0]);
      EntryCounts(wait, issued, s, polls[0]);
      if first.status == Completed {
        var rest := PassOver(now, s, entries[1..], polls[1..], first.issued);
        PassCounts(now, s, entries[1..], polls[1..], first.issued);
        RconCountAppend(first.events, rest.events);
      }
    }
  }

  /** An aborted pass ends on the failing command, the one numbered `rconFailAt`. */
  lemma {:induction false} PassAbortEnds(now: Clock.Instant, s: Sinks, entries: seq<Clock.Slot>, polls: seq<seq<Response>>, issued: nat)
    requires |polls| == |entries|
    ensures EndsOnFailure(PassOver(now, s, entries, polls, issued), s.rconFailAt)
  {
    if entries != [] {
      var wait := Clock.PreCountdownSleep(now, entries[0]);
      var first := EntryRun(wait, issued, s, polls[0]);
      if first.status != Completed {
        EntryAbortEnds(wait, issued, s, polls[0]);
      } else {
        var rest := PassOver(now, s, entries[1..], polls[1..], first.issued);
        PassAbortEnds(now, s, entries[1..], polls[1..], first.issued);
        PrependKeepsEnd(first.events, rest, s.rconFailAt);
      }
    }
  }

  /**
   * A pass completes exactly when none of its `10 * |entries|` commands fails
   * and every status poll sees the server running; it then has restarted the
   * server once per entry.
   */
  lemma {:induction false} PassCompletes(now: Clock.Instant, s: Sinks, entries: seq<Clock.Slot>, polls: seq<seq<Response>>, issued: nat)
    requires |polls| == |entries|
    ensures var r := PassOver(now, s, entries, polls, issued);
      (r.status == Completed <==>
        !FailsWithin(s.rconFailAt, issued, issued + ENTRY_COMMANDS * |entries|) &&
        forall k | 0 <= k < |polls| :: FirstRunning(polls[k]).Some?) &&
      (r.status == Completed ==>
        r.issued == issued + ENTRY_COMMANDS * |entries| && Occurrences(r.events, Restart) == |entries|)
  {
    if entries == [] {
      assert !FailsWithin(s.rconFailAt, issued, issued);
    } else {
      var wait := Clock.PreCountdownSleep(now, entries[0]);
      var first := EntryRun(wait, issued, s, polls[0]);
      EntryOutcome(wait, issued, s, polls[0]);
      EntryRestarts(wait, issued, s, polls[0]);
      assert forall k | 1 <= k < |polls| :: polls[k] == polls[1..][k - 1];
      if first.status == Completed {
        var rest := PassOver(now, s, entries[1..], polls[1..], first.issued);
        PassCompletes(now, s, entries[1..], polls[1..], first.issued);
        OccurrencesAppend(first.events, rest.events, Restart);
      }
    }
  }

  /** No command line of a pass ever carries the online notice. */
  lemma {:induction false} OnlineNoticeNeverInGame(now: Clock.Instant, s: Sinks, entries: seq<Clock.Slot>, polls: seq<seq<Response>>, issued: nat)
    requires |polls| == |entries|
    ensures Occurrences(PassOver(now, s, entries, polls, issued).events, RconCmd(ServerMsg(BackOnline))) == 0
  {
    if entries != [] {
      var wait := Clock.PreCountdownSleep(now, entries[0]);
      var first := EntryRun(wait, issued, s, polls[0]);
      OnlineNoticeOnlyOnDiscord(wait, issued, s, polls[0]);
      if first.status == Completed {
        var rest := PassOver(now, s, entries[1..], polls[1..], first.issued);
        OnlineNoticeNeverInGame(now, s, entries[1..], polls[1..], first.issued);
        OccurrencesAppend(first.events, rest.events, RconCmd(ServerMsg(BackOnline)));
      }
    }
  }

  /**
   * Each entry is timed from the `now` captured at the top of the pass: the
   * pass opens with the sleep for the first entry, and when that entry
   * completes the next sleep is the one computed for the second entry from
   * the same `now`, however long the first entry took.
   */
  lemma EntriesShareOneNow(now: Clock.Instant, s: Sinks, polls: seq<seq<Response>>)
    requires |polls| == |Clock.RESTART_TIMES|
    ensures var r := Pass(now, s, polls);
      var first := EntryRun(Clock.PreCountdownSleep(now, Clock.RESTART_TIMES[0]), 0, s, polls[0]);
      r.events != [] && r.events[0] == Sleep(Clock.PreCountdownSleep(now, Clock.RESTART_TIMES[0])) &&
      (first.status == Completed ==>
        |r.events| > |first.events| && r.events[|first.events|] == Sleep(Clock.PreCountdownSleep(now, Clock.RESTART_TIMES[1])))
  {
    var entries := Clock.RESTART_TIMES;
    PassStartsWithSleep(now, s, entries, polls, 0);
    var first := EntryRun(Clock.PreCountdownSleep(now, entries[0]), 0, s, polls[0]);
    if first.status == Completed {
      PassStartsWithSleep(now, s, entries[1..], polls[1..], first.issued);
      assert entries[1..][0] == entries[1];
    }
  }

  /**
   * Started at 00:31, the pass first sleeps almost a day, towards the next
   * day's 00:30 less the 30-minute lead, although the 06:30 slot is under six
   * hours away.
   */
  lemma FirstSleepFollowsListOrder(s: Sinks, polls: seq<seq<Response>>)
    requires |polls| == |Clock.RESTART_TIMES|
    ensures Pass(Clock.NEW_YEAR_2024 + 31 * Clock.MINUTE, s, polls).events[0] == Sleep(Clock.DAY - 31 * Clock.MINUTE)
  {
    var now := Clock.NEW_YEAR_2024 + 31 * Clock.MINUTE;
    EntriesShareOneNow(now, s, polls);
    Clock.ListOrderIsNotEarliest();
  }

  /** Started at 00:15, the pass opens with a sleep of minus fifteen minutes. */
  lemma FirstSleepCanBeNegative(s: Sinks, polls: seq<seq<Response>>)
    requires |polls| == |Clock.RESTART_TIMES|
    ensures Pass(Clock.NEW_YEAR_2024 + 15 * Clock.MINUTE, s, polls).events[0] == Sleep(-15 * Clock.MINUTE)
  {
    EntriesShareOneNow(Clock.NEW_YEAR_2024 + 15 * Clock.MINUTE, s, polls);
    Clock.PreCountdownSleepCanBeNegative();
  }
}
