# Scheduled restart cycle of a game-server restart bot

`main.py` runs one background coroutine, `schedule_restart`. At the top of
each pass it reads the clock once, in Asia/Singapore time (UTC+8). Then, for
each configured restart time (00:30, 06:30, 12:30 and 18:30, in list order),
it:

- sleeps for the time from `now` to 30 minutes before that time. Each
  entry's sleep is computed from the same `now`, but only the first entry's
  sleep starts at `now`;
- posts four warnings to Discord, sends each in game over RCON followed by
  `save`, and sleeps 900, 600, 240 and 60 seconds after them;
- announces "Restarting server now!" on both sinks;
- sends the Pterodactyl `restart` power signal;
- polls the panel's resources endpoint every 30 seconds until the server
  reports `running`;
- then posts "Server is back online!" to Discord only.

This project models one pass of that loop as a trace of observable effects
and proves properties of it.

- `Events` defines the effects: sleeps in microseconds, Discord posts, RCON
  command lines, the restart request and status queries.
- A `Run` is a trace, the number of RCON commands issued so far in the pass,
  and how the stretch ended:
  - `Completed`;
  - `Aborted`: an RCON command exited non-zero and raised;
  - `StillPolling`: the given status responses ran out before one reported
    `running`.
- `Clock` computes the restart instant on the local date of the captured
  `now`. It moves the instant one day on when it is strictly earlier than
  `now`, and derives the pre-countdown sleep `wait_time - 1800`.
- `Notifier` models `send_message` and `send_ingame_message`:
  - the Discord post, with the role mention in front of the message;
  - the chat-line command, then `save` when asked;
  - abort on the first failing command.
- `Poller` models `check_server_status` over a finite sequence of panel
  responses. A response counts as running only when its status is 200 and its
  `current_state` is `"running"`; a missing field reads as `"N/A"`.
- `Countdown` models the four-warning loop as a method, proved against a
  recursive function over the list of milestones.
- `Orchestrator` models the body of the outer loop:
  - `RunFinale` and `RunEntry` for one entry;
  - `SchedulePass` for one pass over `RESTART_TIMES`;
  - each proved equal to a specification function (`Finale`, `EntryRun`,
    `Pass`), with the cycle's properties proved as lemmas.

The things the program cannot see are inputs:

- whether the notify channel resolves;
- which RCON invocation of the pass, if any, fails (`Sinks.rconFailAt`, counted
  from 0);
- the status endpoint's answers after each restart;
- the captured `now`.

Four things follow from how `main.py` is written; the lemmas named below state the first three in the model:

- **Entries in list order, from one `now`.** The loop at main.py:86-95 visits
  the entries in list order. It computes each entry's wait from the single
  `now` read at the top of the pass, and never picks the earliest upcoming
  slot. `Clock.ListOrderIsNotEarliest` and
  `Orchestrator.FirstSleepFollowsListOrder` show that at 00:31 the first sleep
  is almost a day long, although 06:30 is sooner.
- **Later entries drift.** Each sleep at main.py:95 starts when the previous
  entry has finished. `Orchestrator.EntrySleepTotal` proves that a completed
  entry's sleep arguments add up to `wait + 1800 s`, plus 30 s per failed
  status query. So a
  later entry's sleep starts at least that long after `now` (the sleeps may run longer, never shorter), while its
  argument is still measured from `now`. For example, a pass starting at 00:00
  restarts at 00:30. The 06:30 entry then sleeps six hours from about 00:30,
  so its 30-minute warning comes at about 06:30 and its restart at about 07:00
  plus the poll time. Each later entry drifts further.
- **Negative sleeps.** `wait_time - 1800` at main.py:93-95 is not clamped at
  zero: started at 00:15, the first sleep argument is minus fifteen minutes
  (`Orchestrator.FirstSleepCanBeNegative`).
- **Failures raise.** Every RCON command runs with `check=True`
  (main.py:45, 49), so a failing one raises out of the coroutine. It is
  modelled as `Aborted`, which ends the pass; in the program it ends the task
  for good. A network or JSON error in the status poll (main.py:76-78), or an
  exception from `channel.send` (main.py:38), also raises rather than being
  retried or ignored. Those two are not modelled.

## Model

| member | source | states |
|---|---|---|
| Clock.Entry.TimeOfDay | main.py:88 | an in-range hour and minute give an offset in [0, one day) from local midnight |
| Clock.AtTimeOfDay | main.py:88 | the instant has `now`'s local date and the entry's wall-clock reading with zero seconds, and its distance from `now` is the difference of the two times of day |
| Clock.RestartInstant | main.py:88-91 | the restart instant lies in [now, now + 1 day), reads hour:minute local time, and is on `now`'s date or the next |
| Clock.WaitMicros | main.py:93 | the wait is in [0, one day) and is zero exactly when `now` is on the slot |
| Clock.PreCountdownSleep | main.py:95 | the pre-countdown sleep lies in [-1800 s, one day - 1800 s) |
| Clock.RestartInstantIsNextOccurrence | main.py:88-91 | every instant in [now, now + 1 day) that reads the slot's time is the restart instant: it is the next occurrence, never one a day too late |
| Clock.SameDayUnlessPassed | main.py:90-91 | same date exactly when the slot is not earlier than `now`, otherwise exactly one day later |
| Clock.ExactSlotIsKept | main.py:90 | the comparison is strict: `now` on the slot gives a zero wait |
| Clock.LateEveningWrapsToNextDay | main.py:88-91 | at 23:00 the 00:30 entry moves to 00:30 the next day |
| Clock.EarliestRestartInstant | main.py:87-91 | not what these lines do, a contrast to them: the minimum of the entries' restart instants, attained by one of them, which the loop never computes |
| Clock.ListOrderIsNotEarliest | main.py:86-91 | at 00:31 the first listed entry's instant is the next day's 00:30 while the earliest is 06:30 the same day |
| Clock.PreCountdownSleepCanBeNegative | main.py:93-95 | 15 minutes before the slot the sleep argument is minus 15 minutes |
| Notifier.Text | main.py:98-110 | the wording of each message: "Server will restart in " + 30 minutes / 15 minutes / 5 minutes / 1 minute + "!", "Restarting server now!", "Server is back online!" |
| Notifier.TextIsInjective | main.py:98-110 | the six message texts are pairwise distinct (both directions) |
| Notifier.Mention | main.py:38 | the Discord text is `<@&`, the role, `> `, then the message, with the role and message recoverable by position |
| Notifier.PostedTextIsInjective | main.py:38 | two different messages never yield the same Discord text |
| Notifier.SendMessage | main.py:34-40 | at most one post, made exactly when the channel resolves, and it carries the given message |
| Notifier.SendIngameMessage | main.py:42-49 | the effects are a non-empty prefix of chat line then `save`; the call completes exactly when none of those commands fails; an abort ends on the failing command; the command count grows by the number of lines run |
| Notifier.SinksCountCommands | main.py:34-49 | the Discord sink runs no RCON command and every event of the in-game sink is one |
| Notifier.ChatLineBeforeSave | main.py:44-49 | without `save` only the chat line runs; with it the chat line runs before `save`, and a failure of either stops there |
| Poller.CurrentState | main.py:79 | `attributes.current_state` of the response, or "N/A" when it is missing |
| Poller.IsRunning | main.py:77-79 | a response counts as running when its status is 200 and its state is exactly "running" |
| Poller.PollTrace | main.py:75-81 | the poll's effects: a query and a 30-second sleep for each response before the first running one, then that response's query; with no running response, a query and a sleep for every response |
| Poller.FirstRunning | main.py:75-80 | the position found reports running and no earlier response does; none found means none runs |
| Poller.FailedPollsShape | main.py:75-81 | the failed queries alternate query, 30-second sleep, with exactly n queries and n sleeps of 30 s: fixed interval, no backoff |
| Poller.PollTraceIsOnlyPollsAndSleeps | main.py:65-81 | the poll produces nothing but status queries and 30-second sleeps |
| Poller.CheckServerStatus | main.py:65-81 | returns true exactly when some response reports running, after as many queries as the first such response's position plus one; otherwise queries every response; its effects equal `PollTrace`, with one query event per query made |
| Poller.PollTraceRunsNoCommand | main.py:65-81 | the poll runs no RCON command, posts nothing and sends no restart |
| Countdown.WarningStep | main.py:99-101 | one warning: the Discord post, then `send_ingame_message` with `save`, then the milestone's sleep when both commands succeed; a failing command ends the step right after it |
| Countdown.CountdownOver | main.py:98-101 | the warnings of a list of milestones taken in order, stopping at the first step that aborts |
| Countdown.WarningStepCases | main.py:99-101 | a warning is post, chat line, `save`, sleep when both commands succeed, and stops right after whichever command fails |
| Countdown.WarningStepCounts | main.py:99-101 | the command count after a warning is the count before plus its RCON lines |
| Countdown.WarningStepAbortEnds | main.py:100 | an aborted warning ends on the failing command |
| Countdown.RunCountdown | main.py:98-101 | the loop over the four milestones produces exactly the countdown function's run |
| Countdown.CountdownCounts | main.py:98-101 | the countdown's command count equals its RCON lines, and it never ends `StillPolling` |
| Countdown.CountdownAbortEnds | main.py:98-101 | an aborted countdown ends on the failing command |
| Countdown.CountdownMatchesReference | main.py:98-101 | with no failing command the countdown is the warnings written out one by one, in order, with 2 commands per warning |
| Countdown.CountdownAbortsOnFailure | main.py:98-101 | the countdown aborts exactly when one of its commands fails |
| Countdown.CountdownIsPrefix | main.py:98-101 | whatever fails, what happens is a prefix of the countdown in which nothing fails |
| Countdown.CountdownEventsAreWarnings | main.py:98-101 | the countdown posts and sends only warnings, `save` and sleeps: no final message, no online notice, no restart, no query |
| Countdown.ReferenceOfMilestones | main.py:98 | the four milestones written out are the 30-, 15-, 5- and 1-minute warnings in that order |
| Countdown.CountdownFailureIsPrefix | main.py:98-101 | the countdown is a prefix of the full one, completes exactly when none of its eight commands fails, and then equals it |
| Countdown.AnnounceSleeps | main.py:99-101 | each warning sleeps once, for its own delay |
| Countdown.ReferenceSleeps | main.py:98-101 | the four warnings written out sleep 900, 600, 240 and 60 s, in that order |
| Countdown.CountdownLastsThirtyMinutes | main.py:95-101 | a completed countdown sleeps 900, 600, 240 and 60 s in that order, 1800 s in all, the lead the pre-countdown sleep leaves |
| Countdown.FailureAtFifteenMinutesStops | main.py:98-101 | when the 15-minute chat line fails, nothing of the 5- and 1-minute warnings happens |
| Orchestrator.AfterRestart | main.py:109-110 | after the restart request: the poll's effects, then the online post when the poll returns |
| Orchestrator.Finale | main.py:103-110 | after the countdown: the final message posted, then sent in game with `save`; on success the restart request and what follows it. It aborts on a failing command, completes when the poll returns, and is still polling otherwise |
| Orchestrator.EntryRun | main.py:95-110 | one entry: the pre-countdown sleep `wait`, then the countdown, then the finale, stopping where the countdown aborts |
| Orchestrator.PassOver | main.py:87-110 | the entries in list order, each with the sleep computed from the same `now`, stopping at the first entry that does not complete |
| Orchestrator.Pass | main.py:85-110 | one pass of the outer loop: the entries of `RESTART_TIMES` from command number 0 |
| Orchestrator.RunFinale | main.py:103-110 | the final message, restart, poll and online notice produce exactly `Finale`'s run |
| Orchestrator.RunEntry | main.py:88-110 | one entry, timed from the pass's `now`, produces exactly `EntryRun`'s run with the sleep `PreCountdownSleep(now, entry)` |
| Orchestrator.SchedulePass | main.py:85-110 | the loop over `RESTART_TIMES` produces exactly the pass, stopping at the first entry that aborts or whose poll does not return |
| Orchestrator.FinaleCases | main.py:103-106 | after the countdown: a failing chat line or `save` stops before the restart; otherwise the restart follows, then the poll, and the entry completes exactly when the poll returns |
| Orchestrator.EntryCases | main.py:95-106 | an entry aborts in the countdown exactly when one of its eight commands fails, and otherwise is the sleep, the full countdown and the finale |
| Orchestrator.EntryOutcome | main.py:95-110 | an entry aborts exactly when one of its ten commands fails, completes exactly when none fails and the poll sees running, and otherwise has run all ten |
| Orchestrator.EntryWithoutFailure | main.py:95-106 | with no failing command an entry is the sleep, the four warnings, the final message and `save`, the restart and what follows, with ten commands run |
| Orchestrator.EntryHappyPath | main.py:95-110 | with no failing command and a poll that returns, after the restart come the failed queries with their sleeps, the query that sees running, and the online post |
| Orchestrator.AfterRestartSleeps | main.py:75-81 | when the poll returns, what follows the restart sleeps 30 s once per query that did not see the server running, and nothing else |
| Orchestrator.FinalMessageSleepsNot | main.py:104-106 | the final message on both sinks and the restart request contain no sleep |
| Orchestrator.StartSleeps | main.py:95-106 | up to the restart request, an entry that runs the whole countdown sleeps `wait`, then 900, 600, 240 and 60 s |
| Orchestrator.EntrySleeps | main.py:95-110 | a completed entry's sleeps are `wait`, the four countdown delays, then 30 s per failed query, in that order |
| Orchestrator.EntrySleepTotal | main.py:86-110 | a completed entry's sleep arguments add up to `wait + 1800 s + 30 s × failed queries` |
| Orchestrator.FinaleRestarts | main.py:104-106 | after the countdown the restart request is sent once when the final chat line and `save` succeed, and not at all otherwise |
| Orchestrator.StartLacks | main.py:95-101 | the sleep and the countdown contain none of the events the countdown never produces |
| Orchestrator.EntryRestarts | main.py:95-106 | an entry sends the restart request once when its ten commands succeed, and never otherwise |
| Orchestrator.RestartFollowsFinalSave | main.py:104-106 | the restart request comes right after the final chat line and its `save` |
| Orchestrator.FinaleOnlineNotice | main.py:108-110 | after the countdown the online notice is never a command line, and is posted once exactly when the poll returns and the channel resolves |
| Orchestrator.OnlineNoticeOnlyOnDiscord | main.py:108-110 | over a whole entry the online notice is never sent in game, and is posted once exactly when the entry completes with the channel resolved |
| Orchestrator.FinaleCounts | main.py:103-110 | the command count after the finale is the count before plus its RCON lines |
| Orchestrator.EntryCounts | main.py:95-110 | an entry's command count is its RCON lines |
| Orchestrator.EntryAbortEnds | main.py:98-106 | an aborted entry ends on the failing command |
| Orchestrator.PassStartsWithSleep | main.py:87-95 | a pass over a non-empty list opens with the first entry's pre-countdown sleep |
| Orchestrator.PassCounts | main.py:85-110 | the pass's command count is its RCON lines |
| Orchestrator.PassAbortEnds | main.py:85-110 | an aborted pass ends on the failing command |
| Orchestrator.PassCompletes | main.py:85-110 | a pass completes exactly when none of its 10 commands per entry fails and every poll returns, and then it has restarted once per entry |
| Orchestrator.OnlineNoticeNeverInGame | main.py:108-110 | no command line of a pass carries the online notice |
| Orchestrator.EntriesShareOneNow | main.py:86-95 | every entry is timed from the `now` read at the top of the pass: the second entry's sleep follows the first entry's events and is computed from the same `now` |
| Orchestrator.FirstSleepFollowsListOrder | main.py:86-95 | at 00:31 the pass first sleeps a day less 31 minutes, towards the next day's 00:30 |
| Orchestrator.FirstSleepCanBeNegative | main.py:93-95 | at 00:15 the pass opens with a sleep of minus 15 minutes |

## Left out

- The outer `while True` loop: one pass is modelled. The next pass starts from a fresh `now` and repeats the same steps.
- Configuration loading, the Discord bot bootstrap (`on_ready`, `bot.run`, intents) and the `print` logging are not modelled; the log lines are not effects.
- `pytz` and `datetime`: local time is the fixed UTC+8 offset of Asia/Singapore, which has no daylight saving. Instants are integer microseconds, so `wait_time` is kept exact rather than as a float of seconds.
- What the event loop does with a negative `asyncio.sleep` argument: the model records the argument as computed.
- The shell command line of the RCON client, with its quoting, host and password: a command is recorded by what it asks the server to do.
- Network and JSON errors from `aiohttp`, the HTTP status of the restart request (which is only printed), and exceptions from `channel.send`: the model has no error path for them.
- The shape checks of `result.get("attributes", {})` are not modelled: a response carries the HTTP status and, optionally, `current_state`.
- Notifier.SendMessage: whether the channel resolves is fixed for the whole pass, whereas `bot.get_channel` is asked anew on each call.
- Poller.CheckServerStatus: the poll goes on forever while the server is not running; over a finite sequence of responses the model ends in `StillPolling` instead.
- Timing and concurrency with the rest of the bot: sleeps are events with their arguments, not elapsed time.
