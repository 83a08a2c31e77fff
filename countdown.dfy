/**
 * The countdown of `schedule_restart`: four warnings, each posted to Discord,
 * sent in game and followed by `save`, then a sleep until the next warning.
 */
module Countdown {
  import opened Wrappers
  import opened Events
  import opened Notifier
  import Clock

  /** One warning of the countdown and the sleep that follows it, in microseconds. */
  datatype Milestone = Milestone(lead: Lead, delay: int)

  /** The warnings, in the order the loop visits them: 900, 600, 240 and 60 seconds apart. */
  const MILESTONES: seq<Milestone> := [
    Milestone(ThirtyMinutes, 900 * Clock.SECOND),
    Milestone(FifteenMinutes, 600 * Clock.SECOND),
    Milestone(FiveMinutes, 240 * Clock.SECOND),
    Milestone(OneMinute, 60 * Clock.SECOND)
  ]

  /** What one warning produces when nothing fails: post, chat line, save, sleep. */
  function Announce(s: Sinks, m: Milestone): seq<Event> {
    SendMessage(s, Warning(m.lead)) + [RconCmd(ServerMsg(Warning(m.lead))), RconCmd(Save), Sleep(m.delay)]
  }

  /** The countdown over `ms` written out warning by warning, as if no command failed. */
  function Reference(s: Sinks, ms: seq<Milestone>): seq<Event> {
    if ms == [] then [] else Announce(s, ms[0]) + Reference(s, ms[1..])
  }

  /**
   * One pass of the loop body for warning `m`: post, then chat line and
   * `save`, then the sleep. A failing command ends the step right after it.
   */
  function WarningStep(m: Milestone, issued: nat, s: Sinks): Run {
    var said := SendMessage(s, Warning(m.lead));
    var sent := SendIngameMessage(Warning(m.lead), true, issued, s.rconFailAt);
    if sent.status == Aborted then Run(said + sent.events, sent.issued, Aborted)
    else Run(said + sent.events + [Sleep(m.delay)], sent.issued, Completed)
  }

  /**
   * The three ways a warning can go: every command succeeds and the step is
   * the announcement; the chat line fails and nothing follows it; `save`
   * fails and nothing follows it (no sleep).
   */
  lemma WarningStepCases(m: Milestone, issued: nat, s: Sinks)
    ensures var r := WarningStep(m, issued, s);
      var said := SendMessage(s, Warning(m.lead));
      var chat := RconCmd(ServerMsg(Warning(m.lead)));
      (!FailsWithin(s.rconFailAt, issued, issued + 2) ==> r == Run(Announce(s, m), issued + 2, Completed)) &&
      (s.rconFailAt == Some(issued) ==> r == Run(said + [chat], issued + 1, Aborted)) &&
      (s.rconFailAt == Some(issued + 1) ==> r == Run(said + [chat, RconCmd(Save)], issued + 2, Aborted))
  {
    ChatLineBeforeSave(Warning(m.lead), issued, s.rconFailAt);
    var said := SendMessage(s, Warning(m.lead));
    var chat := RconCmd(ServerMsg(Warning(m.lead)));
    assert said + [chat, RconCmd(Save)] + [Sleep(m.delay)] == Announce(s, m);
  }

  /** The step's command count is the number of command lines in its events. */
  lemma WarningStepCounts(m: Milestone, issued: nat, s: Sinks)
    ensures var r := WarningStep(m, issued, s);
      r.status != StillPolling && r.issued == issued + RconCount(r.events)
  {
    var said := SendMessage(s, Warning(m.lead));
    var sent := SendIngameMessage(Warning(m.lead), true, issued, s.rconFailAt);
    SinksCountCommands(s, Warning(m.lead), true, issued, s.rconFailAt);
    RconCountAppend(said, sent.events);
    RconCountAppend(said + sent.events, [Sleep(m.delay)]);
    assert RconCount([Sleep(m.delay)]) == 0;
  }

  /** An aborted step ends on the failing command, the one numbered `rconFailAt`. */
  lemma WarningStepAbortEnds(m: Milestone, issued: nat, s: Sinks)
    ensures EndsOnFailure(WarningStep(m, issued, s), s.rconFailAt)
  {
    WarningStepCases(m, issued, s);
  }

  /** The warnings `ms`, after `issued` RCON commands in the pass. */
  function CountdownOver(ms: seq<Milestone>, issued: nat, s: Sinks): Run {
    if ms == [] then Run([], issued, Completed)
    else
      var step := WarningStep(ms[0], issued, s);
      if step.status == Aborted then step
      else Prepend(step.events, CountdownOver(ms[1..], step.issued, s))
  }

  /** The countdown of one restart, from the first warning on. */
  function CountdownRun(issued: nat, s: Sinks): Run {
    CountdownOver(MILESTONES, issued, s)
  }

  /** The command count of the countdown is the number of command lines in its events. */
  lemma {:induction false} CountdownCounts(ms: seq<Milestone>, issued: nat, s: Sinks)
    ensures var r := CountdownOver(ms, issued, s);
      r.status != StillPolling && r.issued == issued + RconCount(r.events)
  {
    if ms != [] {
      var step := WarningStep(ms[0], issued, s);
      WarningStepCounts(ms[0], issued, s);
      if step.status != Aborted {
        var rest := CountdownOver(ms[1..], step.issued, s);
        CountdownCounts(ms[1..], step.issued, s);
        RconCountAppend(step.events, rest.events);
      }
    }
  }

  /** An aborted countdown ends on the failing command, the one numbered `rconFailAt`. */
  lemma {:induction false} CountdownAbortEnds(ms: seq<Milestone>, issued: nat, s: Sinks)
    ensures EndsOnFailure(CountdownOver(ms, issued, s), s.rconFailAt)
  {
    if ms != [] {
      var step := WarningStep(ms[0], issued, s);
      WarningStepAbortEnds(ms[0], issued, s);
      if step.status != Aborted {
        var rest := CountdownOver(ms[1..], step.issued, s);
        CountdownAbortEnds(ms[1..], step.issued, s);
        PrependKeepsEnd(step.events, rest, s.rconFailAt);
      }
    }
  }

  /**
   * The `for msg, delay in [...]` loop: warnings in list order; a failing rcon
   * command ends it at once.
   */
  method RunCountdown(issued: nat, s: Sinks) returns (events: seq<Event>, issuedAfter: nat, status: Status)
    ensures Run(events, issuedAfter, status) == CountdownRun(issued, s)
  {
    events, issuedAfter := [], issued;
    ghost var whole := CountdownRun(issued, s);
    assert whole == Prepend(events, whole) by {
      assert events + whole.events == whole.events;
    }
    for j := 0 to |MILESTONES|
      invariant whole == Prepend(events, CountdownOver(MILESTONES[j..], issuedAfter, s))
    {
      var m := MILESTONES[j];
      var said := SendMessage(s, Warning(m.lead));
      var sent := SendIngameMessage(Warning(m.lead), true, issuedAfter, s.rconFailAt);
      ghost var step := WarningStep(m, issuedAfter, s);
      assert MILESTONES[j..][0] == m && MILESTONES[j..][1..] == MILESTONES[j + 1..];
      if sent.status == Aborted {
        assert step == Run(said + sent.events, sent.issued, Aborted);
        PrependTwice(events, step.events, Run([], sent.issued, Aborted));
        return events + (said + sent.events), sent.issued, Aborted;
      }
      var pause := [Sleep(m.delay)];
      assert step == Run(said + sent.events + pause, sent.issued, Completed);
      PrependTwice(events, step.events, CountdownOver(MILESTONES[j + 1..], sent.issued, s));
      events, issuedAfter := events + (said + sent.events + pause), sent.issued;
    }
    status := Completed;
  }

  /** With none of its `2 * |ms|` commands failing, the countdown is the reference, in order. */
  lemma {:induction false} CountdownMatchesReference(ms: seq<Milestone>, issued: nat, s: Sinks)
    requires !FailsWithin(s.rconFailAt, issued, issued + 2 * |ms|)
    ensures CountdownOver(ms, issued, s) == Run(Reference(s, ms), issued + 2 * |ms|, Completed)
  {
    if ms != [] {
      WarningStepCases(ms[0], issued, s);
      CountdownMatchesReference(ms[1..], issued + 2, s);
    }
  }

  /** A failing command among the countdown's `2 * |ms|` always aborts it. */
  lemma {:induction false} CountdownAbortsOnFailure(ms: seq<Milestone>, issued: nat, s: Sinks)
    ensures FailsWithin(s.rconFailAt, issued, issued + 2 * |ms|) <==> CountdownOver(ms, issued, s).status == Aborted
  {
    if ms != [] {
      WarningStepCases(ms[0], issued, s);
      if !FailsWithin(s.rconFailAt, issued, issued + 2) {
        CountdownAbortsOnFailure(ms[1..], issued + 2, s);
      }
    } else {
      assert !FailsWithin(s.rconFailAt, issued, issued);
    }
  }

  /**
   * A failing rcon command only cuts the countdown short: what happens is a
   * prefix of the reference countdown.
   */
  lemma {:induction false} CountdownIsPrefix(ms: seq<Milestone>, issued: nat, s: Sinks)
    ensures CountdownOver(ms, issued, s).events <= Reference(s, ms)
  {
    if ms != [] {
      var step := WarningStep(ms[0], issued, s);
      var announced := Announce(s, ms[0]);
      WarningStepCases(ms[0], issued, s);
      if step.status == Aborted {
        assert step.events <= announced;
        PrefixOfLonger(step.events, announced, Reference(s, ms[1..]));
      } else {
        CountdownIsPrefix(ms[1..], step.issued, s);
        PrefixUnderPrefix(announced, CountdownOver(ms[1..], step.issued, s).events, Reference(s, ms[1..]));
      }
    }
  }

  /** The events a warning can produce: the warning posted or sent in game, `save`, or a sleep. */
  predicate IsCountdownEvent(ev: Event) {
    match ev
    case Broadcast(m) => m.Warning?
    case RconCmd(c) => c == Save || c.message.Warning?
    case Sleep(_) => true
    case _ => false
  }

  /**
   * The countdown posts and sends only warnings: never the final message,
   * never the online notice, no restart request and no status query.
   */
  lemma {:induction false} CountdownEventsAreWarnings(ms: seq<Milestone>, issued: nat, s: Sinks)
    ensures forall ev | ev in CountdownOver(ms, issued, s).events :: IsCountdownEvent(ev)
  {
    if ms != [] {
      var step := WarningStep(ms[0], issued, s);
      WarningStepCases(ms[0], issued, s);
      assert forall ev | ev in step.events :: IsCountdownEvent(ev);
      if step.status != Aborted {
        CountdownEventsAreWarnings(ms[1..], step.issued, s);
      }
    }
  }

  /** The four warnings of the source, written out one by one. */
  function ReferenceCountdown(s: Sinks): seq<Event> {
    Announce(s, MILESTONES[0]) + Announce(s, MILESTONES[1]) + Announce(s, MILESTONES[2]) + Announce(s, MILESTONES[3])
  }

  lemma ReferenceOfMilestones(s: Sinks)
    ensures Reference(s, MILESTONES) == ReferenceCountdown(s)
  {
    var ms := MILESTONES;
    assert ms[1..][1..][1..][1..] == [];
    assert Reference(s, ms[1..][1..][1..]) == Announce(s, ms[3]);
    assert Reference(s, ms[1..]) == Announce(s, ms[1]) + (Announce(s, ms[2]) + Announce(s, ms[3]));
  }

  /**
   * Whatever command fails, the countdown is a prefix of the one in which
   * every command succeeds; it completes exactly when none of its eight
   * commands fails, and then it is that countdown.
   */
  lemma CountdownFailureIsPrefix(issued: nat, s: Sinks)
    ensures var r := CountdownRun(issued, s);
      r.events <= ReferenceCountdown(s) &&
      (r.status == Completed <==> !FailsWithin(s.rconFailAt, issued, issued + 8)) &&
      (r.status == Aborted <==> FailsWithin(s.rconFailAt, issued, issued + 8)) &&
      (r.status == Completed ==> r == Run(ReferenceCountdown(s), issued + 8, Completed))
  {
    CountdownCounts(MILESTONES, issued, s);
    CountdownIsPrefix(MILESTONES, issued, s);
    CountdownAbortsOnFailure(MILESTONES, issued, s);
    if !FailsWithin(s.rconFailAt, issued, issued + 8) {
      CountdownMatchesReference(MILESTONES, issued, s);
    }
    ReferenceOfMilestones(s);
  }

  /** Sleeps in one warning's effects: just the delay after it. */
  lemma AnnounceSleeps(s: Sinks, m: Milestone)
    ensures Sleeps(Announce(s, m)) == [m.delay]
  {
    var said := SendMessage(s, Warning(m.lead));
    var tail := [RconCmd(ServerMsg(Warning(m.lead))), RconCmd(Save), Sleep(m.delay)];
    SleepsAppend(said, tail);
    assert Sleeps(said) == [] by {
      if said != [] {
        assert said[1..] == [];
      }
    }
    assert tail[1..][1..][1..] == [];
    assert Sleeps(tail[1..][1..][1..]) == [];
    assert Sleeps(tail[1..][1..]) == [m.delay];
    assert Sleeps(tail[1..]) == [m.delay];
  }

  /** The four warnings written out sleep 900, 600, 240 and 60 seconds, in that order. */
  lemma ReferenceSleeps(s: Sinks)
    ensures Sleeps(ReferenceCountdown(s)) == [900 * Clock.SECOND, 600 * Clock.SECOND, 240 * Clock.SECOND, 60 * Clock.SECOND]
  {
    var a1, a2, a3, a4 := Announce(s, MILESTONES[0]), Announce(s, MILESTONES[1]),
      Announce(s, MILESTONES[2]), Announce(s, MILESTONES[3]);
    AnnounceSleeps(s, MILESTONES[0]);
    AnnounceSleeps(s, MILESTONES[1]);
    AnnounceSleeps(s, MILESTONES[2]);
    AnnounceSleeps(s, MILESTONES[3]);
    SleepsAppend(a1, a2);
    SleepsAppend(a1 + a2, a3);
    SleepsAppend(a1 + a2 + a3, a4);
  }

  /**
   * A countdown that completes sleeps 900, 600, 240 and 60 seconds, in that
   * order, and nothing else: exactly the 1800-second lead the loop sleeps short of.
   */
  lemma CountdownLastsThirtyMinutes(issued: nat, s: Sinks)
    requires !FailsWithin(s.rconFailAt, issued, issued + 8)
    ensures var slept := Sleeps(CountdownRun(issued, s).events);
      slept == [900 * Clock.SECOND, 600 * Clock.SECOND, 240 * Clock.SECOND, 60 * Clock.SECOND] &&
      slept[0] + slept[1] + slept[2] + slept[3] == Clock.COUNTDOWN_LEAD
  {
    CountdownFailureIsPrefix(issued, s);
    ReferenceSleeps(s);
  }

  /**
   * When the chat line of the FifteenMinutes warning fails, the countdown ends
   * there: the FiveMinutes and OneMinute warnings are never posted, sent or
   * saved, and no further sleep happens.
   */
  lemma FailureAtFifteenMinutesStops(issued: nat, s: Sinks)
    requires s.rconFailAt == Some(issued + 2)
    ensures CountdownRun(issued, s) == Run(
      Announce(s, MILESTONES[0]) + SendMessage(s, Warning(FifteenMinutes)) + [RconCmd(ServerMsg(Warning(FifteenMinutes)))],
      issued + 3, Aborted)
  {
    var first := WarningStep(MILESTONES[0], issued, s);
    var second := WarningStep(MILESTONES[1], issued + 2, s);
    WarningStepCases(MILESTONES[0], issued, s);
    WarningStepCases(MILESTONES[1], issued + 2, s);
    assert first == Run(Announce(s, MILESTONES[0]), issued + 2, Completed);
    assert MILESTONES[1..][0] == MILESTONES[1];
    assert CountdownOver(MILESTONES[1..], issued + 2, s) == second;
    assert CountdownRun(issued, s) == Prepend(first.events, second);
  }
}
