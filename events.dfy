/**
 * The observable effects of one pass of the restart loop, in the order they
 * happen. Each sleep, Discord post, RCON command line, power request and
 * status query becomes one event; nothing is executed.
 */
module Events {
  import opened Wrappers

  /** The lead times the countdown announces. */
  datatype Lead = ThirtyMinutes | FifteenMinutes | FiveMinutes | OneMinute

  /**
   * The messages the loop sends; their exact wording, and the Discord text
   * built from them, are given by `Notifier.Text` and `Notifier.PostedText`.
   */
  datatype Message = Warning(lead: Lead) | RestartingNow | BackOnline

  /** What an RCON command line asks the game server to do. */
  datatype Rcon = ServerMsg(message: Message) | Save

  datatype Event =
    | Sleep(micros: int)          // asyncio.sleep, argument in microseconds (may be negative)
    | Broadcast(message: Message) // channel.send of the message, with the role mention in front
    | RconCmd(cmd: Rcon)      // one subprocess.run of the rcon client
    | Restart                 // the POST of the restart power signal
    | Poll                    // one GET of the server's resources

  /** How far a stretch of the loop got. */
  datatype Status =
    | Completed     // every step ran
    | Aborted       // an RCON command failed and raised; nothing after it runs
    | StillPolling  // the status poll had not seen "running" when the responses ran out

  /**
   * The effects of a stretch of the loop, how many RCON commands have been
   * issued in the pass once it ends, and how it ended.
   */
  datatype Run = Run(events: seq<Event>, issued: nat, status: Status)

  /** `prefix` happened before everything in `r`. */
  function Prepend(prefix: seq<Event>, r: Run): Run {
    Run(prefix + r.events, r.issued, r.status)
  }

  lemma PrependTwice(a: seq<Event>, b: seq<Event>, r: Run)
    ensures Prepend(a, Prepend(b, r)) == Prepend(a + b, r)
  {
    assert a + (b + r.events) == (a + b) + r.events;
  }

  lemma PrefixUnderPrefix(p: seq<Event>, a: seq<Event>, b: seq<Event>)
    requires a <= b
    ensures p + a <= p + b
  {
    assert (p + b)[..|p + a|] == p + a;
  }

  lemma PrefixOfLonger(a: seq<Event>, b: seq<Event>, c: seq<Event>)
    requires a <= b
    ensures a <= b + c
  {
    assert (b + c)[..|a|] == a;
  }

  lemma LastOfAppend(a: seq<Event>, b: seq<Event>)
    requires b != []
    ensures a + b != [] && (a + b)[|a + b| - 1] == b[|b| - 1]
  {
  }

  /** An aborted run ends on its failing command, the one numbered `failAt`. */
  predicate EndsOnFailure(r: Run, failAt: Option<nat>) {
    r.status == Aborted ==> failAt == Some(r.issued - 1) && r.events != [] && r.events[|r.events| - 1].RconCmd?
  }

  /** Events before an aborted run leave its last event last. */
  lemma PrependKeepsEnd(prefix: seq<Event>, r: Run, failAt: Option<nat>)
    requires EndsOnFailure(r, failAt)
    ensures EndsOnFailure(Prepend(prefix, r), failAt)
  {
    if r.status == Aborted {
      LastOfAppend(prefix, r.events);
    }
  }

  /** Number of RCON command lines among `events`. */
  function RconCount(events: seq<Event>): nat {
    if events == [] then 0 else (if events[0].RconCmd? then 1 else 0) + RconCount(events[1..])
  }

  /** Number of times `x` occurs among `events`. */
  function Occurrences(events: seq<Event>, x: Event): nat {
    if events == [] then 0 else (if events[0] == x then 1 else 0) + Occurrences(events[1..], x)
  }

  /** The sleep arguments among `events`, in order. */
  function Sleeps(events: seq<Event>): seq<int> {
    if events == [] then [] else (if events[0].Sleep? then [events[0].micros] else []) + Sleeps(events[1..])
  }

  lemma {:induction false} RconCountAppend(a: seq<Event>, b: seq<Event>)
    ensures RconCount(a + b) == RconCount(a) + RconCount(b)
  {
    if a != [] {
      assert (a + b)[1..] == a[1..] + b;
      RconCountAppend(a[1..], b);
    } else {
      assert a + b == b;
    }
  }

  /** A run of command lines only: every event is counted. */
  lemma {:induction false} RconCountAllCommands(events: seq<Event>)
    requires forall k | 0 <= k < |events| :: events[k].RconCmd?
    ensures RconCount(events) == |events|
  {
    if events != [] {
      RconCountAllCommands(events[1..]);
    }
  }

  /** No command lines: nothing is counted. */
  lemma {:induction false} RconCountNoCommands(events: seq<Event>)
    requires forall ev | ev in events :: !ev.RconCmd?
    ensures RconCount(events) == 0
  {
    if events != [] {
      assert forall ev | ev in events[1..] :: ev in events;
      RconCountNoCommands(events[1..]);
    }
  }

  lemma {:induction false} OccurrencesAppend(a: seq<Event>, b: seq<Event>, x: Event)
    ensures Occurrences(a + b, x) == Occurrences(a, x) + Occurrences(b, x)
  {
    if a != [] {
      assert (a + b)[1..] == a[1..] + b;
      OccurrencesAppend(a[1..], b, x);
    } else {
      assert a + b == b;
    }
  }

  lemma {:induction false} SleepsAppend(a: seq<Event>, b: seq<Event>)
    ensures Sleeps(a + b) == Sleeps(a) + Sleeps(b)
  {
    if a != [] {
      assert (a + b)[1..] == a[1..] + b;
      SleepsAppend(a[1..], b);
    } else {
      assert a + b == b;
    }
  }

  /** Events with no sleep among them contribute no sleep argument. */
  lemma {:induction false} SleepsWithoutSleep(events: seq<Event>)
    requires forall ev | ev in events :: !ev.Sleep?
    ensures Sleeps(events) == []
  {
    if events != [] {
      assert forall ev | ev in events[1..] :: ev in events;
      SleepsWithoutSleep(events[1..]);
    }
  }

  /** The sum of sleep arguments, in microseconds. */
  function Total(xs: seq<int>): int {
    if xs == [] then 0 else xs[0] + Total(xs[1..])
  }

  lemma {:induction false} TotalAppend(a: seq<int>, b: seq<int>)
    ensures Total(a + b) == Total(a) + Total(b)
  {
    if a != [] {
      assert (a + b)[1..] == a[1..] + b;
      TotalAppend(a[1..], b);
    } else {
      assert a + b == b;
    }
  }

  /** `n` sleeps of `d` each add up to `n * d`. */
  lemma {:induction false} TotalOfRepeat(n: nat, d: int)
    ensures Total(seq(n, _ => d)) == n * d
  {
    if n > 0 {
      assert seq(n, _ => d)[1..] == seq(n - 1, _ => d);
      TotalOfRepeat(n - 1, d);
      assert n * d == d + (n - 1) * d;
    }
  }

  /** An event that does not occur in a sequence is counted zero times. */
  lemma {:induction false} OccurrencesAbsent(events: seq<Event>, x: Event)
    requires x !in events
    ensures Occurrences(events, x) == 0
  {
    if events != [] {
      assert events == [events[0]] + events[1..];
      OccurrencesAbsent(events[1..], x);
    }
  }

  /** A single event counts once when it is `x`, and not at all otherwise. */
  lemma OccurrencesSingleton(e: Event, x: Event)
    ensures Occurrences([e], x) == if e == x then 1 else 0
  {
    assert [e][1..] == [];
  }

  /** Concatenation regrouped, for traces built piece by piece. */
  lemma AppendAssoc(a: seq<Event>, b: seq<Event>, c: seq<Event>)
    ensures a + (b + c) == a + b + c
  {
  }
}
