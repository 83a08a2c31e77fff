/**
 * The two sinks of a message: `send_message` posts to the Discord notify
 * channel, `send_ingame_message` runs the rcon client once for the chat line
 * and, when asked to save, once more for `save`.
 */
module Notifier {
  import opened Wrappers
  import opened Events

  /**
   * What the sinks depend on outside the program: whether `bot.get_channel`
   * finds the notify channel, the role id as rendered in the mention, and the
   * number (counting from 0 within one pass of the loop) of the first rcon
   * invocation that exits non-zero, if any.
   */
  datatype Sinks = Sinks(channelResolves: bool, role: string, rconFailAt: Option<nat>)

  function LeadText(lead: Lead): string {
    match lead
    case ThirtyMinutes => "30 minutes"
    case FifteenMinutes => "15 minutes"
    case FiveMinutes => "5 minutes"
    case OneMinute => "1 minute"
  }

  /** The wording of each message, as the loop formats it. */
  function Text(m: Message): string {
    match m
    case Warning(lead) => "Server will restart in " + LeadText(lead) + "!"
    case RestartingNow => "Restarting server now!"
    case BackOnline => "Server is back online!"
  }

  /** Distinct messages have distinct wordings, so a trace of messages loses nothing. */
  lemma TextIsInjective(m1: Message, m2: Message)
    ensures Text(m1) == Text(m2) <==> m1 == m2
  {
    if m1 != m2 {
      match m1
      case Warning(a) =>
        if m2.Warning? {
          assert Text(m1)[23] == LeadText(a)[0] && Text(m2)[23] == LeadText(m2.lead)[0];
          assert |Text(m1)| == 24 + |LeadText(a)| && |Text(m2)| == 24 + |LeadText(m2.lead)|;
        }
      case _ =>
        assert Text(m1)[0] != Text(m2)[0] || |Text(m1)| != |Text(m2)|;
    }
  }

  /** The Discord text: a mention of the role, one space, then the message. */
  function Mention(role: string, message: string): (text: string)
    ensures |text| == |role| + 5 + |message|
    ensures text[..3] == "<@&" && text[3..3 + |role|] == role && text[3 + |role|..5 + |role|] == "> "
    ensures text[5 + |role|..] == message
  {
    "<@&" + role + "> " + message
  }

  /** What `channel.send` receives for a `Broadcast(m)` event. */
  function PostedText(role: string, m: Message): string {
    Mention(role, Text(m))
  }

  /** Different messages never produce the same Discord text. */
  lemma PostedTextIsInjective(role: string, m1: Message, m2: Message)
    requires PostedText(role, m1) == PostedText(role, m2)
    ensures m1 == m2
  {
    assert Text(m1) == PostedText(role, m1)[5 + |role|..];
    TextIsInjective(m1, m2);
  }

  /** `send_message`: one post when the channel resolves, otherwise only a log line. */
  function SendMessage(s: Sinks, m: Message): (events: seq<Event>)
    ensures |events| <= 1
    ensures events != [] <==> s.channelResolves
    ensures forall ev | ev in events :: ev == Broadcast(m)
  {
    if s.channelResolves then [Broadcast(m)] else []
  }

  /** The command lines `send_ingame_message` runs when none fails: the chat line, then `save` if asked. */
  function IngameEvents(m: Message, save: bool): seq<Event> {
    if save then [RconCmd(ServerMsg(m)), RconCmd(Save)] else [RconCmd(ServerMsg(m))]
  }

  /** Whether the command numbered `failAt` is among those numbered `lo` up to (not including) `hi`. */
  predicate FailsWithin(failAt: Option<nat>, lo: int, hi: int) {
    failAt.Some? && lo <= failAt.value < hi
  }

  /**
   * `send_ingame_message(m, save)` when `issued` commands ran before it in
   * the pass. Each command runs with `check=True`: the first one that fails
   * is attempted and then raises, and no later command runs.
   */
  function SendIngameMessage(m: Message, save: bool, issued: nat, failAt: Option<nat>): (r: Run)
    ensures r.status != StillPolling
    ensures r.issued == issued + |r.events|
    ensures r.events != [] && r.events <= IngameEvents(m, save)
    ensures r.status == Completed <==> !FailsWithin(failAt, issued, issued + |IngameEvents(m, save)|)
    ensures r.status == Completed ==> r.events == IngameEvents(m, save)
    ensures r.status == Aborted ==> failAt == Some(r.issued - 1)
  {
    var all := IngameEvents(m, save);
    if failAt == Some(issued) then Run(all[..1], issued + 1, Aborted)
    else if !save then Run(all, issued + 1, Completed)
    else if failAt == Some(issued + 1) then Run(all, issued + 2, Aborted)
    else Run(all, issued + 2, Completed)
  }

  /** The Discord sink runs no command line; every event of the game sink is one. */
  lemma SinksCountCommands(s: Sinks, m: Message, save: bool, issued: nat, failAt: Option<nat>)
    ensures RconCount(SendMessage(s, m)) == 0
    ensures RconCount(SendIngameMessage(m, save, issued, failAt).events) == |SendIngameMessage(m, save, issued, failAt).events|
  {
    var said := SendMessage(s, m);
    if said != [] {
      assert said[1..] == [];
    }
    var events := SendIngameMessage(m, save, issued, failAt).events;
    RconCountAllCommands(events);
  }

  /** With `save=False` only the chat line runs; with `save=True` the chat line runs before `save`. */
  lemma ChatLineBeforeSave(m: Message, issued: nat, failAt: Option<nat>)
    ensures SendIngameMessage(m, false, issued, failAt).events == [RconCmd(ServerMsg(m))]
    ensures !FailsWithin(failAt, issued, issued + 2) ==>
      SendIngameMessage(m, true, issued, failAt) == Run([RconCmd(ServerMsg(m)), RconCmd(Save)], issued + 2, Completed)
    ensures failAt == Some(issued) ==>
      SendIngameMessage(m, true, issued, failAt) == Run([RconCmd(ServerMsg(m))], issued + 1, Aborted)
    ensures failAt == Some(issued + 1) ==>
      SendIngameMessage(m, true, issued, failAt) == Run([RconCmd(ServerMsg(m)), RconCmd(Save)], issued + 2, Aborted)
  {
  }
}
