/**
 * The message helpers of the status bot (bot.py): the display name derived
 * from a server's MOTD, the player set read from a status reply, the
 * "has joined/left" lines for the players that changed, and the roster line.
 */
module Render {
  import opened Wrappers
  import opened Text

  /** What the bot reads from a status reply: the plain MOTD and the player sample. */
  datatype Status = Status(motd: string, sample: Option<seq<string>>)

  /** The MOTD a Minecraft server reports when its owner has not set one. */
  const DefaultMotd := "A Minecraft Server"

  /** The display name of a server: its MOTD, unless that is the stock one. */
  function GetServerName(motd: string, address: string): (name: string)
    ensures motd != DefaultMotd ==> name == motd
    ensures motd == DefaultMotd ==> name == address
    ensures name == DefaultMotd ==> address == DefaultMotd
  {
    if motd != DefaultMotd then motd else address
  }

  /** The names in the player sample; no sample, or an empty one, is no players. */
  function GetPlayers(status: Status): (players: set<string>)
    ensures forall p :: p in players <==> status.sample.Some? && p in status.sample.value
  {
    if status.sample.Some? && status.sample.value != [] then set p | p in status.sample.value
    else {}
  }

  const RosterPrefix := "Current Players Online: **"

  /** The roster line; `roster` is the players in the order the program enumerates them. */
  function CurrentPlayers(roster: seq<string>): string {
    RosterPrefix + (if roster != [] then Join(", ", roster) else "None") + "**"
  }

  /** A roster line for an empty player set reads "None". */
  lemma EmptyRosterReadsNone(roster: seq<string>)
    requires IsEnumeration(roster, {})
    ensures CurrentPlayers(roster) == "Current Players Online: **None**"
  {
    EmptyEnumeration(roster);
  }

  /**
   * A roster line for a non-empty player set names every player, and, when no
   * name contains the separator, splitting the names back out of the line
   * gives each player exactly once.
   */
  lemma RosterNamesPlayers(roster: seq<string>, players: set<string>)
    requires IsEnumeration(roster, players) && players != {}
    ensures forall p :: p in players ==> Contains(CurrentPlayers(roster), p)
    ensures CurrentPlayers(roster) == RosterPrefix + Join(", ", roster) + "**"
    ensures (forall p :: p in players ==> !Contains(p, ", ")) ==>
              && SplitOn(Join(", ", roster), ", ") == roster
              && |SplitOn(Join(", ", roster), ", ")| == |players|
              && forall p :: p in SplitOn(Join(", ", roster), ", ") <==> p in players
  {
    EnumerationSize(roster, players);
    assert roster != [];
    forall p | p in players
      ensures Contains(CurrentPlayers(roster), p)
    {
      var k :| 0 <= k < |roster| && roster[k] == p;
      JoinContains(", ", roster, k);
      var i :| 0 <= i <= |Join(", ", roster)| && OccursAt(Join(", ", roster), p, i);
      OccursWithin(RosterPrefix, Join(", ", roster), "**", p, i);
    }
    if forall p :: p in players ==> !Contains(p, ", ") {
      SplitJoinComma(roster);
    }
  }

  // ------------------------------------------------------------ join/leave lines

  /** The words of a change line: the two verbs and what was joined or left. */
  datatype Wording = Wording(joined: string, left: string, place: string)

  /** The two verbs end in different letters, so a line tells which one it uses. */
  predicate Distinguishable(w: Wording) {
    w.joined != [] && w.left != [] && w.joined[|w.joined| - 1] != w.left[|w.left| - 1]
  }

  /** The wording of bot.py: "joined" or "left", followed by the server's name. */
  function BotWording(name: string): (w: Wording)
    ensures Distinguishable(w)
  {
    Wording("joined", "left", name)
  }

  /** One line announcing that `player` joined (or left). */
  function ChangeLine(player: string, joined: bool, w: Wording): string {
    "**" + player + "** has " + (if joined then w.joined else w.left) + " " + w.place + "\n"
  }

  /** Distinct players, or the same player with the other verb, give distinct lines. */
  lemma ChangeLineInjective(p: string, b: bool, q: string, c: bool, w: Wording)
    requires Distinguishable(w)
    requires ChangeLine(p, b, w) == ChangeLine(q, c, w)
    ensures p == q && b == c
  {
    var tail := " " + w.place + "\n";
    var v1 := if b then w.joined else w.left;
    var v2 := if c then w.joined else w.left;
    var l := ChangeLine(p, b, w);
    assert l == "**" + p + "** has " + v1 + tail;
    assert l == "**" + q + "** has " + v2 + tail;
    var k := |l| - |tail| - 1;
    assert l[k] == v1[|v1| - 1];
    assert l[k] == v2[|v2| - 1];
    assert b == c;
    assert |p| == |q|;
    assert l[2..2 + |p|] == p;
    assert l[2..2 + |q|] == q;
  }

  /** The players that joined or left: Python's `players ^ old`. */
  function Changed(players: set<string>, previous: set<string>): set<string> {
    (players - previous) + (previous - players)
  }

  /** The change lines for the players of `order`, in that order. */
  function ChangeLines(order: seq<string>, players: set<string>, w: Wording): (lines: seq<string>)
    ensures |lines| == |order|
    ensures forall i :: 0 <= i < |order| ==> lines[i] == ChangeLine(order[i], order[i] in players, w)
  {
    seq(|order|, i requires 0 <= i < |order| => ChangeLine(order[i], order[i] in players, w))
  }

  lemma ChangeLinesSnoc(order: seq<string>, player: string, players: set<string>, w: Wording)
    ensures Concat(ChangeLines(order + [player], players, w))
         == Concat(ChangeLines(order, players, w)) + ChangeLine(player, player in players, w)
  {
    var lines := ChangeLines(order + [player], players, w);
    assert lines[..|order|] == ChangeLines(order, players, w);
  }

  /**
   * The change lines for an enumeration of `players ^ previous` hold exactly one
   * line per changed player and none for a player in both sets: a "joined"
   * line for each newcomer, a "left" line for each player who is gone.
   */
  lemma {:induction false} ChangeLinesExact(order: seq<string>, players: set<string>, previous: set<string>, w: Wording)
    requires Distinguishable(w)
    requires IsEnumeration(order, Changed(players, previous))
    ensures |ChangeLines(order, players, w)| == |Changed(players, previous)|
    ensures Distinct(ChangeLines(order, players, w))
    ensures forall p :: ChangeLine(p, true, w) in ChangeLines(order, players, w) <==> p in players - previous
    ensures forall p :: ChangeLine(p, false, w) in ChangeLines(order, players, w) <==> p in previous - players
  {
    var lines := ChangeLines(order, players, w);
    EnumerationSize(order, Changed(players, previous));
    forall i, j | 0 <= i < j < |lines|
      ensures lines[i] != lines[j]
    {
      if lines[i] == lines[j] {
        ChangeLineInjective(order[i], order[i] in players, order[j], order[j] in players, w);
      }
    }
    forall p, b: bool
      ensures ChangeLine(p, b, w) in lines <==> p in Changed(players, previous) && (p in players) == b
    {
      if ChangeLine(p, b, w) in lines {
        var i :| 0 <= i < |lines| && lines[i] == ChangeLine(p, b, w);
        ChangeLineInjective(order[i], order[i] in players, p, b, w);
      }
      if p in Changed(players, previous) && (p in players) == b {
        var i :| 0 <= i < |order| && order[i] == p;
        assert lines[i] == ChangeLine(p, b, w);
      }
    }
  }

  /**
   * bot.py's `check_players`: one change line per player in `players ^ previous`,
   * in the order the set is iterated.
   */
  method CheckPlayers(players: set<string>, previous: set<string>, name: string) returns (message: string)
    ensures exists order :: IsEnumeration(order, Changed(players, previous))
                         && message == Concat(ChangeLines(order, players, BotWording(name)))
  {
    message := "";
    var remaining := Changed(players, previous);
    ghost var visited: seq<string> := [];
    while remaining != {}
      invariant remaining <= Changed(players, previous)
      invariant Distinct(visited)
      invariant forall x :: x in visited <==> x in Changed(players, previous) - remaining
      invariant message == Concat(ChangeLines(visited, players, BotWording(name)))
      decreases |remaining|
    {
      var player :| player in remaining;
      assert player !in visited;
      AppendBotLine(message, player, player in players, name);
      message := message + "**" + player + "** has " + (if player in players then "joined" else "left") + " " + name + "\n";
      ChangeLinesSnoc(visited, player, players, BotWording(name));
      visited := visited + [player];
      remaining := remaining - {player};
    }
    assert IsEnumeration(visited, Changed(players, previous));
  }

  lemma AppendBotLine(message: string, player: string, joined: bool, name: string)
    ensures message + "**" + player + "** has " + (if joined then "joined" else "left") + " " + name + "\n"
         == message + ChangeLine(player, joined, BotWording(name))
  {
  }

  /**
   * bot.py's `players_message`: with no previous set (a one-off query) only the
   * roster line, otherwise the change lines followed by the roster line.
   * `order` enumerates `players ^ previous`, `roster` enumerates `players`.
   */
  function PlayersMessage(players: set<string>, previous: Option<set<string>>, name: string,
                          order: seq<string>, roster: seq<string>): (message: string)
    requires IsEnumeration(roster, players)
    requires previous.Some? ==> IsEnumeration(order, Changed(players, previous.value))
    ensures previous.None? ==> message == CurrentPlayers(roster)
    ensures previous.Some? ==> message == Concat(ChangeLines(order, players, BotWording(name))) + CurrentPlayers(roster)
    ensures |CurrentPlayers(roster)| <= |message|
    ensures message[|message| - |CurrentPlayers(roster)|..] == CurrentPlayers(roster)
  {
    if previous.None? then CurrentPlayers(roster)
    else Concat(ChangeLines(order, players, BotWording(name))) + CurrentPlayers(roster)
  }

  /** When the player set has not changed, the message is the roster line alone. */
  lemma UnchangedShowsRosterOnly(players: set<string>, name: string, order: seq<string>, roster: seq<string>)
    requires IsEnumeration(roster, players)
    requires IsEnumeration(order, Changed(players, players))
    ensures PlayersMessage(players, Some(players), name, order, roster) == CurrentPlayers(roster)
  {
    assert Changed(players, players) == {};
    EmptyEnumeration(order);
  }

  /** With previous `{A, B}` and current `{B, C}`: one line "C joined", one "A left", none for B. */
  lemma SwapScenario(order: seq<string>, name: string)
    requires IsEnumeration(order, Changed({"B", "C"}, {"A", "B"}))
    ensures |ChangeLines(order, {"B", "C"}, BotWording(name))| == 2
    ensures ChangeLine("C", true, BotWording(name)) in ChangeLines(order, {"B", "C"}, BotWording(name))
    ensures ChangeLine("A", false, BotWording(name)) in ChangeLines(order, {"B", "C"}, BotWording(name))
    ensures ChangeLine("B", true, BotWording(name)) !in ChangeLines(order, {"B", "C"}, BotWording(name))
    ensures ChangeLine("B", false, BotWording(name)) !in ChangeLines(order, {"B", "C"}, BotWording(name))
  {
    ChangeLinesExact(order, {"B", "C"}, {"A", "B"}, BotWording(name));
    assert Changed({"B", "C"}, {"A", "B"}) == {"A", "C"};
  }

  /** A first player joining an empty server, as a tick reports it. */
  lemma FirstJoinScenario()
    ensures IsEnumeration(["alice"], Changed({"alice"}, {}))
    ensures PlayersMessage({"alice"}, Some({}), "host:25566", ["alice"], ["alice"])
         == "**alice** has joined host:25566\n" + "Current Players Online: **alice**"
  {
    assert Changed({"alice"}, {}) == {"alice"};
    assert IsEnumeration(["alice"], {"alice"});
    AliceJoinedLine();
    AliceRoster();
  }

  lemma AliceJoinedLine()
    ensures Concat(ChangeLines(["alice"], {"alice"}, BotWording("host:25566"))) == "**alice** has joined host:25566\n"
  {
    var line := "**alice** has joined host:25566\n";
    assert ChangeLine("alice", true, BotWording("host:25566")) == line;
    assert ChangeLines(["alice"], {"alice"}, BotWording("host:25566")) == [line];
    assert [line][..0] == [];
  }

  lemma AliceRoster()
    ensures CurrentPlayers(["alice"]) == "Current Players Online: **alice**"
  {
  }
}
