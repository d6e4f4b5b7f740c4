/**
 * The earlier single-server bot (main.py): one tracked server per Discord
 * guild, kept in a dictionary, with `!Start <ip_address>[:port]`, `!Stop`,
 * `!Query` and `!Help`, and a tick that compares each guild's player list
 * with the one it saw last time.
 */
module Guilds {
  import opened Wrappers
  import opened Text
  import opened Render
  import opened Lists

  // ---------------------------------------------------------- !Start parsing

  /** A port as the program holds it: the default number, or the text after the colon. */
  datatype Port = PortNumber(n: int) | PortText(text: string)

  const DefaultPort := 25565

  /** `f"{port}"`. */
  function PortString(p: Port): string {
    match p
    case PortNumber(n) => Decimal(n)
    case PortText(t) => t
  }

  /** Where to listen: the address and the port. */
  datatype Target = Target(ip: string, port: Port)

  const StartMarker := "!Start "
  const UsageText := "Usage: !Start <ip_address>[:port]"
  /** What a two-name unpacking of a longer list raises. */
  const UnpackError := "ValueError: too many values to unpack (expected 2)"

  /**
   * The `!Start` branch: `Ok(None)` when the content does not contain
   * "!Start " (the usage text is sent), `Ok(Some(target))` for the address to
   * add, or the exception raised by the two unpackings. The address never
   * contains a colon; an explicit port is the text after the colon.
   */
  function ParseStart(content: string): (r: Result<Option<Target>>)
    ensures r.Ok? && r.value.Some? ==> !Contains(r.value.value.ip, ":")
    ensures r.Ok? && r.value.Some? && r.value.value.port.PortNumber? ==> r.value.value.port.n == DefaultPort
    ensures r.Ok? && r.value.Some? && r.value.value.port.PortText? ==> !Contains(r.value.value.port.text, ":")
    ensures r.Raised? ==> r.exception == UnpackError
  {
    var parts := SplitOn(content, StartMarker);
    if |parts| <= 1 then Ok(None)
    else if |parts| > 2 then Raised(UnpackError)
    else
      var ip := parts[1];
      if Contains(ip, ":") then
        var pieces := SplitOn(ip, ":");
        if |pieces| != 2 then Raised(UnpackError)
        else Ok(Some(Target(pieces[0], PortText(pieces[1]))))
      else Ok(Some(Target(ip, PortNumber(DefaultPort))))
  }

  /** What the `!Start` branch sends without adding a server: the usage text, when no address was given. */
  function StartUsageReply(channelId: int, content: string): Option<Reply> {
    if ParseStart(content) == Ok(None) then Some(Plain(channelId, UsageText)) else None
  }

  /** The usage text is sent exactly when the content does not contain "!Start ". */
  lemma StartUsage(channelId: int, content: string)
    ensures ParseStart(content) == Ok(None) <==> !Contains(content, StartMarker)
    ensures StartUsageReply(channelId, content)
         == if Contains(content, StartMarker) then None else Some(Plain(channelId, UsageText))
  {
    if Contains(content, StartMarker) {
      SplitOnPresent(content, StartMarker);
    } else {
      SplitOnAbsent(content, StartMarker);
    }
  }

  /** `!Start ip` listens on the default port. */
  lemma StartDefaultPort(ip: string)
    requires !Contains(ip, ":") && !Contains(ip, StartMarker)
    ensures ParseStart(StartMarker + ip) == Ok(Some(Target(ip, PortNumber(25565))))
  {
    SplitOnLeading(StartMarker, ip);
    SplitOnAbsent(ip, StartMarker);
  }

  /** Content made of the marker and a rest without it: the rest is the address argument. */
  lemma MarkerThenRest(rest: string)
    requires !Contains(rest, StartMarker)
    ensures SplitOn(StartMarker + rest, StartMarker) == ["", rest]
  {
    SplitOnLeading(StartMarker, rest);
    SplitOnAbsent(rest, StartMarker);
  }

  /** Splitting `a:b` on the colon when `a` has none. */
  lemma ColonSplit(a: string, b: string)
    requires !Contains(a, ":")
    ensures Contains(a + ":" + b, ":")
    ensures SplitOn(a + ":" + b, ":") == [a] + SplitOn(b, ":")
  {
    var s := a + ":" + b;
    assert s == a + [':'] + b;
    assert OccursAt(s, ":", |a|) by { assert s[|a|..|a| + 1] == ":"; }
    SplitOnChar(a, ':', b);
  }

  /** `!Start ip:port` splits at the colon. */
  lemma StartExplicitPort(ip: string, port: string)
    requires !Contains(ip, ":") && !Contains(port, ":")
    requires !Contains(ip + ":" + port, StartMarker)
    ensures ParseStart(StartMarker + ip + ":" + port) == Ok(Some(Target(ip, PortText(port))))
  {
    var rest := ip + ":" + port;
    assert StartMarker + ip + ":" + port == StartMarker + rest;
    MarkerThenRest(rest);
    ColonSplit(ip, port);
    SplitOnAbsent(port, ":");
    assert SplitOn(rest, ":") == [ip, port];
  }

  /** An address with two colons (an IPv6 literal, say) raises instead of being added. */
  lemma StartTwoColonsRaises(a: string, b: string, c: string)
    requires !Contains(a, ":") && !Contains(b, ":")
    requires !Contains(a + ":" + b + ":" + c, StartMarker)
    ensures ParseStart(StartMarker + a + ":" + b + ":" + c) == Raised(UnpackError)
  {
    var tail := b + ":" + c;
    var rest := a + ":" + tail;
    assert a + ":" + b + ":" + c == rest;
    assert StartMarker + a + ":" + b + ":" + c == StartMarker + rest;
    MarkerThenRest(rest);
    ColonSplit(a, tail);
    ColonSplit(b, c);
    assert |SplitOn(rest, ":")| >= 3;
  }

  // --------------------------------------------------------------- on_message

  /** What a message asks for; `Start` carries the outcome of its parsing. */
  datatype Command = Ignore | Start(parsed: Result<Option<Target>>) | Stop | Query | Help

  /**
   * `on_message`'s four tests. They are tried one after another, but no
   * content passes two of them, so a message asks for at most one thing.
   */
  function ParseMain(fromSelf: bool, content: string): (c: Command)
    ensures c.Start? <==> !fromSelf && StartsWith(content, "!Start")
    ensures c.Stop? <==> !fromSelf && StartsWith(content, "!Stop")
    ensures c.Query? <==> !fromSelf && content == "!Query"
    ensures c.Help? <==> !fromSelf && content == "!Help"
    ensures c.Start? ==> c.parsed == ParseStart(content)
  {
    if fromSelf then Ignore
    else if StartsWith(content, "!Start") then
      assert content[3] == 'a';
      Start(ParseStart(content))
    else if StartsWith(content, "!Stop") then
      assert content[3] == 'o';
      Stop
    else if content == "!Query" then Query
    else if content == "!Help" then Help
    else Ignore
  }

  // ----------------------------------------------------------------- messages

  /** The wording of main.py's change lines: "Joined" or "Left" "the server". */
  const MainWording := Wording("Joined", "Left", "the server")

  /**
   * The text of a tick's update for a guild: one change line per player in
   * `set(players) ^ set(previous)` (in the enumeration `order`), then the roster.
   */
  function UpdateText(players: seq<string>, previous: seq<string>, order: seq<string>): string
    requires IsEnumeration(order, Changed(Elements(players), Elements(previous)))
  {
    Concat(ChangeLines(order, Elements(players), MainWording)) + CurrentPlayers(players)
  }

  /** One line per changed player: "Joined" for a newcomer, "Left" for one who is gone. */
  lemma UpdateLines(players: seq<string>, previous: seq<string>, order: seq<string>)
    requires IsEnumeration(order, Changed(Elements(players), Elements(previous)))
    ensures |ChangeLines(order, Elements(players), MainWording)| == |Changed(Elements(players), Elements(previous))|
    ensures forall p :: ChangeLine(p, true, MainWording) in ChangeLines(order, Elements(players), MainWording)
                        <==> p in Elements(players) - Elements(previous)
    ensures forall p :: ChangeLine(p, false, MainWording) in ChangeLines(order, Elements(players), MainWording)
                        <==> p in Elements(previous) - Elements(players)
  {
    var w := Wording("Joined", "Left", "the server");
    assert w == MainWording;
    assert Distinguishable(w);
    ChangeLinesExact(order, Elements(players), Elements(previous), w);
  }

  /** The same players in another order: the update is the roster line alone. */
  lemma ReorderingShowsRosterOnly(players: seq<string>, previous: seq<string>, order: seq<string>)
    requires Elements(players) == Elements(previous)
    requires IsEnumeration(order, Changed(Elements(players), Elements(previous)))
    ensures UpdateText(players, previous, order) == CurrentPlayers(players)
  {
    assert Changed(Elements(players), Elements(previous)) == {};
    EmptyEnumeration(order);
  }

  /** The message-building loop of main.py's tick. */
  method UpdateMessage(players: seq<string>, previous: seq<string>) returns (message: string)
    ensures exists order :: IsEnumeration(order, Changed(Elements(players), Elements(previous)))
                         && message == UpdateText(players, previous, order)
  {
    ghost var current := Elements(players);
    ghost var changed := Changed(current, Elements(previous));
    message := "";
    var remaining := Changed(Elements(players), Elements(previous));
    ghost var visited: seq<string> := [];
    while remaining != {}
      invariant remaining <= changed
      invariant Distinct(visited)
      invariant forall x :: x in visited <==> x in changed - remaining
      invariant message == Concat(ChangeLines(visited, current, MainWording))
      decreases |remaining|
    {
      var player :| player in remaining;
      assert player !in visited;
      assert (player in players) == (player in current);
      AppendLine(message, player, player in players);
      message := message + "**" + player + "** has " + (if player in players then "Joined" else "Left") + " " + "the server" + "\n";
      ChangeLinesSnoc(visited, player, current, MainWording);
      visited := visited + [player];
      remaining := remaining - {player};
    }
    assert IsEnumeration(visited, changed);
    message := message + CurrentPlayers(players);
    assert message == UpdateText(players, previous, visited);
  }

  lemma AppendLine(message: string, player: string, joined: bool)
    ensures message + "**" + player + "** has " + (if joined then "Joined" else "Left") + " " + "the server" + "\n"
         == message + ChangeLine(player, joined, MainWording)
  {
  }

  const NotListening := "Not listening to any servers\n" + "Use: !Start <ip_address>[:port]"

  function OnlyOne(ip: string): string {
    "Currently only one MC server " + "per Discord server implemented\n"
    + "Current server: " + ip + "\n"
    + "Send \"!Stop\" to stop listening to this server"
  }

  const HelpText := "!Start <ip_address>[:port] - " + "Start listening to <ip_address>\n"
                    + "!Query - List Current Players, " + "requires Start first\n"
                    + "!Stop - Stop listening\n"
                    + "!Help - Print this Message"

  // --------------------------------------------------------------------- tick

  /** A guild's tracked server; `known` is the player list last seen (the program's `old`). */
  datatype GuildServer = GuildServer(channelId: int, ip: string, port: Port, known: seq<string>)

  /** A message sent to a channel; an `Update`'s text is `UpdateText(players, previous, ...)`. */
  datatype Reply = Embed(channelId: int, text: string) | Plain(channelId: int, text: string)
                 | Update(channelId: int, players: seq<string>, previous: seq<string>)

  /** The servers of the guilds in `order`, in that order. */
  function Tracked(order: seq<int>, servers: map<int, GuildServer>): (gs: seq<GuildServer>)
    requires forall i :: 0 <= i < |order| ==> order[i] in servers
    ensures |gs| == |order|
    ensures forall i :: 0 <= i < |order| ==> gs[i] == servers[order[i]]
  {
    seq(|order|, i requires 0 <= i < |order| => servers[order[i]])
  }

  /** The updates a tick sends: one for each guild whose list differs, as a list, from the last one. */
  function TickReplies(gs: seq<GuildServer>, polls: seq<seq<string>>): seq<Reply>
    requires |polls| == |gs|
  {
    if gs == [] then []
    else
      var n := |gs| - 1;
      TickReplies(gs[..n], polls[..n])
      + (if polls[n] != gs[n].known then [Update(gs[n].channelId, polls[n], gs[n].known)] else [])
  }

  /**
   * Every update is for a guild whose list changed, and every guild whose list
   * changed (even only in order) gets one, comparing its new list with its old one.
   */
  lemma {:induction false} TickRepliesExact(gs: seq<GuildServer>, polls: seq<seq<string>>)
    requires |polls| == |gs|
    ensures |TickReplies(gs, polls)| <= |gs|
    ensures forall r :: r in TickReplies(gs, polls) ==> r.Update? && r.players != r.previous
    ensures forall r :: r in TickReplies(gs, polls) ==>
              exists k :: 0 <= k < |gs| && polls[k] != gs[k].known
                          && r == Update(gs[k].channelId, polls[k], gs[k].known)
    ensures forall k :: 0 <= k < |gs| && polls[k] != gs[k].known ==>
              Update(gs[k].channelId, polls[k], gs[k].known) in TickReplies(gs, polls)
  {
    if gs != [] {
      var n := |gs| - 1;
      TickRepliesExact(gs[..n], polls[..n]);
      forall r | r in TickReplies(gs[..n], polls[..n])
        ensures exists k :: 0 <= k < |gs| && polls[k] != gs[k].known
                            && r == Update(gs[k].channelId, polls[k], gs[k].known)
      {
        var k :| 0 <= k < n && polls[..n][k] != gs[..n][k].known
                 && r == Update(gs[..n][k].channelId, polls[..n][k], gs[..n][k].known);
        assert gs[..n][k] == gs[k] && polls[..n][k] == polls[k];
      }
      forall k | 0 <= k < n && polls[k] != gs[k].known
        ensures Update(gs[k].channelId, polls[k], gs[k].known) in TickReplies(gs, polls)
      {
        assert gs[..n][k] == gs[k] && polls[..n][k] == polls[k];
      }
    }
  }

  /** When no guild's list changed, the tick sends nothing. */
  lemma {:induction false} QuietGuildTick(gs: seq<GuildServer>, polls: seq<seq<string>>)
    requires |polls| == |gs|
    requires forall k :: 0 <= k < |gs| ==> polls[k] == gs[k].known
    ensures TickReplies(gs, polls) == []
  {
    if gs != [] {
      var n := |gs| - 1;
      QuietGuildTick(gs[..n], polls[..n]);
    }
  }

  /** Two players reported in swapped order: an update is sent, and it holds only the roster. */
  lemma SwappedListScenario(g: GuildServer, order: seq<string>)
    requires g.known == ["b", "a"]
    requires IsEnumeration(order, Changed(Elements(["a", "b"]), Elements(["b", "a"])))
    ensures TickReplies([g], [["a", "b"]]) == [Update(g.channelId, ["a", "b"], ["b", "a"])]
    ensures UpdateText(["a", "b"], ["b", "a"], order) == "Current Players Online: **a, b**"
  {
    assert ["a", "b"] != ["b", "a"] by { assert ["a", "b"][0] != ["b", "a"][0]; }
    assert [g][..0] == [];
    assert Elements(["a", "b"]) == Elements(["b", "a"]) == {"a", "b"};
    ReorderingShowsRosterOnly(["a", "b"], ["b", "a"], order);
  }

  // --------------------------------------------------------------- the client

  class MineClient {
    /** `guild_servers`, keyed by guild id. */
    var guildServers: map<int, GuildServer>
    /** The dictionary's insertion order, which its iteration follows. */
    var order: seq<int>

    ghost predicate Valid()
      reads this
    {
      && Distinct(order)
      && (forall g :: g in guildServers <==> g in order)
      && (forall i :: 0 <= i < |order| ==> order[i] in guildServers)
    }

    constructor ()
      ensures Valid() && guildServers == map[] && order == []
    {
      guildServers := map[];
      order := [];
    }

    /** `add_server`: only a guild without a server gets one; the other is told which it has. */
    method AddServer(guildId: int, channelId: int, ip: string, port: Port) returns (reply: Reply)
      requires Valid()
      modifies this
      ensures Valid()
      ensures guildId !in old(guildServers) ==>
                guildServers == old(guildServers)[guildId := GuildServer(channelId, ip, port, [])]
                && order == old(order) + [guildId]
                && reply == Embed(channelId, "Now listening to " + ip + ":" + PortString(port))
      ensures guildId in old(guildServers) ==>
                guildServers == old(guildServers) && order == old(order)
                && reply == Embed(channelId, OnlyOne(old(guildServers)[guildId].ip))
    {
      var message;
      if guildId !in guildServers {
        guildServers := guildServers[guildId := GuildServer(channelId, ip, port, [])];
        order := order + [guildId];
        message := "Now listening to " + ip + ":" + PortString(port);
      } else {
        message := OnlyOne(guildServers[guildId].ip);
      }
      reply := Embed(channelId, message);
    }

    /** `!Stop`: `del guild_servers[guild_id]`, a KeyError when the guild has no server. */
    method Stop(guildId: int) returns (outcome: Result<()>)
      requires Valid()
      modifies this
      ensures Valid()
      ensures guildId in old(guildServers) ==>
                outcome == Ok(()) && guildServers == old(guildServers) - {guildId}
                && order == RemoveFirst(old(order), guildId)
      ensures guildId !in old(guildServers) ==>
                outcome == Raised("KeyError: " + Decimal(guildId))
                && guildServers == old(guildServers) && order == old(order)
    {
      if guildId in guildServers {
        DistinctRemove(order, guildId);
        guildServers := guildServers - {guildId};
        order := RemoveFirst(order, guildId);
        outcome := Ok(());
      } else {
        outcome := Raised("KeyError: " + Decimal(guildId));
      }
    }

    /** `!Query`: the roster of the players the query returned, or the hint to start first. */
    method Query(guildId: int, channelId: int, players: seq<string>) returns (reply: Reply)
      ensures guildId in guildServers ==> reply == Embed(channelId, CurrentPlayers(players))
      ensures guildId !in guildServers ==> reply == Plain(channelId, NotListening)
    {
      if guildId in guildServers {
        reply := Embed(channelId, CurrentPlayers(players));
      } else {
        reply := Plain(channelId, "Not listening to any servers\n" + "Use: !Start <ip_address>[:port]");
      }
    }

    /**
     * `server_status`: `polls[i]` is the player list the query returns for the
     * i-th guild in dictionary order. Every guild's list is overwritten, and an
     * update is sent for each whose list differs from the last one.
     */
    method Tick(polls: seq<seq<string>>) returns (replies: seq<Reply>)
      requires Valid() && |polls| == |order|
      modifies this
      ensures Valid() && order == old(order) && guildServers.Keys == old(guildServers).Keys
      ensures forall k :: 0 <= k < |order| ==>
                guildServers[order[k]] == old(guildServers)[order[k]].(known := polls[k])
      ensures replies == TickReplies(Tracked(old(order), old(guildServers)), polls)
    {
      ghost var start := guildServers;
      ghost var gs := Tracked(order, guildServers);
      replies := [];
      for i := 0 to |order|
        invariant order == old(order) && guildServers.Keys == start.Keys
        invariant forall k :: 0 <= k < i ==> guildServers[order[k]] == start[order[k]].(known := polls[k])
        invariant forall k :: i <= k < |order| ==> guildServers[order[k]] == start[order[k]]
        invariant replies == TickReplies(gs[..i], polls[..i])
      {
        var server := guildServers[order[i]];
        assert gs[..i + 1][..i] == gs[..i] && polls[..i + 1][..i] == polls[..i];
        var pls := polls[i];
        if pls != server.known {
          replies := replies + [Update(server.channelId, pls, server.known)];
        }
        guildServers := guildServers[order[i] := server.(known := pls)];
      }
      assert gs[..|order|] == gs && polls[..|order|] == polls;
    }
  }

  /** Taking a key out of the dictionary's order keeps it duplicate-free and drops just that key. */
  lemma {:induction false} DistinctRemove(s: seq<int>, x: int)
    requires Distinct(s) && x in s
    ensures Distinct(RemoveFirst(s, x))
    ensures forall y :: y in RemoveFirst(s, x) <==> y in s && y != x
  {
    if s[0] != x {
      DistinctRemove(s[1..], x);
      var r := RemoveFirst(s[1..], x);
      assert RemoveFirst(s, x) == [s[0]] + r;
      assert s[0] !in s[1..];
    } else {
      assert s[0] !in s[1..];
    }
  }
}
