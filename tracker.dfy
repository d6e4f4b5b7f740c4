/**
 * The tracked-server list of bot.py's `MineClient`: adding, removing and
 * listing servers on command, the periodic tick, and the reset of stale
 * records when the bot connects. `servers` is the in-memory list; `saved` is
 * the last list written to servers.yml.
 */
module Tracker {
  import opened Wrappers
  import opened Text
  import opened Render
  import opened Lists
  import opened Reconcile

  // ------------------------------------------------------------------ adding

  /** The exception `add_server` raises when no name is given (the call is misspelt). */
  const MisspeltCall := "AttributeError: 'MineClient' object has no attribute 'et_server_name'"

  /** The display name chosen by `add_server` as written: it raises for an empty name. */
  function AddNameAsWritten(name: string, motd: string, address: string): (r: Result<string>)
    ensures r.Raised? <==> name == ""
    ensures r.Ok? ==> r.value == name
  {
    if name != "" then Ok(name) else Raised(MisspeltCall)
  }

  /**
   * The display name `add_server` is evidently meant to choose: the given name,
   * or the one derived from the MOTD when none is given. It agrees with the
   * code wherever the code does not raise.
   */
  function AddName(name: string, motd: string, address: string): (r: string)
    ensures name != "" ==> r == name
    ensures name == "" ==> r == GetServerName(motd, address)
    ensures AddNameAsWritten(name, motd, address).Ok? ==> AddNameAsWritten(name, motd, address).value == r
  {
    if name != "" then name else GetServerName(motd, address)
  }

  /** An unnamed `!start` of a reachable server raises instead of adding it. */
  lemma UnnamedAddRaises(motd: string, address: string)
    ensures AddNameAsWritten("", motd, address) == Raised(MisspeltCall)
    ensures AddName("", motd, address) == GetServerName(motd, address)
  {
  }

  /**
   * A record added by `add_server` starts with no known players, so the first
   * tick that reaches a populated server announces every player on it as
   * joined, and nobody as left.
   */
  lemma FirstTickAnnouncesEveryone(added: MCServer, status: Status, now: int, order: seq<string>)
    requires added.known == {} && GetPlayers(status) != {}
    requires IsEnumeration(order, Changed(GetPlayers(status), {}))
    ensures StepServer(added, Reached(status), now).notice
         == Some(PlayerChange(added.channelId, GetServerName(status.motd, added.address), GetPlayers(status), Some({})))
    ensures var w := BotWording(GetServerName(status.motd, added.address));
            forall p :: ChangeLine(p, true, w) in ChangeLines(order, GetPlayers(status), w) <==> p in GetPlayers(status)
    ensures var w := BotWording(GetServerName(status.motd, added.address));
            forall p :: ChangeLine(p, false, w) !in ChangeLines(order, GetPlayers(status), w)
  {
    ChangeLinesExact(order, GetPlayers(status), {}, BotWording(GetServerName(status.motd, added.address)));
  }

  // ----------------------------------------------------------------- querying

  /** `query`: the error text, or a players embed with no previous set (roster only). */
  function QueryReply(channelId: int, address: string, lookup: Lookup): (n: Notice)
    ensures lookup.Unreachable? ==> n == Embed(channelId, "Error", lookup.reason)
    ensures lookup.Reached? ==> n.PlayerChange? && n.previous == None && n.channelId == channelId
                                && n.players == GetPlayers(lookup.status)
                                && n.title == GetServerName(lookup.status.motd, address)
  {
    match lookup
    case Unreachable(reason) => Embed(channelId, "Error", reason)
    case Reached(status) => PlayerChange(channelId, GetServerName(status.motd, address), GetPlayers(status), None)
  }

  // ----------------------------------------------------------------- removing

  predicate Matches(s: MCServer, channelId: int, address: string) {
    s.address == address && s.channelId == channelId
  }

  /** The records with this address requested from this channel, in list order. */
  function Matching(ss: seq<MCServer>, channelId: int, address: string): (r: seq<MCServer>)
    ensures |r| <= |ss|
  {
    if ss == [] then []
    else (if Matches(ss[0], channelId, address) then [ss[0]] else []) + Matching(ss[1..], channelId, address)
  }

  /** The other records, in list order. */
  function Without(ss: seq<MCServer>, channelId: int, address: string): (r: seq<MCServer>)
    ensures |r| <= |ss|
  {
    if ss == [] then []
    else (if Matches(ss[0], channelId, address) then [] else [ss[0]]) + Without(ss[1..], channelId, address)
  }

  /**
   * The removal partitions the list: the matching records and the others,
   * each in list order, account for every record.
   */
  lemma {:induction false} Partition(ss: seq<MCServer>, channelId: int, address: string)
    ensures forall x :: x in Matching(ss, channelId, address) <==> x in ss && Matches(x, channelId, address)
    ensures forall x :: x in Without(ss, channelId, address) <==> x in ss && !Matches(x, channelId, address)
    ensures multiset(Matching(ss, channelId, address)) + multiset(Without(ss, channelId, address)) == multiset(ss)
  {
    if ss != [] {
      Partition(ss[1..], channelId, address);
      assert ss == [ss[0]] + ss[1..];
    }
  }

  lemma {:induction false} MatchingAppend(a: seq<MCServer>, b: seq<MCServer>, channelId: int, address: string)
    ensures Matching(a + b, channelId, address) == Matching(a, channelId, address) + Matching(b, channelId, address)
  {
    if a == [] {
      assert a + b == b;
    } else {
      var head := if Matches(a[0], channelId, address) then [a[0]] else [];
      assert (a + b)[0] == a[0];
      assert (a + b)[1..] == a[1..] + b;
      MatchingAppend(a[1..], b, channelId, address);
      assert Matching(a + b, channelId, address) == head + Matching(a[1..] + b, channelId, address);
      assert Matching(a, channelId, address) == head + Matching(a[1..], channelId, address);
    }
  }

  lemma {:induction false} WithoutAppend(a: seq<MCServer>, b: seq<MCServer>, channelId: int, address: string)
    ensures Without(a + b, channelId, address) == Without(a, channelId, address) + Without(b, channelId, address)
  {
    if a == [] {
      assert a + b == b;
    } else {
      var head := if Matches(a[0], channelId, address) then [] else [a[0]];
      assert (a + b)[0] == a[0];
      assert (a + b)[1..] == a[1..] + b;
      WithoutAppend(a[1..], b, channelId, address);
      assert Without(a + b, channelId, address) == head + Without(a[1..] + b, channelId, address);
      assert Without(a, channelId, address) == head + Without(a[1..], channelId, address);
    }
  }

  /** The reply for each removed record. */
  function RemovalReplies(ms: seq<MCServer>, channelId: int): (r: seq<Notice>)
    ensures |r| == |ms|
    ensures forall i :: 0 <= i < |ms| ==> r[i] == Embed(channelId, ms[i].name, "No longer monitoring " + ms[i].name)
  {
    if ms == [] then []
    else
      var n := |ms| - 1;
      RemovalReplies(ms[..n], channelId) + [Embed(channelId, ms[n].name, "No longer monitoring " + ms[n].name)]
  }

  lemma RemovalRepliesSnoc(ms: seq<MCServer>, x: MCServer, channelId: int)
    ensures RemovalReplies(ms + [x], channelId)
         == RemovalReplies(ms, channelId) + [Embed(channelId, x.name, "No longer monitoring " + x.name)]
  {
    assert (ms + [x])[..|ms|] == ms;
  }

  /** One more record examined by the removal loop. */
  lemma RemovalStep(ss: seq<MCServer>, i: nat, channelId: int, address: string)
    requires i < |ss|
    ensures Matching(ss[..i + 1], channelId, address)
         == Matching(ss[..i], channelId, address) + (if Matches(ss[i], channelId, address) then [ss[i]] else [])
    ensures Without(ss[..i + 1], channelId, address)
         == Without(ss[..i], channelId, address) + (if Matches(ss[i], channelId, address) then [] else [ss[i]])
    ensures Matches(ss[i], channelId, address) ==> ss[i] !in Without(ss[..i], channelId, address)
  {
    var p, x := ss[..i], ss[i];
    assert ss[..i + 1] == p + [x];
    assert [x][1..] == [];
    assert Matching([x], channelId, address) == (if Matches(x, channelId, address) then [x] else []) + [];
    assert Without([x], channelId, address) == (if Matches(x, channelId, address) then [] else [x]) + [];
    MatchingAppend(p, [x], channelId, address);
    WithoutAppend(p, [x], channelId, address);
    Partition(p, channelId, address);
  }

  /** The removal loop's replies after examining one more record of its copy `ss`. */
  lemma RepliesStep(ss: seq<MCServer>, i: nat, channelId: int, address: string)
    requires i < |ss|
    ensures Matches(ss[i], channelId, address) ==>
              RemovalReplies(Matching(ss[..i + 1], channelId, address), channelId)
              == RemovalReplies(Matching(ss[..i], channelId, address), channelId)
                 + [Embed(channelId, ss[i].name, "No longer monitoring " + ss[i].name)]
    ensures !Matches(ss[i], channelId, address) ==>
              Matching(ss[..i + 1], channelId, address) == Matching(ss[..i], channelId, address)
    ensures Matches(ss[i], channelId, address) ==> Matching(ss[..i + 1], channelId, address) != []
  {
    RemovalStep(ss, i, channelId, address);
    RemovalRepliesSnoc(Matching(ss[..i], channelId, address), ss[i], channelId);
  }

  /** The removal loop's list after examining one more record of its copy `ss`. */
  lemma RemovalKeeps(ss: seq<MCServer>, i: nat, channelId: int, address: string, current: seq<MCServer>)
    requires i < |ss| && current == Without(ss[..i], channelId, address) + ss[i..]
    ensures Matches(ss[i], channelId, address) ==>
              ss[i] in current && RemoveFirst(current, ss[i]) == Without(ss[..i + 1], channelId, address) + ss[i + 1..]
    ensures !Matches(ss[i], channelId, address) ==> current == Without(ss[..i + 1], channelId, address) + ss[i + 1..]
  {
    var kept, x, rest := Without(ss[..i], channelId, address), ss[i], ss[i + 1..];
    RemovalStep(ss, i, channelId, address);
    assert ss[i..] == [x] + rest;
    assert current == kept + [x] + rest;
    if Matches(x, channelId, address) {
      assert current[|kept|] == x;
      RemoveFirstAfter(kept, x, rest);
      assert Without(ss[..i + 1], channelId, address) == kept + [];
    } else {
      assert Without(ss[..i + 1], channelId, address) == kept + [x];
    }
  }

  function NotFound(address: string): string {
    "Unable to find server at " + address + "\nTry using !List to see all servers being monitored in this channel\n"
  }

  // ------------------------------------------------------------------ listing

  const ListHeader := "Currently Monitoring:\n"
  const NotMonitoring := "Not currently monitoring any servers\n"
                         + "Use !Start <ip_address> to start monitoring a server\n"
                         + "Use !Help for more info"

  /** A record's line in the listing: the name alone when it is the address. */
  function ListLine(s: MCServer): (line: string)
    ensures |line| >= 2
  {
    if s.name == s.address then "\t" + s.name + "\n" else "\t" + s.name + " (" + s.address + ")\n"
  }

  /** The records requested from this channel, in list order. */
  function InChannel(ss: seq<MCServer>, channelId: int): (r: seq<MCServer>)
    ensures forall x :: x in r <==> x in ss && x.channelId == channelId
  {
    if ss == [] then []
    else
      var n := |ss| - 1;
      InChannel(ss[..n], channelId) + (if ss[n].channelId == channelId then [ss[n]] else [])
  }

  function ListLines(rs: seq<MCServer>): (lines: seq<string>)
    ensures |lines| == |rs|
    ensures forall i :: 0 <= i < |rs| ==> lines[i] == ListLine(rs[i])
  {
    seq(|rs|, i requires 0 <= i < |rs| => ListLine(rs[i]))
  }

  /** The listing of a channel's records: one line each, or the fallback text when there are none. */
  function Listing(rs: seq<MCServer>): string {
    if rs == [] then NotMonitoring else ListHeader + Concat(ListLines(rs))
  }

  /** A non-empty channel's lines add to the header, and the header is not the fallback text. */
  lemma ListingHeader(rs: seq<MCServer>)
    ensures rs == [] <==> ListHeader + Concat(ListLines(rs)) == ListHeader
    ensures ListHeader + Concat(ListLines(rs)) != NotMonitoring
  {
    var all := ListHeader + Concat(ListLines(rs));
    assert all[0] == 'C';
    assert NotMonitoring[0] == 'N';
    if rs != [] {
      var lines := ListLines(rs);
      assert |Concat(lines)| >= |lines[|lines| - 1]|;
    }
  }

  lemma ListingSnoc(rs: seq<MCServer>, x: MCServer)
    ensures (ListHeader + Concat(ListLines(rs))) + ListLine(x) == ListHeader + Concat(ListLines(rs + [x]))
  {
    var lines := ListLines(rs + [x]);
    assert lines[..|rs|] == ListLines(rs);
    assert lines[|rs|] == ListLine(x);
    assert Concat(lines) == Concat(ListLines(rs)) + ListLine(x);
  }

  // -------------------------------------------------------------- the client

  class MineClient {
    var servers: seq<MCServer>
    var saved: seq<MCServer>

    constructor ()
      ensures servers == [] && saved == []
    {
      servers := [];
      saved := [];
    }

    /**
     * `on_ready`: `stored` is the content of servers.yml (None when the file
     * is missing) and `lookups[i]` the lookup made for the i-th stored record
     * (used only when that record is stale).
     */
    method OnReady(stored: Option<seq<MCServer>>, lookups: seq<Lookup>, now: int)
      requires stored.Some? ==> |lookups| == |stored.value|
      modifies this
      ensures saved == old(saved)
      ensures stored.None? ==> servers == old(servers)
      ensures stored.Some? ==> |servers| == |stored.value|
      ensures stored.Some? ==> forall i :: 0 <= i < |servers| ==> servers[i] == Refresh(stored.value[i], lookups[i], now)
    {
      if stored.Some? {
        servers := stored.value;
        for i := 0 to |servers|
          invariant |servers| == |stored.value|
          invariant forall k :: 0 <= k < i ==> servers[k] == Refresh(stored.value[k], lookups[k], now)
          invariant forall k :: i <= k < |servers| ==> servers[k] == stored.value[k]
          invariant saved == old(saved)
        {
          var server := servers[i];
          if server.lastChecked < now - Day {
            server := server.(known := {});
            match lookups[i] {
              case Reached(status) =>
                server := server.(name := GetServerName(status.motd, server.address), lastChecked := now);
              case Unreachable(_) =>
            }
            servers := servers[i := server];
          }
        }
      }
    }

    /**
     * `add_server`, with the display name it is evidently meant to choose
     * (see AddNameAsWritten for the code as it stands). The new record starts
     * with no known players and is appended without a duplicate check.
     */
    method AddServer(channelId: int, address: string, name: string, lookup: Lookup, now: int) returns (reply: Notice)
      modifies this
      ensures lookup.Unreachable? ==>
                servers == old(servers) && saved == old(saved) && reply == Embed(channelId, "Error", lookup.reason)
      ensures lookup.Reached? ==>
                var added := MCServer(channelId, address, AddName(name, lookup.status.motd, address), {}, now);
                servers == old(servers) + [added] && saved == servers
                && reply == Embed(channelId, added.name, "Now monitoring " + added.name)
    {
      match lookup
      case Unreachable(reason) =>
        reply := Embed(channelId, "Error", reason);
      case Reached(status) =>
        var server := MCServer(channelId, address, "", {}, now);
        server := server.(name := if name != "" then name else GetServerName(status.motd, address));
        servers := servers + [server];
        saved := servers;
        reply := Embed(channelId, server.name, "Now monitoring " + server.name);
    }

    /**
     * `remove_server`: every record with this address and channel is removed,
     * the others stay in their order, each removal is announced, and the
     * not-found text is sent exactly when nothing matched.
     */
    method RemoveServer(channelId: int, address: string) returns (replies: seq<Notice>)
      modifies this
      ensures servers == Without(old(servers), channelId, address)
      ensures saved == servers
      ensures replies == RemovalReplies(Matching(old(servers), channelId, address), channelId)
                         + if Matching(old(servers), channelId, address) == [] then [Plain(channelId, NotFound(address))] else []
    {
      var found := false;
      replies := [];
      var copy := servers;
      for i := 0 to |copy|
        invariant servers == Without(copy[..i], channelId, address) + copy[i..]
        invariant found == (Matching(copy[..i], channelId, address) != [])
        invariant replies == RemovalReplies(Matching(copy[..i], channelId, address), channelId)
        invariant saved == old(saved)
      {
        var server := copy[i];
        RepliesStep(copy, i, channelId, address);
        RemovalKeeps(copy, i, channelId, address, servers);
        if server.address == address && server.channelId == channelId {
          found := true;
          servers := RemoveFirst(servers, server);
          replies := replies + [Embed(channelId, server.name, "No longer monitoring " + server.name)];
        }
      }
      assert copy[..|copy|] == copy && copy[|copy|..] == [];
      assert servers == Without(copy, channelId, address) + [];
      saved := servers;
      if !found {
        replies := replies + [Plain(channelId, NotFound(address))];
      }
    }

    /**
     * `list_servers`: the records of this channel in list order, or the
     * fallback text exactly when the channel has none.
     */
    method ListServers(channelId: int) returns (reply: string)
      ensures reply == Listing(InChannel(servers, channelId))
      ensures reply == NotMonitoring <==> forall i :: 0 <= i < |servers| ==> servers[i].channelId != channelId
    {
      reply := ListHeader;
      for i := 0 to |servers|
        invariant reply == ListHeader + Concat(ListLines(InChannel(servers[..i], channelId)))
      {
        var server := servers[i];
        ghost var shown := InChannel(servers[..i], channelId);
        assert servers[..i + 1][..i] == servers[..i];
        if server.channelId == channelId {
          assert InChannel(servers[..i + 1], channelId) == shown + [server];
          ListingSnoc(shown, server);
          if server.name == server.address {
            reply := reply + ("\t" + server.name + "\n");
          } else {
            reply := reply + ("\t" + server.name + " (" + server.address + ")\n");
          }
        } else {
          assert InChannel(servers[..i + 1], channelId) == shown;
        }
      }
      assert servers[..|servers|] == servers;
      ListingHeader(InChannel(servers, channelId));
      if reply == ListHeader {
        reply := "Not currently monitoring any servers\n";
        reply := reply + "Use !Start <ip_address> to start monitoring a server\n";
        reply := reply + "Use !Help for more info";
        assert reply == NotMonitoring;
      }
    }

    /**
     * `server_status`: one pass over the list with this tick's lookups, then
     * the collected evictions applied, then the list saved.
     */
    method Tick(lookups: seq<Lookup>, now: int) returns (notices: seq<Notice>)
      requires |lookups| == |servers|
      modifies this
      ensures servers == TickServers(old(servers), lookups, now)
      ensures notices == TickNotices(old(servers), lookups, now)
      ensures saved == servers
    {
      var toRemove;
      toRemove, notices := CheckAll(lookups, now);
      EvictionsIncluded(old(servers), lookups, now);
      RemoveAll(toRemove);
      saved := servers;
    }

    /** The tick's first loop: each record updated by its lookup, the evictions collected. */
    method CheckAll(lookups: seq<Lookup>, now: int) returns (toRemove: seq<MCServer>, notices: seq<Notice>)
      requires |lookups| == |servers|
      modifies this
      ensures servers == Updated(old(servers), lookups, now) && saved == old(saved)
      ensures toRemove == Evictions(old(servers), lookups, now)
      ensures notices == TickNotices(old(servers), lookups, now)
    {
      ghost var start := servers;
      toRemove := [];
      notices := [];
      for i := 0 to |servers|
        invariant |servers| == |start|
        invariant forall k :: 0 <= k < i ==> servers[k] == StepServer(start[k], lookups[k], now).server
        invariant forall k :: i <= k < |servers| ==> servers[k] == start[k]
        invariant toRemove == Evictions(start[..i], lookups[..i], now)
        invariant notices == TickNotices(start[..i], lookups[..i], now)
        invariant saved == old(saved)
      {
        var server := servers[i];
        TickStep(start, lookups, now, i);
        match lookups[i]
        case Unreachable(_) =>
          if server.lastChecked < now - Hour {
            var reply := "Unable to reach server for more than 1 hour\n" + "monitoring stopped for " + server.name;
            assert Embed(server.channelId, "Connection Refused", reply) == EvictionNotice(server);
            toRemove := toRemove + [server];
            notices := notices + [Embed(server.channelId, "Connection Refused", reply)];
          }
        case Reached(status) =>
          var players := GetPlayers(status);
          if players != server.known {
            notices := notices + [PlayerChange(server.channelId, GetServerName(status.motd, server.address),
                                               players, Some(server.known))];
            servers := servers[i := server.(known := players, lastChecked := now)];
          }
      }
      assert start[..|start|] == start && lookups[..|lookups|] == lookups;
    }

    /** The tick's second loop: `remove` applied to each collected record in turn. */
    method RemoveAll(toRemove: seq<MCServer>)
      requires multiset(toRemove) <= multiset(servers)
      modifies this
      ensures servers == RemoveEach(old(servers), toRemove) && saved == old(saved)
    {
      ghost var result := RemoveEach(servers, toRemove);
      assert toRemove[0..] == toRemove;
      for j := 0 to |toRemove|
        invariant multiset(toRemove[j..]) <= multiset(servers)
        invariant RemoveEach(servers, toRemove[j..]) == result
        invariant saved == old(saved)
      {
        ghost var rest := toRemove[j..];
        RemoveEachStep(servers, rest);
        assert rest[0] == toRemove[j] && rest[1..] == toRemove[j + 1..];
        servers := RemoveFirst(servers, toRemove[j]);
      }
      assert toRemove[|toRemove|..] == [];
    }
  }
}
