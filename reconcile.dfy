/**
 * The reconciliation tick of bot.py (`server_status`) and the stale-record
 * reset done when the bot connects (`on_ready`), stated on values: a tracked
 * server record, the outcome of its status lookup, and the messages the tick
 * sends. The class in tracker.dfy performs these steps in place.
 */
module Reconcile {
  import opened Wrappers
  import opened Text
  import opened Render
  import opened Lists

  /**
   * One tracked server. `known` is the player set last reported (the
   * program's `old`), `lastChecked` the time of the last recorded change, in
   * seconds.
   */
  datatype MCServer = MCServer(channelId: int, address: string, name: string, known: set<string>, lastChecked: int)

  /** The result of one status lookup: the error text it returned, or the status. */
  datatype Lookup = Unreachable(reason: string) | Reached(status: Status)

  /** A message sent to a channel. */
  datatype Notice =
      /** A players embed; its text is `PlayersMessage(players, previous, title, ...)`. */
    | PlayerChange(channelId: int, title: string, players: set<string>, previous: Option<set<string>>)
    | Embed(channelId: int, title: string, text: string)
    | Plain(channelId: int, text: string)

  const Hour: int := 3600
  const Day: int := 86400

  /** The message a server gets when it is dropped for being unreachable. */
  function EvictionNotice(s: MCServer): Notice {
    Embed(s.channelId, "Connection Refused",
          "Unable to reach server for more than 1 hour\n" + "monitoring stopped for " + s.name)
  }

  /** A server is dropped when its lookup fails and its last recorded change is over an hour old. */
  predicate Evicts(s: MCServer, lookup: Lookup, now: int) {
    lookup.Unreachable? && s.lastChecked < now - Hour
  }

  /** What one tick does with one server: its new record, what it sends, whether it is dropped. */
  datatype Step = Step(server: MCServer, notice: Option<Notice>, evicted: bool)

  /**
   * One iteration of the tick's loop. A failed lookup leaves the record as it
   * is and drops the server, with a notice, when it was last checked more than
   * an hour ago. A successful lookup with the same player set changes nothing
   * and sends nothing (`lastChecked` included); a different set is reported
   * once and becomes the new `known`, stamped with `now`.
   */
  function StepServer(s: MCServer, lookup: Lookup, now: int): (st: Step)
    ensures st.server.channelId == s.channelId && st.server.address == s.address && st.server.name == s.name
    ensures st.evicted <==> Evicts(s, lookup, now)
    ensures lookup.Unreachable? ==> st.server == s
    ensures st.notice.Some? <==> st.evicted || st.server != s
    ensures st.evicted ==> st.notice == Some(EvictionNotice(s))
    ensures st.server != s ==> lookup.Reached? && st.server.known == GetPlayers(lookup.status)
                               && st.server.known != s.known && st.server.lastChecked == now
    ensures lookup.Reached? && GetPlayers(lookup.status) != s.known ==>
              st.server == s.(known := GetPlayers(lookup.status), lastChecked := now)
    ensures lookup.Reached? && st.server != s ==>
              st.notice == Some(PlayerChange(s.channelId, GetServerName(lookup.status.motd, s.address),
                                             GetPlayers(lookup.status), Some(s.known)))
  {
    match lookup
    case Unreachable(_) =>
      if s.lastChecked < now - Hour then Step(s, Some(EvictionNotice(s)), true)
      else Step(s, None, false)
    case Reached(status) =>
      var players := GetPlayers(status);
      if players == s.known then Step(s, None, false)
      else
        Step(s.(known := players, lastChecked := now),
             Some(PlayerChange(s.channelId, GetServerName(status.motd, s.address), players, Some(s.known))),
             false)
  }

  /** The records after the loop, before the evictions are applied. */
  function Updated(ss: seq<MCServer>, ls: seq<Lookup>, now: int): (us: seq<MCServer>)
    requires |ls| == |ss|
    ensures |us| == |ss|
    ensures forall i :: 0 <= i < |ss| ==> us[i] == StepServer(ss[i], ls[i], now).server
  {
    seq(|ss|, i requires 0 <= i < |ss| => StepServer(ss[i], ls[i], now).server)
  }

  /** The `to_remove` list: the dropped records, in list order. */
  function Evictions(ss: seq<MCServer>, ls: seq<Lookup>, now: int): seq<MCServer>
    requires |ls| == |ss|
  {
    if ss == [] then []
    else
      var n := |ss| - 1;
      Evictions(ss[..n], ls[..n], now) + (if Evicts(ss[n], ls[n], now) then [ss[n]] else [])
  }

  /** The messages of one tick, in list order. */
  function TickNotices(ss: seq<MCServer>, ls: seq<Lookup>, now: int): seq<Notice>
    requires |ls| == |ss|
  {
    if ss == [] then []
    else
      var n := |ss| - 1;
      var st := StepServer(ss[n], ls[n], now);
      TickNotices(ss[..n], ls[..n], now) + (if st.notice.Some? then [st.notice.value] else [])
  }

  /** The records that are not dropped, updated, in list order. */
  function Survivors(ss: seq<MCServer>, ls: seq<Lookup>, now: int): seq<MCServer>
    requires |ls| == |ss|
  {
    if ss == [] then []
    else
      var n := |ss| - 1;
      var st := StepServer(ss[n], ls[n], now);
      Survivors(ss[..n], ls[..n], now) + (if Evicts(ss[n], ls[n], now) then [] else [st.server])
  }

  /** Extending the tick by one more record extends its evictions and messages by that record's. */
  lemma TickStep(ss: seq<MCServer>, ls: seq<Lookup>, now: int, i: nat)
    requires |ls| == |ss| && i < |ss|
    ensures var st := StepServer(ss[i], ls[i], now);
            && Evictions(ss[..i + 1], ls[..i + 1], now)
               == Evictions(ss[..i], ls[..i], now) + (if Evicts(ss[i], ls[i], now) then [ss[i]] else [])
            && TickNotices(ss[..i + 1], ls[..i + 1], now)
               == TickNotices(ss[..i], ls[..i], now) + (if st.notice.Some? then [st.notice.value] else [])
  {
    assert ss[..i + 1][..i] == ss[..i];
    assert ls[..i + 1][..i] == ls[..i];
  }

  /** Every message of the tick is the notice of one record's step, and every step's notice is sent. */
  lemma {:induction false} TickNoticesFrom(ss: seq<MCServer>, ls: seq<Lookup>, now: int)
    requires |ls| == |ss|
    ensures forall m :: m in TickNotices(ss, ls, now) ==>
              exists k :: 0 <= k < |ss| && StepServer(ss[k], ls[k], now).notice == Some(m)
    ensures forall k :: 0 <= k < |ss| && StepServer(ss[k], ls[k], now).notice.Some? ==>
              StepServer(ss[k], ls[k], now).notice.value in TickNotices(ss, ls, now)
  {
    if ss != [] {
      var n := |ss| - 1;
      TickNoticesFrom(ss[..n], ls[..n], now);
      var rest := TickNotices(ss[..n], ls[..n], now);
      forall m | m in rest
        ensures exists k :: 0 <= k < |ss| && StepServer(ss[k], ls[k], now).notice == Some(m)
      {
        var k :| 0 <= k < n && StepServer(ss[..n][k], ls[..n][k], now).notice == Some(m);
        assert ss[..n][k] == ss[k] && ls[..n][k] == ls[k];
      }
      forall k | 0 <= k < n && StepServer(ss[k], ls[k], now).notice.Some?
        ensures StepServer(ss[k], ls[k], now).notice.value in TickNotices(ss, ls, now)
      {
        assert ss[..n][k] == ss[k] && ls[..n][k] == ls[k];
      }
    }
  }

  /** Every dropped record is still in the list when `remove` is called, so it never raises. */
  lemma {:induction false} EvictionsIncluded(ss: seq<MCServer>, ls: seq<Lookup>, now: int)
    requires |ls| == |ss|
    ensures multiset(Evictions(ss, ls, now)) <= multiset(Updated(ss, ls, now))
  {
    if ss != [] {
      var n := |ss| - 1;
      EvictionsIncluded(ss[..n], ls[..n], now);
      var us := Updated(ss, ls, now);
      assert us == Updated(ss[..n], ls[..n], now) + [us[n]];
    }
  }

  /**
   * The list after a tick: the updated records with `remove` applied to each
   * dropped one. No record is lost or duplicated: together with the dropped
   * ones it is exactly the updated list.
   */
  function TickServers(ss: seq<MCServer>, ls: seq<Lookup>, now: int): (r: seq<MCServer>)
    requires |ls| == |ss|
    ensures multiset(r) + multiset(Evictions(ss, ls, now)) == multiset(Updated(ss, ls, now))
  {
    EvictionsIncluded(ss, ls, now);
    RemoveEach(Updated(ss, ls, now), Evictions(ss, ls, now))
  }

  /** A record is dropped exactly when its own step drops it. */
  lemma {:induction false} EvictionsMembers(ss: seq<MCServer>, ls: seq<Lookup>, now: int)
    requires |ls| == |ss|
    ensures forall x :: x in Evictions(ss, ls, now) <==>
              exists j :: 0 <= j < |ss| && Evicts(ss[j], ls[j], now) && ss[j] == x
  {
    if ss != [] {
      var n := |ss| - 1;
      EvictionsMembers(ss[..n], ls[..n], now);
      forall x
        ensures x in Evictions(ss, ls, now) <==>
                exists j :: 0 <= j < |ss| && Evicts(ss[j], ls[j], now) && ss[j] == x
      {
        if exists j :: 0 <= j < |ss| && Evicts(ss[j], ls[j], now) && ss[j] == x {
          var j :| 0 <= j < |ss| && Evicts(ss[j], ls[j], now) && ss[j] == x;
          if j < n {
            assert ss[..n][j] == ss[j] && ls[..n][j] == ls[j];
          }
        }
        if x in Evictions(ss[..n], ls[..n], now) {
          var j :| 0 <= j < n && Evicts(ss[..n][j], ls[..n][j], now) && ss[..n][j] == x;
          assert ss[j] == x;
        }
      }
    }
  }

  lemma {:induction false} EvictionsDistinct(ss: seq<MCServer>, ls: seq<Lookup>, now: int)
    requires |ls| == |ss| && Distinct(ss)
    ensures Distinct(Evictions(ss, ls, now))
  {
    if ss != [] {
      var n := |ss| - 1;
      EvictionsDistinct(ss[..n], ls[..n], now);
      EvictionsMembers(ss[..n], ls[..n], now);
      assert ss[n] !in Evictions(ss[..n], ls[..n], now);
    }
  }

  lemma {:induction false} SurvivorsAreDrop(ss: seq<MCServer>, ls: seq<Lookup>, now: int, dropped: set<MCServer>)
    requires |ls| == |ss|
    requires forall i :: 0 <= i < |ss| ==>
               (Updated(ss, ls, now)[i] in dropped <==> Evicts(ss[i], ls[i], now))
    ensures Drop(Updated(ss, ls, now), dropped) == Survivors(ss, ls, now)
  {
    if ss != [] {
      var n := |ss| - 1;
      var us := Updated(ss, ls, now);
      var pre := Updated(ss[..n], ls[..n], now);
      assert us == pre + [us[n]];
      SurvivorsAreDrop(ss[..n], ls[..n], now, dropped);
      DropAppend(pre, us[n], dropped);
    }
  }

  /**
   * When the records are pairwise distinct, applying the evictions after the
   * loop leaves exactly the servers that were not dropped, updated, in their
   * original relative order.
   */
  lemma TickKeepsOrder(ss: seq<MCServer>, ls: seq<Lookup>, now: int)
    requires |ls| == |ss| && Distinct(ss)
    ensures TickServers(ss, ls, now) == Survivors(ss, ls, now)
  {
    var us := Updated(ss, ls, now);
    var es := Evictions(ss, ls, now);
    EvictionsIncluded(ss, ls, now);
    EvictionsMembers(ss, ls, now);
    EvictionsDistinct(ss, ls, now);
    forall i, j | 0 <= i < |ss| && 0 <= j < |ss| && Evicts(ss[j], ls[j], now) && us[i] == ss[j]
      ensures i == j
    {
    }
    forall k | 0 <= k < |es|
      ensures multiset(us)[es[k]] == 1
    {
      assert es[k] in es;
      var j :| 0 <= j < |ss| && Evicts(ss[j], ls[j], now) && ss[j] == es[k];
      CountOne(us, j);
    }
    RemoveEachUnique(us, es);
    forall i | 0 <= i < |ss|
      ensures us[i] in Elements(es) <==> Evicts(ss[i], ls[i], now)
    {
    }
    SurvivorsAreDrop(ss, ls, now, Elements(es));
  }

  /** A tick in which every lookup succeeds with an unchanged player set is silent and changes nothing. */
  lemma {:induction false} QuietTick(ss: seq<MCServer>, ls: seq<Lookup>, now: int)
    requires |ls| == |ss|
    requires forall i :: 0 <= i < |ss| ==> ls[i].Reached? && GetPlayers(ls[i].status) == ss[i].known
    ensures Evictions(ss, ls, now) == []
    ensures TickNotices(ss, ls, now) == []
    ensures TickServers(ss, ls, now) == ss
  {
    if ss != [] {
      var n := |ss| - 1;
      QuietTick(ss[..n], ls[..n], now);
    }
    assert Updated(ss, ls, now) == ss;
  }

  /**
   * A success with an unchanged player set does not move `lastChecked`, so a
   * server whose roster has been steady for over an hour is dropped by its
   * first failed lookup, even when the lookup of the tick before succeeded.
   */
  lemma SteadyServerDroppedOnFirstFailure(s: MCServer, status: Status, reason: string, t1: int, t2: int)
    requires GetPlayers(status) == s.known && s.lastChecked + Hour < t2
    ensures StepServer(s, Reached(status), t1).server == s
    ensures StepServer(StepServer(s, Reached(status), t1).server, Unreachable(reason), t2).evicted
  {
  }

  /**
   * `on_ready`'s reset of a record last checked more than a day ago: its
   * player set is cleared and, when the lookup succeeds, its name is taken
   * from the MOTD again and it is stamped with `now`. Other records are kept.
   */
  function Refresh(s: MCServer, lookup: Lookup, now: int): (r: MCServer)
    ensures r.channelId == s.channelId && r.address == s.address
    ensures s.lastChecked >= now - Day ==> r == s
    ensures s.lastChecked < now - Day ==> r.known == {}
    ensures s.lastChecked < now - Day && lookup.Reached? ==>
              r.name == GetServerName(lookup.status.motd, s.address) && r.lastChecked == now
    ensures lookup.Unreachable? ==> r.name == s.name && r.lastChecked == s.lastChecked
  {
    if s.lastChecked < now - Day then
      var cleared := s.(known := {});
      match lookup
      case Reached(status) => cleared.(name := GetServerName(status.motd, s.address), lastChecked := now)
      case Unreachable(_) => cleared
    else s
  }

  /** A stale record that could not be reached at start-up is dropped by the first failing tick. */
  lemma StaleUnreachableDropped(s: MCServer, r1: string, r2: string, now: int, later: int)
    requires s.lastChecked < now - Day && now <= later
    ensures StepServer(Refresh(s, Unreachable(r1), now), Unreachable(r2), later).evicted
  {
  }
}
