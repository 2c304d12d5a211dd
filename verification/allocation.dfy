/**
 * Poll-driven allocation: the expiry sweeps that run on every poll of an
 * unassigned player, and the choice of a server for that player.
 */
module Allocation {
  import opened Wrappers
  import opened Entities
  import opened Membership
  import opened ServiceState

  /** A server not heard from for longer than this is deleted by the next sweep. */
  const ServerHeartbeatTimeoutSeconds: nat := 120

  /** A matched player that has not joined within this window is removed by the next sweep. */
  const ClientJoinTimeoutSeconds: nat := 120

  datatype MatchmakingStatus = MatchFound | WaitingForPlayers | ServersFull

  /** Where a matched player should connect. */
  datatype ServerInfo = ServerInfo(serverId: ServerId, ipV4Address: string, port: int)

  datatype PollResponse = PollResponse(playerId: PlayerId, status: MatchmakingStatus, server: Option<ServerInfo>)

  /** The timeout has passed strictly before `now`. */
  predicate HeartbeatExpired(s: GameServer, now: Time) {
    s.lastHeartbeat + ServerHeartbeatTimeoutSeconds < now
  }

  /**
   * Only matched players expire, and only once their join window has passed
   * strictly before `now`. A matched player without a matched time (a state
   * no operation produces) is never expired.
   */
  predicate JoinExpired(p: Player, now: Time) {
    p.status == Matched && p.matchedTime.Some? && p.matchedTime.value + ClientJoinTimeoutSeconds < now
  }

  /** Deletes every server whose heartbeat has expired, and nothing else. */
  function ExpireServers(st: State, now: Time): (st': State)
    ensures forall sid :: sid in st'.servers <==> sid in st.servers && !HeartbeatExpired(st.servers[sid], now)
    ensures forall sid :: sid in st'.servers ==> st'.servers[sid] == st.servers[sid]
    ensures st'.players == st.players
  {
    st.(servers := map sid | sid in st.servers && !HeartbeatExpired(st.servers[sid], now) :: st.servers[sid])
  }

  /** Ids of the stored players whose join window has expired. */
  function ExpiredPlayers(st: State, now: Time): set<PlayerId> {
    set pid | pid in st.players && JoinExpired(st.players[pid], now)
  }

  /** The players of `gone` whose record points at server `sid`. */
  function AssignedTo(st: State, gone: set<PlayerId>, sid: ServerId): set<PlayerId> {
    set pid | pid in gone && pid in st.players && st.players[pid].gameServer == Some(sid)
  }

  /**
   * Removes every expired player: its record is deleted and one occurrence
   * of it leaves the membership list of the stored server it points at.
   * Queued and joined players always survive; servers are kept, with only
   * their membership lists changed.
   */
  function ExpirePlayers(st: State, now: Time): (st': State)
    ensures forall pid :: pid in st'.players <==> pid in st.players && !JoinExpired(st.players[pid], now)
    ensures forall pid :: pid in st'.players ==> st'.players[pid] == st.players[pid]
    ensures forall pid :: pid in st.players && st.players[pid].status != Matched ==> pid in st'.players
    ensures st'.servers.Keys == st.servers.Keys
    ensures forall sid :: sid in st.servers ==>
      && st'.servers[sid] == st.servers[sid].(players := st'.servers[sid].players)
      && |st'.servers[sid].players| <= |st.servers[sid].players|
      && multiset(st'.servers[sid].players) ==
           multiset(st.servers[sid].players) - multiset(AssignedTo(st, ExpiredPlayers(st, now), sid))
  {
    var gone := ExpiredPlayers(st, now);
    if gone == {} then
      assert forall sid :: AssignedTo(st, gone, sid) == {};
      assert forall pid :: pid in st.players && JoinExpired(st.players[pid], now) ==> pid in gone;
      st
    else
      State(
        map sid | sid in st.servers ::
          st.servers[sid].(players := RemoveOnce(st.servers[sid].players, AssignedTo(st, gone, sid))),
        map pid | pid in st.players && pid !in gone :: st.players[pid])
  }

  /**
   * The two sweeps a poll runs, servers first. Exactly the servers whose
   * heartbeat has not expired survive, with only their membership lists
   * changed, so no expired server outlives a sweep; exactly the players
   * whose join window has not expired survive, unchanged.
   */
  function Sweep(st: State, now: Time): (st': State)
    ensures forall sid :: sid in st'.servers <==> sid in st.servers && !HeartbeatExpired(st.servers[sid], now)
    ensures forall sid :: sid in st'.servers ==>
      st'.servers[sid] == st.servers[sid].(players := st'.servers[sid].players)
    ensures forall pid :: pid in st'.players <==> pid in st.players && !JoinExpired(st.players[pid], now)
    ensures forall pid :: pid in st'.players ==> st'.players[pid] == st.players[pid]
  {
    ExpirePlayers(ExpireServers(st, now), now)
  }

  /** When no stored player's join window has expired, the player sweep changes nothing. */
  lemma ExpirePlayersQuiet(st: State, now: Time)
    requires forall pid :: pid in st.players ==> !JoinExpired(st.players[pid], now)
    ensures ExpirePlayers(st, now) == st
  {
    assert ExpiredPlayers(st, now) == {};
  }

  /** When no stored player's join window has expired, the player sweep changes nothing. */
  lemma SweepWithoutExpiredPlayers(st: State, now: Time)
    requires forall pid :: pid in st.players ==> !JoinExpired(st.players[pid], now)
    ensures Sweep(st, now) == ExpireServers(st, now)
  {
    ExpirePlayersQuiet(ExpireServers(st, now), now);
  }

  /** A sweep over a store with nothing stale in it changes nothing. */
  lemma QuietSweep(st: State, now: Time)
    requires forall sid :: sid in st.servers ==> !HeartbeatExpired(st.servers[sid], now)
    requires forall pid :: pid in st.players ==> !JoinExpired(st.players[pid], now)
    ensures Sweep(st, now) == st
  {
    SweepWithoutExpiredPlayers(st, now);
    assert ExpireServers(st, now).servers == st.servers;
  }

  /** A server the player may be allocated to. */
  predicate IsCandidate(s: GameServer, p: Player) {
    s.status == Open && HasRoom(s) && SameFilters(s, p)
  }

  /** The stored candidates for `p`, in the order the scan lists them. */
  function CandidatesInScan(servers: map<ServerId, GameServer>, p: Player, scan: seq<ServerId>): (cs: seq<ServerId>)
    ensures forall sid :: sid in cs <==> sid in scan && sid in servers && IsCandidate(servers[sid], p)
    ensures forall i, j :: 0 <= i < j < |cs| ==> Before(scan, cs[i], cs[j])
  {
    if scan == [] then []
    else
      var rest := CandidatesInScan(servers, p, scan[1..]);
      OrderAfterHead(scan, rest);
      if scan[0] in servers && IsCandidate(servers[scan[0]], p) then
        HeadFirst(scan, rest);
        [scan[0]] + rest
      else rest
  }

  /** Elements of `rest` in the order of `scan[1..]` are in the order of `scan`. */
  lemma OrderAfterHead(scan: seq<ServerId>, rest: seq<ServerId>)
    requires scan != []
    requires forall i, j :: 0 <= i < j < |rest| ==> Before(scan[1..], rest[i], rest[j])
    ensures forall i, j :: 0 <= i < j < |rest| ==> Before(scan, rest[i], rest[j])
  {
    forall i, j | 0 <= i < j < |rest| ensures Before(scan, rest[i], rest[j]) {
      assert Before(scan[1..], rest[i], rest[j]);
      var a, b :| 0 <= a < b < |scan[1..]| && scan[1..][a] == rest[i] && scan[1..][b] == rest[j];
      assert scan[a + 1] == rest[i] && scan[b + 1] == rest[j];
    }
  }

  /** Putting the head of `scan` before elements of `scan[1..]` in scan order keeps scan order. */
  lemma HeadFirst(scan: seq<ServerId>, rest: seq<ServerId>)
    requires scan != []
    requires forall sid :: sid in rest ==> sid in scan[1..]
    requires forall i, j :: 0 <= i < j < |rest| ==> Before(scan, rest[i], rest[j])
    ensures forall i, j :: 0 <= i < j < |[scan[0]] + rest| ==> Before(scan, ([scan[0]] + rest)[i], ([scan[0]] + rest)[j])
  {
    var cs := [scan[0]] + rest;
    forall i, j | 0 <= i < j < |cs| ensures Before(scan, cs[i], cs[j]) {
      if i == 0 {
        assert cs[j] == rest[j - 1] && rest[j - 1] in rest;
        var b :| 0 <= b < |scan[1..]| && scan[1..][b] == cs[j];
        assert scan[0] == cs[0] && scan[b + 1] == cs[j];
      } else {
        assert cs[i] == rest[i - 1] && cs[j] == rest[j - 1];
        assert Before(scan, rest[i - 1], rest[j - 1]);
      }
    }
  }

  /**
   * The position of the least value of `occ`, the earliest one on ties: the
   * head of a stable ascending sort.
   */
  function LeastIndex(occ: seq<nat>): (k: nat)
    requires |occ| > 0
    ensures k < |occ|
    ensures forall j :: 0 <= j < |occ| ==> occ[k] <= occ[j]
    ensures forall j :: 0 <= j < k ==> occ[j] > occ[k]
  {
    if |occ| == 1 then 0
    else
      var k := LeastIndex(occ[1..]) + 1;
      assert forall j :: 1 <= j < |occ| ==> occ[j] == occ[1..][j - 1];
      if occ[0] <= occ[k] then 0 else k
  }

  /**
   * The least-occupied server of `cs`, the earliest one on ties: what a
   * stable ascending sort by occupancy followed by taking the head returns.
   */
  function FirstLeast(servers: map<ServerId, GameServer>, cs: seq<ServerId>): (r: Option<ServerId>)
    requires forall sid :: sid in cs ==> sid in servers
    ensures r.None? <==> cs == []
    ensures r.Some? ==> r.value in cs
    ensures r.Some? ==> forall c :: c in cs ==> Occupancy(servers[r.value]) <= Occupancy(servers[c])
    ensures r.Some? ==>
      exists i :: 0 <= i < |cs| && cs[i] == r.value &&
        forall j :: 0 <= j < i ==> Occupancy(servers[cs[j]]) > Occupancy(servers[r.value])
  {
    if cs == [] then None
    else
      var occ := seq(|cs|, i requires 0 <= i < |cs| => Occupancy(servers[cs[i]]));
      var k := LeastIndex(occ);
      assert forall j :: 0 <= j < |cs| ==> occ[j] == Occupancy(servers[cs[j]]);
      assert forall c :: c in cs ==> Occupancy(servers[cs[k]]) <= Occupancy(servers[c]) by {
        forall c | c in cs ensures Occupancy(servers[cs[k]]) <= Occupancy(servers[c]) {
          var j :| 0 <= j < |cs| && cs[j] == c;
          assert occ[k] <= occ[j];
        }
      }
      assert forall j :: 0 <= j < k ==> Occupancy(servers[cs[j]]) > Occupancy(servers[cs[k]]);
      Some(cs[k])
  }

  /** The server a poll of an unassigned player picks after the sweeps, if any. */
  function Choose(st: State, p: Player, now: Time, scan: seq<ServerId>): (r: Option<ServerId>)
    ensures r.None? <==> CandidatesInScan(Sweep(st, now).servers, p, scan) == []
    ensures r.Some? ==>
      var swept := Sweep(st, now);
      && r.value in swept.servers && r.value in scan
      && IsCandidate(swept.servers[r.value], p)
      && (forall c :: c in scan && c in swept.servers && IsCandidate(swept.servers[c], p) ==>
            Occupancy(swept.servers[r.value]) <= Occupancy(swept.servers[c]))
  {
    var swept := Sweep(st, now);
    var cs := CandidatesInScan(swept.servers, p, scan);
    var r := FirstLeast(swept.servers, cs);
    assert r.Some? ==> r.value in cs;
    r
  }

  /** Assigns the player to server `sid` and appends it to that server's list. */
  function Allocate(st: State, pid: PlayerId, p: Player, sid: ServerId, now: Time): (st': State)
    requires sid in st.servers
    ensures st'.servers.Keys == st.servers.Keys
    ensures st'.servers[sid] == st.servers[sid].(players := st.servers[sid].players + [pid])
    ensures forall k :: k in st.servers && k != sid ==> st'.servers[k] == st.servers[k]
    ensures st'.players.Keys == st.players.Keys + {pid}
    ensures st'.players[pid] == p.(status := Matched, gameServer := Some(sid), matchedTime := Some(now))
    ensures forall q :: q in st.players && q != pid ==> st'.players[q] == st.players[q]
  {
    var s := st.servers[sid];
    State(st.servers[sid := s.(players := s.players + [pid])],
          st.players[pid := p.(status := Matched, gameServer := Some(sid), matchedTime := Some(now))])
  }

  /** The answer to a player assigned to server `sid`: connection data and fill state. */
  function Connection(pid: PlayerId, sid: ServerId, s: GameServer): (r: PollResponse)
    ensures r.playerId == pid && r.server == Some(ServerInfo(sid, s.ipV4Address, s.port))
    ensures r.status != ServersFull
    ensures r.status == MatchFound <==> IsFull(s)
  {
    PollResponse(pid, if IsFull(s) then MatchFound else WaitingForPlayers,
                 Some(ServerInfo(sid, s.ipV4Address, s.port)))
  }

  /**
   * A player polls for a match. An already assigned player gets its server
   * back and nothing changes. Otherwise expired servers and expired players
   * are swept, and the player is allocated to the least-occupied candidate,
   * or told SERVERS_FULL when there is none.
   */
  function PollMatchmaking(st: State, pid: PlayerId, now: Time, scan: seq<ServerId>): (r: Outcome<PollResponse>)
    ensures pid == "" ==> r == Failure(MissingPlayerId)
    ensures pid != "" && pid !in st.players ==> r == Failure(PlayerNotFound)
    ensures r.Success? <==>
      pid != "" && pid in st.players &&
      (st.players[pid].gameServer.Some? ==> st.players[pid].gameServer.value in st.servers)
    ensures pid != "" && pid in st.players && st.players[pid].gameServer.Some? ==>
      var sid := st.players[pid].gameServer.value;
      if sid in st.servers then
        && r.value.state == st
        && r.value.response.server == Some(ServerInfo(sid, st.servers[sid].ipV4Address, st.servers[sid].port))
        && r.value.response.status != ServersFull
        && (r.value.response.status == MatchFound <==> IsFull(st.servers[sid]))
      else r == Failure(DanglingServerReference)
    ensures r.Success? ==> r.value.response.playerId == pid
    ensures r.Success? ==> (r.value.response.status == ServersFull <==> r.value.response.server.None?)
    ensures r.Success? && r.value.response.server.Some? ==>
      var sid := r.value.response.server.value.serverId;
      && sid in r.value.state.servers
      && pid in r.value.state.players
      && r.value.state.players[pid].gameServer == Some(sid)
      && (r.value.response.status == MatchFound <==> IsFull(r.value.state.servers[sid]))
    ensures r.Success? && r.value.response.status == ServersFull ==>
      r.value.state == Sweep(st, now) && st.players[pid].gameServer.None?
  {
    if pid == "" then Failure(MissingPlayerId)
    else if pid !in st.players then Failure(PlayerNotFound)
    else
      var player := st.players[pid];
      if player.gameServer.Some? then
        var sid := player.gameServer.value;
        if sid in st.servers then Success(Step(st, Connection(pid, sid, st.servers[sid])))
        else Failure(DanglingServerReference)
      else
        var swept := Sweep(st, now);
        match Choose(st, player, now, scan)
        case None => Success(Step(swept, PollResponse(pid, ServersFull, None)))
        case Some(sid) =>
          var st' := Allocate(swept, pid, player, sid, now);
          Success(Step(st', Connection(pid, sid, st'.servers[sid])))
  }

  // ----- Lemmas -----

  /**
   * Allocation: a poll that finds a server for an unassigned player picks a
   * candidate of the swept store with the least occupancy among the scanned
   * candidates, marks the player MATCHED on that server at `now`, appends it
   * to that server's list without exceeding capacity, and changes nothing
   * else in the swept state.
   */
  lemma PollAllocates(st: State, pid: PlayerId, now: Time, scan: seq<ServerId>)
    requires pid in st.players && st.players[pid].gameServer.None?
    requires PollMatchmaking(st, pid, now, scan).Success?
    requires PollMatchmaking(st, pid, now, scan).value.response.status != ServersFull
    ensures
      var r := PollMatchmaking(st, pid, now, scan).value;
      var sid := r.response.server.value.serverId;
      var swept := Sweep(st, now);
      var p := st.players[pid];
      && sid in swept.servers && sid in scan
      && IsCandidate(swept.servers[sid], p)
      && (forall c :: c in scan && c in swept.servers && IsCandidate(swept.servers[c], p) ==>
            Occupancy(swept.servers[sid]) <= Occupancy(swept.servers[c]))
      && r.state.players[pid] == p.(status := Matched, gameServer := Some(sid), matchedTime := Some(now))
      && r.state.servers[sid] == swept.servers[sid].(players := swept.servers[sid].players + [pid])
      && |r.state.servers[sid].players| <= r.state.servers[sid].maxPlayers
      && r.state.servers.Keys == swept.servers.Keys
      && (forall k :: k in swept.servers && k != sid ==> r.state.servers[k] == swept.servers[k])
      && r.state.players.Keys == swept.players.Keys + {pid}
      && (forall q :: q in swept.players && q != pid ==> r.state.players[q] == swept.players[q])
  {
    PollIsAllocation(st, pid, now, scan);
  }

  /** An unassigned player's successful poll is the allocation to the chosen server. */
  lemma PollIsAllocation(st: State, pid: PlayerId, now: Time, scan: seq<ServerId>)
    requires pid in st.players && st.players[pid].gameServer.None?
    requires PollMatchmaking(st, pid, now, scan).Success?
    requires PollMatchmaking(st, pid, now, scan).value.response.status != ServersFull
    ensures
      var p := st.players[pid];
      var choice := Choose(st, p, now, scan);
      && choice.Some?
      && choice.value in Sweep(st, now).servers
      && PollMatchmaking(st, pid, now, scan).value.response.server.value.serverId == choice.value
      && PollMatchmaking(st, pid, now, scan).value.state == Allocate(Sweep(st, now), pid, p, choice.value, now)
  {
    var choice := Choose(st, st.players[pid], now, scan);
    assert choice.Some?;
  }

  /**
   * With a scan that lists every stored server, the chosen server has the
   * least occupancy among ALL candidates left after the sweeps.
   */
  lemma PollPicksLeastOccupied(st: State, pid: PlayerId, now: Time, scan: seq<ServerId>, other: ServerId)
    requires Covers(scan, st.servers)
    requires pid in st.players && st.players[pid].gameServer.None?
    requires PollMatchmaking(st, pid, now, scan).Success?
    requires PollMatchmaking(st, pid, now, scan).value.response.status != ServersFull
    requires other in Sweep(st, now).servers && IsCandidate(Sweep(st, now).servers[other], st.players[pid])
    ensures
      var sid := PollMatchmaking(st, pid, now, scan).value.response.server.value.serverId;
      && sid in Sweep(st, now).servers
      && Occupancy(Sweep(st, now).servers[sid]) <= Occupancy(Sweep(st, now).servers[other])
  {
    PollAllocates(st, pid, now, scan);
    assert other in st.servers;
  }

  /**
   * With a scan that lists every stored server, a poll never places an
   * unassigned player on a server that holds more players than another
   * candidate: the emptier server wins, not the fuller one.
   */
  lemma PollAvoidsBusierServer(st: State, pid: PlayerId, now: Time, scan: seq<ServerId>, busy: ServerId, idle: ServerId)
    requires Covers(scan, st.servers)
    requires pid != "" && pid in st.players && st.players[pid].gameServer.None?
    requires idle in Sweep(st, now).servers && IsCandidate(Sweep(st, now).servers[idle], st.players[pid])
    requires busy in Sweep(st, now).servers
    requires Occupancy(Sweep(st, now).servers[idle]) < Occupancy(Sweep(st, now).servers[busy])
    ensures PollMatchmaking(st, pid, now, scan).Success?
    ensures PollMatchmaking(st, pid, now, scan).value.response.server.Some?
    ensures PollMatchmaking(st, pid, now, scan).value.response.server.value.serverId != busy
  {
    PollFindsCandidate(st, pid, now, scan, idle);
    PollPicksLeastOccupied(st, pid, now, scan, idle);
  }

  /**
   * Ties go to scan order: a candidate exactly as occupied as the chosen
   * server, but not chosen, comes after it in the scan, as a stable sort
   * followed by taking the head leaves it.
   */
  lemma PollBreaksTiesInScanOrder(st: State, pid: PlayerId, now: Time, scan: seq<ServerId>, other: ServerId)
    requires pid in st.players && st.players[pid].gameServer.None?
    requires PollMatchmaking(st, pid, now, scan).Success?
    requires PollMatchmaking(st, pid, now, scan).value.response.status != ServersFull
    requires other in scan && other in Sweep(st, now).servers && IsCandidate(Sweep(st, now).servers[other], st.players[pid])
    requires other != PollMatchmaking(st, pid, now, scan).value.response.server.value.serverId
    requires Occupancy(Sweep(st, now).servers[other]) ==
      Occupancy(Sweep(st, now).servers[PollMatchmaking(st, pid, now, scan).value.response.server.value.serverId])
    ensures Before(scan, PollMatchmaking(st, pid, now, scan).value.response.server.value.serverId, other)
  {
    PollIsAllocation(st, pid, now, scan);
    var swept := Sweep(st, now);
    var sid := PollMatchmaking(st, pid, now, scan).value.response.server.value.serverId;
    LeastTieComesLater(swept.servers, st.players[pid], scan, sid, other);
  }

  /** Among the candidates of a scan, a tie with the pick comes after it in the scan. */
  lemma LeastTieComesLater(servers: map<ServerId, GameServer>, p: Player, scan: seq<ServerId>, sid: ServerId, other: ServerId)
    requires FirstLeast(servers, CandidatesInScan(servers, p, scan)) == Some(sid)
    requires other in scan && other in servers && IsCandidate(servers[other], p)
    requires other != sid && sid in servers && Occupancy(servers[other]) == Occupancy(servers[sid])
    ensures Before(scan, sid, other)
  {
    var cs := CandidatesInScan(servers, p, scan);
    var i :| 0 <= i < |cs| && cs[i] == sid &&
      forall j :: 0 <= j < i ==> Occupancy(servers[cs[j]]) > Occupancy(servers[sid]);
    assert other in cs;
    var k :| 0 <= k < |cs| && cs[k] == other;
    assert i < k;
  }

  /**
   * With a scan that lists every stored server, an unassigned player for
   * whom some server is a candidate after the sweeps is given a server.
   */
  lemma PollFindsCandidate(st: State, pid: PlayerId, now: Time, scan: seq<ServerId>, other: ServerId)
    requires Covers(scan, st.servers)
    requires pid != "" && pid in st.players && st.players[pid].gameServer.None?
    requires other in Sweep(st, now).servers && IsCandidate(Sweep(st, now).servers[other], st.players[pid])
    ensures PollMatchmaking(st, pid, now, scan).Success?
    ensures PollMatchmaking(st, pid, now, scan).value.response.status != ServersFull
  {
    assert other in st.servers;
    assert other in CandidatesInScan(Sweep(st, now).servers, st.players[pid], scan);
  }

  /**
   * With a scan that lists every stored server, SERVERS_FULL means that no
   * server left after the sweeps is a candidate for the player.
   */
  lemma PollServersFullMeansNoCandidate(st: State, pid: PlayerId, now: Time, scan: seq<ServerId>)
    requires Covers(scan, st.servers)
    requires PollMatchmaking(st, pid, now, scan).Success?
    requires PollMatchmaking(st, pid, now, scan).value.response.status == ServersFull
    ensures pid in st.players
    ensures forall sid :: sid in Sweep(st, now).servers ==> !IsCandidate(Sweep(st, now).servers[sid], st.players[pid])
  {
    var swept := Sweep(st, now);
    var p := st.players[pid];
    assert CandidatesInScan(swept.servers, p, scan) == [];
    forall sid | sid in swept.servers ensures !IsCandidate(swept.servers[sid], p) {
      assert sid in st.servers;
    }
  }

  /**
   * A poll never places an unassigned player on a server whose heartbeat has
   * expired: the server it names was stored and heard from within the timeout.
   */
  lemma PollNeverAllocatesExpiredServer(st: State, pid: PlayerId, now: Time, scan: seq<ServerId>)
    requires pid in st.players && st.players[pid].gameServer.None?
    requires PollMatchmaking(st, pid, now, scan).Success?
    requires PollMatchmaking(st, pid, now, scan).value.response.server.Some?
    ensures var sid := PollMatchmaking(st, pid, now, scan).value.response.server.value.serverId;
      sid in st.servers && !HeartbeatExpired(st.servers[sid], now)
  {
    PollIsAllocation(st, pid, now, scan);
  }

  /**
   * Polling again after being given a server returns the same answer and
   * changes nothing, whatever the time and scan order.
   */
  lemma PollIdempotent(st: State, pid: PlayerId, now: Time, scan: seq<ServerId>, later: Time, scan2: seq<ServerId>)
    requires PollMatchmaking(st, pid, now, scan).Success?
    requires PollMatchmaking(st, pid, now, scan).value.response.server.Some?
    ensures var r := PollMatchmaking(st, pid, now, scan).value;
      PollMatchmaking(r.state, pid, later, scan2) == Success(r)
  {
  }

  lemma ExpireServersPreservesWf(st: State, now: Time)
    requires Wf(st)
    ensures Wf(ExpireServers(st, now))
  {
    EndpointsKept(st.servers, ExpireServers(st, now).servers);
  }

  lemma ExpirePlayersPreservesWf(st: State, now: Time)
    requires Wf(st)
    ensures Wf(ExpirePlayers(st, now))
  {
    var st' := ExpirePlayers(st, now);
    forall sid | sid in st'.servers
      ensures sid != "" && ServerWf(st'.servers[sid]) && SameEndpoint(st'.servers[sid], st.servers[sid])
    {
      assert ServerWf(st.servers[sid]);
      assert st'.servers[sid] == st.servers[sid].(players := st'.servers[sid].players);
    }
    forall pid | pid in st'.players ensures pid != "" && PlayerWf(st'.players[pid]) {
      assert PlayerWf(st.players[pid]);
    }
    EndpointsKept(st.servers, st'.servers);
  }

  /** The sweeps keep the state invariant. */
  lemma SweepPreservesWf(st: State, now: Time)
    requires Wf(st)
    ensures Wf(Sweep(st, now))
  {
    ExpireServersPreservesWf(st, now);
    ExpirePlayersPreservesWf(ExpireServers(st, now), now);
  }

  /** Allocating a player with filled-in filters to a server with room keeps the invariant. */
  lemma AllocatePreservesWf(st: State, pid: PlayerId, p: Player, sid: ServerId, now: Time)
    requires Wf(st) && sid in st.servers && HasRoom(st.servers[sid])
    requires pid != "" && p.version != "" && p.gameMode != "" && p.region != ""
    ensures Wf(Allocate(st, pid, p, sid, now))
  {
    var st' := Allocate(st, pid, p, sid, now);
    forall k | k in st'.servers ensures SameEndpoint(st'.servers[k], st.servers[k]) {
    }
    EndpointsKept(st.servers, st'.servers);
  }

  /** Polling keeps the state invariant. */
  lemma PollPreservesWf(st: State, pid: PlayerId, now: Time, scan: seq<ServerId>)
    requires Wf(st)
    ensures PollMatchmaking(st, pid, now, scan).Success? ==> Wf(PollMatchmaking(st, pid, now, scan).value.state)
  {
    var r := PollMatchmaking(st, pid, now, scan);
    if r.Success? && st.players[pid].gameServer.None? {
      var p := st.players[pid];
      var swept := Sweep(st, now);
      SweepPreservesWf(st, now);
      var choice := Choose(st, p, now, scan);
      if choice.Some? {
        var sid := choice.value;
        assert sid in CandidatesInScan(swept.servers, p, scan);
        assert PlayerWf(p);
        AllocatePreservesWf(swept, pid, p, sid, now);
      }
    }
  }
}
