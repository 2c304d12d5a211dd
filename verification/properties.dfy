/**
 * Properties that relate several operations of the matchmaking service:
 * heartbeats against the expiry sweep, the player status machine, and the
 * back-references the service leaves stale.
 */
module Properties {
  import opened Wrappers
  import opened Entities
  import opened Membership
  import opened ServiceState
  import opened ServerLifecycle
  import opened Queue
  import opened Allocation
  import opened Notifications

  /**
   * Expiry is strict: a server heard from at `t` survives every sweep up to
   * and including `t + 120`, and the first sweep after that deletes it.
   */
  lemma HeartbeatKeepsServerAlive(st: State, sid: ServerId, t: Time, now: Time)
    requires SendHeartbeat(st, sid, t).Success?
    ensures var st1 := SendHeartbeat(st, sid, t).value.state;
      sid in ExpireServers(st1, now).servers <==> now <= t + ServerHeartbeatTimeoutSeconds
  {
    var st1 := SendHeartbeat(st, sid, t).value.state;
    assert st1.servers[sid].lastHeartbeat == t;
  }

  /** A closed server is never chosen by a poll. */
  lemma ClosedServerNeverChosen(st: State, sid: ServerId, pid: PlayerId, now: Time, scan: seq<ServerId>)
    requires SetStatus(st, sid, Closed).Success?
    requires var st1 := SetStatus(st, sid, Closed).value.state;
      pid in st1.players && st1.players[pid].gameServer.None? &&
      PollMatchmaking(st1, pid, now, scan).Success? &&
      PollMatchmaking(st1, pid, now, scan).value.response.server.Some?
    ensures var st1 := SetStatus(st, sid, Closed).value.state;
      PollMatchmaking(st1, pid, now, scan).value.response.server.value.serverId != sid
  {
    var st1 := SetStatus(st, sid, Closed).value.state;
    PollAllocates(st1, pid, now, scan);
    var chosen := PollMatchmaking(st1, pid, now, scan).value.response.server.value.serverId;
    var swept := Sweep(st1, now);
    assert swept.servers[chosen].status == Open;
    assert chosen in st1.servers && st1.servers[chosen].status == swept.servers[chosen].status;
    assert st1.servers[sid].status == Closed;
  }

  /** A matched player listed by its server can report joining and then never expires. */
  lemma MatchedPlayerJoins(st: State, sid: ServerId, pid: PlayerId, t: Time, later: Time)
    requires sid != "" && pid != "" && sid in st.servers && pid in st.servers[sid].players
    requires pid in st.players && st.players[pid].status == Matched && st.players[pid].gameServer == Some(sid)
    ensures var j := NotifyPlayerJoined(st, sid, pid, t);
      && j.Success?
      && j.value.state.players[pid].status == Joined
      && j.value.state.players[pid].joinedTime == Some(t)
      && j.value.state.players[pid].gameServer == Some(sid)
      && pid in ExpirePlayers(j.value.state, later).players
  {
  }

  /** A player appended last to a server's list can report leaving, which undoes the append. */
  lemma AppendedPlayerLeaves(st: State, sid: ServerId, pid: PlayerId, before: seq<PlayerId>)
    requires sid != "" && pid != "" && sid in st.servers && st.servers[sid].players == before + [pid]
    ensures var l := NotifyPlayerLeft(st, sid, pid);
      && l.Success?
      && pid !in l.value.state.players
      && multiset(l.value.state.servers[sid].players) == multiset(before)
  {
    assert st.servers[sid].players[|before|] == pid;
    RemoveFirstMultiset(before + [pid], pid);
    assert multiset(before + [pid]) - multiset{pid} == multiset(before);
  }

  /** Re-enqueueing a player appended last to its server's list undoes the append. */
  lemma AppendedPlayerReEnqueues(st: State, sid: ServerId, pid: PlayerId, before: seq<PlayerId>, req: EnqueueRequest)
    requires pid != "" && req.version != "" && req.gameMode != "" && req.region != ""
    requires sid in st.servers && st.servers[sid].players == before + [pid]
    requires pid in st.players && st.players[pid].gameServer == Some(sid)
    ensures var e := Enqueue(st, pid, req);
      && e.Success?
      && e.value.state.players[pid].status == Queued
      && e.value.state.players[pid].gameServer.None?
      && multiset(e.value.state.servers[sid].players) == multiset(before)
  {
    assert st.servers[sid].players[|before|] == pid;
    RemoveFirstMultiset(before + [pid], pid);
    assert multiset(before + [pid]) - multiset{pid} == multiset(before);
  }

  /**
   * MATCHED to JOINED: once a poll has allocated a player to a server, that
   * server's join report succeeds and makes the player JOINED at the report's
   * time, and a joined player then survives every later player sweep.
   */
  lemma AllocatedPlayerCanJoin(st: State, pid: PlayerId, now: Time, scan: seq<ServerId>, t: Time, later: Time)
    requires Wf(st)
    requires pid in st.players && st.players[pid].gameServer.None?
    requires PollMatchmaking(st, pid, now, scan).Success?
    requires PollMatchmaking(st, pid, now, scan).value.response.status != ServersFull
    ensures var r := PollMatchmaking(st, pid, now, scan).value;
      var sid := r.response.server.value.serverId;
      var j := NotifyPlayerJoined(r.state, sid, pid, t);
      && j.Success?
      && j.value.state.players[pid].status == Joined
      && j.value.state.players[pid].joinedTime == Some(t)
      && j.value.state.players[pid].gameServer == Some(sid)
      && pid in ExpirePlayers(j.value.state, later).players
  {
    PollAllocates(st, pid, now, scan);
    var r := PollMatchmaking(st, pid, now, scan).value;
    var sid := r.response.server.value.serverId;
    var before := Sweep(st, now).servers[sid].players;
    assert sid in st.servers;
    assert pid in r.state.servers[sid].players by {
      assert r.state.servers[sid].players[|before|] == pid;
    }
    MatchedPlayerJoins(r.state, sid, pid, t, later);
  }

  /**
   * Leaving right after allocation gives the slot back: the server's
   * membership is again what it was after the sweeps, up to order, and the
   * player is gone.
   */
  lemma AllocatedPlayerLeaves(st: State, pid: PlayerId, now: Time, scan: seq<ServerId>)
    requires Wf(st)
    requires pid in st.players && st.players[pid].gameServer.None?
    requires PollMatchmaking(st, pid, now, scan).Success?
    requires PollMatchmaking(st, pid, now, scan).value.response.status != ServersFull
    ensures var r := PollMatchmaking(st, pid, now, scan).value;
      var sid := r.response.server.value.serverId;
      var l := NotifyPlayerLeft(r.state, sid, pid);
      && l.Success?
      && pid !in l.value.state.players
      && multiset(l.value.state.servers[sid].players) == multiset(Sweep(st, now).servers[sid].players)
  {
    PollAllocates(st, pid, now, scan);
    var r := PollMatchmaking(st, pid, now, scan).value;
    var sid := r.response.server.value.serverId;
    var before := Sweep(st, now).servers[sid].players;
    assert sid in st.servers;
    AppendedPlayerLeaves(r.state, sid, pid, before);
  }

  /**
   * Re-enqueueing a freshly allocated player frees its slot: the server's
   * membership is again what it was after the sweeps, up to order, and the
   * player is QUEUED with no server.
   */
  lemma ReEnqueueFreesSlot(st: State, pid: PlayerId, now: Time, scan: seq<ServerId>, req: EnqueueRequest)
    requires pid in st.players && st.players[pid].gameServer.None?
    requires PollMatchmaking(st, pid, now, scan).Success?
    requires PollMatchmaking(st, pid, now, scan).value.response.status != ServersFull
    requires req.version != "" && req.gameMode != "" && req.region != ""
    ensures var r := PollMatchmaking(st, pid, now, scan).value;
      var sid := r.response.server.value.serverId;
      var e := Enqueue(r.state, pid, req);
      && e.Success?
      && e.value.state.players[pid].status == Queued
      && e.value.state.players[pid].gameServer.None?
      && multiset(e.value.state.servers[sid].players) == multiset(Sweep(st, now).servers[sid].players)
  {
    PollAllocates(st, pid, now, scan);
    var r := PollMatchmaking(st, pid, now, scan).value;
    var sid := r.response.server.value.serverId;
    var before := Sweep(st, now).servers[sid].players;
    AppendedPlayerReEnqueues(r.state, sid, pid, before, req);
  }

  /**
   * Re-registering an endpoint leaves the players allocated to it pointing
   * at a server that no longer lists them: a player's back-reference and the
   * server's membership are not kept in step.
   */
  lemma ReRegisterOrphansPlayers(st: State, pid: PlayerId, now: Time, scan: seq<ServerId>,
                                 req: RegisterRequest, later: Time, scan2: seq<ServerId>, freshId: ServerId)
    requires Wf(st)
    requires pid in st.players && st.players[pid].gameServer.None?
    requires PollMatchmaking(st, pid, now, scan).Success?
    requires PollMatchmaking(st, pid, now, scan).value.response.status != ServersFull
    requires var r := PollMatchmaking(st, pid, now, scan).value;
      var sid := r.response.server.value.serverId;
      && freshId != "" && freshId !in r.state.servers && Covers(scan2, r.state.servers)
      && req.ipV4Address == r.state.servers[sid].ipV4Address && req.port == r.state.servers[sid].port
      && req.gameMode != "" && req.region != "" && req.version != ""
    ensures var r := PollMatchmaking(st, pid, now, scan).value;
      var sid := r.response.server.value.serverId;
      var g := Register(r.state, req, later, scan2, freshId);
      && g.Success? && g.value.response == sid
      && g.value.state.players[pid].gameServer == Some(sid)
      && pid !in g.value.state.servers[sid].players
  {
    var r := PollMatchmaking(st, pid, now, scan).value;
    var sid := r.response.server.value.serverId;
    PollPreservesWf(st, pid, now, scan);
    PollAllocates(st, pid, now, scan);
    RegisterReusesEndpoint(r.state, req, later, scan2, freshId, sid);
  }
}
