/**
 * Join and leave reports from game servers, reconciling the players' status
 * with what the server observed.
 */
module Notifications {
  import opened Wrappers
  import opened Entities
  import opened Membership
  import opened ServiceState

  datatype NotifyResponse = NotifyResponse(serverId: ServerId, playerId: PlayerId)

  /**
   * The validation both reports share, failing fast in this order: server id
   * given, player id given, server stored, player listed by that server.
   */
  function CheckListed(st: State, sid: ServerId, pid: PlayerId): (r: Result<GameServer, Error>)
    ensures sid == "" ==> r == Failure(MissingGameServerId)
    ensures sid != "" && pid == "" ==> r == Failure(MissingPlayerId)
    ensures sid != "" && pid != "" && sid !in st.servers ==> r == Failure(GameServerNotFound)
    ensures sid != "" && pid != "" && sid in st.servers && pid !in st.servers[sid].players ==>
      r == Failure(PlayerNotFoundForServer)
    ensures r.Success? <==> sid != "" && pid != "" && sid in st.servers && pid in st.servers[sid].players
    ensures r.Success? ==> r.value == st.servers[sid]
  {
    if sid == "" then Failure(MissingGameServerId)
    else if pid == "" then Failure(MissingPlayerId)
    else if sid !in st.servers then Failure(GameServerNotFound)
    else if pid !in st.servers[sid].players then Failure(PlayerNotFoundForServer)
    else Success(st.servers[sid])
  }

  /**
   * Deletes a player's record and takes one occurrence of it off the list of
   * the server it belongs to, when that server is still stored.
   */
  function RemovePlayer(st: State, pid: PlayerId, home: Option<ServerId>): (st': State)
    ensures st'.players.Keys == st.players.Keys - {pid}
    ensures forall q :: q in st'.players ==> st'.players[q] == st.players[q]
    ensures st'.servers.Keys == st.servers.Keys
    ensures forall sid :: sid in st.servers && home != Some(sid) ==> st'.servers[sid] == st.servers[sid]
    ensures home.Some? && home.value in st.servers ==>
      var s := st.servers[home.value];
      && st'.servers[home.value] == s.(players := st'.servers[home.value].players)
      && multiset(st'.servers[home.value].players) == multiset(s.players) - multiset{pid}
  {
    var servers' :=
      match home
      case Some(sid) =>
        if sid in st.servers then
          RemoveFirstMultiset(st.servers[sid].players, pid);
          st.servers[sid := st.servers[sid].(players := RemoveFirst(st.servers[sid].players, pid))]
        else st.servers
      case None => st.servers;
    State(servers', st.players - {pid})
  }

  /**
   * The server reports that a listed player has joined. A player not yet
   * JOINED becomes JOINED at `now`; a repeated report changes nothing. A
   * listed id without a player record is acknowledged without a change.
   */
  function NotifyPlayerJoined(st: State, sid: ServerId, pid: PlayerId, now: Time): (r: Outcome<NotifyResponse>)
    ensures r.Failure? ==> CheckListed(st, sid, pid).Failure? && r.error == CheckListed(st, sid, pid).error
    ensures r.Success? <==> CheckListed(st, sid, pid).Success?
    ensures r.Success? ==>
      var st' := r.value.state;
      && r.value.response == NotifyResponse(sid, pid)
      && st'.servers == st.servers
      && st'.players.Keys == st.players.Keys
      && (forall q :: q in st.players && q != pid ==> st'.players[q] == st.players[q])
      && (pid in st.players && st.players[pid].status != Joined ==>
            st'.players[pid] == st.players[pid].(status := Joined, joinedTime := Some(now)))
      && (pid in st.players && st.players[pid].status == Joined ==> st' == st)
  {
    var _ :- CheckListed(st, sid, pid);
    if pid in st.players && st.players[pid].status != Joined then
      var p := st.players[pid].(status := Joined, joinedTime := Some(now));
      Success(Step(st.(players := st.players[pid := p]), NotifyResponse(sid, pid)))
    else
      Success(Step(st, NotifyResponse(sid, pid)))
  }

  /**
   * The server reports that a listed player has left: one occurrence of the
   * player leaves the server's list and the player's record is deleted. The
   * player does not go back to the queue.
   */
  function NotifyPlayerLeft(st: State, sid: ServerId, pid: PlayerId): (r: Outcome<NotifyResponse>)
    ensures r.Failure? ==> CheckListed(st, sid, pid).Failure? && r.error == CheckListed(st, sid, pid).error
    ensures r.Success? <==> CheckListed(st, sid, pid).Success?
    ensures r.Success? ==>
      var st' := r.value.state;
      && r.value.response == NotifyResponse(sid, pid)
      && st'.players.Keys == st.players.Keys - {pid}
      && (forall q :: q in st'.players ==> st'.players[q] == st.players[q])
      && st'.servers.Keys == st.servers.Keys
      && (forall k :: k in st.servers && k != sid ==> st'.servers[k] == st.servers[k])
      && st'.servers[sid] == st.servers[sid].(players := st'.servers[sid].players)
      && |st'.servers[sid].players| == |st.servers[sid].players| - 1
      && multiset(st'.servers[sid].players) == multiset(st.servers[sid].players) - multiset{pid}
  {
    var _ :- CheckListed(st, sid, pid);
    Success(Step(RemovePlayer(st, pid, Some(sid)), NotifyResponse(sid, pid)))
  }

  // ----- Lemmas -----

  /** Reporting the same join twice is the same as reporting it once. */
  lemma NotifyPlayerJoinedIdempotent(st: State, sid: ServerId, pid: PlayerId, now: Time, later: Time)
    requires NotifyPlayerJoined(st, sid, pid, now).Success?
    ensures var s1 := NotifyPlayerJoined(st, sid, pid, now).value;
      NotifyPlayerJoined(s1.state, sid, pid, later) == Success(s1)
  {
  }

  lemma RemovePlayerPreservesWf(st: State, pid: PlayerId, home: Option<ServerId>)
    requires Wf(st)
    ensures Wf(RemovePlayer(st, pid, home))
  {
    var st' := RemovePlayer(st, pid, home);
    forall sid | sid in st'.servers
      ensures sid != "" && ServerWf(st'.servers[sid]) && SameEndpoint(st'.servers[sid], st.servers[sid])
    {
      assert ServerWf(st.servers[sid]);
    }
    EndpointsKept(st.servers, st'.servers);
  }

  lemma NotifyPlayerJoinedPreservesWf(st: State, sid: ServerId, pid: PlayerId, now: Time)
    requires Wf(st)
    ensures NotifyPlayerJoined(st, sid, pid, now).Success? ==> Wf(NotifyPlayerJoined(st, sid, pid, now).value.state)
  {
  }

  lemma NotifyPlayerLeftPreservesWf(st: State, sid: ServerId, pid: PlayerId)
    requires Wf(st)
    ensures NotifyPlayerLeft(st, sid, pid).Success? ==> Wf(NotifyPlayerLeft(st, sid, pid).value.state)
  {
    RemovePlayerPreservesWf(st, pid, Some(sid));
  }
}
