/** The player queue of the matchmaking service: enqueue and dequeue. */
module Queue {
  import opened Wrappers
  import opened Entities
  import opened Membership
  import opened ServiceState

  /** The filters a player asks to be matched on. */
  datatype EnqueueRequest = EnqueueRequest(version: string, gameMode: string, region: string)

  datatype EnqueueResponse = EnqueueResponse(playerId: PlayerId, status: PlayerStatus)

  /** The server a stored player is currently assigned to, if any. */
  function AssignedServer(st: State, pid: PlayerId): Option<ServerId> {
    if pid in st.players then st.players[pid].gameServer else None
  }

  /**
   * The server map after one occurrence of `pid` leaves the list of the
   * stored server the player is assigned to; every other server is kept.
   */
  function Detach(st: State, pid: PlayerId): (servers': map<ServerId, GameServer>)
    ensures servers'.Keys == st.servers.Keys
    ensures forall sid :: sid in st.servers && AssignedServer(st, pid) != Some(sid) ==>
      servers'[sid] == st.servers[sid]
    ensures forall sid :: sid in st.servers && AssignedServer(st, pid) == Some(sid) ==>
      servers'[sid] == st.servers[sid].(players := RemoveFirst(st.servers[sid].players, pid))
  {
    match AssignedServer(st, pid)
    case Some(sid) =>
      if sid in st.servers
      then st.servers[sid := st.servers[sid].(players := RemoveFirst(st.servers[sid].players, pid))]
      else st.servers
    case None => st.servers
  }

  /**
   * Puts a player (new or known) into the queue. Validation fails fast on the
   * player id, game mode, region and version, in that order. The record keeps
   * only its ticket: filters come from the request, the status becomes
   * QUEUED, and the server reference and both timestamps are cleared. If the
   * player was assigned to a stored server, one occurrence of it leaves that
   * server's membership list.
   */
  function Enqueue(st: State, pid: PlayerId, req: EnqueueRequest): (r: Outcome<EnqueueResponse>)
    ensures pid == "" ==> r == Failure(MissingPlayerId)
    ensures pid != "" && req.gameMode == "" ==> r == Failure(MissingGameMode)
    ensures pid != "" && req.gameMode != "" && req.region == "" ==> r == Failure(MissingRegion)
    ensures pid != "" && req.gameMode != "" && req.region != "" && req.version == "" ==>
      r == Failure(MissingVersion)
    ensures r.Success? <==> pid != "" && req.gameMode != "" && req.region != "" && req.version != ""
    ensures r.Success? ==>
      var st' := r.value.state;
      && r.value.response == EnqueueResponse(pid, Queued)
      && st'.players.Keys == st.players.Keys + {pid}
      && st'.players[pid].status == Queued
      && st'.players[pid].gameServer.None?
      && st'.players[pid].matchedTime.None?
      && st'.players[pid].joinedTime.None?
      && st'.players[pid].version == req.version
      && st'.players[pid].gameMode == req.gameMode
      && st'.players[pid].region == req.region
      && st'.players[pid].ticket == (if pid in st.players then st.players[pid].ticket else None)
      && (forall q :: q in st.players && q != pid ==> st'.players[q] == st.players[q])
    ensures r.Success? ==>
      var st' := r.value.state;
      && st'.servers.Keys == st.servers.Keys
      && (forall sid :: sid in st.servers && AssignedServer(st, pid) != Some(sid) ==>
            st'.servers[sid] == st.servers[sid])
      && (forall sid :: sid in st.servers && AssignedServer(st, pid) == Some(sid) ==>
            st'.servers[sid] == st.servers[sid].(players := RemoveFirst(st.servers[sid].players, pid)))
    ensures r.Success? ==>
      forall sid :: (sid in st.servers && AssignedServer(st, pid) == Some(sid) &&
        multiset(st.servers[sid].players)[pid] <= 1) ==> pid !in r.value.state.servers[sid].players
  {
    var checks := [(pid, MissingPlayerId), (req.gameMode, MissingGameMode),
                   (req.region, MissingRegion), (req.version, MissingVersion)];
    assert checks[0].0 == pid && checks[1].0 == req.gameMode;
    assert checks[2].0 == req.region && checks[3].0 == req.version;
    var missing := FirstMissing(checks);
    if missing.Some? then Failure(missing.value)
    else
      var ticket := if pid in st.players then st.players[pid].ticket else None;
      var player := Player(req.version, req.gameMode, req.region, Queued, None, ticket, None, None);
      Success(Step(State(Detach(st, pid), st.players[pid := player]), EnqueueResponse(pid, Queued)))
  }

  /**
   * Deletes a player record. Server membership lists are left untouched, so a
   * server may go on listing the player.
   */
  function Dequeue(st: State, pid: PlayerId): (r: Outcome<PlayerId>)
    ensures pid == "" ==> r == Failure(MissingPlayerId)
    ensures pid != "" && pid !in st.players ==> r == Failure(PlayerNotFound)
    ensures r.Success? <==> pid != "" && pid in st.players
    ensures r.Success? ==>
      && r.value.response == pid
      && r.value.state.players.Keys == st.players.Keys - {pid}
      && (forall q :: q in r.value.state.players ==> r.value.state.players[q] == st.players[q])
      && r.value.state.servers == st.servers
  {
    if pid == "" then Failure(MissingPlayerId)
    else if pid !in st.players then Failure(PlayerNotFound)
    else Success(Step(st.(players := st.players - {pid}), pid))
  }

  // ----- Lemmas -----

  /** Enqueueing the same player with the same filters twice is the same as once. */
  lemma EnqueueIdempotent(st: State, pid: PlayerId, req: EnqueueRequest)
    requires Enqueue(st, pid, req).Success?
    ensures var s1 := Enqueue(st, pid, req).value;
      Enqueue(s1.state, pid, req) == Success(s1)
  {
    var s1 := Enqueue(st, pid, req).value;
    var s2 := Enqueue(s1.state, pid, req).value;
    assert s2.state.players == s1.state.players;
    assert s2.state.servers == s1.state.servers;
  }

  /** Dequeueing a player that was just enqueued for the first time restores the state. */
  lemma EnqueueThenDequeue(st: State, pid: PlayerId, req: EnqueueRequest)
    requires pid !in st.players
    requires Enqueue(st, pid, req).Success?
    ensures Dequeue(Enqueue(st, pid, req).value.state, pid) == Success(Step(st, pid))
  {
    var st2 := Dequeue(Enqueue(st, pid, req).value.state, pid).value.state;
    assert st2.players == st.players;
  }

  /** Detaching a player keeps every stored server well formed and endpoints unique. */
  lemma DetachPreservesWf(st: State, pid: PlayerId)
    requires Wf(st)
    ensures forall sid :: sid in Detach(st, pid) ==> sid != "" && ServerWf(Detach(st, pid)[sid])
    ensures UniqueEndpoints(Detach(st, pid))
  {
    var servers' := Detach(st, pid);
    forall sid | sid in servers' ensures sid != "" && ServerWf(servers'[sid]) {
      assert ServerWf(st.servers[sid]);
    }
    EndpointsKept(st.servers, servers');
  }

  lemma EnqueuePreservesWf(st: State, pid: PlayerId, req: EnqueueRequest)
    requires Wf(st)
    ensures Enqueue(st, pid, req).Success? ==> Wf(Enqueue(st, pid, req).value.state)
  {
    var r := Enqueue(st, pid, req);
    if r.Success? {
      var st' := r.value.state;
      DetachPreservesWf(st, pid);
      assert st'.servers == Detach(st, pid);
      assert PlayerWf(st'.players[pid]);
      forall q | q in st'.players ensures q != "" && PlayerWf(st'.players[q]) {
        if q != pid {
          assert st'.players[q] == st.players[q];
        }
      }
    }
  }

  lemma DequeuePreservesWf(st: State, pid: PlayerId)
    requires Wf(st)
    ensures Dequeue(st, pid).Success? ==> Wf(Dequeue(st, pid).value.state)
  {
  }
}
