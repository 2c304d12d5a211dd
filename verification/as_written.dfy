/**
 * Behaviours of the service's code as written that the rest of the model
 * does not reproduce. Three are replaced there by the evidently intended
 * one; the fourth, the poll fast path on a deleted server, needs the copy
 * of the server a player's record holds, which the ids of the other
 * modules do not carry. Each comes with an input that exhibits it, and
 * relates the code as written to the member the other modules use.
 */
module AsWritten {
  import opened Wrappers
  import opened Entities
  import opened Membership
  import opened ServiceState
  import opened ServerLifecycle
  import opened Queue
  import opened Allocation
  import opened Scenarios

  // ----- A new endpoint's membership list is never created -----

  /**
   * Registration as written: the record created for an endpoint no stored
   * server uses has no membership list, so clearing that list fails. Only a
   * registration that reuses a stored server succeeds, exactly as the
   * corrected `Register` does.
   */
  function RegisterAsWritten(st: State, req: RegisterRequest, now: Time, scan: seq<ServerId>,
                             freshId: ServerId): (r: Outcome<ServerId>)
    requires freshId != "" && freshId !in st.servers
    ensures r.Success? <==>
      && req.gameMode != "" && req.ipV4Address != "" && req.region != "" && req.version != ""
      && exists sid :: sid in scan && sid in st.servers &&
           st.servers[sid].ipV4Address == req.ipV4Address && st.servers[sid].port == req.port
    ensures r.Success? ==> r == Register(st, req, now, scan, freshId)
    ensures Register(st, req, now, scan, freshId).Failure? ==> r == Register(st, req, now, scan, freshId)
  {
    var registered := Register(st, req, now, scan, freshId);
    if registered.Failure? then registered
    else match FindByEndpoint(st.servers, scan, req.ipV4Address, req.port)
      case None => Failure(UninitialisedPlayerList)
      case Some(_) => registered
  }

  /** The very first registration fails as written; the corrected one stores the server. */
  lemma FirstRegistrationFails()
    ensures var req := RegisterRequest("1.0", "GM", "EU", "1.2.3.4", 8888, 2);
      && RegisterAsWritten(State(map[], map[]), req, 10, [], "s1") == Failure(UninitialisedPlayerList)
      && Register(State(map[], map[]), req, 10, [], "s1") == Success(Step(Registered1(), "s1"))
  {
    RegisterFirstServer();
  }

  // ----- The player sweep saves back servers the server sweep deleted -----

  /**
   * The two sweeps as written: each expired player's server is saved after
   * the player leaves its list, which stores again a server the server sweep
   * has just deleted. Servers deleted by earlier requests are not covered.
   */
  function SweepAsWritten(st: State, now: Time): (st': State)
    ensures st'.players == Sweep(st, now).players
    ensures forall sid :: sid in st'.servers <==>
      sid in st.servers &&
      (!HeartbeatExpired(st.servers[sid], now) || AssignedTo(st, ExpiredPlayers(st, now), sid) != {})
    ensures forall sid :: sid in st'.servers ==>
      st'.servers[sid] ==
        st.servers[sid].(players := RemoveOnce(st.servers[sid].players, AssignedTo(st, ExpiredPlayers(st, now), sid)))
  {
    var gone := ExpiredPlayers(st, now);
    State(
      map sid | sid in st.servers && (!HeartbeatExpired(st.servers[sid], now) || AssignedTo(st, gone, sid) != {}) ::
        st.servers[sid].(players := RemoveOnce(st.servers[sid].players, AssignedTo(st, gone, sid))),
      Sweep(st, now).players)
  }

  /** When some player has expired, the player sweep rebuilds each list by removal. */
  lemma ExpirePlayersList(st: State, now: Time, sid: ServerId)
    requires ExpiredPlayers(st, now) != {} && sid in st.servers
    ensures ExpirePlayers(st, now).servers[sid] ==
      st.servers[sid].(players := RemoveOnce(st.servers[sid].players, AssignedTo(st, ExpiredPlayers(st, now), sid)))
  {
  }

  /** The server sweep changes neither which players expire nor where they point. */
  lemma SameExpiry(st: State, now: Time, sid: ServerId)
    ensures ExpiredPlayers(ExpireServers(st, now), now) == ExpiredPlayers(st, now)
    ensures AssignedTo(ExpireServers(st, now), ExpiredPlayers(st, now), sid) == AssignedTo(st, ExpiredPlayers(st, now), sid)
  {
    assert ExpireServers(st, now).players == st.players;
  }

  /** With no expired player, a kept server's list is as before, as removing nothing leaves it. */
  lemma SweptListQuiet(st: State, now: Time, sid: ServerId)
    requires ExpiredPlayers(st, now) == {}
    requires sid in Sweep(st, now).servers
    ensures Sweep(st, now).servers[sid] ==
      st.servers[sid].(players := RemoveOnce(st.servers[sid].players, AssignedTo(st, ExpiredPlayers(st, now), sid)))
  {
    var st1 := ExpireServers(st, now);
    SameExpiry(st, now, sid);
    ExpirePlayersQuiet(st1, now);
    assert AssignedTo(st, {}, sid) == {};
  }

  /** A server the corrected sweeps keep has lost exactly its expired players. */
  lemma SweptList(st: State, now: Time, sid: ServerId)
    requires sid in Sweep(st, now).servers
    ensures Sweep(st, now).servers[sid] ==
      st.servers[sid].(players := RemoveOnce(st.servers[sid].players, AssignedTo(st, ExpiredPlayers(st, now), sid)))
  {
    if ExpiredPlayers(st, now) == {} {
      SweptListQuiet(st, now, sid);
    } else {
      SameExpiry(st, now, sid);
      ExpirePlayersList(ExpireServers(st, now), now, sid);
    }
  }

  /**
   * The sweeps as written differ from the corrected ones only by the servers
   * they bring back, and every one of those has an expired heartbeat.
   */
  lemma SweepAsWrittenOnlyResurrects(st: State, now: Time)
    ensures forall sid :: sid in Sweep(st, now).servers ==>
      sid in SweepAsWritten(st, now).servers && SweepAsWritten(st, now).servers[sid] == Sweep(st, now).servers[sid]
    ensures forall sid :: sid in SweepAsWritten(st, now).servers && sid !in Sweep(st, now).servers ==>
      HeartbeatExpired(SweepAsWritten(st, now).servers[sid], now)
  {
    forall sid | sid in Sweep(st, now).servers
      ensures sid in SweepAsWritten(st, now).servers
      ensures SweepAsWritten(st, now).servers[sid] == Sweep(st, now).servers[sid]
    {
      SweptList(st, now, sid);
    }
  }

  /** A server whose heartbeat and whose only player have both expired. */
  function ExpiryState(): State {
    State(map["s" := Server.(lastHeartbeat := 0, players := ["p1"])],
          map["p1" := Fresh.(status := Matched, gameServer := Some("s"), matchedTime := Some(0)),
              "p2" := Fresh])
  }

  /** At time 200 the sweeps as written store the expired server again, emptied. */
  lemma ExpiredServerKept()
    ensures "s" in SweepAsWritten(ExpiryState(), 200).servers
    ensures SweepAsWritten(ExpiryState(), 200).servers["s"] == Server.(lastHeartbeat := 0)
  {
    var st := ExpiryState();
    assert JoinExpired(st.players["p1"], 200);
    assert AssignedTo(st, ExpiredPlayers(st, 200), "s") == {"p1"};
    assert RemoveOnce(["p1"], {"p1"}) == [];
  }

  /** Scanning a single server that is a candidate picks it. */
  lemma LoneCandidatePicked(servers: map<ServerId, GameServer>, p: Player, sid: ServerId)
    requires sid in servers && IsCandidate(servers[sid], p)
    ensures FirstLeast(servers, CandidatesInScan(servers, p, [sid])) == Some(sid)
  {
    assert [sid][1..] == [];
    assert CandidatesInScan(servers, p, [sid]) == [sid];
  }

  /**
   * At time 200 the sweeps as written keep the expired server, emptied, and
   * it is the candidate the selection picks for the waiting player.
   */
  lemma ExpiredServerResurrected()
    ensures var w := SweepAsWritten(ExpiryState(), 200);
      && "s" in w.servers
      && HeartbeatExpired(w.servers["s"], 200)
      && IsCandidate(w.servers["s"], Fresh)
      && FirstLeast(w.servers, CandidatesInScan(w.servers, Fresh, ["s"])) == Some("s")
  {
    ExpiredServerKept();
    var w := SweepAsWritten(ExpiryState(), 200);
    assert IsCandidate(Server.(lastHeartbeat := 0), Fresh);
    LoneCandidatePicked(w.servers, Fresh, "s");
  }

  /** A poll whose sweeps leave no server answers SERVERS_FULL. */
  lemma NothingLeftMeansFull(st: State, pid: PlayerId, now: Time, scan: seq<ServerId>)
    requires pid != "" && pid in st.players && st.players[pid].gameServer.None?
    requires Sweep(st, now).servers == map[]
    ensures PollMatchmaking(st, pid, now, scan).Success?
    ensures PollMatchmaking(st, pid, now, scan).value.response.status == ServersFull
  {
    NoCandidatesInEmptyStore(st.players[pid], scan);
  }

  /** A store without servers has no candidates, whatever the scan. */
  lemma NoCandidatesInEmptyStore(p: Player, scan: seq<ServerId>)
    ensures CandidatesInScan(map[], p, scan) == []
  {
    if scan != [] {
      NoCandidatesInEmptyStore(p, scan[1..]);
    }
  }

  /** On the same input the corrected sweeps delete the server and the poll answers SERVERS_FULL. */
  lemma ExpiredServerStaysDeleted()
    ensures PollMatchmaking(ExpiryState(), "p2", 200, ["s"]).Success?
    ensures PollMatchmaking(ExpiryState(), "p2", 200, ["s"]).value.response.status == ServersFull
  {
    var st := ExpiryState();
    assert HeartbeatExpired(st.servers["s"], 200);
    assert Sweep(st, 200).servers == map[];
    NothingLeftMeansFull(st, "p2", 200, ["s"]);
  }

  // ----- Re-enqueueing saves back a deregistered server -----

  /**
   * Enqueue's detachment as written: when the player's server is no longer
   * stored, the copy the player's record still refers to (`held`) is saved
   * again without the player. Otherwise it is the corrected `Detach`.
   */
  function DetachAsWritten(st: State, pid: PlayerId, held: GameServer): (servers': map<ServerId, GameServer>)
    ensures AssignedServer(st, pid).Some? && AssignedServer(st, pid).value !in st.servers ==>
      var sid := AssignedServer(st, pid).value;
      && servers'.Keys == st.servers.Keys + {sid}
      && servers'[sid] == held.(players := RemoveFirst(held.players, pid))
      && forall k :: k in st.servers ==> servers'[k] == st.servers[k]
    ensures (AssignedServer(st, pid).None? || AssignedServer(st, pid).value in st.servers) ==>
      servers' == Detach(st, pid)
  {
    match AssignedServer(st, pid)
    case Some(sid) =>
      var s := if sid in st.servers then st.servers[sid] else held;
      st.servers[sid := s.(players := RemoveFirst(s.players, pid))]
    case None => st.servers
  }

  /** The state after "s1" was deregistered and its endpoint registered again as "s2". */
  function Reregistered(): State {
    State(map["s2" := Server.(lastHeartbeat := 30)], OnePlaced().players)
  }

  /** Deregistering "s1" and registering its endpoint again as "s2" reaches `Reregistered()`. */
  lemma ReregisteredReached()
    ensures Deregister(OnePlaced(), "s1").Success?
    ensures Register(Deregister(OnePlaced(), "s1").value.state,
                     RegisterRequest("1.0", "GM", "EU", "1.2.3.4", 8888, 2), 30, [], "s2")
      == Success(Step(Reregistered(), "s2"))
  {
    assert Deregister(OnePlaced(), "s1").value.state == State(map[], OnePlaced().players);
  }

  /** The re-registered state is well formed. */
  lemma ReregisteredWf()
    ensures Wf(Reregistered())
  {
    var st := Reregistered();
    assert st.servers.Keys == {"s2"};
  }

  /**
   * Re-enqueueing "p1", still assigned to the deregistered "s1", stores
   * "s1" again next to "s2" on the same endpoint as written; the corrected
   * detachment keeps endpoints unique.
   */
  lemma ReEnqueueDuplicatesEndpoint()
    ensures !UniqueEndpoints(DetachAsWritten(Reregistered(), "p1", OnePlaced().servers["s1"]))
    ensures UniqueEndpoints(Detach(Reregistered(), "p1"))
  {
    var st := Reregistered();
    var servers' := DetachAsWritten(st, "p1", OnePlaced().servers["s1"]);
    assert AssignedServer(st, "p1") == Some("s1");
    assert SameEndpoint(servers'["s1"], servers'["s2"]);
    ReregisteredWf();
    DetachPreservesWf(st, "p1");
  }

  // ----- The poll fast path answers from the server copy the player holds -----

  /**
   * A poll as written: a player whose record refers to a server is answered
   * from the copy of that server the record holds (`held`), whether or not
   * the server is still stored, and nothing changes. Every other poll is
   * `PollMatchmaking`.
   */
  function PollAsWritten(st: State, pid: PlayerId, now: Time, scan: seq<ServerId>, held: GameServer): (r: Outcome<PollResponse>)
    ensures r.Success? <==> pid != "" && pid in st.players
    ensures AssignedServer(st, pid).Some? && AssignedServer(st, pid).value !in st.servers && pid != "" ==>
      var sid := AssignedServer(st, pid).value;
      && r.Success? && r.value.state == st
      && r.value.response.playerId == pid
      && r.value.response.server == Some(ServerInfo(sid, held.ipV4Address, held.port))
      && r.value.response.status != ServersFull
      && (r.value.response.status == MatchFound <==> IsFull(held))
    ensures (AssignedServer(st, pid).None? || AssignedServer(st, pid).value in st.servers || pid == "") ==>
      r == PollMatchmaking(st, pid, now, scan)
  {
    match AssignedServer(st, pid)
    case Some(sid) =>
      if sid !in st.servers && pid != "" then Success(Step(st, Connection(pid, sid, held)))
      else PollMatchmaking(st, pid, now, scan)
    case None => PollMatchmaking(st, pid, now, scan)
  }

  /** Server "s" has missed its heartbeat; "p1" has joined it; "p2" waits. */
  function JoinedState(): State {
    State(map["s" := Server.(lastHeartbeat := 0, players := ["p1"])],
          map["p1" := Fresh.(status := Joined, gameServer := Some("s"), matchedTime := Some(0), joinedTime := Some(5)),
              "p2" := Fresh])
  }

  /** At time 200 a poll by "p2" deletes "s" from under the joined "p1" and answers SERVERS_FULL. */
  lemma ServerSweptUnderJoinedPlayer()
    ensures PollMatchmaking(JoinedState(), "p2", 200, ["s"]).Success?
    ensures PollMatchmaking(JoinedState(), "p2", 200, ["s"]).value.response.status == ServersFull
    ensures PollMatchmaking(JoinedState(), "p2", 200, ["s"]).value.state == State(map[], JoinedState().players)
  {
    var st := JoinedState();
    assert HeartbeatExpired(st.servers["s"], 200);
    assert Sweep(st, 200).servers == map[];
    assert !JoinExpired(st.players["p1"], 200) && !JoinExpired(st.players["p2"], 200);
    assert Sweep(st, 200).players == st.players;
    NothingLeftMeansFull(st, "p2", 200, ["s"]);
  }

  /**
   * A poll by "p1" after that: the model reports the dangling reference,
   * while the code as written answers from the copy of "s" the record holds
   * and sends the player to the deleted server.
   */
  lemma DanglingPollAnswersHeldCopy()
    ensures var st := State(map[], JoinedState().players);
      && PollMatchmaking(st, "p1", 201, []) == Failure(DanglingServerReference)
      && PollAsWritten(st, "p1", 201, [], JoinedState().servers["s"]) ==
           Success(Step(st, PollResponse("p1", WaitingForPlayers, Some(ServerInfo("s", "1.2.3.4", 8888)))))
  {
    var st := State(map[], JoinedState().players);
    assert AssignedServer(st, "p1") == Some("s");
    assert !IsFull(JoinedState().servers["s"]);
  }
}
