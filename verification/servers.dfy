/**
 * Server lifecycle of the matchmaking service: registration, deregistration,
 * heartbeats and the open/closed switch.
 */
module ServerLifecycle {
  import opened Wrappers
  import opened Entities
  import opened ServiceState

  /** What a game server sends when it (re-)registers. */
  datatype RegisterRequest = RegisterRequest(
    version: string,
    gameMode: string,
    region: string,
    ipV4Address: string,
    port: int,
    maxPlayers: int)

  /** The record a registration leaves behind, whether the id is new or reused. */
  function Registered(req: RegisterRequest, now: Time): GameServer {
    GameServer(req.version, req.gameMode, req.region, req.ipV4Address, req.port, req.maxPlayers,
               now, Open, [])
  }

  /** The first stored server, in scan order, listening on the given endpoint. */
  function FindByEndpoint(servers: map<ServerId, GameServer>, scan: seq<ServerId>,
                          address: string, port: int): (r: Option<ServerId>)
    ensures r.Some? ==>
      && r.value in servers && r.value in scan
      && servers[r.value].ipV4Address == address && servers[r.value].port == port
    ensures r.None? <==>
      forall sid :: sid in scan && sid in servers ==>
        !(servers[sid].ipV4Address == address && servers[sid].port == port)
    ensures r.Some? ==>
      exists i :: 0 <= i < |scan| && scan[i] == r.value &&
        forall j :: 0 <= j < i ==>
          !(scan[j] in servers && servers[scan[j]].ipV4Address == address && servers[scan[j]].port == port)
  {
    if scan == [] then None
    else if scan[0] in servers && servers[scan[0]].ipV4Address == address && servers[scan[0]].port == port
    then Some(scan[0])
    else
      var r := FindByEndpoint(servers, scan[1..], address, port);
      assert r.Some? ==>
        exists i :: 0 <= i < |scan| && scan[i] == r.value &&
          forall j :: 0 <= j < i ==>
            !(scan[j] in servers && servers[scan[j]].ipV4Address == address && servers[scan[j]].port == port)
      by {
        if r.Some? {
          var i :| 0 <= i < |scan[1..]| && scan[1..][i] == r.value &&
            forall j :: 0 <= j < i ==>
              !(scan[1..][j] in servers && servers[scan[1..][j]].ipV4Address == address && servers[scan[1..][j]].port == port);
          assert scan[i + 1] == r.value;
          forall j | 0 <= j < i + 1
            ensures !(scan[j] in servers && servers[scan[j]].ipV4Address == address && servers[scan[j]].port == port)
          {
            if j > 0 {
              assert scan[j] == scan[1..][j - 1];
            }
          }
        }
      }
      r
  }

  /**
   * Registers a game server. Validation fails fast on game mode, address,
   * region and version, in that order. A server already listening on the
   * requested endpoint keeps its id; otherwise `freshId` (a newly generated
   * id) is used. Either way the stored record is rebuilt from the request:
   * open, heard from now, and with no members.
   */
  function Register(st: State, req: RegisterRequest, now: Time, scan: seq<ServerId>,
                    freshId: ServerId): (r: Outcome<ServerId>)
    requires freshId != "" && freshId !in st.servers
    ensures req.gameMode == "" ==> r == Failure(MissingGameMode)
    ensures req.gameMode != "" && req.ipV4Address == "" ==> r == Failure(MissingIpV4Address)
    ensures req.gameMode != "" && req.ipV4Address != "" && req.region == "" ==>
      r == Failure(MissingRegion)
    ensures req.gameMode != "" && req.ipV4Address != "" && req.region != "" && req.version == "" ==>
      r == Failure(MissingVersion)
    ensures r.Success? <==>
      req.gameMode != "" && req.ipV4Address != "" && req.region != "" && req.version != ""
    ensures r.Success? ==>
      var sid := r.value.response;
      var servers' := r.value.state.servers;
      && sid in servers'
      && servers'[sid].players == []
      && servers'[sid].status == Open
      && servers'[sid].lastHeartbeat == now
      && servers'[sid].version == req.version && servers'[sid].gameMode == req.gameMode
      && servers'[sid].region == req.region && servers'[sid].ipV4Address == req.ipV4Address
      && servers'[sid].port == req.port && servers'[sid].maxPlayers == req.maxPlayers
      && servers'.Keys == st.servers.Keys + {sid}
      && (forall k :: k in st.servers && k != sid ==> servers'[k] == st.servers[k])
      && r.value.state.players == st.players
    ensures r.Success? ==>
      (r.value.response in st.servers <==>
        exists sid :: sid in scan && sid in st.servers &&
          st.servers[sid].ipV4Address == req.ipV4Address && st.servers[sid].port == req.port)
    ensures r.Success? && r.value.response !in st.servers ==> r.value.response == freshId
    ensures r.Success? && r.value.response in st.servers ==>
      r.value.response in scan &&
      st.servers[r.value.response].ipV4Address == req.ipV4Address &&
      st.servers[r.value.response].port == req.port
  {
    var checks := [(req.gameMode, MissingGameMode), (req.ipV4Address, MissingIpV4Address),
                   (req.region, MissingRegion), (req.version, MissingVersion)];
    assert checks[0].0 == req.gameMode && checks[1].0 == req.ipV4Address;
    assert checks[2].0 == req.region && checks[3].0 == req.version;
    var missing := FirstMissing(checks);
    if missing.Some? then Failure(missing.value)
    else
      var sid := match FindByEndpoint(st.servers, scan, req.ipV4Address, req.port)
                 case Some(existing) => existing
                 case None => freshId;
      Success(Step(st.(servers := st.servers[sid := Registered(req, now)]), sid))
  }

  /** The server stored under `sid`, or the error an id-keyed server operation raises. */
  function LookupServer(st: State, sid: ServerId): (r: Result<GameServer, Error>)
    ensures sid == "" ==> r == Failure(MissingGameServerId)
    ensures sid != "" && sid !in st.servers ==> r == Failure(GameServerNotFound)
    ensures r.Success? <==> sid != "" && sid in st.servers
    ensures r.Success? ==> r.value == st.servers[sid]
  {
    if sid == "" then Failure(MissingGameServerId)
    else if sid !in st.servers then Failure(GameServerNotFound)
    else Success(st.servers[sid])
  }

  /** Deletes a server. Its members' records are left as they are. */
  function Deregister(st: State, sid: ServerId): (r: Outcome<ServerId>)
    ensures sid == "" ==> r == Failure(MissingGameServerId)
    ensures sid != "" && sid !in st.servers ==> r == Failure(GameServerNotFound)
    ensures r.Success? <==> sid != "" && sid in st.servers
    ensures r.Success? ==>
      && r.value.response == sid
      && r.value.state.servers.Keys == st.servers.Keys - {sid}
      && (forall k :: k in r.value.state.servers ==> r.value.state.servers[k] == st.servers[k])
      && r.value.state.players == st.players
  {
    var _ :- LookupServer(st, sid);
    Success(Step(st.(servers := st.servers - {sid}), sid))
  }

  /** Records that the server was heard from now. */
  function SendHeartbeat(st: State, sid: ServerId, now: Time): (r: Outcome<ServerId>)
    ensures sid == "" ==> r == Failure(MissingGameServerId)
    ensures sid != "" && sid !in st.servers ==> r == Failure(GameServerNotFound)
    ensures r.Success? <==> sid != "" && sid in st.servers
    ensures r.Success? ==>
      && r.value.response == sid
      && r.value.state.servers.Keys == st.servers.Keys
      && r.value.state.servers[sid] == st.servers[sid].(lastHeartbeat := now)
      && (forall k :: k in st.servers && k != sid ==> r.value.state.servers[k] == st.servers[k])
      && r.value.state.players == st.players
  {
    var s :- LookupServer(st, sid);
    Success(Step(st.(servers := st.servers[sid := s.(lastHeartbeat := now)]), sid))
  }

  /** Opens or closes a server for allocation. */
  function SetStatus(st: State, sid: ServerId, status: ServerStatus): (r: Outcome<(ServerId, ServerStatus)>)
    ensures sid == "" ==> r == Failure(MissingGameServerId)
    ensures sid != "" && sid !in st.servers ==> r == Failure(GameServerNotFound)
    ensures r.Success? <==> sid != "" && sid in st.servers
    ensures r.Success? ==>
      && r.value.response == (sid, status)
      && r.value.state.servers.Keys == st.servers.Keys
      && r.value.state.servers[sid] == st.servers[sid].(status := status)
      && (forall k :: k in st.servers && k != sid ==> r.value.state.servers[k] == st.servers[k])
      && r.value.state.players == st.players
  {
    var s :- LookupServer(st, sid);
    Success(Step(st.(servers := st.servers[sid := s.(status := status)]), (sid, status)))
  }

  // ----- Lemmas -----

  /**
   * With the scan covering the store, a server already listening on the
   * requested endpoint keeps its id: the id a registration returns is that
   * server's, and is `freshId` only when no stored server listens there.
   */
  lemma RegisterReusesEndpoint(st: State, req: RegisterRequest, now: Time, scan: seq<ServerId>,
                               freshId: ServerId, sid: ServerId)
    requires freshId != "" && freshId !in st.servers
    requires Wf(st) && Covers(scan, st.servers)
    requires Register(st, req, now, scan, freshId).Success?
    requires sid in st.servers && st.servers[sid].ipV4Address == req.ipV4Address
    requires st.servers[sid].port == req.port
    ensures Register(st, req, now, scan, freshId).value.response == sid
  {
    var r := Register(st, req, now, scan, freshId).value.response;
    assert sid in scan;
    assert r in st.servers;
    assert SameEndpoint(st.servers[r], st.servers[sid]);
  }

  /**
   * Registering the same endpoint again returns the same id and resets the
   * record once more, membership included.
   */
  lemma ReRegisterKeepsId(st: State, req: RegisterRequest, now: Time, scan: seq<ServerId>,
                          freshId: ServerId, req2: RegisterRequest, later: Time,
                          scan2: seq<ServerId>, freshId2: ServerId)
    requires freshId != "" && freshId !in st.servers
    requires Wf(st) && Covers(scan, st.servers)
    requires Register(st, req, now, scan, freshId).Success?
    requires var st1 := Register(st, req, now, scan, freshId).value.state;
      freshId2 != "" && freshId2 !in st1.servers && Covers(scan2, st1.servers)
    requires req2.ipV4Address == req.ipV4Address && req2.port == req.port
    requires req2.gameMode != "" && req2.region != "" && req2.version != ""
    ensures var s1 := Register(st, req, now, scan, freshId).value;
      var s2 := Register(s1.state, req2, later, scan2, freshId2);
      s2.Success? && s2.value.response == s1.response &&
      s2.value.state.servers[s1.response].players == []
  {
    var s1 := Register(st, req, now, scan, freshId).value;
    RegisterPreservesWf(st, req, now, scan, freshId);
    RegisterReusesEndpoint(s1.state, req2, later, scan2, freshId2, s1.response);
  }

  lemma RegisterPreservesWf(st: State, req: RegisterRequest, now: Time, scan: seq<ServerId>,
                            freshId: ServerId)
    requires freshId != "" && freshId !in st.servers
    requires Wf(st) && Covers(scan, st.servers)
    ensures Register(st, req, now, scan, freshId).Success? ==>
      Wf(Register(st, req, now, scan, freshId).value.state)
  {
    var r := Register(st, req, now, scan, freshId);
    if r.Success? {
      var sid := r.value.response;
      var servers' := r.value.state.servers;
      forall a, b | a in servers' && b in servers' && SameEndpoint(servers'[a], servers'[b])
        ensures a == b
      {
        if a != sid && b != sid {
          assert servers'[a] == st.servers[a] && servers'[b] == st.servers[b];
        } else if a == sid && b != sid {
          assert b in st.servers && b in scan;
          assert sid in st.servers;
          assert SameEndpoint(st.servers[sid], st.servers[b]);
        } else if a != sid && b == sid {
          assert a in st.servers && a in scan;
          assert sid in st.servers;
          assert SameEndpoint(st.servers[sid], st.servers[a]);
        }
      }
    }
  }

  lemma DeregisterPreservesWf(st: State, sid: ServerId)
    requires Wf(st)
    ensures Deregister(st, sid).Success? ==> Wf(Deregister(st, sid).value.state)
  {
  }

  lemma SendHeartbeatPreservesWf(st: State, sid: ServerId, now: Time)
    requires Wf(st)
    ensures SendHeartbeat(st, sid, now).Success? ==> Wf(SendHeartbeat(st, sid, now).value.state)
  {
    var r := SendHeartbeat(st, sid, now);
    if r.Success? {
      var servers' := r.value.state.servers;
      forall a, b | a in servers' && b in servers' && SameEndpoint(servers'[a], servers'[b])
        ensures a == b
      {
        assert SameEndpoint(st.servers[a], st.servers[b]);
      }
    }
  }

  lemma SetStatusPreservesWf(st: State, sid: ServerId, status: ServerStatus)
    requires Wf(st)
    ensures SetStatus(st, sid, status).Success? ==> Wf(SetStatus(st, sid, status).value.state)
  {
    var r := SetStatus(st, sid, status);
    if r.Success? {
      var servers' := r.value.state.servers;
      forall a, b | a in servers' && b in servers' && SameEndpoint(servers'[a], servers'[b])
        ensures a == b
      {
        assert SameEndpoint(st.servers[a], st.servers[b]);
      }
    }
  }

  /** Setting a server's status back to what it was undoes the change. */
  lemma SetStatusUndo(st: State, sid: ServerId, status: ServerStatus)
    requires SetStatus(st, sid, status).Success?
    ensures var st1 := SetStatus(st, sid, status).value.state;
      SetStatus(st1, sid, st.servers[sid].status) == Success(Step(st, (sid, st.servers[sid].status)))
  {
    var st1 := SetStatus(st, sid, status).value.state;
    var st2 := SetStatus(st1, sid, st.servers[sid].status).value.state;
    assert st2.servers == st.servers;
  }

  /** Once deregistered, a server is unknown to every id-keyed server operation. */
  lemma DeregisterThenNotFound(st: State, sid: ServerId, now: Time, status: ServerStatus)
    requires Deregister(st, sid).Success?
    ensures var st1 := Deregister(st, sid).value.state;
      && Deregister(st1, sid) == Failure(GameServerNotFound)
      && SendHeartbeat(st1, sid, now) == Failure(GameServerNotFound)
      && SetStatus(st1, sid, status) == Failure(GameServerNotFound)
  {
  }
}
