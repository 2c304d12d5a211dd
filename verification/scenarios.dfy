/** Concrete runs of the service on small states. */
module Scenarios {
  import opened Wrappers
  import opened Entities
  import opened ServiceState
  import opened ServerLifecycle
  import opened Queue
  import opened Allocation

  const Request := EnqueueRequest("1.0", "GM", "EU")
  const Fresh := Player("1.0", "GM", "EU", Queued, None, None, None, None)
  const Server := GameServer("1.0", "GM", "EU", "1.2.3.4", 8888, 2, 10, Open, [])
  const Info := ServerInfo("s1", "1.2.3.4", 8888)

  /** The state after "s1" registered. */
  function Registered1(): State {
    State(map["s1" := Server], map[])
  }

  /** The state after "p1" joined the queue. */
  function FirstQueued(): State {
    State(Registered1().servers, map["p1" := Fresh])
  }

  /** The state after "p1" was allocated to "s1" at time 20. */
  function OnePlaced(): State {
    State(map["s1" := Server.(players := ["p1"])],
          map["p1" := Fresh.(status := Matched, gameServer := Some("s1"), matchedTime := Some(20))])
  }

  /** The state after "p2" joined the queue behind the allocated "p1". */
  function SecondQueued(): State {
    State(OnePlaced().servers, OnePlaced().players["p2" := Fresh])
  }

  /** On a state with nothing to sweep, the one stored candidate is chosen. */
  lemma SingleCandidateChosen(st: State, p: Player, now: Time, sid: ServerId)
    requires Sweep(st, now) == st && st.servers.Keys == {sid}
    requires IsCandidate(st.servers[sid], p)
    ensures Choose(st, p, now, [sid]) == Some(sid)
  {
    assert [sid][1..] == [];
    var cs := CandidatesInScan(st.servers, p, [sid]);
    assert cs == [sid] + CandidatesInScan(st.servers, p, []);
    var r := FirstLeast(st.servers, cs);
    assert r.Some? && r.value in cs;
  }

  /**
   * On a state with nothing to sweep, a poll scanning the one stored server,
   * a candidate, allocates the player to it.
   */
  lemma PollSingleCandidate(st: State, pid: PlayerId, now: Time, sid: ServerId)
    requires Sweep(st, now) == st && st.servers.Keys == {sid}
    requires pid != "" && pid in st.players && st.players[pid].gameServer.None?
    requires IsCandidate(st.servers[sid], st.players[pid])
    ensures
      var st' := Allocate(st, pid, st.players[pid], sid, now);
      PollMatchmaking(st, pid, now, [sid]) == Success(Step(st', Connection(pid, sid, st'.servers[sid])))
  {
    SingleCandidateChosen(st, st.players[pid], now, sid);
  }

  /** Allocating to the only stored server leaves a one-server store. */
  lemma AllocateSingle(st: State, pid: PlayerId, p: Player, sid: ServerId, now: Time)
    requires st.servers.Keys == {sid}
    ensures Allocate(st, pid, p, sid, now).servers == map[sid := st.servers[sid].(players := st.servers[sid].players + [pid])]
  {}

  /** An empty service registers a server for two players. */
  lemma RegisterFirstServer()
    ensures Register(State(map[], map[]), RegisterRequest("1.0", "GM", "EU", "1.2.3.4", 8888, 2), 10, [], "s1")
      == Success(Step(Registered1(), "s1"))
  {}

  /** The first player joins the queue. */
  lemma FirstPlayerQueues()
    ensures Enqueue(Registered1(), "p1", Request) == Success(Step(FirstQueued(), EnqueueResponse("p1", Queued)))
  {}

  /** At time 20 nothing in the state after the first enqueue is stale. */
  lemma FirstQueuedIsQuiet()
    ensures Sweep(FirstQueued(), 20) == FirstQueued()
    ensures FirstQueued().servers == map["s1" := Server]
    ensures "p1" in FirstQueued().players && FirstQueued().players["p1"] == Fresh
  {
    QuietSweep(FirstQueued(), 20);
  }

  /** Allocating "p1" to "s1" at time 20 gives the state with one placed player. */
  lemma FirstAllocation()
    ensures Allocate(FirstQueued(), "p1", Fresh, "s1", 20) == OnePlaced()
  {
    AllocateSingle(FirstQueued(), "p1", Fresh, "s1", 20);
    assert [] + ["p1"] == ["p1"];
  }

  /** The first player is allocated to the empty server and told to wait. */
  lemma FirstPlayerWaits()
    ensures PollMatchmaking(FirstQueued(), "p1", 20, ["s1"])
      == Success(Step(OnePlaced(), PollResponse("p1", WaitingForPlayers, Some(Info))))
  {
    FirstQueuedIsQuiet();
    PollSingleCandidate(FirstQueued(), "p1", 20, "s1");
    FirstAllocation();
  }

  /** The second player joins the queue; "s1" is untouched. */
  lemma SecondPlayerQueues()
    ensures Enqueue(OnePlaced(), "p2", Request) == Success(Step(SecondQueued(), EnqueueResponse("p2", Queued)))
  {}

  /** At time 30 nothing in the state after the second enqueue is stale. */
  lemma SecondQueuedIsQuiet()
    ensures Sweep(SecondQueued(), 30) == SecondQueued()
    ensures SecondQueued().servers == map["s1" := Server.(players := ["p1"])]
    ensures "p2" in SecondQueued().players && SecondQueued().players["p2"] == Fresh
  {
    QuietSweep(SecondQueued(), 30);
  }

  /**
   * The second player fills the server and is told the match is found; the
   * server lists both players in the order they were allocated.
   */
  lemma SecondPlayerFills()
    ensures
      var r := PollMatchmaking(SecondQueued(), "p2", 30, ["s1"]);
      && r.Success?
      && r.value.response == PollResponse("p2", MatchFound, Some(Info))
      && var members := r.value.state.servers["s1"].players;
      && |members| == 2 && members[0] == "p1" && members[1] == "p2"
  {
    SecondQueuedIsQuiet();
    PollSingleCandidate(SecondQueued(), "p2", 30, "s1");
    AllocateSingle(SecondQueued(), "p2", Fresh, "s1", 30);
  }
}
