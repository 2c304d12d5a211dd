/**
 * The matchmaking service's state, its errors, and the invariant every
 * operation preserves.
 */
module ServiceState {
  import opened Wrappers
  import opened Entities

  /** The two stores: game servers and players, each keyed by id. */
  datatype State = State(servers: map<ServerId, GameServer>, players: map<PlayerId, Player>)

  /** The errors the service raises, one per distinct error code it uses. */
  datatype Error =
    | MissingGameMode
    | MissingIpV4Address
    | MissingRegion
    | MissingVersion
    | MissingGameServerId
    | GameServerNotFound
    | MissingPlayerId
    | PlayerNotFound
    | PlayerNotFoundForServer
    | DanglingServerReference
    | UninitialisedPlayerList

  /** What a successful operation produces: the new state and its response. */
  datatype Step<+T> = Step(state: State, response: T)

  type Outcome<+T> = Result<Step<T>, Error>

  /**
   * Fail-fast validation: the error paired with the first empty field, in the
   * order given, or None when every field is filled in.
   */
  function FirstMissing(checks: seq<(string, Error)>): (r: Option<Error>)
    ensures r.None? <==> forall i :: 0 <= i < |checks| ==> checks[i].0 != ""
    ensures r.Some? ==>
      exists i :: 0 <= i < |checks| && checks[i].0 == "" && checks[i].1 == r.value &&
        forall j :: 0 <= j < i ==> checks[j].0 != ""
    ensures forall i :: (0 <= i < |checks| && checks[i].0 == "" &&
      (forall j :: 0 <= j < i ==> checks[j].0 != "")) ==> r == Some(checks[i].1)
  {
    if checks == [] then None
    else if checks[0].0 == "" then Some(checks[0].1)
    else
      var r := FirstMissing(checks[1..]);
      if r.Some? then
        var i :| 0 <= i < |checks[1..]| && checks[1..][i].0 == "" && checks[1..][i].1 == r.value &&
          forall j :: 0 <= j < i ==> checks[1..][j].0 != "";
        assert checks[i + 1].0 == "" && checks[i + 1].1 == r.value;
        assert forall j :: 0 <= j < i + 1 ==> checks[j].0 != "" by {
          forall j | 0 <= j < i + 1 ensures checks[j].0 != "" {
            if j > 0 { assert checks[j] == checks[1..][j - 1]; }
          }
        }
        r
      else
        r
  }

  /** The store's scan order lists every stored server. */
  predicate Covers(scan: seq<ServerId>, servers: map<ServerId, GameServer>) {
    forall sid :: sid in servers ==> sid in scan
  }

  /** `x` occurs in `s` at some position before an occurrence of `y`. */
  predicate Before<T(==)>(s: seq<T>, x: T, y: T) {
    exists a, b :: 0 <= a < b < |s| && s[a] == x && s[b] == y
  }

  /** No element of `s` occurs twice: what a store's enumeration yields. */
  predicate NoRepeats<T(==)>(s: seq<T>) {
    forall i, j :: 0 <= i < j < |s| ==> s[i] != s[j]
  }

  /** An order seen in the tail is an order of the whole sequence. */
  lemma BeforeInTail<T>(s: seq<T>, x: T, y: T)
    requires s != [] && Before(s[1..], x, y)
    ensures Before(s, x, y)
  {
    var a, b :| 0 <= a < b < |s[1..]| && s[1..][a] == x && s[1..][b] == y;
    assert s[a + 1] == x && s[b + 1] == y;
  }

  /** The head comes before everything in the tail. */
  lemma BeforeFromHead<T>(s: seq<T>, y: T)
    requires s != [] && y in s[1..]
    ensures Before(s, s[0], y)
  {
    var b :| 0 <= b < |s[1..]| && s[1..][b] == y;
    assert s[b + 1] == y;
  }

  /** In a sequence without repeats nothing comes before itself. */
  lemma NothingBeforeItself<T>(s: seq<T>, x: T)
    requires NoRepeats(s)
    ensures !Before(s, x, x)
  {
  }

  /** Two servers listen on the same network endpoint. */
  predicate SameEndpoint(a: GameServer, b: GameServer) {
    a.ipV4Address == b.ipV4Address && a.port == b.port
  }

  /**
   * A stored server: every required field is filled in, and its membership
   * list is within capacity (a server registered with a capacity below zero
   * can only ever hold the empty list).
   */
  predicate ServerWf(s: GameServer) {
    && s.gameMode != "" && s.ipV4Address != "" && s.region != "" && s.version != ""
    && (|s.players| <= s.maxPlayers || s.players == [])
  }

  /**
   * A stored player: its filter fields are filled in and its optional fields
   * agree with its status.
   */
  predicate PlayerWf(p: Player) {
    && p.version != "" && p.gameMode != "" && p.region != ""
    && (p.status == Queued ==> p.gameServer.None? && p.matchedTime.None? && p.joinedTime.None?)
    && (p.status == Matched ==> p.gameServer.Some? && p.matchedTime.Some?)
    && (p.status == Joined ==> p.joinedTime.Some?)
  }

  /** No two stored servers share an endpoint. */
  predicate UniqueEndpoints(servers: map<ServerId, GameServer>) {
    forall a, b :: a in servers && b in servers && SameEndpoint(servers[a], servers[b]) ==> a == b
  }

  /**
   * The invariant of the service's state. It deliberately says nothing about
   * back-references between players and servers: the service does not keep
   * those consistent.
   */
  predicate Wf(st: State) {
    && (forall sid :: sid in st.servers ==> sid != "" && ServerWf(st.servers[sid]))
    && (forall pid :: pid in st.players ==> pid != "" && PlayerWf(st.players[pid]))
    && UniqueEndpoints(st.servers)
  }

  /** Servers that keep their endpoints and do not multiply keep endpoints unique. */
  lemma EndpointsKept(m0: map<ServerId, GameServer>, m1: map<ServerId, GameServer>)
    requires UniqueEndpoints(m0)
    requires m1.Keys <= m0.Keys
    requires forall sid :: sid in m1 ==> SameEndpoint(m1[sid], m0[sid])
    ensures UniqueEndpoints(m1)
  {
    forall a, b | a in m1 && b in m1 && SameEndpoint(m1[a], m1[b])
      ensures a == b
    {
      assert SameEndpoint(m0[a], m0[b]);
    }
  }
}
