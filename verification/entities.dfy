/**
 * The two persistent entities of the matchmaking service: game servers and
 * players. A record does not carry its own id: the id is the key under which
 * the service's store holds the record.
 */
module Entities {
  import opened Wrappers

  type ServerId = string
  type PlayerId = string

  /** Seconds on the service's clock. */
  type Time = nat

  datatype ServerStatus = Open | Closed

  datatype PlayerStatus = Queued | Matched | Joined

  /**
   * A registered game server. `players` is the server's membership list, in
   * the order players were allocated to it; it may hold an id more than once
   * and ids of players that no longer exist, since the service does not keep
   * it consistent with the players' back-references.
   */
  datatype GameServer = GameServer(
    version: string,
    gameMode: string,
    region: string,
    ipV4Address: string,
    port: int,
    maxPlayers: int,
    lastHeartbeat: Time,
    status: ServerStatus,
    players: seq<PlayerId>)

  /**
   * A player waiting for, matched to, or playing on a game server. The filter
   * fields and the status are mandatory; the server reference, the ticket and
   * both timestamps are optional.
   */
  datatype Player = Player(
    version: string,
    gameMode: string,
    region: string,
    status: PlayerStatus,
    gameServer: Option<ServerId>,
    ticket: Option<string>,
    matchedTime: Option<Time>,
    joinedTime: Option<Time>)

  /** Number of entries in the server's membership list. */
  function Occupancy(s: GameServer): nat {
    |s.players|
  }

  /** Spare capacity: the clause the allocation filter uses. */
  predicate HasRoom(s: GameServer) {
    Occupancy(s) < s.maxPlayers
  }

  /**
   * A server is full once its membership list has reached its capacity.
   * Being full and having room are exact opposites, and a server whose
   * capacity is zero or negative is full whatever it holds.
   */
  predicate IsFull(s: GameServer)
    ensures IsFull(s) <==> !HasRoom(s)
    ensures s.maxPlayers <= 0 ==> IsFull(s)
  {
    |s.players| >= s.maxPlayers
  }

  /** A player matches a server when game mode, region and version agree exactly. */
  predicate SameFilters(s: GameServer, p: Player) {
    s.version == p.version && s.gameMode == p.gameMode && s.region == p.region
  }
}
