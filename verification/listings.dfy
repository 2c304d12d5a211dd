/** The two read-only listings of the matchmaking service. */
module Listings {
  import opened Wrappers
  import opened Entities
  import opened ServiceState

  /** One entry of the server listing: the server's fields and its member ids. */
  datatype ServerEntry = ServerEntry(serverId: ServerId, server: GameServer)

  /** One entry of the queue listing: the player's fields and its server's id. */
  datatype QueueEntry = QueueEntry(playerId: PlayerId, player: Player, serverId: Option<ServerId>)

  /**
   * Every stored server, in the order the store enumerates them (`scan`).
   * Ids the scan lists that are not stored are skipped.
   */
  function GetServers(st: State, scan: seq<ServerId>): (r: seq<ServerEntry>)
    ensures |r| <= |scan|
    ensures forall i :: 0 <= i < |r| ==>
      r[i].serverId in scan && r[i].serverId in st.servers && r[i].server == st.servers[r[i].serverId]
    ensures forall sid :: sid in scan && sid in st.servers ==> ServerEntry(sid, st.servers[sid]) in r
    ensures forall i, j :: 0 <= i < j < |r| ==> Before(scan, r[i].serverId, r[j].serverId)
  {
    if scan == [] then []
    else
      var rest := GetServers(st, scan[1..]);
      ServerEntriesAfterHead(scan, rest);
      if scan[0] in st.servers then
        ServerEntryFirstInScan(scan, ServerEntry(scan[0], st.servers[scan[0]]), rest);
        [ServerEntry(scan[0], st.servers[scan[0]])] + rest
      else rest
  }

  /** Entries in the order of the tail of `scan` are in the order of `scan`. */
  lemma ServerEntriesAfterHead(scan: seq<ServerId>, rest: seq<ServerEntry>)
    requires scan != []
    requires forall i, j :: 0 <= i < j < |rest| ==> Before(scan[1..], rest[i].serverId, rest[j].serverId)
    ensures forall i, j :: 0 <= i < j < |rest| ==> Before(scan, rest[i].serverId, rest[j].serverId)
  {
    forall i, j | 0 <= i < j < |rest| ensures Before(scan, rest[i].serverId, rest[j].serverId) {
      BeforeInTail(scan, rest[i].serverId, rest[j].serverId);
    }
  }

  /** An entry for the head of `scan`, put before entries for its tail, keeps scan order. */
  lemma ServerEntryFirstInScan(scan: seq<ServerId>, e: ServerEntry, rest: seq<ServerEntry>)
    requires scan != [] && e.serverId == scan[0]
    requires forall i :: 0 <= i < |rest| ==> rest[i].serverId in scan[1..]
    requires forall i, j :: 0 <= i < j < |rest| ==> Before(scan, rest[i].serverId, rest[j].serverId)
    ensures forall i, j :: 0 <= i < j < |[e] + rest| ==> Before(scan, ([e] + rest)[i].serverId, ([e] + rest)[j].serverId)
  {
    var r := [e] + rest;
    forall i, j | 0 <= i < j < |r| ensures Before(scan, r[i].serverId, r[j].serverId) {
      assert r[j] == rest[j - 1];
      if i == 0 {
        BeforeFromHead(scan, r[j].serverId);
      } else {
        assert r[i] == rest[i - 1];
      }
    }
  }

  /** Over a scan without repeats, each server is listed once. */
  lemma GetServersOnce(st: State, scan: seq<ServerId>)
    requires NoRepeats(scan)
    ensures var r := GetServers(st, scan);
      forall i, j :: 0 <= i < j < |r| ==> r[i].serverId != r[j].serverId
  {
    var r := GetServers(st, scan);
    forall i, j | 0 <= i < j < |r| ensures r[i].serverId != r[j].serverId {
      NothingBeforeItself(scan, r[i].serverId);
    }
  }

  /**
   * Every stored player, in the order the store enumerates them (`scan`),
   * with the id of the server it is assigned to, if any.
   */
  function GetQueue(st: State, scan: seq<PlayerId>): (r: seq<QueueEntry>)
    ensures |r| <= |scan|
    ensures forall i :: 0 <= i < |r| ==>
      && r[i].playerId in scan
      && r[i].playerId in st.players
      && r[i].player == st.players[r[i].playerId]
      && r[i].serverId == st.players[r[i].playerId].gameServer
    ensures forall pid :: pid in scan && pid in st.players ==>
      QueueEntry(pid, st.players[pid], st.players[pid].gameServer) in r
    ensures forall i, j :: 0 <= i < j < |r| ==> Before(scan, r[i].playerId, r[j].playerId)
  {
    if scan == [] then []
    else
      var rest := GetQueue(st, scan[1..]);
      QueueEntriesAfterHead(scan, rest);
      if scan[0] in st.players then
        QueueEntryFirstInScan(scan, QueueEntry(scan[0], st.players[scan[0]], st.players[scan[0]].gameServer), rest);
        [QueueEntry(scan[0], st.players[scan[0]], st.players[scan[0]].gameServer)] + rest
      else rest
  }

  /** Entries in the order of the tail of `scan` are in the order of `scan`. */
  lemma QueueEntriesAfterHead(scan: seq<PlayerId>, rest: seq<QueueEntry>)
    requires scan != []
    requires forall i, j :: 0 <= i < j < |rest| ==> Before(scan[1..], rest[i].playerId, rest[j].playerId)
    ensures forall i, j :: 0 <= i < j < |rest| ==> Before(scan, rest[i].playerId, rest[j].playerId)
  {
    forall i, j | 0 <= i < j < |rest| ensures Before(scan, rest[i].playerId, rest[j].playerId) {
      BeforeInTail(scan, rest[i].playerId, rest[j].playerId);
    }
  }

  /** An entry for the head of `scan`, put before entries for its tail, keeps scan order. */
  lemma QueueEntryFirstInScan(scan: seq<PlayerId>, e: QueueEntry, rest: seq<QueueEntry>)
    requires scan != [] && e.playerId == scan[0]
    requires forall i :: 0 <= i < |rest| ==> rest[i].playerId in scan[1..]
    requires forall i, j :: 0 <= i < j < |rest| ==> Before(scan, rest[i].playerId, rest[j].playerId)
    ensures forall i, j :: 0 <= i < j < |[e] + rest| ==> Before(scan, ([e] + rest)[i].playerId, ([e] + rest)[j].playerId)
  {
    var r := [e] + rest;
    forall i, j | 0 <= i < j < |r| ensures Before(scan, r[i].playerId, r[j].playerId) {
      assert r[j] == rest[j - 1];
      if i == 0 {
        BeforeFromHead(scan, r[j].playerId);
      } else {
        assert r[i] == rest[i - 1];
      }
    }
  }

  /** Over a scan without repeats, each player is listed once. */
  lemma GetQueueOnce(st: State, scan: seq<PlayerId>)
    requires NoRepeats(scan)
    ensures var r := GetQueue(st, scan);
      forall i, j :: 0 <= i < j < |r| ==> r[i].playerId != r[j].playerId
  {
    var r := GetQueue(st, scan);
    forall i, j | 0 <= i < j < |r| ensures r[i].playerId != r[j].playerId {
      NothingBeforeItself(scan, r[i].playerId);
    }
  }

  /** The ids a listing names. */
  function ListedServers(r: seq<ServerEntry>): set<ServerId> {
    set e | e in r :: e.serverId
  }

  /**
   * With a scan that enumerates the whole store, the listing names exactly
   * the stored servers.
   */
  lemma GetServersListsAll(st: State, scan: seq<ServerId>)
    requires Covers(scan, st.servers)
    ensures ListedServers(GetServers(st, scan)) == st.servers.Keys
  {
    var r := GetServers(st, scan);
    forall sid | sid in st.servers ensures sid in ListedServers(r) {
      assert ServerEntry(sid, st.servers[sid]) in r;
    }
  }

  /** The ids a queue listing names. */
  function ListedPlayers(r: seq<QueueEntry>): set<PlayerId> {
    set e | e in r :: e.playerId
  }

  /**
   * With a scan that enumerates the whole store, the queue listing names
   * exactly the stored players.
   */
  lemma GetQueueListsAll(st: State, scan: seq<PlayerId>)
    requires forall pid :: pid in st.players ==> pid in scan
    ensures ListedPlayers(GetQueue(st, scan)) == st.players.Keys
  {
    var r := GetQueue(st, scan);
    forall pid | pid in st.players ensures pid in ListedPlayers(r) {
      assert QueueEntry(pid, st.players[pid], st.players[pid].gameServer) in r;
    }
  }
}
