/*
 * Room.kt / RoomManager (server/src/main/kotlin/model/RoomManager.kt, and its
 * identical copy server/src/main/kotlin/RoomManager.kt): PVP waiting rooms.
 * A connection is identified by its `ClientId`; room codes, which the server
 * draws from a random UUID, are a parameter of `CreateRoom`.
 */
module Rooms {
  import opened Protocol

  datatype RoomStatus = WAITING | IN_GAME

  /** The capacity every room is created with. */
  const DefaultMaxPlayers := 4

  /** `list.remove(x)`: drops the first occurrence of `x`, if any. */
  function RemoveFirst(s: seq<ClientId>, x: ClientId): (r: seq<ClientId>)
    ensures x !in s ==> r == s
    ensures x in s ==> |r| == |s| - 1
  {
    if s == [] then []
    else if s[0] == x then s[1..]
    else [s[0]] + RemoveFirst(s[1..], x)
  }

  /** Exactly one copy of `x` goes, and every other player stays. */
  lemma {:induction false} RemoveFirstCounts(s: seq<ClientId>, x: ClientId)
    ensures multiset(RemoveFirst(s, x)) == multiset(s) - multiset{x}
  {
    if s != [] {
      assert s == [s[0]] + s[1..];
      if s[0] != x {
        RemoveFirstCounts(s[1..], x);
      }
    }
  }

  /** The copy removed is the first one: the list closes up over position `i`, where `x` first appears. */
  lemma {:induction false} RemoveFirstAt(s: seq<ClientId>, x: ClientId, i: int)
    requires 0 <= i < |s| && s[i] == x && x !in s[..i]
    ensures RemoveFirst(s, x) == s[..i] + s[i + 1..]
  {
    if i > 0 {
      assert s[0] in s[..i];
      assert s[1..][i - 1] == x && s[1..][..i - 1] == s[..i][1..];
      RemoveFirstAt(s[1..], x, i - 1);
      assert s[..i] == [s[0]] + s[1..][..i - 1];
      assert s[i + 1..] == s[1..][i..];
    }
  }

  /** `players.mapNotNull { names[it] }`: the names of the players, in player order, skipping any without one. */
  function NamesOf(players: seq<ClientId>, names: map<ClientId, string>): (r: seq<string>)
    ensures |r| <= |players|
    ensures (forall p :: p in players ==> p in names) ==>
      |r| == |players| && forall i :: 0 <= i < |r| ==> r[i] == names[players[i]]
  {
    if players == [] then []
    else (if players[0] in names then [names[players[0]]] else []) + NamesOf(players[1..], names)
  }

  /** A PVP waiting room; the first player is the host, the only one who may start the game. */
  class Room {
    const roomId: string
    const host: ClientId
    const hostName: string
    const maxPlayers: int
    var players: seq<ClientId>
    var playerNames: map<ClientId, string>
    var status: RoomStatus

    /** The room never holds more players than its capacity, and only players have names. */
    ghost predicate Valid()
      reads this
    {
      |players| <= maxPlayers && forall c :: c in playerNames ==> c in players
    }

    constructor (roomId: string, host: ClientId, hostName: string, maxPlayers: int)
      ensures this.roomId == roomId && this.host == host && this.hostName == hostName && this.maxPlayers == maxPlayers
      ensures players == [host] && playerNames == map[host := hostName] && status == WAITING
      ensures maxPlayers >= 1 ==> Valid()
    {
      this.roomId := roomId;
      this.host := host;
      this.hostName := hostName;
      this.maxPlayers := maxPlayers;
      players := [host];
      playerNames := map[host := hostName];
      status := WAITING;
    }

    /** Admits the player only into a waiting room with a free place; the result says whether it did. */
    method AddPlayer(client: ClientId, name: string) returns (added: bool)
      requires Valid()
      modifies this
      ensures Valid()
      ensures added <==> |old(players)| < maxPlayers && old(status) == WAITING
      ensures added ==> players == old(players) + [client] && playerNames == old(playerNames)[client := name]
      ensures !added ==> players == old(players) && playerNames == old(playerNames)
      ensures status == old(status)
    {
      if |players| >= maxPlayers || status != WAITING {
        return false;
      }
      players := players + [client];
      playerNames := playerNames[client := name];
      return true;
    }

    /** Takes the player out (its first place in the list, and its name); the result says whether the room is now empty. */
    method RemovePlayer(client: ClientId) returns (isEmpty: bool)
      requires Valid()
      modifies this
      ensures Valid()
      ensures players == RemoveFirst(old(players), client)
      ensures playerNames == old(playerNames) - {client}
      ensures status == old(status)
      ensures isEmpty <==> players == []
    {
      RemoveFirstCounts(players, client);
      assert forall c :: c in players && c != client ==> c in multiset(players) - multiset{client};
      players := RemoveFirst(players, client);
      playerNames := playerNames - {client};
      return players == [];
    }

    function GetPlayerNamesList(): (names: seq<string>)
      reads this
      ensures |names| <= |players|
      ensures (forall p :: p in players ==> p in playerNames) ==>
        |names| == |players| && forall i :: 0 <= i < |names| ==> names[i] == playerNames[players[i]]
    {
      NamesOf(players, playerNames)
    }

    function ToRoomInfo(): (info: RoomInfo)
      reads this
      ensures info.roomId == roomId && info.hostName == hostName
      ensures info.playerCount == |players| && info.maxPlayers == maxPlayers
    {
      RoomInfo(roomId, hostName, |players|, maxPlayers)
    }
  }

  /** All open rooms, by room code. */
  class RoomManager {
    var rooms: map<string, Room>

    /** Every room is filed under its own code and is itself valid. */
    ghost predicate Valid()
      reads this, rooms.Values
    {
      forall id :: id in rooms ==> rooms[id].roomId == id && rooms[id].Valid()
    }

    constructor ()
      ensures rooms == map[] && Valid()
    {
      rooms := map[];
    }

    /** A new waiting room with `host` alone in it, filed under `roomId` (replacing any room with that code). */
    method CreateRoom(host: ClientId, playerName: string, roomId: string) returns (room: Room)
      requires Valid()
      modifies this
      ensures Valid() && fresh(room)
      ensures rooms == old(rooms)[roomId := room]
      ensures room.roomId == roomId && room.host == host && room.hostName == playerName
      ensures room.players == [host] && room.playerNames == map[host := playerName] && room.status == WAITING
      ensures room.maxPlayers == DefaultMaxPlayers
    {
      room := new Room(roomId, host, playerName, DefaultMaxPlayers);
      rooms := rooms[roomId := room];
    }

    /** The room, if the code is known and the room admits the player. */
    method JoinRoom(roomId: string, client: ClientId, playerName: string) returns (r: Option<Room>)
      requires Valid()
      modifies set id | id in rooms && id == roomId :: rooms[id]
      ensures Valid() && rooms == old(rooms)
      ensures roomId !in rooms ==> r == None
      ensures roomId in rooms ==> var room := rooms[roomId];
        (r.Some? <==> |old(room.players)| < room.maxPlayers && old(room.status) == WAITING) &&
        (r.Some? ==> r.value == room) &&
        (r.Some? ==> room.players == old(room.players) + [client] && room.playerNames == old(room.playerNames)[client := playerName]) &&
        (r.None? ==> room.players == old(room.players) && room.playerNames == old(room.playerNames)) &&
        room.status == old(room.status)
    {
      if roomId !in rooms {
        return None;
      }
      var room := rooms[roomId];
      var added := room.AddPlayer(client, playerName);
      if !added {
        return None;
      }
      return Some(room);
    }

    /**
     * Takes the player out of the room. An unknown code gives (false, None); a room
     * left empty is deleted and gives (true, None); otherwise (false, the room).
     */
    method LeaveRoom(roomId: string, client: ClientId) returns (isEmpty: bool, r: Option<Room>)
      requires Valid()
      modifies this, set id | id in rooms && id == roomId :: rooms[id]
      ensures Valid()
      ensures roomId !in old(rooms) ==> !isEmpty && r == None && rooms == old(rooms)
      ensures roomId in old(rooms) ==> var room := old(rooms)[roomId];
        room.players == RemoveFirst(old(room.players), client) &&
        (isEmpty <==> room.players == []) &&
        (isEmpty ==> r == None && rooms == old(rooms) - {roomId}) &&
        (!isEmpty ==> r == Some(room) && rooms == old(rooms))
    {
      if roomId !in rooms {
        return false, None;
      }
      var room := rooms[roomId];
      isEmpty := room.RemovePlayer(client);
      if isEmpty {
        rooms := rooms - {roomId};
        return true, None;
      }
      return false, Some(room);
    }

    /** `listAvailableRooms`: one entry per WAITING room, full or not, in no particular order. */
    function ListAvailableRooms(): (infos: set<RoomInfo>)
      reads this, rooms.Values
      ensures forall id :: id in rooms && rooms[id].status == WAITING ==> rooms[id].ToRoomInfo() in infos
      ensures forall info :: info in infos ==>
        exists id :: id in rooms && rooms[id].status == WAITING && info == rooms[id].ToRoomInfo()
    {
      set id | id in rooms && rooms[id].status == WAITING :: rooms[id].ToRoomInfo()
    }

    function GetRoom(roomId: string): (r: Option<Room>)
      reads this
      ensures r.Some? <==> roomId in rooms
      ensures r.Some? ==> r.value == rooms[roomId]
    {
      if roomId in rooms then Some(rooms[roomId]) else None
    }

    /** Deletes the room whoever is still in it. */
    method RemoveRoom(roomId: string)
      requires Valid()
      modifies this
      ensures Valid()
      ensures rooms == old(rooms) - {roomId}
    {
      rooms := rooms - {roomId};
    }

    /** Some room the client is a player of, if there is one (which one, when several, is unspecified). */
    method FindRoomByClient(client: ClientId) returns (r: Option<Room>)
      ensures r.Some? ==> r.value in rooms.Values && client in r.value.players
      ensures r.None? ==> forall id :: id in rooms ==> client !in rooms[id].players
    {
      if id :| id in rooms && client in rooms[id].players {
        return Some(rooms[id]);
      }
      return None;
    }
  }

  /** A full room that is still waiting is listed all the same, showing no free place. */
  lemma FullRoomsAreListed(m: RoomManager, id: string)
    requires id in m.rooms && m.rooms[id].status == WAITING
    requires |m.rooms[id].players| == m.rooms[id].maxPlayers
    ensures exists info :: info in m.ListAvailableRooms() && info.roomId == m.rooms[id].roomId && info.playerCount == info.maxPlayers
  {
    assert m.rooms[id].ToRoomInfo() in m.ListAvailableRooms();
  }
}
