/*
 * ClientHandler.kt: the server side of one connection. It keeps the
 * connection's current PVE game, PVP game, room code and player name, and
 * turns each decoded request into calls on the room manager and the games,
 * answering errors itself. Sockets and JSON are abstracted: a request is a
 * method call with typed arguments, and every answer is a `Delivery` on the
 * shared `Network`. Game and room codes, drawn from random UUIDs by the
 * server, are parameters. The connections the server knows are the map
 * `peers` from connection id to handler, which the PVP start needs because
 * it updates every player's handler.
 */
module ClientHandlers {
  import opened Protocol
  import Rooms
  import PveGames
  import PvpGames
  import Dictionary
  import TopScores

  /** Every PVP game gets 5-letter words, 6 attempts, 5 rounds and 90 seconds per round. */
  const PvpConfig := GameConfig(5, 6, 5, 90, true)

  /** The seconds per round of every PVE game, whatever the request says. */
  const PveTimeoutSeconds := 90

  /** The name of a connection until it sends one. */
  const DefaultName := "Jugador"

  /** `players.forEach { it.send(m) }`. */
  method SendToAll(net: Network, ps: seq<ClientId>, m: ServerMessage)
    modifies net
    ensures net.sent == old(net.sent) + Deliveries(ps, m)
  {
    for i := 0 to |ps|
      invariant net.sent == old(net.sent) + Deliveries(ps[..i], m)
    {
      assert ps[..i + 1] == ps[..i] + [ps[i]];
      assert ps[..i + 1][..i] == ps[..i];
      net.Send(ps[i], m);
    }
    assert ps[..|ps|] == ps;
  }

  /** The handlers of the connections in `peers`. */
  ghost function Handlers(peers: map<ClientId, ClientHandler>): set<ClientHandler> {
    set p | p in peers :: peers[p]
  }

  /** Each handler is filed under its own connection id, so distinct ids are distinct handlers. */
  /** The attached games keep their invariants and answer on connection `id`'s network. */
  ghost predicate GamesValid(pve: Option<PveGames.PveGame>, pvp: Option<PvpGames.PvpGame>, id: ClientId, net: Network,
                             records: TopScores.RecordsManager, dictionary: Dictionary.DictionaryManager)
    reads (if pve.Some? then {pve.value} else {}), (if pvp.Some? then {pvp.value} else {}), dictionary
  {
    (pve.Some? ==> pve.value.Valid() && pve.value.net == net && pve.value.client == id) &&
    (pvp.Some? ==> pvp.value.dictionary == dictionary && pvp.value.Valid() && pvp.value.net == net && pvp.value.records == records)
  }

  ghost predicate Indexed(peers: map<ClientId, ClientHandler>) {
    forall p :: p in peers ==> peers[p].id == p
  }

  /** Points the handler of every player in `ps` at the PVP game `g`; no other field or handler changes. */
  method AttachAll(peers: map<ClientId, ClientHandler>, ps: seq<ClientId>, g: PvpGames.PvpGame)
    requires Indexed(peers)
    requires forall p :: p in ps ==> p in peers
    modifies Handlers(peers)
    ensures forall p :: p in peers ==>
      peers[p].currentPvpGame == (if p in ps then Some(g) else old(peers[p].currentPvpGame))
    ensures forall p :: p in peers ==>
      peers[p].currentGame == old(peers[p].currentGame) && peers[p].currentRoomId == old(peers[p].currentRoomId) &&
      peers[p].playerName == old(peers[p].playerName)
  {
    for i := 0 to |ps|
      invariant forall p :: p in peers ==>
        peers[p].currentPvpGame == (if p in ps[..i] then Some(g) else old(peers[p].currentPvpGame))
      invariant forall p :: p in peers ==>
        peers[p].currentGame == old(peers[p].currentGame) && peers[p].currentRoomId == old(peers[p].currentRoomId) &&
        peers[p].playerName == old(peers[p].playerName)
    {
      assert ps[..i + 1] == ps[..i] + [ps[i]];
      peers[ps[i]].currentPvpGame := Some(g);
    }
    assert ps[..|ps|] == ps;
  }

  /** Clears the PVP game and the room code of the handler of every player in `ps`; nothing else changes. */
  method DetachAll(peers: map<ClientId, ClientHandler>, ps: seq<ClientId>)
    requires Indexed(peers)
    requires forall p :: p in ps ==> p in peers
    modifies Handlers(peers)
    ensures forall p :: p in peers ==>
      peers[p].currentPvpGame == (if p in ps then None else old(peers[p].currentPvpGame)) &&
      peers[p].currentRoomId == (if p in ps then None else old(peers[p].currentRoomId))
    ensures forall p :: p in peers ==>
      peers[p].currentGame == old(peers[p].currentGame) && peers[p].playerName == old(peers[p].playerName)
  {
    for i := 0 to |ps|
      invariant forall p :: p in peers ==>
        peers[p].currentPvpGame == (if p in ps[..i] then None else old(peers[p].currentPvpGame)) &&
        peers[p].currentRoomId == (if p in ps[..i] then None else old(peers[p].currentRoomId))
      invariant forall p :: p in peers ==>
        peers[p].currentGame == old(peers[p].currentGame) && peers[p].playerName == old(peers[p].playerName)
    {
      assert ps[..i + 1] == ps[..i] + [ps[i]];
      peers[ps[i]].currentPvpGame := None;
      peers[ps[i]].currentRoomId := None;
    }
    assert ps[..|ps|] == ps;
  }

  /**
   * Clears the PVP game and the room code of the handler of every player in
   * `ps` that is still attached to the game `g`; every other handler, and
   * every other field, is left alone.
   */
  method DetachFrom(peers: map<ClientId, ClientHandler>, ps: seq<ClientId>, g: PvpGames.PvpGame)
    requires Indexed(peers)
    requires forall p :: p in ps ==> p in peers
    modifies Handlers(peers)
    ensures forall p :: p in peers ==>
      var hit := p in ps && old(peers[p].currentPvpGame) == Some(g);
      peers[p].currentPvpGame == (if hit then None else old(peers[p].currentPvpGame)) &&
      peers[p].currentRoomId == (if hit then None else old(peers[p].currentRoomId))
    ensures forall p :: p in peers ==>
      peers[p].currentGame == old(peers[p].currentGame) && peers[p].playerName == old(peers[p].playerName)
  {
    for i := 0 to |ps|
      invariant forall p :: p in peers ==>
        var hit := p in ps[..i] && old(peers[p].currentPvpGame) == Some(g);
        peers[p].currentPvpGame == (if hit then None else old(peers[p].currentPvpGame)) &&
        peers[p].currentRoomId == (if hit then None else old(peers[p].currentRoomId))
      invariant forall p :: p in peers ==>
        peers[p].currentGame == old(peers[p].currentGame) && peers[p].playerName == old(peers[p].playerName)
    {
      assert ps[..i + 1] == ps[..i] + [ps[i]];
      var h := peers[ps[i]];
      if h.currentPvpGame == Some(g) {
        h.currentPvpGame := None;
        h.currentRoomId := None;
      }
    }
    assert ps[..|ps|] == ps;
  }

  class ClientHandler {
    const id: ClientId
    const net: Network
    const roomManager: Rooms.RoomManager
    const dictionary: Dictionary.DictionaryManager
    const records: TopScores.RecordsManager

    var currentGame: Option<PveGames.PveGame>
    var currentPvpGame: Option<PvpGames.PvpGame>
    var currentRoomId: Option<string>
    var playerName: string

    /** The games this connection is attached to. */
    ghost function Games(): set<object>
      reads this
    {
      (if currentGame.Some? then {currentGame.value} else {}) +
      (if currentPvpGame.Some? then {currentPvpGame.value} else {})
    }

    /** The room manager and the attached games keep their invariants and answer on this connection's network. */
    ghost predicate Valid()
      reads this, roomManager, roomManager.rooms.Values, Games(), dictionary
    {
      roomManager.Valid() && GamesValid(currentGame, currentPvpGame, id, net, records, dictionary)
    }

    constructor (id: ClientId, net: Network, roomManager: Rooms.RoomManager,
                 dictionary: Dictionary.DictionaryManager, records: TopScores.RecordsManager)
      requires roomManager.Valid()
      ensures Valid()
      ensures this.id == id && this.net == net && this.roomManager == roomManager
      ensures this.dictionary == dictionary && this.records == records
      ensures currentGame == None && currentPvpGame == None && currentRoomId == None && playerName == DefaultName
    {
      this.id := id;
      this.net := net;
      this.roomManager := roomManager;
      this.dictionary := dictionary;
      this.records := records;
      currentGame := None;
      currentPvpGame := None;
      currentRoomId := None;
      playerName := DefaultName;
    }

    /** SET_PLAYER_NAME: the name is taken as sent. */
    method SetPlayerName(name: string)
      modifies this
      ensures playerName == name
      ensures currentGame == old(currentGame) && currentPvpGame == old(currentPvpGame) && currentRoomId == old(currentRoomId)
    {
      playerName := name;
    }

    /**
     * START_GAME. PVP games only start from rooms: the request is refused with
     * USE_ROOMS. A PVE request becomes the connection's game, with the requested
     * rounds, length, attempts and record flag and 90 seconds per round; its
     * rounds then run as events of that game.
     */
    method StartGame(mode: GameMode, rounds: int, wordLength: int, maxAttempts: int, saveRecords: bool, gameId: string)
      requires Valid()
      modifies this, net
      ensures Valid()
      ensures mode == PVP ==>
        net.sent == old(net.sent) + [Delivery(id, Error(USE_ROOMS))] && currentGame == old(currentGame)
      ensures mode == PVE ==>
        net.sent == old(net.sent) && currentGame.Some? && fresh(currentGame.value) &&
        currentGame.value.config == GameConfig(wordLength, maxAttempts, rounds, PveTimeoutSeconds, saveRecords) &&
        currentGame.value.client == id && currentGame.value.playerName == playerName &&
        currentGame.value.gameId == gameId && !currentGame.value.roundActive
      ensures currentPvpGame == old(currentPvpGame) && currentRoomId == old(currentRoomId) && playerName == old(playerName)
    {
      match mode {
        case PVE =>
          var config := GameConfig(wordLength, maxAttempts, rounds, PveTimeoutSeconds, saveRecords);
          var game := new PveGames.PveGame(gameId, config, id, net, dictionary, records, playerName);
          currentGame := Some(game);
        case PVP =>
          net.Send(id, Error(USE_ROOMS));
      }
    }

    /** GUESS goes to the PVP game if there is one, else to the PVE game, else nowhere. */
    method Guess(rawWord: string, now: int)
      requires Valid()
      modifies Games(), net
      ensures Valid()
      ensures currentPvpGame.Some? && currentGame.Some? ==> unchanged(currentGame.value)
      ensures currentPvpGame.None? && currentGame.None? ==> net.sent == old(net.sent)
    {
      if currentPvpGame.Some? {
        currentPvpGame.value.HandleGuess(id, rawWord, now);
      } else if currentGame.Some? {
        currentGame.value.HandleGuess(rawWord, now);
      }
    }

    /** REQUEST_HINT is routed like GUESS. */
    method RequestHint()
      requires Valid()
      modifies Games(), net
      ensures Valid()
      ensures currentPvpGame.Some? && currentGame.Some? ==> unchanged(currentGame.value)
      ensures currentPvpGame.None? && currentGame.None? ==> net.sent == old(net.sent)
    {
      if currentPvpGame.Some? {
        currentPvpGame.value.HandleRequestHint(id);
      } else if currentGame.Some? {
        currentGame.value.HandleRequestHint();
      }
    }

    /** READY_NEXT_ROUND only concerns a PVP game. */
    method ReadyNextRound()
      requires Valid()
      modifies Games(), net
      ensures Valid()
      ensures currentGame.Some? ==> unchanged(currentGame.value)
      ensures currentPvpGame.None? ==> net.sent == old(net.sent)
    {
      if currentPvpGame.Some? {
        currentPvpGame.value.PlayerReady(id);
      }
    }

    /** GET_RECORDS: both tables, by word length. */
    method GetRecords()
      modifies net
      ensures net.sent == old(net.sent) +
        [Delivery(id, RecordsList(records.records.pveByLength, records.records.pvpByLength))]
    {
      var r := records.GetRecords();
      net.Send(id, RecordsList(r.pveByLength, r.pvpByLength));
    }

    /** LIST_ROOMS: every waiting room. */
    method ListRooms()
      modifies net
      ensures net.sent == old(net.sent) + [Delivery(id, RoomList(roomManager.ListAvailableRooms()))]
    {
      net.Send(id, RoomList(roomManager.ListAvailableRooms()));
    }

    /**
     * CREATE_ROOM: refused with ALREADY_IN_ROOM while in a room; otherwise a
     * new room `roomId` with this connection as host and only player, which
     * becomes the current room, announced with ROOM_CREATED and ROOM_UPDATE.
     */
    method CreateRoom(roomId: string)
      requires Valid()
      modifies this, net, roomManager
      ensures Valid()
      ensures old(currentRoomId).Some? ==>
        net.sent == old(net.sent) + [Delivery(id, Error(ALREADY_IN_ROOM))] &&
        roomManager.rooms == old(roomManager.rooms) && currentRoomId == old(currentRoomId)
      ensures old(currentRoomId).None? ==>
        currentRoomId == Some(roomId) && roomId in roomManager.rooms &&
        fresh(roomManager.rooms[roomId]) && roomManager.rooms == old(roomManager.rooms)[roomId := roomManager.rooms[roomId]] &&
        roomManager.rooms[roomId].host == id && roomManager.rooms[roomId].players == [id] &&
        roomManager.rooms[roomId].status == Rooms.WAITING && roomManager.rooms[roomId].maxPlayers == Rooms.DefaultMaxPlayers &&
        net.sent == old(net.sent) + [Delivery(id, RoomCreated(roomId)), Delivery(id, RoomUpdate(roomId, [playerName], playerName))]
      ensures currentGame == old(currentGame) && currentPvpGame == old(currentPvpGame) && playerName == old(playerName)
    {
      if currentRoomId.Some? {
        net.Send(id, Error(ALREADY_IN_ROOM));
        return;
      }
      var room := roomManager.CreateRoom(id, playerName, roomId);
      currentRoomId := Some(room.roomId);
      net.Send(id, RoomCreated(room.roomId));
      var names := room.GetPlayerNamesList();
      assert names == [playerName];
      net.Send(id, RoomUpdate(room.roomId, names, room.hostName));
    }

    /**
     * JOIN_ROOM: refused with ALREADY_IN_ROOM while in a room, and with
     * ROOM_NOT_FOUND when the code is unknown or the room does not admit the
     * player (full, or already playing). A join makes the room current, answers
     * ROOM_JOINED, and sends ROOM_UPDATE to every player of the room.
     */
    method JoinRoom(roomId: string)
      requires Valid()
      modifies this, net, set rid | rid in roomManager.rooms && rid == roomId :: roomManager.rooms[rid]
      ensures Valid()
      ensures roomManager.rooms == old(roomManager.rooms)
      ensures old(currentRoomId).Some? ==>
        net.sent == old(net.sent) + [Delivery(id, Error(ALREADY_IN_ROOM))] && currentRoomId == old(currentRoomId) &&
        (roomId in roomManager.rooms ==> roomManager.rooms[roomId].players == old(roomManager.rooms[roomId].players))
      ensures old(currentRoomId).None? && !old(Admits(roomId)) ==>
        net.sent == old(net.sent) + [Delivery(id, Error(ROOM_NOT_FOUND))] && currentRoomId == None &&
        (roomId in roomManager.rooms ==> roomManager.rooms[roomId].players == old(roomManager.rooms[roomId].players))
      ensures old(currentRoomId).None? && old(Admits(roomId)) ==>
        var room := roomManager.rooms[roomId];
        var names := room.GetPlayerNamesList();
        currentRoomId == Some(roomId) && room.players == old(room.players) + [id] &&
        net.sent == old(net.sent) + [Delivery(id, RoomJoined(roomId, names))] +
          Deliveries(room.players, RoomUpdate(roomId, names, room.hostName))
      ensures currentGame == old(currentGame) && currentPvpGame == old(currentPvpGame) && playerName == old(playerName)
    {
      if currentRoomId.Some? {
        net.Send(id, Error(ALREADY_IN_ROOM));
        return;
      }
      EnterRoom(roomId);
    }

    /** JOIN_ROOM from a connection in no room: ROOM_NOT_FOUND, or the join and its announcements. */
    method EnterRoom(roomId: string)
      requires Valid() && currentRoomId.None?
      modifies this, net, set rid | rid in roomManager.rooms && rid == roomId :: roomManager.rooms[rid]
      ensures Valid()
      ensures roomManager.rooms == old(roomManager.rooms)
      ensures !old(Admits(roomId)) ==>
        net.sent == old(net.sent) + [Delivery(id, Error(ROOM_NOT_FOUND))] && currentRoomId == None &&
        (roomId in roomManager.rooms ==> roomManager.rooms[roomId].players == old(roomManager.rooms[roomId].players))
      ensures old(Admits(roomId)) ==>
        var room := roomManager.rooms[roomId];
        var names := room.GetPlayerNamesList();
        currentRoomId == Some(roomId) && room.players == old(room.players) + [id] &&
        net.sent == old(net.sent) + [Delivery(id, RoomJoined(roomId, names))] +
          Deliveries(room.players, RoomUpdate(roomId, names, room.hostName))
      ensures currentGame == old(currentGame) && currentPvpGame == old(currentPvpGame) && playerName == old(playerName)
    {
      var r := roomManager.JoinRoom(roomId, id, playerName);
      if r.None? {
        net.Send(id, Error(ROOM_NOT_FOUND));
        return;
      }
      var room := r.value;
      currentRoomId := Some(room.roomId);
      var names := room.GetPlayerNamesList();
      net.Send(id, RoomJoined(room.roomId, names));
      SendToAll(net, room.players, RoomUpdate(room.roomId, names, room.hostName));
    }

    /**
     * Takes this connection out of room `rid` and, when players remain, sends
     * them the room's new state. An unknown code changes nothing.
     */
    method LeaveAndUpdate(rid: string) returns (rest: Option<Rooms.Room>)
      requires roomManager.Valid()
      modifies net, roomManager, set r | r in roomManager.rooms && r == rid :: roomManager.rooms[r]
      ensures roomManager.Valid()
      ensures rid !in old(roomManager.rooms) ==>
        rest == None && roomManager.rooms == old(roomManager.rooms) && net.sent == old(net.sent)
      ensures rid in old(roomManager.rooms) ==>
        var room := old(roomManager.rooms)[rid];
        room.players == Rooms.RemoveFirst(old(room.players), id) &&
        (room.players == [] ==> rest == None && roomManager.rooms == old(roomManager.rooms) - {rid} && net.sent == old(net.sent)) &&
        (room.players != [] ==>
          rest == Some(room) && roomManager.rooms == old(roomManager.rooms) &&
          net.sent == old(net.sent) + Deliveries(room.players, RoomUpdate(rid, room.GetPlayerNamesList(), room.hostName)))
    {
      var isEmpty, r := roomManager.LeaveRoom(rid, id);
      if !isEmpty && r.Some? {
        var room := r.value;
        SendToAll(net, room.players, RoomUpdate(room.roomId, room.GetPlayerNamesList(), room.hostName));
      }
      return r;
    }

    /**
     * LEAVE_ROOM: refused with NOT_IN_ROOM when not in a room. Otherwise the
     * connection leaves its room and has no room any more; the players left
     * behind get ROOM_UPDATE, then PLAYER_LEFT with this player's name.
     */
    method LeaveRoom()
      requires Valid()
      modifies this, net, roomManager, set r | r in roomManager.rooms && Some(r) == currentRoomId :: roomManager.rooms[r]
      ensures Valid()
      ensures currentRoomId == None
      ensures old(currentRoomId).None? ==>
        net.sent == old(net.sent) + [Delivery(id, Error(NOT_IN_ROOM))] && roomManager.rooms == old(roomManager.rooms) &&
        unchanged(roomManager.rooms.Values)
      ensures old(currentRoomId).Some? && old(currentRoomId).value !in old(roomManager.rooms) ==>
        net.sent == old(net.sent) && roomManager.rooms == old(roomManager.rooms)
      ensures old(currentRoomId).Some? && old(currentRoomId).value in old(roomManager.rooms) ==>
        var rid := old(currentRoomId).value;
        var room := old(roomManager.rooms)[rid];
        room.players == Rooms.RemoveFirst(old(room.players), id) &&
        (room.players == [] ==> roomManager.rooms == old(roomManager.rooms) - {rid} && net.sent == old(net.sent)) &&
        (room.players != [] ==>
          roomManager.rooms == old(roomManager.rooms) &&
          net.sent == old(net.sent) + Deliveries(room.players, RoomUpdate(rid, room.GetPlayerNamesList(), room.hostName)) +
            Deliveries(room.players, PlayerLeft(playerName)))
      ensures currentGame == old(currentGame) && currentPvpGame == old(currentPvpGame) && playerName == old(playerName)
    {
      if currentRoomId.None? {
        net.Send(id, Error(NOT_IN_ROOM));
        return;
      }
      var rest := LeaveAndUpdate(currentRoomId.value);
      currentRoomId := None;
      if rest.Some? {
        SendToAll(net, rest.value.players, PlayerLeft(playerName));
      }
    }

    /** This connection is in an existing room, is its host, and the room has at least two players. */
    predicate MayStartPvp()
      reads this, roomManager, roomManager.rooms.Values
    {
      currentRoomId.Some? && currentRoomId.value in roomManager.rooms &&
      roomManager.rooms[currentRoomId.value].host == id && |roomManager.rooms[currentRoomId.value].players| >= 2
    }

    /**
     * START_PVP_GAME. Refused, in this order, with NOT_IN_ROOM, ROOM_NOT_FOUND,
     * NOT_HOST and NOT_ENOUGH_PLAYERS (fewer than two), changing nothing else.
     * Otherwise the room goes IN_GAME, a PVP game `gameId` over the room's
     * players starts, and every player's connection is attached to it. The game
     * is returned so that its end (`PvpGameOver`) can be modelled.
     */
    method StartPvpGame(peers: map<ClientId, ClientHandler>, gameId: string) returns (game: Option<PvpGames.PvpGame>)
      requires Valid() && Indexed(peers) && id in peers && peers[id] == this
      requires forall rid, p :: rid in roomManager.rooms && p in roomManager.rooms[rid].players ==> p in peers
      modifies net, Handlers(peers), set r | r in roomManager.rooms && Some(r) == currentRoomId :: roomManager.rooms[r]
      ensures Valid()
      ensures roomManager.rooms == old(roomManager.rooms)
      ensures old(currentRoomId).None? ==> net.sent == old(net.sent) + [Delivery(id, Error(NOT_IN_ROOM))]
      ensures old(currentRoomId).Some? && old(currentRoomId).value !in roomManager.rooms ==>
        net.sent == old(net.sent) + [Delivery(id, Error(ROOM_NOT_FOUND))]
      ensures old(currentRoomId).Some? && old(currentRoomId).value in roomManager.rooms ==>
        var room := roomManager.rooms[old(currentRoomId).value];
        (room.host != id ==> net.sent == old(net.sent) + [Delivery(id, Error(NOT_HOST))]) &&
        (room.host == id && |room.players| < 2 ==> net.sent == old(net.sent) + [Delivery(id, Error(NOT_ENOUGH_PLAYERS))])
      ensures game.Some? <==> old(MayStartPvp())
      ensures game.None? ==> unchanged(Handlers(peers)) && unchanged(roomManager.rooms.Values)
      ensures game.Some? ==>
        var room := roomManager.rooms[old(currentRoomId).value];
        var g := game.value;
        fresh(g) && g.gameId == gameId && g.config == PvpConfig && g.Valid() && g.net == net && g.records == records &&
        g.dictionary == dictionary &&
        g.players == room.players && g.playerNames == room.playerNames && g.activePlayers == room.players &&
        room.status == Rooms.IN_GAME && room.players == old(room.players) && net.sent == old(net.sent) &&
        (forall p :: p in peers ==>
          peers[p].currentPvpGame == (if p in room.players then game else old(peers[p].currentPvpGame))) &&
        (forall p :: p in peers ==>
          peers[p].currentGame == old(peers[p].currentGame) && peers[p].currentRoomId == old(peers[p].currentRoomId) &&
          peers[p].playerName == old(peers[p].playerName))
    {
      if currentRoomId.None? {
        net.Send(id, Error(NOT_IN_ROOM));
        return None;
      }
      var rid := currentRoomId.value;
      var r := roomManager.GetRoom(rid);
      if r.None? {
        net.Send(id, Error(ROOM_NOT_FOUND));
        return None;
      }
      var room := r.value;
      if room.host != id {
        net.Send(id, Error(NOT_HOST));
        return None;
      }
      if |room.players| < 2 {
        net.Send(id, Error(NOT_ENOUGH_PLAYERS));
        return None;
      }
      var g := Launch(peers, room, gameId);
      return Some(g);
    }

    /**
     * The start itself, once every check has passed: `room` goes IN_GAME, a
     * game over its players is created and every player of it is attached.
     */
    method Launch(peers: map<ClientId, ClientHandler>, room: Rooms.Room, gameId: string) returns (g: PvpGames.PvpGame)
      requires Valid() && Indexed(peers)
      requires room in roomManager.rooms.Values
      requires forall p :: p in room.players ==> p in peers
      modifies Handlers(peers), room
      ensures Valid()
      ensures fresh(g) && g.gameId == gameId && g.config == PvpConfig && g.Valid() && g.net == net && g.records == records
      ensures g.dictionary == dictionary && g.players == room.players && g.playerNames == room.playerNames && g.activePlayers == room.players
      ensures room.status == Rooms.IN_GAME && room.players == old(room.players) && room.playerNames == old(room.playerNames)
      ensures forall p :: p in peers ==>
        peers[p].currentPvpGame == (if p in room.players then Some(g) else old(peers[p].currentPvpGame))
      ensures forall p :: p in peers ==>
        peers[p].currentGame == old(peers[p].currentGame) && peers[p].currentRoomId == old(peers[p].currentRoomId) &&
        peers[p].playerName == old(peers[p].playerName)
    {
      room.status := Rooms.IN_GAME;
      g := new PvpGames.PvpGame(gameId, PvpConfig, room.players, room.playerNames, net, dictionary, records);
      AttachAll(peers, room.players, g);
    }

    /**
     * What happens when the PVP game started from room `rid` returns: every
     * player of the room has its PVP game and its room cleared, and the room is
     * deleted.
     */
    method PvpGameOver(peers: map<ClientId, ClientHandler>, room: Rooms.Room, rid: string)
      requires roomManager.Valid() && Indexed(peers)
      requires forall p :: p in room.players ==> p in peers
      modifies Handlers(peers), roomManager
      ensures roomManager.Valid()
      ensures roomManager.rooms == old(roomManager.rooms) - {rid}
      ensures forall p :: p in peers ==>
        peers[p].currentPvpGame == (if p in room.players then None else old(peers[p].currentPvpGame)) &&
        peers[p].currentRoomId == (if p in room.players then None else old(peers[p].currentRoomId))
      ensures forall p :: p in peers ==>
        peers[p].currentGame == old(peers[p].currentGame) && peers[p].playerName == old(peers[p].playerName)
    {
      DetachAll(peers, room.players);
      roomManager.RemoveRoom(rid);
    }

    /**
     * The end of the PVP game `g` started from room `rid`, cleaning up only the
     * connections still attached to `g`: a player who abandoned the game keeps
     * whatever room it has moved to since. The room is deleted.
     */
    method PvpGameOverAttached(peers: map<ClientId, ClientHandler>, room: Rooms.Room, rid: string, g: PvpGames.PvpGame)
      requires roomManager.Valid() && Indexed(peers)
      requires forall p :: p in room.players ==> p in peers
      modifies Handlers(peers), roomManager
      ensures roomManager.Valid()
      ensures roomManager.rooms == old(roomManager.rooms) - {rid}
      ensures forall p :: p in peers ==>
        var hit := p in room.players && old(peers[p].currentPvpGame) == Some(g);
        peers[p].currentPvpGame == (if hit then None else old(peers[p].currentPvpGame)) &&
        peers[p].currentRoomId == (if hit then None else old(peers[p].currentRoomId))
      ensures forall p :: p in peers ==>
        peers[p].currentGame == old(peers[p].currentGame) && peers[p].playerName == old(peers[p].playerName)
    {
      DetachFrom(peers, room.players, g);
      roomManager.RemoveRoom(rid);
    }

    /**
     * ABANDON_GAME. In a PVP game: the player is removed from it and the
     * connection forgets both the game and its room. Otherwise, with no PVE game,
     * NO_ACTIVE_GAME. Otherwise the PVE game is abandoned and forgotten.
     */
    method AbandonGame(now: int)
      requires Valid()
      modifies this, net, records, Games()
      ensures Valid()
      ensures old(currentPvpGame).Some? ==>
        currentPvpGame == None && currentRoomId == None && currentGame == old(currentGame) &&
        old(currentPvpGame).value.activePlayers == Rooms.RemoveFirst(old(currentPvpGame.value.activePlayers), id)
      ensures old(currentPvpGame).None? && old(currentGame).None? ==>
        net.sent == old(net.sent) + [Delivery(id, Error(NO_ACTIVE_GAME))] &&
        currentGame == None && currentPvpGame == None && currentRoomId == old(currentRoomId)
      ensures old(currentPvpGame).None? && old(currentGame).Some? ==>
        old(currentGame).value.gameAbandoned && net.sent == old(net.sent) + [Delivery(id, GameAbandoned)] &&
        currentGame == None && currentPvpGame == None && currentRoomId == old(currentRoomId)
      ensures playerName == old(playerName)
    {
      if currentPvpGame.Some? {
        currentPvpGame.value.RemovePlayer(id, now);
        currentPvpGame := None;
        currentRoomId := None;
        return;
      }
      if currentGame.None? {
        net.Send(id, Error(NO_ACTIVE_GAME));
        return;
      }
      currentGame.value.Abandon();
      currentGame := None;
    }

    /**
     * The connection closed (`cleanup`): it leaves its room, whose remaining
     * players get ROOM_UPDATE, and then leaves its PVP game, if any.
     */
    method Disconnect(now: int)
      requires Valid()
      modifies net, roomManager, set r | r in roomManager.rooms && Some(r) == currentRoomId :: roomManager.rooms[r]
      modifies records, Games()
      ensures roomManager.Valid()
      ensures currentRoomId.Some? && currentRoomId.value in old(roomManager.rooms) ==>
        var room := old(roomManager.rooms)[currentRoomId.value];
        room.players == Rooms.RemoveFirst(old(room.players), id) &&
        (room.players == [] <==> currentRoomId.value !in roomManager.rooms)
      ensures currentRoomId.None? ==> roomManager.rooms == old(roomManager.rooms)
      ensures currentPvpGame.Some? ==>
        currentPvpGame.value.activePlayers == Rooms.RemoveFirst(old(currentPvpGame.value.activePlayers), id)
    {
      if currentRoomId.Some? {
        var _ := LeaveAndUpdate(currentRoomId.value);
      }
      if currentPvpGame.Some? {
        currentPvpGame.value.RemovePlayer(id, now);
      }
    }

    /** The room `roomId` exists and would admit one more player. */
    predicate Admits(roomId: string)
      reads roomManager, roomManager.rooms.Values
    {
      roomId in roomManager.rooms &&
      |roomManager.rooms[roomId].players| < roomManager.rooms[roomId].maxPlayers &&
      roomManager.rooms[roomId].status == Rooms.WAITING
    }
  }

  /** Connection 1 hosts room "first" and connection 2 has joined it; neither has a game. */
  method TwoInRoom(net: Network, dictionary: Dictionary.DictionaryManager, records: TopScores.RecordsManager)
    returns (mgr: Rooms.RoomManager, host: ClientHandler, quitter: ClientHandler, room: Rooms.Room)
    modifies net
    ensures fresh(mgr) && fresh(host) && fresh(quitter) && fresh(room)
    ensures host.id == 1 && quitter.id == 2 && host.roomManager == mgr && quitter.roomManager == mgr
    ensures host.net == net && quitter.net == net && host.records == records && quitter.records == records
    ensures host.dictionary == dictionary && quitter.dictionary == dictionary
    ensures mgr.Valid() && mgr.rooms == map["first" := room]
    ensures room.players == [1, 2] && room.host == 1
    ensures host.currentRoomId == Some("first") && quitter.currentRoomId == Some("first")
    ensures host.currentGame == None && host.currentPvpGame == None
    ensures quitter.currentGame == None && quitter.currentPvpGame == None
  {
    mgr := new Rooms.RoomManager();
    host := new ClientHandler(1, net, mgr, dictionary, records);
    quitter := new ClientHandler(2, net, mgr, dictionary, records);
    host.CreateRoom("first");
    room := mgr.rooms["first"];
    quitter.JoinRoom("first");
  }

  /**
   * Two connections play a PVP game from room "first", hosted by 1. Player 2
   * abandons the game, which clears its room code while room "first" still
   * lists it, and then hosts a new room "second". This is the state just
   * before the game ends.
   */
  method AbandonThenHost(net: Network, dictionary: Dictionary.DictionaryManager, records: TopScores.RecordsManager, now: int)
    returns (mgr: Rooms.RoomManager, host: ClientHandler, quitter: ClientHandler, room: Rooms.Room,
             peers: map<ClientId, ClientHandler>, g: PvpGames.PvpGame)
    modifies net, records
    ensures fresh(mgr) && fresh(host) && fresh(quitter) && fresh(room)
    ensures peers == map[1 := host, 2 := quitter] && Indexed(peers)
    ensures host.roomManager == mgr && quitter.roomManager == mgr && quitter.net == net && mgr.Valid()
    ensures quitter.id == 2 && quitter.currentGame == None && quitter.currentPvpGame == None
    ensures room.players == [1, 2]
    ensures "second" in mgr.rooms && mgr.rooms["second"].players == [2] && fresh(mgr.rooms["second"])
    ensures quitter.currentRoomId == Some("second")
  {
    mgr, host, quitter, room := TwoInRoom(net, dictionary, records);
    peers := map[1 := host, 2 := quitter];
    var started := host.StartPvpGame(peers, "game");
    g := started.value;
    assert peers[2] == quitter && 2 in room.players;
    quitter.AbandonGame(now);
    quitter.CreateRoom("second");
  }

  /**
   * As written, the end of the first game also clears the room code of the
   * player who had left it: room "second" keeps that player as its host, but
   * the connection no longer knows it, so LEAVE_ROOM is refused and the room
   * stays open.
   */
  method GameOverOrphansRoom(net: Network, dictionary: Dictionary.DictionaryManager, records: TopScores.RecordsManager, now: int)
    returns (mgr: Rooms.RoomManager, quitter: ClientHandler)
    modifies net, records
    ensures quitter.currentRoomId == None
    ensures "second" in mgr.rooms && mgr.rooms["second"].players == [quitter.id]
    ensures |net.sent| > 0 && net.sent[|net.sent| - 1] == Delivery(quitter.id, Error(NOT_IN_ROOM))
  {
    var host, room, peers, g;
    mgr, host, quitter, room, peers, g := AbandonThenHost(net, dictionary, records, now);
    var second := mgr.rooms["second"];
    host.PvpGameOver(peers, room, "first");
    assert mgr.rooms["second"] == second && second.players == [2];
    assert peers[2] == quitter && 2 in room.players;
    quitter.LeaveRoom();
  }

  /**
   * With the corrected clean-up the player who left the game keeps room
   * "second", and can leave it, which deletes it.
   */
  method GameOverKeepsNewRoom(net: Network, dictionary: Dictionary.DictionaryManager, records: TopScores.RecordsManager, now: int)
    returns (mgr: Rooms.RoomManager, quitter: ClientHandler)
    modifies net, records
    ensures quitter.currentRoomId == None
    ensures "second" !in mgr.rooms
  {
    var host, room, peers, g;
    mgr, host, quitter, room, peers, g := AbandonThenHost(net, dictionary, records, now);
    host.PvpGameOverAttached(peers, room, "first", g);
    assert quitter.currentRoomId == Some("second");
    quitter.LeaveRoom();
  }
}
