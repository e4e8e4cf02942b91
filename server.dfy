/**
 * The server's session registry and matchmaking queue: the `rooms` map, the
 * `waitingPlayers` FIFO and the socket handlers that update them.  Transport
 * is abstracted away: a handler takes the acting socket's state and its
 * inputs (a fresh room code, the current time in milliseconds), updates the
 * registry and reports the one event it would send.
 *
 * Each handler is first stated as a function on values (`OnCreateRoom`,
 * `OnJoinRoom`, ...); the class `Registry`, whose methods update the map and
 * the queue step by step, is proved to follow those functions.
 */
module Server {
  import opened Wrappers
  import opened Board
  import opened Rooms
  import opened Sequences

  /** Rooms are swept once they are older than 30 minutes. */
  const RoomTtl: int := 30 * 60 * 1000

  /** An entry of `waitingPlayers`: a socket waiting in the room it created. */
  datatype Ticket = Ticket(socketId: string, roomId: string)

  /** What the server keeps on a socket: its id, its name ('' until set) and the room it last entered. */
  datatype Conn = Conn(id: string, playerName: string, currentRoom: Option<string>)

  datatype Lobby = Lobby(rooms: map<string, RoomData>, waitingPlayers: seq<Ticket>)

  datatype Failure = NameNotSet | RoomNotFound | RoomFull | InvalidMove

  /** The message of the 'error' event sent for each failure: an event `Error(f)` is sent with text `Message(f)`. */
  function Message(f: Failure): string
  {
    match f
    case NameNotSet => "Please set your name first"
    case RoomNotFound => "Room not found"
    case RoomFull => "Room is full"
    case InvalidMove => "Invalid move"
  }

  /** The event a handler sends (to the socket, or to everyone in the room). */
  datatype Event =
    | NameSet
    | RoomCreated(roomId: string, state: GameState)
    | PlayerJoined(state: GameState, started: bool)  // 'playerJoined', then 'gameStarted' when started
    | GameStarted(state: GameState)
    | WaitingForOpponent(roomId: string, state: GameState)
    | MoveMade(state: GameState)
    | GameReset(state: GameState)
    | PlayerDisconnected(roomId: string)
    | Silent
    | Error(failure: Failure)

  /** The registry, the socket and the event after a handler ran. */
  datatype Handled = Handled(lobby: Lobby, conn: Conn, event: Event)

  /** Every stored room is filed under its own id, is well formed and has at least one player. */
  predicate Invariant(l: Lobby)
  {
    forall id | id in l.rooms :: l.rooms[id].id == id && WellFormed(l.rooms[id]) && 1 <= |l.rooms[id].players|
  }

  /** `socket.playerName` is truthy. */
  predicate Named(c: Conn)
  {
    c.playerName != ""
  }

  /** The room a disconnecting socket leaves: `socket.currentRoom` when it is truthy (set and non-empty). */
  function Leaving(c: Conn): Option<string>
  {
    if c.currentRoom.Some? && c.currentRoom.value != "" then c.currentRoom else None
  }

  /** The player record a handler builds from the socket: its id and its name. */
  function PlayerOf(c: Conn): Player
  {
    Player(c.id, c.playerName)
  }

  /** A waiting ticket can be honoured: its room still exists with exactly one player. */
  predicate Pairable(rooms: map<string, RoomData>, roomId: string)
  {
    roomId in rooms && |rooms[roomId].players| == 1
  }

  /** `waitingPlayers.shift()` with its result dropped: the oldest ticket goes, the rest keep their order. */
  function Shift(q: seq<Ticket>): (r: seq<Ticket>)
    ensures q != [] ==> [q[0]] + r == q
    ensures q == [] ==> r == []
  {
    if q == [] then [] else q[1..]
  }

  /** The key `findIndex` compares tickets by. */
  function TicketSocket(t: Ticket): string
  {
    t.socketId
  }

  /** `players.filter(p => p.id !== playerId)`: every entry with that id goes, the others stay. */
  function WithoutPlayer(players: seq<Player>, playerId: string): (r: seq<Player>)
    ensures |r| <= |players|
    ensures forall p :: p in r <==> p in players && p.id != playerId
    ensures (forall j | 0 <= j < |players| :: players[j].id != playerId) ==> r == players
  {
    if players == [] then []
    else if players[0].id == playerId then WithoutPlayer(players[1..], playerId)
    else [players[0]] + WithoutPlayer(players[1..], playerId)
  }

  /** The filter keeps every other entry exactly as often as it occurs. */
  lemma {:induction false} WithoutPlayerCounts(players: seq<Player>, playerId: string, p: Player)
    ensures multiset(WithoutPlayer(players, playerId))[p] == if p.id != playerId then multiset(players)[p] else 0
  {
    if players != [] {
      WithoutPlayerCounts(players[1..], playerId, p);
      assert players == [players[0]] + players[1..];
    }
  }

  /** The filter keeps order: filtering a concatenation concatenates the filtered parts. */
  lemma {:induction false} WithoutPlayerAppend(a: seq<Player>, b: seq<Player>, playerId: string)
    ensures WithoutPlayer(a + b, playerId) == WithoutPlayer(a, playerId) + WithoutPlayer(b, playerId)
  {
    if a == [] {
      assert a + b == b;
    } else {
      assert (a + b)[1..] == a[1..] + b;
      WithoutPlayerAppend(a[1..], b, playerId);
    }
  }

  /** The first entry left is the first entry with another id. */
  lemma {:induction false} WithoutPlayerFirst(players: seq<Player>, playerId: string, k: int)
    requires 0 <= k < |players| && players[k].id != playerId
    requires forall j | 0 <= j < k :: players[j].id == playerId
    ensures var r := WithoutPlayer(players, playerId); |r| > 0 && r[0] == players[k]
  {
    if k > 0 {
      WithoutPlayerFirst(players[1..], playerId, k - 1);
    }
  }

  // ---------------------------------------------------------------------
  // The handlers, on values
  // ---------------------------------------------------------------------

  /** 'createRoom': a named socket opens a one-player room under the given code. */
  function OnCreateRoom(l: Lobby, c: Conn, roomId: string, now: int): (h: Handled)
    requires Invariant(l)
    ensures Invariant(h.lobby) && h.conn.id == c.id && h.conn.playerName == c.playerName
    ensures !Named(c) ==> h == Handled(l, c, Error(NameNotSet))
    ensures Named(c) ==>
      && h.lobby.rooms == l.rooms[roomId := NewRoom(roomId, PlayerOf(c), now)]
      && h.lobby.waitingPlayers == l.waitingPlayers
      && h.conn.currentRoom == Some(roomId)
      && h.event == RoomCreated(roomId, GameStateOf(h.lobby.rooms[roomId]))
  {
    if !Named(c) then Handled(l, c, Error(NameNotSet))
    else
      var room := NewRoom(roomId, PlayerOf(c), now);
      Handled(l.(rooms := l.rooms[roomId := room]), c.(currentRoom := Some(roomId)),
              RoomCreated(roomId, GameStateOf(room)))
  }

  /**
   * 'joinRoom': refused without a name, for an unknown code and for a full
   * room, each time with nothing changed; otherwise the socket is appended to
   * the room, which then has two players and is playing.
   */
  function OnJoinRoom(l: Lobby, c: Conn, roomId: string): (h: Handled)
    requires Invariant(l)
    ensures Invariant(h.lobby) && h.lobby.waitingPlayers == l.waitingPlayers
    ensures h.event == Error(NameNotSet) <==> !Named(c)
    ensures h.event == Error(RoomNotFound) <==> Named(c) && roomId !in l.rooms
    ensures h.event == Error(RoomFull) <==> Named(c) && roomId in l.rooms && |l.rooms[roomId].players| >= 2
    ensures h.event.Error? <==> !Named(c) || roomId !in l.rooms || |l.rooms[roomId].players| >= 2
    ensures h.event.Error? ==> h.lobby == l && h.conn == c
    ensures !h.event.Error? ==>
      && roomId in l.rooms && h.lobby.rooms.Keys == l.rooms.Keys
      && (forall id | id in l.rooms && id != roomId :: h.lobby.rooms[id] == l.rooms[id])
      && h.lobby.rooms[roomId] == AddPlayerStep(l.rooms[roomId], PlayerOf(c)).room
      && h.lobby.rooms[roomId].players == l.rooms[roomId].players + [PlayerOf(c)]
      && |h.lobby.rooms[roomId].players| == 2 && h.lobby.rooms[roomId].gameStatus == Playing
      && h.lobby.rooms[roomId].(players := l.rooms[roomId].players, gameStatus := l.rooms[roomId].gameStatus)
         == l.rooms[roomId]
      && h.conn == c.(currentRoom := Some(roomId))
      && h.event == PlayerJoined(GameStateOf(h.lobby.rooms[roomId]), true)
  {
    if !Named(c) then Handled(l, c, Error(NameNotSet))
    else if roomId !in l.rooms then Handled(l, c, Error(RoomNotFound))
    else if |l.rooms[roomId].players| >= 2 then Handled(l, c, Error(RoomFull))
    else
      var room := AddPlayerStep(l.rooms[roomId], PlayerOf(c)).room;
      Handled(l.(rooms := l.rooms[roomId := room]), c.(currentRoom := Some(roomId)),
              PlayerJoined(GameStateOf(room), room.gameStatus == Playing))
  }

  /**
   * 'findRandomGame': the oldest ticket is taken off the queue.  If its room
   * still has exactly one player, the socket joins it and the game starts;
   * otherwise the ticket is dropped and the socket opens a new waiting room
   * and queues a ticket for it at the back.
   */
  function OnFindRandomGame(l: Lobby, c: Conn, roomId: string, now: int): (h: Handled)
    requires Invariant(l)
    ensures Invariant(h.lobby) && h.conn.id == c.id && h.conn.playerName == c.playerName
    ensures !Named(c) ==> h == Handled(l, c, Error(NameNotSet))
    ensures Named(c) && |l.waitingPlayers| > 0 && Pairable(l.rooms, l.waitingPlayers[0].roomId) ==>
      var rid := l.waitingPlayers[0].roomId;
      && h.lobby.waitingPlayers == l.waitingPlayers[1..]
      && h.lobby.rooms.Keys == l.rooms.Keys
      && (forall id | id in l.rooms && id != rid :: h.lobby.rooms[id] == l.rooms[id])
      && h.lobby.rooms[rid] == AddPlayerStep(l.rooms[rid], PlayerOf(c)).room
      && h.lobby.rooms[rid].players == l.rooms[rid].players + [PlayerOf(c)]
      && h.lobby.rooms[rid].gameStatus == Playing
      && h.lobby.rooms[rid].(players := l.rooms[rid].players, gameStatus := l.rooms[rid].gameStatus) == l.rooms[rid]
      && h.conn.currentRoom == Some(rid)
      && h.event == GameStarted(GameStateOf(h.lobby.rooms[rid]))
    ensures Named(c) && !(|l.waitingPlayers| > 0 && Pairable(l.rooms, l.waitingPlayers[0].roomId)) ==>
      && h.lobby.waitingPlayers == Shift(l.waitingPlayers) + [Ticket(c.id, roomId)]
      && h.lobby.rooms == l.rooms[roomId := NewRoom(roomId, PlayerOf(c), now)]
      && h.conn.currentRoom == Some(roomId)
      && h.event == WaitingForOpponent(roomId, GameStateOf(h.lobby.rooms[roomId]))
  {
    if !Named(c) then Handled(l, c, Error(NameNotSet))
    else if |l.waitingPlayers| > 0 && Pairable(l.rooms, l.waitingPlayers[0].roomId) then
      var rid := l.waitingPlayers[0].roomId;
      var room := AddPlayerStep(l.rooms[rid], PlayerOf(c)).room;
      Handled(Lobby(l.rooms[rid := room], l.waitingPlayers[1..]), c.(currentRoom := Some(rid)),
              GameStarted(GameStateOf(room)))
    else
      var room := NewRoom(roomId, PlayerOf(c), now);
      Handled(Lobby(l.rooms[roomId := room], Shift(l.waitingPlayers) + [Ticket(c.id, roomId)]),
              c.(currentRoom := Some(roomId)), WaitingForOpponent(roomId, GameStateOf(room)))
  }

  /**
   * 'makeMove': the socket's current room makes the move for the socket; an
   * accepted move replaces that room, a refused one changes nothing.
   */
  function OnMakeMove(l: Lobby, c: Conn, position: int): (h: Handled)
    requires Invariant(l)
    ensures Invariant(h.lobby) && h.lobby.waitingPlayers == l.waitingPlayers && h.conn == c
    ensures h.event == Error(RoomNotFound) <==> c.currentRoom.None? || c.currentRoom.value !in l.rooms
    ensures h.event.Error? ==> h.lobby == l
    ensures h.event.MoveMade? ==>
      var rid := c.currentRoom.value;
      && rid in l.rooms && h.lobby.rooms.Keys == l.rooms.Keys
      && (forall id | id in l.rooms && id != rid :: h.lobby.rooms[id] == l.rooms[id])
      && Legal(l.rooms[rid], c.id, position)
      && h.lobby.rooms[rid] == MakeMoveStep(l.rooms[rid], c.id, position).room
      && h.event == MoveMade(GameStateOf(h.lobby.rooms[rid]))
    ensures h.event in {Error(RoomNotFound), Error(InvalidMove)} || h.event.MoveMade?
    ensures h.event == Error(InvalidMove) <==>
      c.currentRoom.Some? && c.currentRoom.value in l.rooms && !Legal(l.rooms[c.currentRoom.value], c.id, position)
  {
    if c.currentRoom.None? || c.currentRoom.value !in l.rooms then Handled(l, c, Error(RoomNotFound))
    else
      var rid := c.currentRoom.value;
      var s := MakeMoveStep(l.rooms[rid], c.id, position);
      if s.ok then Handled(l.(rooms := l.rooms[rid := s.room]), c, MoveMade(GameStateOf(s.room)))
      else Handled(l, c, Error(InvalidMove))
  }

  /** 'resetGame': the socket's current room, if it still exists, starts a new game; otherwise nothing happens. */
  function OnResetGame(l: Lobby, c: Conn): (h: Handled)
    requires Invariant(l)
    ensures Invariant(h.lobby) && h.lobby.waitingPlayers == l.waitingPlayers && h.conn == c
    ensures c.currentRoom.None? || c.currentRoom.value !in l.rooms ==> h == Handled(l, c, Silent)
    ensures c.currentRoom.Some? && c.currentRoom.value in l.rooms ==>
      var rid := c.currentRoom.value;
      && h.lobby.rooms == l.rooms[rid := ResetStep(l.rooms[rid])]
      && h.event == GameReset(GameStateOf(h.lobby.rooms[rid]))
  {
    if c.currentRoom.None? || c.currentRoom.value !in l.rooms then Handled(l, c, Silent)
    else
      var rid := c.currentRoom.value;
      var room := ResetStep(l.rooms[rid]);
      Handled(l.(rooms := l.rooms[rid := room]), c, GameReset(GameStateOf(room)))
  }

  /** Taking players out of a stored room, and deleting it once empty, keeps the registry invariant. */
  lemma DepartKeepsInvariant(l: Lobby, rid: string, remaining: seq<Player>, queue: seq<Ticket>)
    requires Invariant(l) && rid in l.rooms && |remaining| <= |l.rooms[rid].players|
    ensures Invariant(Lobby(if |remaining| == 0 then l.rooms - {rid}
                            else l.rooms[rid := l.rooms[rid].(players := remaining)], queue))
  {
  }

  /**
   * 'disconnect': the socket's first ticket leaves the queue; every entry of
   * the socket leaves its current room (if it has one and it still exists),
   * which is deleted exactly when no player is left.  No other room changes.
   */
  function OnDisconnect(l: Lobby, c: Conn): (h: Handled)
    requires Invariant(l)
    ensures Invariant(h.lobby) && h.conn == c
    ensures var i := FindIndex(l.waitingPlayers, TicketSocket, c.id);
      h.lobby.waitingPlayers == if i == -1 then l.waitingPlayers
                                else l.waitingPlayers[..i] + l.waitingPlayers[i + 1..]
    ensures h.lobby.rooms.Keys <= l.rooms.Keys
    ensures forall id | id in l.rooms && Some(id) != Leaving(c) :: id in h.lobby.rooms && h.lobby.rooms[id] == l.rooms[id]
    ensures Leaving(c).Some? && Leaving(c).value in l.rooms ==>
      var rid := Leaving(c).value;
      var remaining := WithoutPlayer(l.rooms[rid].players, c.id);
      && h.event == PlayerDisconnected(rid)
      && (rid !in h.lobby.rooms <==> remaining == [])
      && (rid in h.lobby.rooms ==> h.lobby.rooms[rid] == l.rooms[rid].(players := remaining))
    ensures Leaving(c).None? || Leaving(c).value !in l.rooms ==> h.lobby.rooms == l.rooms && h.event == Silent
  {
    var waitingIndex := FindIndex(l.waitingPlayers, TicketSocket, c.id);
    var queue := if waitingIndex == -1 then l.waitingPlayers
                 else l.waitingPlayers[..waitingIndex] + l.waitingPlayers[waitingIndex + 1..];
    var leaving := Leaving(c);
    if leaving.Some? && leaving.value in l.rooms then
      var rid := leaving.value;
      var room := l.rooms[rid];
      var remaining := WithoutPlayer(room.players, c.id);
      var rooms := if |remaining| == 0 then l.rooms - {rid} else l.rooms[rid := room.(players := remaining)];
      DepartKeepsInvariant(l, rid, remaining, queue);
      Handled(Lobby(rooms, queue), c, PlayerDisconnected(rid))
    else
      Handled(Lobby(l.rooms, queue), c, Silent)
  }

  /** The periodic sweep: it keeps exactly the rooms at most 30 minutes old, unchanged. */
  function Unexpired(rooms: map<string, RoomData>, now: int): (r: map<string, RoomData>)
    ensures forall id :: id in r <==> id in rooms && now - rooms[id].createdAt <= RoomTtl
    ensures forall id | id in r :: r[id] == rooms[id]
  {
    map id | id in rooms && !(now - rooms[id].createdAt > RoomTtl) :: rooms[id]
  }

  // ---------------------------------------------------------------------
  // Properties of the registry
  // ---------------------------------------------------------------------

  /**
   * Random pairing from an empty server: the first caller waits in a new
   * room, the second is paired into it (X and O, playing, queue empty), and a
   * third caller gets a room of its own, leaving the pair's room untouched.
   */
  lemma RandomPairing(a: Conn, b: Conn, c: Conn, roomA: string, roomB: string, roomC: string, t1: int, t2: int, t3: int)
    requires Named(a) && Named(b) && Named(c) && a.id != b.id && roomC != roomA
    ensures var h1 := OnFindRandomGame(Lobby(map[], []), a, roomA, t1);
            var h2 := OnFindRandomGame(h1.lobby, b, roomB, t2);
            var h3 := OnFindRandomGame(h2.lobby, c, roomC, t3);
            && h1.event.WaitingForOpponent? && h1.lobby.waitingPlayers == [Ticket(a.id, roomA)]
            && h2.event.GameStarted? && h2.conn.currentRoom == Some(roomA)
            && h2.lobby.rooms[roomA].players == [PlayerOf(a), PlayerOf(b)]
            && h2.lobby.rooms[roomA].gameStatus == Playing
            && SymbolOf(h2.lobby.rooms[roomA].players, a.id) == Some(X)
            && SymbolOf(h2.lobby.rooms[roomA].players, b.id) == Some(O)
            && h2.lobby.waitingPlayers == []
            && h3.event.WaitingForOpponent? && h3.conn.currentRoom == Some(roomC)
            && h3.lobby.rooms[roomA] == h2.lobby.rooms[roomA]
  {
    var h1 := OnFindRandomGame(Lobby(map[], []), a, roomA, t1);
    assert Pairable(h1.lobby.rooms, h1.lobby.waitingPlayers[0].roomId);
    var h2 := OnFindRandomGame(h1.lobby, b, roomB, t2);
    var players := h2.lobby.rooms[roomA].players;
    assert players[1].id == b.id;
  }

  /**
   * Symbols are positional and recomputed from the filtered list: when the
   * first of two players disconnects, the survivor is now first and moves as X.
   */
  lemma SurvivorBecomesX(l: Lobby, c: Conn, first: Player, survivor: Player)
    requires Invariant(l) && Leaving(c).Some? && c.currentRoom.value in l.rooms
    requires l.rooms[c.currentRoom.value].players == [first, survivor]
    requires first.id == c.id && survivor.id != c.id
    ensures var h := OnDisconnect(l, c);
            && SymbolOf(l.rooms[c.currentRoom.value].players, survivor.id) == Some(O)
            && c.currentRoom.value in h.lobby.rooms
            && h.lobby.rooms[c.currentRoom.value].players == [survivor]
            && SymbolOf(h.lobby.rooms[c.currentRoom.value].players, survivor.id) == Some(X)
  {
    var rid := c.currentRoom.value;
    var players := l.rooms[rid].players;
    assert players[1].id == survivor.id;
    assert WithoutPlayer(players, c.id) == WithoutPlayer([survivor], c.id);
  }

  /**
   * Nothing stops a socket from taking its own ticket: a socket whose ticket
   * is the oldest in the queue and that asks again is paired with itself, as
   * on its second request to an otherwise empty server.  Both entries of the room have its id,
   * so it moves as X and no one can ever move as O: once X has moved, every
   * move in that room is refused.
   */
  lemma SelfPairing(a: Conn, roomA: string, roomB: string, t1: int, t2: int)
    requires Named(a)
    ensures var h1 := OnFindRandomGame(Lobby(map[], []), a, roomA, t1);
            var h2 := OnFindRandomGame(h1.lobby, a, roomB, t2);
            var room := h2.lobby.rooms[roomA];
            && h2.event.GameStarted? && h2.lobby.waitingPlayers == []
            && room.players == [PlayerOf(a), PlayerOf(a)] && room.gameStatus == Playing
            && SymbolOf(room.players, a.id) == Some(X)
            && forall id :: SymbolOf(room.players, id) != Some(O)
  {
    var h1 := OnFindRandomGame(Lobby(map[], []), a, roomA, t1);
    assert Pairable(h1.lobby.rooms, h1.lobby.waitingPlayers[0].roomId);
  }

  /** In a room whose entries all share one id, no move is accepted while O is to move. */
  lemma {:induction false} NoMoveForO(r: RoomData, p: Player, playerId: string, position: int)
    requires WellFormed(r) && r.players == [p, p] && r.currentPlayer == O
    ensures !MakeMoveStep(r, playerId, position).ok
  {
    assert forall j | 0 <= j < |r.players| :: r.players[j] == p;
  }

  // ---------------------------------------------------------------------
  // The objects
  // ---------------------------------------------------------------------

  /** The per-connection state the handlers read and write. */
  class Socket {
    const id: string
    var playerName: string
    var currentRoom: Option<string>

    function Data(): Conn
      reads this
    {
      Conn(id, playerName, currentRoom)
    }

    constructor (id: string)
      ensures Data() == Conn(id, "", None)
    {
      this.id := id;
      playerName := "";
      currentRoom := None;
    }

    /** 'setPlayerName': any name is stored as given. */
    method SetPlayerName(name: string) returns (ev: Event)
      modifies this
      ensures Data() == old(Data()).(playerName := name) && ev == NameSet
    {
      playerName := name;
      ev := NameSet;
    }
  }

  /**
   * The `rooms` map and the `waitingPlayers` queue.  A room is held here by
   * its state: a handler that updates a room in place replaces its entry.
   */
  class Registry {
    var rooms: map<string, RoomData>
    var waitingPlayers: seq<Ticket>

    ghost predicate Valid()
      reads this
    {
      Invariant(Lobby(rooms, waitingPlayers))
    }

    /** The registry as a value. */
    function Abstract(): Lobby
      reads this
    {
      Lobby(rooms, waitingPlayers)
    }

    constructor ()
      ensures Valid() && Abstract() == Lobby(map[], [])
    {
      rooms := map[];
      waitingPlayers := [];
    }

    method CreateRoom(socket: Socket, roomId: string, now: int) returns (ev: Event)
      requires Valid()
      modifies this, socket
      ensures Valid()
      ensures Handled(Abstract(), socket.Data(), ev) == OnCreateRoom(old(Abstract()), old(socket.Data()), roomId, now)
    {
      if socket.playerName == "" {
        return Error(NameNotSet);
      }
      var room := NewRoom(roomId, Player(socket.id, socket.playerName), now);
      rooms := rooms[roomId := room];
      socket.currentRoom := Some(roomId);
      ev := RoomCreated(roomId, GameStateOf(room));
    }

    method JoinRoom(socket: Socket, roomId: string) returns (ev: Event)
      requires Valid()
      modifies this, socket
      ensures Valid()
      ensures Handled(Abstract(), socket.Data(), ev) == OnJoinRoom(old(Abstract()), old(socket.Data()), roomId)
    {
      if socket.playerName == "" {
        return Error(NameNotSet);
      }
      if roomId !in rooms {
        return Error(RoomNotFound);
      }
      if |rooms[roomId].players| >= 2 {
        return Error(RoomFull);
      }
      var room := AddPlayerStep(rooms[roomId], Player(socket.id, socket.playerName)).room;
      rooms := rooms[roomId := room];
      socket.currentRoom := Some(roomId);
      ev := PlayerJoined(GameStateOf(room), room.gameStatus == Playing);
    }

    method FindRandomGame(socket: Socket, roomId: string, now: int) returns (ev: Event)
      requires Valid()
      modifies this, socket
      ensures Valid()
      ensures Handled(Abstract(), socket.Data(), ev) == OnFindRandomGame(old(Abstract()), old(socket.Data()), roomId, now)
    {
      if socket.playerName == "" {
        return Error(NameNotSet);
      }
      if |waitingPlayers| > 0 {
        var waitingPlayer := waitingPlayers[0];
        waitingPlayers := waitingPlayers[1..];
        if waitingPlayer.roomId in rooms && |rooms[waitingPlayer.roomId].players| == 1 {
          var room := AddPlayerStep(rooms[waitingPlayer.roomId], Player(socket.id, socket.playerName)).room;
          rooms := rooms[waitingPlayer.roomId := room];
          socket.currentRoom := Some(waitingPlayer.roomId);
          return GameStarted(GameStateOf(room));
        }
      }
      var room := NewRoom(roomId, Player(socket.id, socket.playerName), now);
      rooms := rooms[roomId := room];
      socket.currentRoom := Some(roomId);
      waitingPlayers := waitingPlayers + [Ticket(socket.id, roomId)];
      ev := WaitingForOpponent(roomId, GameStateOf(room));
    }

    method MakeMove(socket: Socket, position: int) returns (ev: Event)
      requires Valid()
      modifies this
      ensures Valid()
      ensures Handled(Abstract(), socket.Data(), ev) == OnMakeMove(old(Abstract()), old(socket.Data()), position)
    {
      if socket.currentRoom.None? || socket.currentRoom.value !in rooms {
        return Error(RoomNotFound);
      }
      var s := MakeMoveStep(rooms[socket.currentRoom.value], socket.id, position);
      if s.ok {
        rooms := rooms[socket.currentRoom.value := s.room];
        ev := MoveMade(GameStateOf(s.room));
      } else {
        ev := Error(InvalidMove);
      }
    }

    method ResetGame(socket: Socket) returns (ev: Event)
      requires Valid()
      modifies this
      ensures Valid()
      ensures Handled(Abstract(), socket.Data(), ev) == OnResetGame(old(Abstract()), old(socket.Data()))
    {
      if socket.currentRoom.None? || socket.currentRoom.value !in rooms {
        return Silent;
      }
      var room := ResetStep(rooms[socket.currentRoom.value]);
      rooms := rooms[socket.currentRoom.value := room];
      ev := GameReset(GameStateOf(room));
    }

    method Disconnect(socket: Socket) returns (ev: Event)
      requires Valid()
      modifies this
      ensures Valid()
      ensures Handled(Abstract(), socket.Data(), ev) == OnDisconnect(old(Abstract()), old(socket.Data()))
    {
      var waitingIndex := FindIndex(waitingPlayers, TicketSocket, socket.id);
      if waitingIndex != -1 {
        waitingPlayers := waitingPlayers[..waitingIndex] + waitingPlayers[waitingIndex + 1..];
      }
      var leaving := Leaving(socket.Data());
      if leaving.Some? && leaving.value in rooms {
        var rid := leaving.value;
        ev := PlayerDisconnected(rid);
        var remaining := WithoutPlayer(rooms[rid].players, socket.id);
        if |remaining| == 0 {
          rooms := rooms - {rid};
        } else {
          rooms := rooms[rid := rooms[rid].(players := remaining)];
        }
      } else {
        ev := Silent;
      }
    }

    /** The periodic sweep (run every five minutes, here at time `now`). */
    method SweepExpired(now: int)
      requires Valid()
      modifies this
      ensures Valid()
      ensures Abstract() == old(Abstract()).(rooms := Unexpired(old(rooms), now))
    {
      var pending := rooms.Keys;
      while pending != {}
        invariant pending <= rooms.Keys
        invariant waitingPlayers == old(waitingPlayers)
        invariant rooms == map id | id in old(rooms) && (id in pending || now - old(rooms)[id].createdAt <= RoomTtl) :: old(rooms)[id]
        decreases pending
      {
        var roomId :| roomId in pending;
        if now - rooms[roomId].createdAt > RoomTtl {
          rooms := rooms - {roomId};
        }
        pending := pending - {roomId};
      }
    }
  }
}
