/**
 * One game session of the server (`GameRoom`): up to two players, a nine-cell
 * board, the symbol to move, a status and a winner.  The rules are stated as
 * functions on room values (`AddPlayerStep`, `MakeMoveStep`, `ResetStep`), and
 * the class `GameRoom`, whose methods update its fields in place, is proved to
 * follow them.
 */
module Rooms {
  import opened Wrappers
  import opened Board
  import opened Sequences

  datatype Player = Player(id: string, name: string)

  /** 'waiting', 'playing', 'finished'. */
  datatype Status = Waiting | Playing | Finished

  /** null, 'X', 'O' or 'draw'. */
  datatype Winner = NoWinner | Won(mark: Mark) | Draw

  datatype RoomData = RoomData(
    id: string,
    players: seq<Player>,
    board: seq<Cell>,
    currentPlayer: Mark,
    gameStatus: Status,
    winner: Winner,
    createdAt: int)  // milliseconds

  /** What every room satisfies by construction: nine cells and at most two players. */
  predicate WellFormed(r: RoomData)
  {
    |r.board| == 9 && |r.players| <= 2
  }

  /**
   * The game-level invariant of a room: moves alternate (`TurnParity`), the
   * room is finished exactly when it has a winner or a draw, an unfinished
   * board has neither a line nor a full grid, a winner holds a line that the
   * opponent does not, and a draw is a full board without a line.
   */
  ghost predicate Coherent(r: RoomData)
  {
    && WellFormed(r)
    && TurnParity(r.board, r.currentPlayer, r.gameStatus == Finished)
    && (r.gameStatus == Finished <==> r.winner != NoWinner)
    && (r.gameStatus != Finished ==> !ThreeInARow(r.board) && !IsFull(r.board))
    && (r.winner.Won? ==>
          r.winner.mark == r.currentPlayer && Wins(r.board, r.winner.mark) && !Wins(r.board, Other(r.winner.mark)))
    && (r.winner == Draw ==> IsFull(r.board) && !ThreeInARow(r.board))
  }

  /** The outcome of an operation that may be refused: the new room and whether it was accepted. */
  datatype Step = Step(room: RoomData, ok: bool)

  /** `new GameRoom(id, creator)` at time `now`. */
  function NewRoom(id: string, creator: Player, now: int): (r: RoomData)
    ensures WellFormed(r)
    ensures r.id == id && r.players == [creator] && r.createdAt == now
    ensures r.gameStatus == Waiting && r.currentPlayer == X && r.winner == NoWinner
    ensures forall i | 0 <= i < 9 :: r.board[i] == Empty
  {
    RoomData(id, [creator], EmptyBoard, X, Waiting, NoWinner, now)
  }

  /** A new room is coherent: X to move on an empty board, no outcome. */
  lemma NewRoomCoherent(id: string, creator: Player, now: int)
    ensures Coherent(NewRoom(id, creator, now))
  {
    EmptyBoardParity();
  }

  /** The key `findIndex` compares players by. */
  function PlayerId(p: Player): string
  {
    p.id
  }

  /**
   * The symbol a player moves with, fixed by position: the first entry with
   * that id plays X when it is the first player and O otherwise.
   */
  function SymbolOf(players: seq<Player>, playerId: string): (s: Option<Mark>)
    ensures s == Some(X) <==> |players| > 0 && players[0].id == playerId
    ensures s == Some(O) <==> |players| > 0 && players[0].id != playerId
                              && exists j | 0 <= j < |players| :: players[j].id == playerId
    ensures s == None <==> forall j | 0 <= j < |players| :: players[j].id != playerId
  {
    var playerIndex := FindIndex(players, PlayerId, playerId);
    if playerIndex == -1 then None
    else if playerIndex == 0 then Some(X)
    else Some(O)
  }

  /** `addPlayer`: a room takes a player while it has fewer than two. */
  function AddPlayerStep(r: RoomData, player: Player): (s: Step)
    requires WellFormed(r)
    ensures WellFormed(s.room)
    ensures s.ok <==> |r.players| < 2
    ensures !s.ok ==> s.room == r
    ensures s.ok ==> s.room.players == r.players + [player]
    ensures s.ok ==> (s.room.gameStatus == Playing <==> |s.room.players| == 2 || r.gameStatus == Playing)
    ensures s.ok && |s.room.players| < 2 ==> s.room.gameStatus == r.gameStatus
    ensures s.room.(players := r.players, gameStatus := r.gameStatus) == r
  {
    if |r.players| < 2 then
      var players := r.players + [player];
      Step(r.(players := players, gameStatus := if |players| == 2 then Playing else r.gameStatus), true)
    else
      Step(r, false)
  }

  /** Admitting a player keeps an unfinished room coherent: only the status can change, to playing. */
  lemma AddPlayerKeepsCoherent(r: RoomData, player: Player)
    requires Coherent(r) && r.gameStatus != Finished
    ensures Coherent(AddPlayerStep(r, player).room)
  {
  }

  /** Every check `makeMove` makes before it touches the board. */
  predicate Legal(r: RoomData, playerId: string, position: int)
    requires WellFormed(r)
  {
    && r.gameStatus == Playing
    && 0 <= position < 9 && r.board[position] == Empty
    && SymbolOf(r.players, playerId) == Some(r.currentPlayer)
  }

  /**
   * `makeMove`: refused (and nothing changes) unless the room is playing, the
   * cell exists and is empty, the player is in the room and it is their
   * symbol's turn; otherwise exactly that cell gets the mover's symbol, and the
   * room finishes with the mover as winner, finishes as a draw, or passes the
   * turn.
   */
  function MakeMoveStep(r: RoomData, playerId: string, position: int): (s: Step)
    requires WellFormed(r)
    ensures WellFormed(s.room)
    ensures s.ok <==> Legal(r, playerId, position)
    ensures !s.ok ==> s.room == r
    ensures s.ok ==> s.room.board[position] == Marked(r.currentPlayer)
                     && forall i | 0 <= i < 9 && i != position :: s.room.board[i] == r.board[i]
    ensures s.room.players == r.players && s.room.id == r.id && s.room.createdAt == r.createdAt
    ensures s.ok && ThreeInARow(s.room.board) ==>
              s.room.winner == Won(r.currentPlayer) && s.room.gameStatus == Finished
              && s.room.currentPlayer == r.currentPlayer
    ensures s.ok && !ThreeInARow(s.room.board) && IsFull(s.room.board) ==>
              s.room.winner == Draw && s.room.gameStatus == Finished && s.room.currentPlayer == r.currentPlayer
    ensures s.ok && !ThreeInARow(s.room.board) && !IsFull(s.room.board) ==>
              s.room.winner == r.winner && s.room.gameStatus == Playing
              && s.room.currentPlayer == Other(r.currentPlayer)
  {
    if r.gameStatus != Playing then Step(r, false)
    else if !(0 <= position < |r.board|) || r.board[position] != Empty then Step(r, false)
    else
      var playerIndex := FindIndex(r.players, PlayerId, playerId);
      if playerIndex == -1 then Step(r, false)
      else
        var expectedSymbol := if playerIndex == 0 then X else O;
        if r.currentPlayer != expectedSymbol then Step(r, false)
        else
          var board := r.board[position := Marked(r.currentPlayer)];
          if CheckWinner(board) then
            Step(r.(board := board, winner := Won(r.currentPlayer), gameStatus := Finished), true)
          else if IsFull(board) then
            Step(r.(board := board, gameStatus := Finished, winner := Draw), true)
          else
            Step(r.(board := board, currentPlayer := Other(r.currentPlayer)), true)
  }

  /** `reset`: a fresh game in the same room, whatever its status or player count. */
  function ResetStep(r: RoomData): (r': RoomData)
    requires WellFormed(r)
    ensures WellFormed(r')
    ensures forall i | 0 <= i < 9 :: r'.board[i] == Empty
    ensures r'.currentPlayer == X && r'.gameStatus == Playing && r'.winner == NoWinner
    ensures r'.id == r.id && r'.players == r.players && r'.createdAt == r.createdAt
  {
    r.(board := EmptyBoard, currentPlayer := X, gameStatus := Playing, winner := NoWinner)
  }

  /** A reset room is coherent, whatever state it was reset from. */
  lemma ResetCoherent(r: RoomData)
    requires WellFormed(r)
    ensures Coherent(ResetStep(r))
  {
    EmptyBoardParity();
  }

  /** The state snapshot `getGameState` sends to clients. */
  datatype GameState = GameState(
    id: string,
    board: seq<Cell>,
    currentPlayer: Mark,
    gameStatus: Status,
    winner: Winner,
    players: seq<Player>)

  /** `getGameState`: the fields a client sees; the creation time is not sent. */
  function GameStateOf(r: RoomData): GameState
  {
    GameState(r.id, r.board, r.currentPlayer, r.gameStatus, r.winner, r.players)
  }

  /** Two rooms give the same snapshot exactly when they differ at most in their creation time. */
  lemma SnapshotDeterminesRoom(r: RoomData, s: RoomData)
    ensures GameStateOf(r) == GameStateOf(s) <==> r.(createdAt := s.createdAt) == s
  {
  }

  // ---------------------------------------------------------------------
  // Properties of the rules
  // ---------------------------------------------------------------------

  /** An accepted move keeps the room coherent: alternation, outcome and status stay in step. */
  lemma MakeMoveKeepsCoherent(r: RoomData, playerId: string, position: int)
    requires Coherent(r)
    ensures Coherent(MakeMoveStep(r, playerId, position).room)
  {
    var s := MakeMoveStep(r, playerId, position);
    if s.ok {
      MoveDecides(r.board, position, r.currentPlayer);
      ParityAfterMove(r.board, position, r.currentPlayer, s.room.gameStatus == Finished);
      assert s.room.board == r.board[position := Marked(r.currentPlayer)];
    }
  }

  /**
   * A finished room that loses a player (the disconnect handler filters the
   * list) and then admits a new one is playing again with the old winner and
   * the old board: it is no longer coherent.
   */
  lemma RejoinKeepsStaleWinner(r: RoomData, player: Player)
    requires Coherent(r) && r.gameStatus == Finished && |r.players| == 1
    ensures var s := AddPlayerStep(r, player);
      s.ok && s.room.gameStatus == Playing && s.room.winner == r.winner && s.room.winner != NoWinner
      && !Coherent(s.room)
  {
  }

  /** A move sequence submitted to a room (player id, position). */
  datatype Move = Move(playerId: string, position: int)

  /** The room after `moves`, with the symbols placed by the accepted ones, in order. */
  function Replay(r: RoomData, moves: seq<Move>): (res: (RoomData, seq<Mark>))
    requires WellFormed(r)
    ensures WellFormed(res.0)
    decreases |moves|
  {
    if moves == [] then (r, [])
    else
      var s := MakeMoveStep(r, moves[0].playerId, moves[0].position);
      var rest := Replay(s.room, moves[1..]);
      (rest.0, (if s.ok then [r.currentPlayer] else []) + rest.1)
  }

  /** A room that is not playing refuses every move. */
  lemma {:induction false} NoMovesUnlessPlaying(r: RoomData, moves: seq<Move>)
    requires WellFormed(r) && r.gameStatus != Playing
    ensures Replay(r, moves) == (r, [])
    decreases |moves|
  {
    if moves != [] {
      var s := MakeMoveStep(r, moves[0].playerId, moves[0].position);
      assert !s.ok && s.room == r;
      NoMovesUnlessPlaying(r, moves[1..]);
      var rest := Replay(r, moves[1..]);
      assert Replay(r, moves) == (rest.0, [] + rest.1);
      assert [] + rest.1 == [];
    }
  }

  /**
   * Strict alternation: the accepted moves of any sequence place the symbol
   * to move first, then alternate X and O.
   */
  lemma {:induction false} StrictAlternation(r: RoomData, moves: seq<Move>)
    requires WellFormed(r)
    ensures var marks := Replay(r, moves).1;
      && (|marks| > 0 ==> marks[0] == r.currentPlayer)
      && forall i | 1 <= i < |marks| :: marks[i] == Other(marks[i - 1])
    decreases |moves|
  {
    if moves != [] {
      var s := MakeMoveStep(r, moves[0].playerId, moves[0].position);
      StrictAlternation(s.room, moves[1..]);
      var rest := Replay(s.room, moves[1..]).1;
      if s.ok {
        if s.room.gameStatus != Playing {
          NoMovesUnlessPlaying(s.room, moves[1..]);
        } else {
          assert s.room.currentPlayer == Other(r.currentPlayer);
        }
        var marks := [r.currentPlayer] + rest;
        assert forall i | 1 <= i < |marks| :: marks[i] == rest[i - 1];
      }
    }
  }

  // ---------------------------------------------------------------------
  // The room object
  // ---------------------------------------------------------------------

  class GameRoom {
    const id: string
    var players: seq<Player>
    var board: seq<Cell>
    var currentPlayer: Mark
    var gameStatus: Status
    var winner: Winner
    const createdAt: int

    /** The room's fields as a value. */
    function Data(): RoomData
      reads this
    {
      RoomData(id, players, board, currentPlayer, gameStatus, winner, createdAt)
    }

    ghost predicate Valid()
      reads this
    {
      WellFormed(Data())
    }

    constructor (id: string, creator: Player, now: int)
      ensures Valid() && Data() == NewRoom(id, creator, now)
    {
      this.id := id;
      players := [creator];
      board := EmptyBoard;
      currentPlayer := X;
      gameStatus := Waiting;
      winner := NoWinner;
      createdAt := now;
    }

    method AddPlayer(player: Player) returns (ok: bool)
      requires Valid()
      modifies this
      ensures Valid()
      ensures Step(Data(), ok) == AddPlayerStep(old(Data()), player)
    {
      if |players| < 2 {
        players := players + [player];
        if |players| == 2 {
          gameStatus := Playing;
        }
        return true;
      }
      return false;
    }

    method MakeMove(playerId: string, position: int) returns (ok: bool)
      requires Valid()
      modifies this
      ensures Valid()
      ensures Step(Data(), ok) == MakeMoveStep(old(Data()), playerId, position)
    {
      if gameStatus != Playing { return false; }
      if !(0 <= position < |board|) || board[position] != Empty { return false; }

      var playerIndex := FindIndex(players, PlayerId, playerId);
      if playerIndex == -1 { return false; }

      var expectedSymbol := if playerIndex == 0 then X else O;
      if currentPlayer != expectedSymbol { return false; }

      board := board[position := Marked(currentPlayer)];

      if CheckWinner(board) {
        winner := Won(currentPlayer);
        gameStatus := Finished;
      } else if IsFull(board) {
        gameStatus := Finished;
        winner := Draw;
      } else {
        currentPlayer := Other(currentPlayer);
      }
      return true;
    }

    method Reset()
      requires Valid()
      modifies this
      ensures Valid()
      ensures Data() == ResetStep(old(Data()))
    {
      board := EmptyBoard;
      currentPlayer := X;
      gameStatus := Playing;
      winner := NoWinner;
    }
  }
}
