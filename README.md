# Multiplayer tic-tac-toe: rule engines, room registry and matchmaking

This Dafny project models the core of a small multiplayer tic-tac-toe server.

The first part is the server's per-session state machine, `GameRoom` (server.js). It holds:

- up to two players;
- a nine-cell board of `null | 'X' | 'O'`;
- the symbol to move;
- a status (`waiting`, `playing`, `finished`);
- a winner (`null`, `'X'`, `'O'` or `'draw'`).

The second part is the in-memory registry of the server: the `rooms` map and the `waitingPlayers` queue, together with each socket's own state (its name and current room). The socket handlers `createRoom`, `joinRoom`, `findRandomGame`, `makeMove`, `resetGame` and `disconnect` update the registry and the socket's state, and the periodic sweep expires old rooms. `setPlayerName` only stores the name on the socket.

The third part is the standalone engine `GameLogic` (src/game-logic.js). It plays the same game on a 3x3 grid of rows and columns. It rejects moves with explicit messages and scans for a winner row by row, then column by column, then on the two diagonals.

Files:

- `wrappers.dfy`: `Option`.
- `sequences.dfy` (module `Sequences`): `FindIndex`, the first-match search that both the player list and the waiting queue use.
- `board.dfy` (module `Board`): the marks, the cells and the eight winning lines. A line is defined twice, once by geometry (`Wins`, `ThreeInARow`) and once by the server's pattern table (`WinPatterns`). Both scans are stated over the table:
  - the server's `some`, as `AnyComplete` and `CheckWinner`;
  - the standalone engine's first match, as `FirstComplete` and `FirstWinMark`.
  
  The two definitions are proved to agree. The file also has the move-parity bookkeeping (`Count`, `TurnParity`).
- `rooms.dfy` (module `Rooms`): the rules of a room as functions on room values (`AddPlayerStep`, `MakeMoveStep`, `ResetStep`, `GameStateOf`). The game-level invariant `Coherent` is proved to be kept by moves and established by creation and reset. The class `GameRoom` updates its fields in place, and each of its methods is proved equal to the step function.
- `server.dfy` (module `Server`): each handler as a function on the registry and the socket's state (`OnCreateRoom`, ..., `OnDisconnect`, `Unexpired`), with the event it would send. The class `Registry` has methods that update the map and the queue step by step, and each of them is proved to follow its handler function. The class `Socket` holds a connection's name and current room. Its method `SetPlayerName` stores the name and touches nothing else; it has no handler function, and its own ensures state what it does.
- `logic.dfy` (module `Logic`): the class `GameLogic` over a 3x3 `array2`.
  - Its invariant says three things:
    - the winner is the first complete line in scan order;
    - the game is over exactly on a winner or a full grid;
    - moves alternate starting with X.
  - `MakeMove` is proved to keep this invariant.
  - Its loops (`CheckWinner`, `IsBoardFull`) are proved against the value-level definitions.

The model keeps three behaviours of the code that a reader might not expect:

- **Symbols come from position in the player list.** After a disconnect filters the list, the surviving second player becomes X (`SurvivorBecomesX`).
- **A stale ticket is dropped.** A ticket taken off the queue whose room is gone or no longer has exactly one player is discarded. The handler then opens a new room (`OnFindRandomGame`).
- **A socket can take its own ticket.** A socket that asks for a random game again while its own ticket is still the oldest in the queue is paired with itself, for example on its second request to an otherwise empty server. No one in that room can ever move as O (`SelfPairing`, `NoMoveForO`).

The status is not tied to the player count.
- `reset` sets `playing` whatever the number of players.
- `disconnect` removes players without touching the status.
- A finished room that lost a player and admits a new one goes back to `playing` with the old winner and board (`RejoinKeepsStaleWinner`).

So fewer than two players does not always mean `waiting`: a room that lost a player stays `playing` or `finished`. (The converse holds in the code: a room is `waiting` only from its creation with one player until a second player joins.) The model follows the code here: the room invariant `Coherent` is a property of rooms as created, played and reset, and no more.

## Model

| member | source | states |
|---|---|---|
| Board.AnyComplete | server.js:81-86 | `some` over a pattern list: true exactly when one of its patterns holds three equal marks |
| Board.FirstComplete | src/game-logic.js:72-111 | first-match scan: no result exactly when no pattern is complete; otherwise the mark of a complete pattern with no complete pattern before it |
| Board.FirstCompleteAt | src/game-logic.js:72-111 | when pattern k is complete and none before it is, the scan reports pattern k's mark |
| Board.PatternShapes | server.js:75-79 | the table lists the three rows, then the three columns, then the main diagonal and the anti-diagonal |
| Board.CompleteWins | server.js:75-86 | a complete pattern of the table is a geometric row, column or diagonal of its mark |
| Board.WinsComplete | server.js:75-86 | every geometric line of a mark is a complete pattern of the table holding that mark |
| Board.PatternsAgree | server.js:75-86 | the table has a complete pattern exactly when the board has three in a row, and each complete pattern is a line of its mark |
| Board.CheckWinner | server.js:74-87 | `checkWinner` is true exactly when some row, column or diagonal holds three equal marks |
| Board.FirstWinMark | src/game-logic.js:72-111 | the scan finds a mark exactly when there is three in a row, and that mark holds a line |
| Board.LineSurvives | server.js:58 | placing one mark cannot create a line for the other mark |
| Board.MoveDecides | server.js:58-63 | a move on a board without a line never gives the opponent a line; afterwards there is a line exactly when the mover has one, and the scan then reports the mover |
| Board.Other | server.js:68 | the toggle of the turn (also src/game-logic.js:66): the other mark is never the mark itself |
| Board.IsFull | server.js:64 | definition: `every(cell => cell !== null)`, no cell is empty; also the reference definition for `isBoardFull` |
| Board.Complete | server.js:83-85 | definition: the pattern's first cell holds a mark and the other two cells hold the same mark (also the line tests of src/game-logic.js:75-77) |
| Board.CountFill | server.js:58 | filling an empty cell adds one to the mover's count and leaves the other count alone |
| Board.CountEmpty | server.js:30 | an empty board holds no marks |
| Board.EmptyBoardParity | server.js:30-31 | the empty board has no line, is not full, and X is to move |
| Board.ParityAfterMove | server.js:58-69 | after a move by the player to move, X still has as many marks as O or one more; the turn passes if the game goes on and stays with the mover if it ended |
| Rooms.NewRoom | server.js:27-35 | a new room holds only its creator, has an all-empty board, X to move, status waiting, no winner and the creation time |
| Rooms.NewRoomCoherent | server.js:27-35 | a new room satisfies the room invariant |
| Sequences.FindIndex | server.js:52 | `findIndex` by a key: -1 exactly when no element has the key; otherwise the first index holding it (used for players by id and for tickets by socket id, server.js:245) |
| Rooms.SymbolOf | server.js:52-55 | X exactly when the first player has the id; O exactly when a later entry has it and the first does not; none when no entry has it |
| Rooms.AddPlayerStep | server.js:37-46 | accepted exactly when there are fewer than two players, and then appends the player; status becomes playing on reaching two players and otherwise stays; a refusal changes nothing; no other field changes |
| Rooms.AddPlayerKeepsCoherent | server.js:37-46 | admitting a player to an unfinished coherent room keeps it coherent |
| Rooms.MakeMoveStep | server.js:48-72 | accepted exactly when the room is playing, the cell exists and is empty, the player is in the room and their positional symbol is to move; a refusal changes nothing; an accepted move sets exactly that cell; then either the mover wins and the room finishes, or a full board is a draw, or the turn passes; players, id and creation time never change |
| Rooms.MakeMoveKeepsCoherent | server.js:48-72 | every move, accepted or refused, keeps a room coherent: alternation, status and outcome stay in step |
| Rooms.ResetStep | server.js:89-94 | reset empties all nine cells, sets X to move, status playing and no winner; id, players and creation time are kept |
| Rooms.ResetCoherent | server.js:89-94 | a reset room is coherent whatever state it was reset from |
| Rooms.GameStateOf | server.js:96-105 | definition: the snapshot of id, board, turn, status, winner and players (id and name), without the creation time |
| Rooms.SnapshotDeterminesRoom | server.js:96-105 | two rooms give the same snapshot exactly when they differ at most in their creation time, so the snapshot loses nothing else |
| Rooms.RejoinKeepsStaleWinner | server.js:37-46 | a finished room with one player that admits another is playing again with its old winner, and is no longer coherent |
| Rooms.NoMovesUnlessPlaying | server.js:49 | a room that is not playing refuses every move of any sequence and does not change |
| Rooms.StrictAlternation | server.js:52-68 | the accepted moves of any sequence place the symbol to move first and then alternate X and O |
| Rooms.GameRoom.constructor | server.js:27-35 | the object's fields are those of `NewRoom` |
| Rooms.GameRoom.AddPlayer | server.js:37-46 | the new fields and the result are exactly those of `AddPlayerStep` |
| Rooms.GameRoom.MakeMove | server.js:48-72 | the new fields and the result are exactly those of `MakeMoveStep` |
| Rooms.GameRoom.Reset | server.js:89-94 | the new fields are exactly those of `ResetStep` |
| Server.Leaving | server.js:251 | definition: the socket's current room when it is set and non-empty, and none otherwise |
| Server.Message | server.js:137-152 | the text of each 'error' event: "Please set your name first", "Room not found", "Room is full", and "Invalid move" (server.js:227) |
| Server.Named | server.js:118 | definition: the socket's name is set and non-empty, the `!socket.playerName` test (also server.js:138, 172) |
| Server.PlayerOf | server.js:124 | definition: the player record `{ id: socket.id, name: socket.playerName }` (also server.js:154, 183, 198) |
| Server.Pairable | server.js:182 | a ticket's room can take the caller exactly when it exists and has exactly one player |
| Server.Shift | server.js:179 | `shift` with the result dropped: putting the oldest ticket back in front of the result gives the queue again; an empty queue stays empty |
| Server.WithoutPlayer | server.js:257 | `filter`: keeps exactly the entries with another id, and is the list itself when no entry has the id |
| Server.WithoutPlayerCounts | server.js:257 | every entry with another id is kept exactly as often as it occurs; entries with the id are gone |
| Server.WithoutPlayerAppend | server.js:257 | the filter keeps order: filtering a concatenation is the concatenation of the filtered parts |
| Server.WithoutPlayerFirst | server.js:257 | the first entry left is the first entry with another id |
| Server.OnCreateRoom | server.js:117-135 | refused without a name, with nothing changed; otherwise stores a new one-player room under the code, leaves the queue alone and moves the socket into the room; the registry invariant is kept |
| Server.OnJoinRoom | server.js:137-169 | each of the three errors exactly when its own check is the first to fail (no name, unknown code, full room), and an error exactly when one of them fails, with nothing changed; otherwise only that room changes, exactly as `AddPlayerStep` says: it gains the socket as second player and is playing, and its board, turn, winner, id and creation time stay as they were |
| Server.OnFindRandomGame | server.js:171-211 | without a name nothing changes; when the oldest ticket's room has exactly one player, the socket joins it exactly as `AddPlayerStep` says (the room plays, every other field of it is kept), the game starts and the ticket is consumed; otherwise the ticket (if any) is dropped, a new one-player room is stored and a ticket for it goes to the back of the queue |
| Server.OnMakeMove | server.js:213-229 | "Room not found" exactly when the socket's room is missing; "Invalid move" exactly when the room refuses the move, and nothing changes on either error; no other error is sent; otherwise only that room changes, exactly as `MakeMoveStep` says, and the new state of that room is broadcast |
| Server.OnResetGame | server.js:231-239 | silent and unchanged when the socket's room is missing; otherwise only that room is replaced by its reset |
| Server.OnDisconnect | server.js:241-263 | the socket's first ticket is spliced out of the queue; its current room loses every entry with the socket's id and is deleted exactly when none remain; every other room is unchanged |
| Server.Unexpired | server.js:267-275 | keeps exactly the rooms at most 30 minutes old, unchanged |
| Server.RandomPairing | server.js:171-211 | from an empty server: the first caller waits; the second is paired into that room as O with the first as X, the game plays and the queue empties; a third caller gets a room of their own |
| Server.SurvivorBecomesX | server.js:241-263 | when the first of two players disconnects, the survivor, who moved as O, is left alone in the room and now moves as X |
| Server.SelfPairing | server.js:171-211 | from an empty server, a socket that asks twice takes its own (oldest) ticket and is paired with itself: the room holds it twice, it moves as X and no id moves as O |
| Server.NoMoveForO | server.js:52-56 | in such a room no move is accepted once O is to move |
| Server.Socket.constructor | server.js:109-113 | a new connection has no name and is in no room |
| Server.Socket.SetPlayerName | server.js:112-115 | the name is stored as given and `nameSet` is sent |
| Server.Registry.constructor | server.js:23-24 | the registry starts with no rooms and an empty queue |
| Server.Registry.CreateRoom | server.js:117-135 | the registry, the socket and the event are those of `OnCreateRoom` |
| Server.Registry.JoinRoom | server.js:137-169 | the registry, the socket and the event are those of `OnJoinRoom` |
| Server.Registry.FindRandomGame | server.js:171-211 | the registry, the socket and the event are those of `OnFindRandomGame` |
| Server.Registry.MakeMove | server.js:213-229 | the registry and the event are those of `OnMakeMove` |
| Server.Registry.ResetGame | server.js:231-239 | the registry and the event are those of `OnResetGame` |
| Server.Registry.Disconnect | server.js:241-263 | the registry and the event are those of `OnDisconnect` |
| Server.Registry.SweepExpired | server.js:267-275 | the rooms become exactly `Unexpired` of the old rooms, and the queue is unchanged |
| Logic.PlaceKeepsConsistent | src/game-logic.js:53-67 | a move into an empty cell of an unfinished game keeps the engine invariant; any winner it creates is the mover |
| Logic.ResetConsistent | src/game-logic.js:6-15 | the reset state satisfies the engine invariant |
| Logic.ScanHit | src/game-logic.js:72-111 | a scan whose first complete line is number k reports that line's mark |
| Logic.GameLogic.constructor | src/game-logic.js:2-4 | a new engine is in the reset state |
| Logic.GameLogic.Reset | src/game-logic.js:6-15 | a fresh empty grid, X to move, no winner, not over, and the invariant holds |
| Logic.GameLogic.GetBoard | src/game-logic.js:17-19 | three rows of three cells; cell (r, c) is the grid's cell at that row and column |
| Logic.GameLogic.GetCurrentPlayer | src/game-logic.js:21-23 | while the game is on, X is to move exactly when X and O have been placed equally often |
| Logic.GameLogic.GetWinner | src/game-logic.js:25-27 | a winner is present exactly when some line is complete; it holds a line and its opponent does not |
| Logic.GameLogic.IsDraw | src/game-logic.js:29-31 | a draw exactly when the grid is full and no line is complete |
| Logic.GameLogic.IsGameOver | src/game-logic.js:33-35 | over exactly when some line is complete or the grid is full |
| Logic.GameLogic.MakeMove | src/game-logic.js:37-70 | the three rejections with their messages, checked in order, each with nothing changed; success exactly for an in-range, empty cell in an unfinished game; on success only that cell takes the mover's mark, the winner is the mover exactly when a line is now complete, the game is over on a line or a full grid, and the turn passes only if it is not over; the invariant is kept |
| Logic.GameLogic.Place | src/game-logic.js:53-67 | the legal move: the same new state as a successful `MakeMove` |
| Logic.GameLogic.CheckWinner | src/game-logic.js:72-111 | if some line is complete, the winner becomes the mark of the first one in scan order and the game is over; otherwise nothing changes |
| Logic.GameLogic.IsBoardFull | src/game-logic.js:113-122 | true exactly when no cell is empty |

## Left out

- Transport is not modelled: socket.io emits, `io.to(...)` broadcasting and `socket.join`. Each handler reports the one event it would send instead. When `joinRoom` sends both `playerJoined` and `gameStarted`, this is one event with a flag.
- The express, http and cors setup, static serving, `server.listen` and logging (server.js:1-20, 277-280) are left out. They are I/O.
- Room codes from `uuidv4()` are inputs. A code that is already in use overwrites the stored room, as `rooms.set` does.
- `new Date()` and `setInterval` are left out. The creation time and the sweep time are integer millisecond inputs, and the sweep is modelled as one run at a given time.
- Registry rooms are values. The map holds room values, and a handler that changes a `GameRoom` object in place replaces its map entry. Sharing of one room object between the map and a handler is therefore not represented. No handler keeps a room object after it returns, so nothing observable depends on that sharing. The `GameRoom` class itself is modelled with in-place updates and proved to follow the same step functions.
- `getGameState` and `getBoard` return the live board array (aliasing). The model returns the board's contents as a value, so a caller mutating the returned board is not captured.
- Positions are integers. Positions, rows and columns that are not integers (fractions, strings, `undefined`) are left out. The server refuses any position whose cell is not `null`, and that covers out-of-range integers.
- A `playerName` that is set to a value other than a string is left out. Names are strings, and the empty string is the unset name.
- Logic.GameLogic.GetCurrentPlayer: relates the turn to the mark counts only while the game is on. After the game ends, the invariant `TurnParity` says the turn is the last mover.
- public/game.js (the browser client) is not part of this model.
