# Drawing game rooms in Dafny

This project models the room and game state machine of a small multiplayer
drawing-and-guessing server (`server.js`). In this game, players gather in a
private room that they join with a six-character code. They take turns as the
artist, drawing a secret word while the others guess. A correct guess scores
for both the guesser and the artist and ends the round. The game ends at the
end of a round once the configured number of rounds has been reached and the
turn rotation is back at the first player.

The server handles one socket event at a time, to completion. The model keeps
that shape:

- `RoomCode` (`room_code.dfy`) builds the join code from six supplied draws.
  Each draw is an index into a 32-character alphabet that has no `0`, `O`,
  `1` or `I`. The loop of the source is kept.
- `Rules` (`rules.dfy`) holds the pure rules:
  - the player record and the eight secret words;
  - the next-artist rule applied when a round starts;
  - the rotation announced when a round ends;
  - the game-over test;
  - the case-insensitive comparison of a guess with the word;
  - the roster updates: marking the artist, awarding points, removing a player.
- `Events` (`events.dfy`) gives the notifications a handler sends. Each one is
  an event with its payload and its audience: the sender only, or the whole
  room.
- `Server` (`server.dfy`) holds two classes:
  - `Room` is a class. Its configuration is `const` and its round state is
    mutable fields. `StartNewRound` updates the room in place, with the
    `forEach` over the roster written as a loop.
  - `Registry` is the global `rooms` object. It holds a map from room id to
    room, plus the sequence of ids in the order they were added, because JS
    object iteration follows that order. Its methods are the socket handlers:
    `CreatePrivateRoom`, `JoinPrivateRoom`, `StartGame`, `MakeGuess` (with
    `ScoreCorrectGuess` and `EndRound`) and `Disconnect` (with `Leave`).
    `DeleteRoom` is the `delete` on the registry.
- `Scenarios` (`scenarios.dfy`) plays whole games using only the handlers'
  contracts. One game has two players and one configured round. Another has
  the artist leaving during a round. A third has the host leaving the waiting
  room.

The invariant every handler preserves is `Registry.Valid()`:
- the id order and the map hold the same ids, each once;
- every room is stored under its own id;
- every room has at least one player;
- at most one player of a room has the drawing flag;
- while a game is being played, `currentArtist` is a valid roster index, that
  player is the one flagged as drawing, and the word is one of the eight.

This invariant is why `players[currentArtist]` in `makeGuess` is always
defined:
- a join during play appends a player who is not drawing;
- any departure during play deletes the room.

Several behaviours of the code are easy to misread; the model keeps each of
them as written:
- **One round with two players is not a one-round game.** With two players
  and one configured round, the first correct guess does not end the game:
  the artist was player 0, so the rotation moves to 1 and not back to 0, and
  the game ends after the second round (`Scenarios.TwoPlayerGame` plays this
  game through the handlers' contracts).
- **The drawing flag outlives the round.** `endRound` clears neither
  `isDrawing` nor `currentWord`. Between rounds, the previous artist still
  carries the flag. Only "at most one player is drawing" holds at all times.
- **Codes are not unique.** Nothing checks that a new room's code is unused.
  A join goes to the first room, in registry order, whose code matches.
- **Fewer checks than expected.** Joining is allowed during a game.
  `startGame` checks neither the caller nor whether a round is already
  running. A second `createPrivateRoom` from the same connection replaces that
  connection's room, which keeps its place in the registry order.

## Model

| member | source | states |
|---|---|---|
| `RoomCode.GenerateRoomCode` | server.js:14-21 | the code has exactly six characters; character i is the alphabet entry chosen by draw i; every character is in the alphabet and is none of 0, O, 1, I |
| `RoomCode.AlphabetFacts` | server.js:15 | the alphabet has 32 characters and none is a look-alike (0, O, 1, I) |
| `Rules.NextArtist` | server.js:124-125 | the artist picked at a round start is a valid index for any non-empty roster; it is the next player in join order unless there was no artist yet or the last one was at or past the end, in which case it is player 0 |
| `Rules.RotatedArtist` | server.js:193 | the next-artist index announced at the end of a round is a valid index |
| `Rules.RotationAgrees` | server.js:193 | for a valid artist, the index announced at the end of a round equals the artist the next round start picks |
| `Rules.GameOverAfterLastArtist` | server.js:193-194 | the game is over exactly when the round counter has reached the configured number and the artist was the last player in join order |
| `Rules.RoundRobin` | server.js:123-125 | with a fixed roster of P players, the artist of round n is (n - 1) mod P: strict round-robin over join order |
| `Rules.GameLength` | server.js:190-194 | with a fixed roster of P players, round n ends the game exactly when n is at least the configured number of rounds and a multiple of P |
| `Rules.ToLower` | server.js:169 | folding keeps the length and lower-cases each ASCII capital, leaving every other character alone |
| `Rules.MatchesListedWord` | server.js:169 | for each of the eight words, a guess matches exactly when its folded form is the word itself |
| `Rules.MatchesOnlyTheWord` | server.js:169 | a guess matches one of the eight words exactly when it is that word, character for character |
| `Rules.CaseInsensitive` | server.js:169 | a guess that differs from the word only in letter case matches it |
| `Rules.IndexOfPlayer` | server.js:158 | the result is the first roster position holding the connection, or the roster length when none does |
| `Rules.FoundIffInRoster` | server.js:218-220 | the lookup finds a position exactly when the connection is in the roster |
| `Rules.WithArtistDrawsOne` | server.js:131-133 | after the flags are set, exactly the artist is drawing and the roster length is unchanged |
| `Rules.RemoveAt` | server.js:222 | removing a player shortens the roster by one; the players before it stay in place and those after it move up one, in order |
| `Rules.RemoveKeepsAtMostOneDrawing` | server.js:222 | removing a player never creates a second drawing player |
| `Rules.AwardScores` | server.js:171-173 | a correct guess adds exactly 10 to the guesser and 5 to the artist; every other player and field is unchanged, and no score decreases |
| `Rules.AwardAddsFifteen` | server.js:171-173 | a correct guess raises the room's total score by exactly 15 |
| `Server.Without` | server.js:207 | after a delete, the registry order holds exactly the other ids |
| `Server.WithoutKeepsDistinct` | server.js:207 | after a delete, every id still occurs at most once in the registry order |
| `Server.WithoutAt` | server.js:226 | deleting an id that occurs once removes just that entry; the others keep their relative order |
| `Server.Room.constructor` | server.js:40-58 | a new room has the host as its only player with score 0, no game started, round 0, empty word, no artist, and satisfies the room invariant |
| `Server.Room.StartNewRound` | server.js:122-141 | starting a round adds exactly one to the round counter and sets the artist by the next-artist rule; the word is the drawn one of the eight; only the artist is flagged as drawing; the announcement carries word, artist, 60 seconds and round |
| `Server.Registry.constructor` | server.js:11 | the registry starts empty and valid |
| `Server.Registry.CodeIndex` | server.js:73 | the result is the position of the first room in registry order with the given code, or the number of rooms when no room has it |
| `Server.Registry.HolderIndex` | server.js:216-220 | the result is the position of the first room in registry order whose roster holds the connection, or the number of rooms when none does |
| `Server.Registry.CreatePrivateRoom` | server.js:36-69 | the new room is stored under the creator's connection id, replacing a previous room there, and its id is appended to the order only if it is new; the host is the only player; the code comes from the draws; the creator is told the room id and code |
| `Server.Registry.JoinPrivateRoom` | server.js:72-104 | with no room matching the code the answer is roomNotFound; a full room answers roomFull and keeps its roster; otherwise exactly one non-drawing, non-host player with score 0 is appended; the registry and other rooms never change, and a roster within capacity stays within it |
| `Server.Registry.StartGame` | server.js:107-119 | a missing room or one with fewer than two players is left unchanged and nothing is sent; otherwise the game is started, the round counter goes up by one, the artist is a valid index chosen by the rotation, and only the artist is drawing |
| `Server.Registry.DeleteRoom` | server.js:207 | deleting a room removes exactly its id from the map and from the order, and the registry invariant still holds |
| `Server.Registry.EndRound` | server.js:190-209 | ending a round clears gameStarted and leaves the roster, scores, word, artist and round untouched; the room is removed from the registry exactly when the game is over; roundEnded, then gameOver when over |
| `Server.Registry.ScoreCorrectGuess` | server.js:169-186 | a correct guess gives the guesser +10 and the artist +5, who are different players, and no score decreases; then the round ends, deleting the room exactly when the game is over, with the announcements in source order |
| `Server.Registry.MakeGuess` | server.js:154-187 | a guess changes nothing and sends nothing if the room is missing or not playing, or the guesser is absent or drawing; a wrong guess only sends the chat message; a case-insensitive match scores and ends the round; scores never decrease; after a match the room is no longer playing, so a repeated guess falls under the first case |
| `Server.Registry.Leave` | server.js:217-239 | the leaving player's first entry is removed and the rest keep their order; the room is deleted when it becomes empty or a game was being played, otherwise it stays even if the host left; registry invariant kept |
| `Server.Registry.Disconnect` | server.js:212-243 | only the first room in registry order holding the connection is affected, as Leave states; when no room holds it nothing changes |

## Left out

- HTTP and static-file serving, the catch-all route, and `server.listen`
  (server.js:1-8, 23-29, 246-249) are process and transport setup. So is
  `api/socket.js`, which contains no game logic. None of these are modelled.
- Socket.io delivery is not modelled: channel membership (`socket.join`) and
  serialisation of payloads. A notification is a value of `Events.Emit`
  carrying its audience. Its roster payload is the roster at the moment of
  sending. The `isPrivate` flags in the room and in the `joinedRoom` payload
  are constant and never read, so they are dropped.
- `console.log` calls are not modelled.
- The `draw` and `clearCanvas` handlers are not modelled. They forward client
  data to the room and touch no state.
- `Math.random` is replaced by caller-supplied indices: six alphabet indices
  for a code, and one word index per round.
- `toLowerCase` is modelled as case folding of the ASCII letters only. Full
  Unicode case mapping is out of scope. The eight words are Arabic and have no
  case, so a guess matches a word exactly when its folded form equals it.
- Values a client sends are taken to have the expected types:
  - `maxPlayers` and `totalRounds` are integers, so the JavaScript coercions
    of strings or `undefined` in the comparisons are not modelled;
  - `guess` is a string, so the exception `toLowerCase` raises on anything
    else is not modelled.
- Server.Registry.StartGame: an id naming an `Object.prototype` property
  (`constructor`, `toString`, `__proto__`, ...) is found by the plain-object
  lookup in the source, and reading `players.length` from it then throws an
  uncaught `TypeError`; the model's registry is a map holding only created
  rooms, so such an id is a missing room and the handler does nothing.
- JS object keys that look like integers iterate before the others. Socket ids
  are not of that form, so registry order is insertion order.
- Players are values in the room's `players` sequence rather than shared
  objects. Only the handler's own local variable refers to a player object, so
  there is no other alias of it to track.
- There is no concurrency: each handler runs to completion, as under the
  single-threaded event loop.
