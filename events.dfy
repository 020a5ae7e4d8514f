/** The notifications the handlers send. Transport and serialisation are not
    modelled: an emission is its audience and an event with its payload. */
module Events {
  import opened Rules

  datatype Audience =
    | Sender                  // only the connection that sent the request
    | RoomMembers(room: ConnId) // every connection in the room's channel

  datatype Event =
    | PrivateRoomCreated(roomId: ConnId, roomCode: string, roomName: string, players: seq<Player>)
    | RoomNotFound
    | RoomFull
    | PlayerJoinedWaitingRoom(players: seq<Player>)
    | JoinedRoom(roomId: ConnId, roomName: string, maxPlayers: int, totalRounds: int,
                 roomCode: string, players: seq<Player>)
    | GameStarted(players: seq<Player>, roomCode: string)
    | NewRoundStarted(word: string, artistIndex: nat, timeLeft: nat, currentRound: nat)
    | GuessMessage(text: string, playerName: string)
    | CorrectMessage(playerName: string, word: string)
    | CorrectGuess(players: seq<Player>)
    | RoundEnded(players: seq<Player>, nextArtistIndex: nat, currentRound: nat, gameOver: bool)
    | GameOver(players: seq<Player>)
    | PlayerLeftWaitingRoom(players: seq<Player>)

  datatype Emit = Emit(to: Audience, event: Event)
}
