/** Whole games played against the handlers' contracts alone. */
module Scenarios {
  import opened Rules
  import opened Events
  import RoomCode
  import opened Server

  /** Two players, one configured round, room capacity two: a third player
      is turned away, each player draws once, the first correct guess
      scores ten and five without ending the game, a repeated guess in the
      ended round is ignored, and the game ends after the second player's
      turn, when the rotation wraps back to the host. */
  method TwoPlayerGame(host: ConnId, guest: ConnId, third: ConnId, draws: seq<nat>)
    requires host != guest && RoomCode.ValidDraws(draws)
  {
    var reg, room := FullRoom(host, guest, third, draws);
    FirstRound(reg, room, host, guest);
    SecondRound(reg, room, host, guest);
  }

  /** A host creates a room and a guest joins it by its code. */
  method WaitingRoomOfTwo(host: ConnId, guest: ConnId, draws: seq<nat>, maxPlayers: int, totalRounds: int)
    returns (reg: Registry, room: Room)
    requires host != guest && RoomCode.ValidDraws(draws) && maxPlayers >= 2
    ensures fresh(reg) && fresh(room) && reg.Valid()
    ensures reg.rooms == map[host := room] && reg.order == [host] && room.id == host
    ensures room.maxPlayers == maxPlayers && room.totalRounds == totalRounds
    ensures room.players == [Player(host, "Host", 0, true, false), Player(guest, "Guest", 0, false, false)]
    ensures !room.gameStarted && room.currentRound == 0 && room.currentArtist == None
  {
    reg := new Registry();
    var out := reg.CreatePrivateRoom(host, draws, "room", "Host", maxPlayers, totalRounds);
    room := reg.rooms[host];
    assert reg.order == [host];
    out := reg.JoinPrivateRoom(guest, room.code, "Guest");
  }

  /** A third player is turned away from a room for two. */
  method FullRoom(host: ConnId, guest: ConnId, third: ConnId, draws: seq<nat>) returns (reg: Registry, room: Room)
    requires host != guest && RoomCode.ValidDraws(draws)
    ensures fresh(reg) && fresh(room) && reg.Valid()
    ensures reg.rooms == map[host := room] && reg.order == [host] && room.id == host
    ensures room.players == [Player(host, "Host", 0, true, false), Player(guest, "Guest", 0, false, false)]
    ensures !room.gameStarted && room.currentRound == 0 && room.totalRounds == 1
  {
    reg, room := WaitingRoomOfTwo(host, guest, draws, 2, 1);
    var out := reg.JoinPrivateRoom(third, room.code, "Third");
    assert out == [Emit(Sender, RoomFull)];
  }

  /** The host draws and the guest guesses the word, twice. */
  method FirstRound(reg: Registry, room: Room, host: ConnId, guest: ConnId)
    requires host != guest && reg.Valid()
    requires reg.rooms == map[host := room] && reg.order == [host] && room.id == host
    requires room.players == [Player(host, "Host", 0, true, false), Player(guest, "Guest", 0, false, false)]
    requires !room.gameStarted && room.currentRound == 0 && room.totalRounds == 1
    modifies reg, room
    ensures reg.Valid() && reg.rooms == map[host := room] && reg.order == [host]
    ensures |room.players| == 2 && room.players[0].id == host && room.players[1].id == guest
    ensures room.players[0].score == 5 && room.players[1].score == 10
    ensures !room.gameStarted && room.currentRound == 1 && room.currentArtist == Some(0)
  {
    var out := reg.StartGame(host, 0);
    assert room.currentArtist == Some(0) && room.currentRound == 1;
    assert IndexOfPlayer(room.players, guest) == 1 && !room.players[1].isDrawing;
    out := reg.MakeGuess(guest, host, Words[0]);
    assert !IsGameOver(1, 1, 0, 2);
    out := reg.MakeGuess(guest, host, Words[0]);
    assert out == [];
  }

  /** The guest draws and the host guesses; the rotation wraps and the game ends. */
  method SecondRound(reg: Registry, room: Room, host: ConnId, guest: ConnId)
    requires host != guest && reg.Valid() && reg.rooms == map[host := room] && reg.order == [host]
    requires |room.players| == 2 && room.players[0].id == host && room.players[1].id == guest
    requires room.players[0].score == 5 && room.players[1].score == 10
    requires !room.gameStarted && room.currentRound == 1 && room.currentArtist == Some(0) && room.totalRounds == 1
    modifies reg, room
    ensures |room.players| == 2 && room.players[0].score == 15 && room.players[1].score == 15
    ensures reg.rooms == map[] && reg.order == []
  {
    var out := reg.StartGame(host, 3);
    assert room.currentArtist == Some(1) && room.currentRound == 2;
    assert IndexOfPlayer(room.players, host) == 0 && !room.players[0].isDrawing;
    assert IsGameOver(2, 1, 1, 2);
    assert Without([host], host) == [];
    out := reg.MakeGuess(host, host, Words[3]);
  }

  /** The artist leaves during a round: the game ends at once and the room
      is deleted, whatever the number of rounds still to play. */
  method ArtistLeavesMidRound(host: ConnId, guest: ConnId, draws: seq<nat>)
    requires host != guest && RoomCode.ValidDraws(draws)
  {
    var reg, room := WaitingRoomOfTwo(host, guest, draws, 4, 10);
    var out := reg.StartGame(host, 5);
    assert room.players[0].id == host && room.players[0].isDrawing;
    assert room.players[1] == Player(guest, "Guest", 0, false, false);
    assert Without([host], host) == [];
    out := reg.Disconnect(host);
    assert room.players == [Player(guest, "Guest", 0, false, false)];
    assert out == [Emit(RoomMembers(host), GameOver([Player(guest, "Guest", 0, false, false)]))];
    assert reg.rooms == map[] && reg.order == [];
  }

  /** The host leaves the waiting room: the room stays, hostless. */
  method HostLeavesWaitingRoom(host: ConnId, guest: ConnId, draws: seq<nat>)
    requires host != guest && RoomCode.ValidDraws(draws)
  {
    var reg, room := WaitingRoomOfTwo(host, guest, draws, 4, 3);
    var out := reg.Disconnect(host);
    assert room.players == [Player(guest, "Guest", 0, false, false)];
    assert reg.rooms == map[host := room] && !room.players[0].isHost;
  }
}
