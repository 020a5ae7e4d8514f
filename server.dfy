/** The rooms of the game and the handlers that act on them. A room is an
    object whose round state the handlers update in place; the registry maps
    room ids to rooms and remembers the order in which the ids were added,
    which is the order in which lookups by code and by player visit them. */
module Server {
  import opened Rules
  import opened Events
  import RoomCode

  predicate Distinct(s: seq<ConnId>)
  {
    forall i, j :: 0 <= i < j < |s| ==> s[i] != s[j]
  }

  /** The key order after deleting key `x`: the other keys, in their order. */
  function Without(s: seq<ConnId>, x: ConnId): (r: seq<ConnId>)
    ensures forall y :: y in r <==> y in s && y != x
  {
    if s == [] then []
    else if s[0] == x then Without(s[1..], x)
    else [s[0]] + Without(s[1..], x)
  }

  lemma {:induction false} WithoutKeepsDistinct(s: seq<ConnId>, x: ConnId)
    requires Distinct(s)
    ensures Distinct(Without(s, x))
  {
    if s != [] {
      assert Distinct(s[1..]);
      WithoutKeepsDistinct(s[1..], x);
      assert s[0] !in s[1..];
    }
  }

  /** Deleting a key that occurs once closes the gap it leaves. */
  lemma {:induction false} WithoutAt(s: seq<ConnId>, k: nat)
    requires Distinct(s) && k < |s|
    ensures Without(s, s[k]) == s[..k] + s[k + 1..]
  {
    if k == 0 {
      assert s[0] !in s[1..];
      WithoutAbsent(s[1..], s[0]);
    } else {
      assert Distinct(s[1..]);
      WithoutAt(s[1..], k - 1);
      assert s[1..][k - 1] == s[k];
      assert s[1..][..k - 1] + s[1..][k..] == s[1..k] + s[k + 1..];
      assert s[..k] + s[k + 1..] == [s[0]] + (s[1..k] + s[k + 1..]);
    }
  }

  lemma {:induction false} WithoutAbsent(s: seq<ConnId>, x: ConnId)
    requires x !in s
    ensures Without(s, x) == s
  {
    if s != [] {
      assert s == [s[0]] + s[1..];
      WithoutAbsent(s[1..], x);
    }
  }

  class Room {
    const id: ConnId
    const code: string
    const name: string
    const maxPlayers: int
    const totalRounds: int
    var players: seq<Player>
    var gameStarted: bool
    var currentRound: nat
    var currentWord: string
    var currentArtist: Option<nat>

    /** What holds of a room in the registry whatever its phase. */
    ghost predicate WellFormed()
      reads this
    {
      && |players| >= 1
      && AtMostOneDrawing(players)
      && (currentRound == 0 <==> currentArtist.None?)
      && (currentRound == 0 ==> currentWord == "")
      && (currentRound > 0 ==> currentWord in Words)
    }

    /** What holds while a round is being played: the artist is a player of
        the room, flagged as drawing, and the word is one of the list. */
    ghost predicate Playing()
      reads this
    {
      && currentArtist.Some?
      && currentArtist.value < |players|
      && players[currentArtist.value].isDrawing
      && currentWord in Words
    }

    ghost predicate Valid()
      reads this
    {
      WellFormed() && (gameStarted ==> Playing())
    }

    /** A new room whose only player is its host. */
    constructor (id: ConnId, code: string, name: string, hostName: string, maxPlayers: int, totalRounds: int)
      ensures this.id == id && this.code == code && this.name == name
      ensures this.maxPlayers == maxPlayers && this.totalRounds == totalRounds
      ensures players == [Player(id, hostName, 0, true, false)]
      ensures !gameStarted && currentRound == 0 && currentWord == "" && currentArtist == None
      ensures Valid()
    {
      this.id := id;
      this.code := code;
      this.name := name;
      this.maxPlayers := maxPlayers;
      this.totalRounds := totalRounds;
      players := [Player(id, hostName, 0, true, false)];
      gameStarted := false;
      currentRound := 0;
      currentWord := "";
      currentArtist := None;
    }

    /** Starts the next round: counts it, passes the turn on, picks the word
        the caller drew from the list, and flags the new artist alone as
        drawing. */
    method StartNewRound(wordIndex: nat) returns (e: Emit)
      requires WellFormed() && wordIndex < |Words|
      modifies this
      ensures currentRound == old(currentRound) + 1
      ensures currentArtist == Some(NextArtist(old(currentArtist), |old(players)|))
      ensures currentWord == Words[wordIndex]
      ensures players == WithArtist(old(players), currentArtist.value)
      ensures gameStarted == old(gameStarted)
      ensures WellFormed() && Playing()
      ensures forall i :: 0 <= i < |players| ==> (players[i].isDrawing <==> i == currentArtist.value)
      ensures e == Emit(RoomMembers(id), NewRoundStarted(currentWord, currentArtist.value, RoundSeconds, currentRound))
    {
      currentRound := currentRound + 1;
      var artist := NextArtist(currentArtist, |players|);
      currentArtist := Some(artist);
      currentWord := Words[wordIndex];
      ghost var before := players;
      var i := 0;
      while i < |players|
        invariant 0 <= i <= |players| == |before|
        invariant forall j :: 0 <= j < i ==> players[j] == before[j].(isDrawing := j == artist)
        invariant forall j :: i <= j < |players| ==> players[j] == before[j]
        invariant currentRound == old(currentRound) + 1 && currentArtist == Some(artist)
        invariant currentWord == Words[wordIndex] && gameStarted == old(gameStarted)
      {
        players := players[i := players[i].(isDrawing := i == artist)];
        i := i + 1;
      }
      WithArtistDrawsOne(before, artist);
      e := Emit(RoomMembers(id), NewRoundStarted(currentWord, artist, RoundSeconds, currentRound));
    }
  }

  class Registry {
    /** The room ids in the order they were added. */
    var order: seq<ConnId>
    var rooms: map<ConnId, Room>

    ghost predicate Keyed()
      reads this
    {
      (forall k :: k in order <==> k in rooms) && Distinct(order)
    }

    ghost predicate Valid()
      reads this, rooms.Values
    {
      && Keyed()
      && (forall k :: k in rooms ==> rooms[k].id == k && rooms[k].Valid())
    }

    constructor ()
      ensures Valid() && order == [] && rooms == map[]
    {
      order := [];
      rooms := map[];
    }

    function RoomsOf(id: ConnId): set<Room>
      reads this
    {
      if id in rooms then {rooms[id]} else {}
    }

    function RoomsAt(k: nat): set<Room>
      reads this
    {
      if k < |order| && order[k] in rooms then {rooms[order[k]]} else {}
    }

    /** The position, from `from` on, of the first room with the given code,
        or the number of rooms when there is none. */
    function CodeIndex(code: string, from: nat): (k: nat)
      requires Keyed() && from <= |order|
      reads this
      decreases |order| - from
      ensures from <= k <= |order|
      ensures forall j :: from <= j < k ==> rooms[order[j]].code != code
      ensures k < |order| ==> rooms[order[k]].code == code
    {
      if from == |order| then from
      else if rooms[order[from]].code == code then from
      else CodeIndex(code, from + 1)
    }

    /** The position, from `from` on, of the first room whose roster holds
        the given connection, or the number of rooms when there is none. */
    function HolderIndex(conn: ConnId, from: nat): (k: nat)
      requires Keyed() && from <= |order|
      reads this, rooms.Values
      decreases |order| - from
      ensures from <= k <= |order|
      ensures forall j :: from <= j < k ==> !InRoster(rooms[order[j]].players, conn)
      ensures k < |order| ==> InRoster(rooms[order[k]].players, conn)
    {
      if from == |order| then from
      else if IndexOfPlayer(rooms[order[from]].players, conn) < |rooms[order[from]].players| then from
      else HolderIndex(conn, from + 1)
    }

    /** Creates a room keyed by the creator's connection, with the creator as
        its host and only player. A second room from the same connection
        replaces the first and keeps its place in the order. */
    method CreatePrivateRoom(conn: ConnId, draws: seq<nat>, roomName: string, playerName: string,
                             maxPlayers: int, totalRounds: int) returns (out: seq<Emit>)
      requires Valid() && RoomCode.ValidDraws(draws)
      modifies this
      ensures Valid()
      ensures conn in rooms && fresh(rooms[conn])
      ensures rooms == old(rooms)[conn := rooms[conn]]
      ensures order == if conn in old(rooms) then old(order) else old(order) + [conn]
      ensures var r := rooms[conn];
        && r.id == conn && r.name == roomName && r.maxPlayers == maxPlayers && r.totalRounds == totalRounds
        && |r.code| == RoomCode.CodeLength
        && (forall i :: 0 <= i < RoomCode.CodeLength ==> r.code[i] == RoomCode.Alphabet[draws[i]])
        && r.players == [Player(conn, playerName, 0, true, false)]
        && !r.gameStarted && r.currentRound == 0 && r.currentWord == "" && r.currentArtist == None
        && out == [Emit(Sender, PrivateRoomCreated(conn, r.code, roomName, r.players))]
    {
      var code := RoomCode.GenerateRoomCode(draws);
      var room := new Room(conn, code, roomName, playerName, maxPlayers, totalRounds);
      if conn !in rooms {
        order := order + [conn];
      }
      rooms := rooms[conn := room];
      out := [Emit(Sender, PrivateRoomCreated(conn, code, roomName, room.players))];
    }

    /** Joins the first room, in order, with the given code: rejected when
        there is none or it is full, otherwise the player is added last. */
    method JoinPrivateRoom(conn: ConnId, roomCode: string, playerName: string) returns (out: seq<Emit>)
      requires Valid()
      modifies RoomsAt(CodeIndex(roomCode, 0))
      ensures Valid() && order == old(order) && rooms == old(rooms)
      ensures old(CodeIndex(roomCode, 0)) == |order| ==> out == [Emit(Sender, RoomNotFound)]
      ensures old(CodeIndex(roomCode, 0)) < |order| ==>
        var r := rooms[order[old(CodeIndex(roomCode, 0))]];
        && (|old(r.players)| >= r.maxPlayers ==> r.players == old(r.players) && out == [Emit(Sender, RoomFull)])
        && (|old(r.players)| < r.maxPlayers ==>
              && r.players == old(r.players) + [Player(conn, playerName, 0, false, false)]
              && out == [Emit(RoomMembers(r.id), PlayerJoinedWaitingRoom(r.players)),
                         Emit(Sender, JoinedRoom(r.id, r.name, r.maxPlayers, r.totalRounds, r.code, r.players))])
        && (|old(r.players)| <= r.maxPlayers ==> |r.players| <= r.maxPlayers)
        && r.gameStarted == old(r.gameStarted) && r.currentRound == old(r.currentRound)
        && r.currentWord == old(r.currentWord) && r.currentArtist == old(r.currentArtist)
    {
      var k := CodeIndex(roomCode, 0);
      if k == |order| {
        out := [Emit(Sender, RoomNotFound)];
        return;
      }
      var room := rooms[order[k]];
      if |room.players| >= room.maxPlayers {
        out := [Emit(Sender, RoomFull)];
        return;
      }
      room.players := room.players + [Player(conn, playerName, 0, false, false)];
      out := [Emit(RoomMembers(room.id), PlayerJoinedWaitingRoom(room.players)),
              Emit(Sender, JoinedRoom(room.id, room.name, room.maxPlayers, room.totalRounds, room.code, room.players))];
    }

    /** Starts a round in the room with the given id when it has at least two
        players; the caller draws the word index. */
    method StartGame(roomId: ConnId, wordIndex: nat) returns (out: seq<Emit>)
      requires Valid() && wordIndex < |Words|
      modifies RoomsOf(roomId)
      ensures Valid() && order == old(order) && rooms == old(rooms)
      ensures roomId !in rooms ==> out == []
      ensures roomId in rooms && |old(rooms[roomId].players)| < 2 ==> out == [] && unchanged(rooms[roomId])
      ensures roomId in rooms && |old(rooms[roomId].players)| >= 2 ==>
        var r := rooms[roomId];
        && r.gameStarted
        && r.currentRound == old(r.currentRound) + 1
        && r.currentArtist == Some(NextArtist(old(r.currentArtist), |old(r.players)|))
        && r.currentArtist.value < |r.players|
        && r.currentWord == Words[wordIndex]
        && r.players == WithArtist(old(r.players), r.currentArtist.value)
        && out == [Emit(RoomMembers(roomId), GameStarted(old(r.players), r.code)),
                   Emit(RoomMembers(roomId), NewRoundStarted(r.currentWord, r.currentArtist.value, RoundSeconds, r.currentRound))]
    {
      out := [];
      if roomId in rooms {
        var room := rooms[roomId];
        if |room.players| >= 2 {
          room.gameStarted := true;
          out := [Emit(RoomMembers(room.id), GameStarted(room.players, room.code))];
          var e := room.StartNewRound(wordIndex);
          out := out + [e];
        }
      }
    }

    /** Removes a room from the registry (`delete`): the key leaves the
        order and the other keys keep theirs. */
    method DeleteRoom(id: ConnId)
      requires Keyed() && id in rooms
      requires forall k :: k in rooms && k != id ==> rooms[k].id == k && rooms[k].Valid()
      modifies this
      ensures Valid()
      ensures rooms == old(rooms) - {id}
      ensures order == Without(old(order), id)
    {
      WithoutKeepsDistinct(order, id);
      rooms := rooms - {id};
      order := Without(order, id);
    }

    /** Ends the round being played in `room`; when the game is over the
        room leaves the registry. */
    method EndRound(room: Room) returns (out: seq<Emit>)
      requires Valid() && room.id in rooms && rooms[room.id] == room && room.gameStarted
      modifies this, room
      ensures Valid()
      ensures !room.gameStarted
      ensures room.players == old(room.players) && room.currentRound == old(room.currentRound)
      ensures room.currentWord == old(room.currentWord) && room.currentArtist == old(room.currentArtist)
      ensures room.currentArtist.Some? && |room.players| > 0
      ensures var over := IsGameOver(room.currentRound, room.totalRounds, room.currentArtist.value, |room.players|);
        && rooms == (if over then old(rooms) - {room.id} else old(rooms))
        && order == (if over then Without(old(order), room.id) else old(order))
        && out == [Emit(RoomMembers(room.id), RoundEnded(room.players, RotatedArtist(room.currentArtist.value, |room.players|),
                                                      room.currentRound, over))]
                  + (if over then [Emit(RoomMembers(room.id), GameOver(room.players))] else [])
    {
      room.gameStarted := false;
      var next := RotatedArtist(room.currentArtist.value, |room.players|);
      var over := room.currentRound >= room.totalRounds && next == 0;
      out := [Emit(RoomMembers(room.id), RoundEnded(room.players, next, room.currentRound, over))];
      if over {
        out := out + [Emit(RoomMembers(room.id), GameOver(room.players))];
        DeleteRoom(room.id);
      }
    }

    /** What a correct guess by the player at position `g` of `room` did:
        ten points to the guesser, five to the artist, the announcements,
        then the end of the round, which deletes the room when the game is
        over. Nothing else about the room changed. */
    twostate predicate Scored(room: Room, g: nat, out: seq<Emit>)
      reads this, room
    {
      && old(room.currentArtist).Some?
      && var a := old(room.currentArtist).value;
         && g < |old(room.players)| && a < |old(room.players)| && g != a
         && room.players == Award(old(room.players), g, a)
         && !room.gameStarted && room.currentRound == old(room.currentRound)
         && room.currentWord == old(room.currentWord) && room.currentArtist == old(room.currentArtist)
         && var over := IsGameOver(room.currentRound, room.totalRounds, a, |room.players|);
            && rooms == (if over then old(rooms) - {room.id} else old(rooms))
            && order == (if over then Without(old(order), room.id) else old(order))
            && out == [Emit(RoomMembers(room.id), CorrectMessage(old(room.players)[g].name, room.currentWord)),
                       Emit(RoomMembers(room.id), CorrectGuess(room.players)),
                       Emit(RoomMembers(room.id), RoundEnded(room.players, RotatedArtist(a, |room.players|), room.currentRound, over))]
                      + (if over then [Emit(RoomMembers(room.id), GameOver(room.players))] else [])
    }

    /** A correct guess by the player at position `g`, who is not drawing. */
    method ScoreCorrectGuess(room: Room, g: nat) returns (out: seq<Emit>)
      requires Valid() && room.id in rooms && rooms[room.id] == room && room.gameStarted
      requires g < |room.players| && !room.players[g].isDrawing
      modifies this, room
      ensures Valid()
      ensures Scored(room, g, out)
      ensures forall i :: 0 <= i < |old(room.players)| ==> room.players[i].score >= old(room.players[i].score)
    {
      var player := room.players[g];
      var a := room.currentArtist.value;
      ghost var before := room.players;
      room.players := room.players[g := room.players[g].(score := room.players[g].score + GuesserPoints)];
      room.players := room.players[a := room.players[a].(score := room.players[a].score + ArtistPoints)];
      assert room.players == Award(before, g, a);
      AwardScores(before, g, a);
      assert room.Valid();
      out := [Emit(RoomMembers(room.id), CorrectMessage(player.name, room.currentWord)),
              Emit(RoomMembers(room.id), CorrectGuess(room.players))];
      var ended := EndRound(room);
      out := out + ended;
    }

    /** Whether a guess from `conn` in room `roomId` is looked at: the room
        exists and is playing, and the guesser is in it and not drawing. */
    ghost predicate CanGuess(conn: ConnId, roomId: ConnId)
      reads this, rooms.Values
    {
      && roomId in rooms
      && rooms[roomId].gameStarted
      && var ps := rooms[roomId].players;
         IndexOfPlayer(ps, conn) < |ps| && !ps[IndexOfPlayer(ps, conn)].isDrawing
    }

    /** A guess in room `roomId` from `conn`: ignored unless CanGuess, shown
        to the room, and when it matches the word case-insensitively it
        scores for the guesser and the artist and ends the round. */
    method MakeGuess(conn: ConnId, roomId: ConnId, guess: string) returns (out: seq<Emit>)
      requires Valid()
      modifies this, RoomsOf(roomId)
      ensures Valid()
      ensures !old(CanGuess(conn, roomId)) ==>
        && out == [] && rooms == old(rooms) && order == old(order)
        && (roomId in rooms ==> unchanged(rooms[roomId]))
      ensures old(CanGuess(conn, roomId)) ==>
        var r := old(rooms[roomId]);
        var g := IndexOfPlayer(old(r.players), conn);
        var message := Emit(RoomMembers(roomId), GuessMessage(guess, old(r.players)[g].name));
        && (forall i :: 0 <= i < |old(r.players)| ==> |r.players| == |old(r.players)| && r.players[i].score >= old(r.players[i].score))
        && (!Matches(guess, old(r.currentWord)) ==>
              out == [message] && unchanged(r) && rooms == old(rooms) && order == old(order))
        && (Matches(guess, old(r.currentWord)) ==>
              |out| > 0 && out[0] == message && Scored(r, g, out[1..]))
    {
      out := [];
      if roomId !in rooms {
        return;
      }
      var room := rooms[roomId];
      if !room.gameStarted {
        assert !CanGuess(conn, roomId);
        return;
      }
      var g := IndexOfPlayer(room.players, conn);
      if g == |room.players| || room.players[g].isDrawing {
        assert !CanGuess(conn, roomId);
        return;
      }
      assert CanGuess(conn, roomId);
      out := [Emit(RoomMembers(room.id), GuessMessage(guess, room.players[g].name))];
      if ToLower(guess) == ToLower(room.currentWord) {
        var rest := ScoreCorrectGuess(room, g);
        out := out + rest;
      }
    }

    /** What the departure of `conn` from `room`, whose roster held it, did:
        its first entry left the roster, and the room was deleted when it
        became empty or a game was being played; otherwise it stayed, with
        or without its host. Nothing else about the room changed. */
    twostate predicate Departed(room: Room, conn: ConnId, out: seq<Emit>)
      reads this, room
    {
      var p := IndexOfPlayer(old(room.players), conn);
      var deleted := room.players == [] || room.gameStarted;
      && p < |old(room.players)|
      && room.players == RemoveAt(old(room.players), p)
      && room.gameStarted == old(room.gameStarted) && room.currentRound == old(room.currentRound)
      && room.currentWord == old(room.currentWord) && room.currentArtist == old(room.currentArtist)
      && rooms == (if deleted then old(rooms) - {room.id} else old(rooms))
      && order == (if deleted then Without(old(order), room.id) else old(order))
      && out == (if room.players == [] then []
                 else if room.gameStarted then [Emit(RoomMembers(room.id), GameOver(room.players))]
                 else [Emit(RoomMembers(room.id), PlayerLeftWaitingRoom(room.players))])
    }

    /** The departure of `conn` from the room with id `id`. */
    method Leave(id: ConnId, conn: ConnId) returns (out: seq<Emit>)
      requires Valid() && id in rooms && InRoster(rooms[id].players, conn)
      modifies this, rooms[id]
      ensures Valid()
      ensures Departed(old(rooms[id]), conn, out)
    {
      var room := rooms[id];
      var p := IndexOfPlayer(room.players, conn);
      RemoveKeepsAtMostOneDrawing(room.players, p);
      room.players := RemoveAt(room.players, p);
      out := [];
      if |room.players| == 0 {
        DeleteRoom(id);
      } else if room.gameStarted {
        out := [Emit(RoomMembers(id), GameOver(room.players))];
        DeleteRoom(id);
      } else {
        out := [Emit(RoomMembers(id), PlayerLeftWaitingRoom(room.players))];
      }
    }

    /** A connection goes away: it leaves the first room, in order, whose
        roster holds it, and no other. */
    method Disconnect(conn: ConnId) returns (out: seq<Emit>)
      requires Valid()
      modifies this, RoomsAt(HolderIndex(conn, 0))
      ensures Valid()
      ensures old(HolderIndex(conn, 0)) == |old(order)| ==> out == [] && rooms == old(rooms) && order == old(order)
      ensures old(HolderIndex(conn, 0)) < |old(order)| ==>
        Departed(old(rooms[order[HolderIndex(conn, 0)]]), conn, out)
    {
      out := [];
      var i := 0;
      while i < |order|
        invariant 0 <= i <= |order|
        invariant HolderIndex(conn, 0) == HolderIndex(conn, i)
      {
        if IndexOfPlayer(rooms[order[i]].players, conn) < |rooms[order[i]].players| {
          break;
        }
        i := i + 1;
      }
      if i < |order| {
        out := Leave(order[i], conn);
      }
    }
  }
}
