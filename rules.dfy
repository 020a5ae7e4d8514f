/** The pure rules of the drawing game: players, the word list, turn rotation,
    the game-over test, the case-insensitive guess comparison and the
    player-list updates the handlers perform. */
module Rules {

  datatype Option<T> = None | Some(value: T)

  /** A connection identifier; a room is keyed by its creator's. */
  type ConnId = string

  datatype Player = Player(id: ConnId, name: string, score: nat, isHost: bool, isDrawing: bool)

  /** The secret words (house, cat, sun, moon, car, aeroplane, rose, tree). */
  const Words: seq<string> := ["بيت", "قطة", "شمس", "قمر", "سيارة", "طائرة", "وردة", "شجرة"]

  /** Seconds announced with every new round; the server never enforces them. */
  const RoundSeconds: nat := 60

  /** Points for the player who guesses the word, and for the artist who drew it. */
  const GuesserPoints: nat := 10
  const ArtistPoints: nat := 5

  // ---------------------------------------------------------------------------
  // Turn rotation and the end of the game

  /** The artist chosen when a round starts: the first player when there was
      none yet or the previous one was the last (or is now past the end of
      the roster), otherwise the next one in join order. */
  function NextArtist(prev: Option<nat>, count: nat): (a: nat)
    ensures count > 0 ==> a < count
    ensures a == 0 || (prev.Some? && a == prev.value + 1 && a < count)
    ensures prev.Some? && prev.value + 1 < count ==> a == prev.value + 1
  {
    if prev.None? || prev.value >= count - 1 then 0 else prev.value + 1
  }

  /** The index announced as the next artist when a round ends. */
  function RotatedArtist(artist: nat, count: nat): (a: nat)
    requires count > 0
    ensures a < count
  {
    (artist + 1) % count
  }

  /** The game is over when the round counter has reached the configured
      number of rounds and the rotation wraps back to the first player. */
  predicate IsGameOver(round: nat, totalRounds: int, artist: nat, count: nat)
    requires count > 0
  {
    round >= totalRounds && RotatedArtist(artist, count) == 0
  }

  /** Division by a positive number is determined by quotient and remainder. */
  lemma ModUnique(x: int, c: int, q: int, r: int)
    requires c > 0 && 0 <= r < c && x == q * c + r
    ensures x % c == r
  {
    var q2, r2 := x / c, x % c;
    assert (q - q2) * c == r2 - r;
    if q > q2 {
      MulAtLeast(q - q2, c);
    } else if q < q2 {
      MulAtLeast(q2 - q, c);
    }
  }

  lemma MulAtLeast(d: int, c: int)
    requires d >= 1 && c > 0
    ensures d * c >= c
  {
  }

  lemma ModSuccessor(m: nat, c: nat)
    requires c > 0
    ensures (m + 1) % c == if m % c == c - 1 then 0 else m % c + 1
  {
    var q, r := m / c, m % c;
    if r == c - 1 {
      ModUnique(m + 1, c, q + 1, 0);
    } else {
      ModUnique(m + 1, c, q, r + 1);
    }
  }

  /** The index announced when a round ends is the artist the next round picks. */
  lemma RotationAgrees(artist: nat, count: nat)
    requires artist < count
    ensures NextArtist(Some(artist), count) == RotatedArtist(artist, count)
  {
    ModSuccessor(artist, count);
  }

  /** The game ends exactly after the last player in join order has drawn
      in a round at or past the configured number. */
  lemma GameOverAfterLastArtist(round: nat, totalRounds: int, artist: nat, count: nat)
    requires artist < count
    ensures IsGameOver(round, totalRounds, artist, count) <==> round >= totalRounds && artist == count - 1
  {
    ModSuccessor(artist, count);
  }

  /** The artist after `n` rounds of a room whose roster keeps `count` players. */
  function ArtistAfter(n: nat, count: nat): Option<nat>
  {
    if n == 0 then None else Some(NextArtist(ArtistAfter(n - 1, count), count))
  }

  /** Rotation is strict round-robin over the join order. */
  lemma {:induction false} RoundRobin(n: nat, count: nat)
    requires n >= 1 && count >= 1
    ensures ArtistAfter(n, count) == Some((n - 1) % count)
  {
    if n > 1 {
      RoundRobin(n - 1, count);
      ModSuccessor(n - 2, count);
    }
  }

  /** With a fixed roster the game ends at the first round that is both at
      least the configured number and a multiple of the roster size. */
  lemma {:induction false} GameLength(n: nat, totalRounds: int, count: nat)
    requires n >= 1 && count >= 1
    ensures ArtistAfter(n, count).Some?
    ensures IsGameOver(n, totalRounds, ArtistAfter(n, count).value, count) <==> n >= totalRounds && n % count == 0
  {
    RoundRobin(n, count);
    var artist := (n - 1) % count;
    ModSuccessor(n - 1, count);
    GameOverAfterLastArtist(n, totalRounds, artist, count);
    assert n % count == 0 <==> artist == count - 1;
  }

  // ---------------------------------------------------------------------------
  // Case-insensitive comparison of a guess with the word

  /** Case folding on the ASCII letters; every other character is its own lower case. */
  function LowerChar(c: char): char
  {
    if 'A' <= c <= 'Z' then (c as int + 32) as char else c
  }

  function ToLower(s: string): (r: string)
    ensures |r| == |s|
    ensures forall i :: 0 <= i < |s| ==> r[i] == LowerChar(s[i])
  {
    if s == [] then [] else [LowerChar(s[0])] + ToLower(s[1..])
  }

  predicate Matches(guess: string, word: string)
  {
    ToLower(guess) == ToLower(word)
  }

  predicate HasNoUpper(s: string)
  {
    forall i :: 0 <= i < |s| ==> !('A' <= s[i] <= 'Z')
  }

  lemma {:induction false} LowerOfNoUpper(s: string)
    requires HasNoUpper(s)
    ensures ToLower(s) == s
  {
    if s != [] {
      assert HasNoUpper(s[1..]);
      LowerOfNoUpper(s[1..]);
    }
  }

  /** The words have no letter case, so a guess matches a word exactly when
      its lower-case form is that word. */
  lemma MatchesListedWord(guess: string, word: string)
    requires word in Words
    ensures Matches(guess, word) <==> ToLower(guess) == word
  {
    assert HasNoUpper(word);
    LowerOfNoUpper(word);
  }

  /** A guess matches one of the eight words only when it is that word: the
      words hold no Latin letters, so folding another guess cannot reach them. */
  lemma MatchesOnlyTheWord(guess: string, w: nat)
    requires w < |Words|
    ensures Matches(guess, Words[w]) <==> guess == Words[w]
  {
    var word := Words[w];
    MatchesListedWord(guess, word);
    if ToLower(guess) == word {
      assert forall i :: 0 <= i < |word| ==> !('a' <= word[i] <= 'z');
      forall i | 0 <= i < |guess|
        ensures guess[i] == word[i]
      {
        assert LowerChar(guess[i]) == word[i];
      }
    }
  }

  /** A guess that differs from the word only in ASCII letter case matches it. */
  lemma CaseInsensitive(guess: string, word: string)
    requires |guess| == |word|
    requires forall i :: 0 <= i < |word| ==> LowerChar(guess[i]) == LowerChar(word[i])
    ensures Matches(guess, word)
  {
  }

  // ---------------------------------------------------------------------------
  // The roster

  /** The first index whose player has the given connection, or the length
      when there is none (`find` / `findIndex` over the roster). */
  function IndexOfPlayer(ps: seq<Player>, conn: ConnId): (k: nat)
    ensures k <= |ps|
    ensures k < |ps| ==> ps[k].id == conn
    ensures forall j :: 0 <= j < k ==> ps[j].id != conn
  {
    if ps == [] then 0
    else if ps[0].id == conn then 0
    else 1 + IndexOfPlayer(ps[1..], conn)
  }

  predicate InRoster(ps: seq<Player>, conn: ConnId)
  {
    exists i :: 0 <= i < |ps| && ps[i].id == conn
  }

  lemma FoundIffInRoster(ps: seq<Player>, conn: ConnId)
    ensures IndexOfPlayer(ps, conn) < |ps| <==> InRoster(ps, conn)
  {
  }

  predicate AtMostOneDrawing(ps: seq<Player>)
  {
    forall i, j :: 0 <= i < |ps| && 0 <= j < |ps| && ps[i].isDrawing && ps[j].isDrawing ==> i == j
  }

  /** The roster with the drawing flag set on the artist and cleared on everyone else. */
  function WithArtist(ps: seq<Player>, artist: nat): seq<Player>
  {
    seq(|ps|, i requires 0 <= i < |ps| => ps[i].(isDrawing := i == artist))
  }

  lemma WithArtistDrawsOne(ps: seq<Player>, artist: nat)
    requires artist < |ps|
    ensures |WithArtist(ps, artist)| == |ps|
    ensures forall i :: 0 <= i < |ps| ==> (WithArtist(ps, artist)[i].isDrawing <==> i == artist)
    ensures AtMostOneDrawing(WithArtist(ps, artist))
  {
  }

  /** The roster after a player leaves (`splice(k, 1)`). */
  function RemoveAt(ps: seq<Player>, k: nat): (r: seq<Player>)
    requires k < |ps|
    ensures |r| == |ps| - 1
    ensures forall i :: 0 <= i < k ==> r[i] == ps[i]
    ensures forall i :: k <= i < |r| ==> r[i] == ps[i + 1]
  {
    ps[..k] + ps[k + 1..]
  }

  lemma RemoveKeepsAtMostOneDrawing(ps: seq<Player>, k: nat)
    requires k < |ps| && AtMostOneDrawing(ps)
    ensures AtMostOneDrawing(RemoveAt(ps, k))
  {
    var r := RemoveAt(ps, k);
    forall i, j | 0 <= i < |r| && 0 <= j < |r| && r[i].isDrawing && r[j].isDrawing
      ensures i == j
    {
      var i', j' := if i < k then i else i + 1, if j < k then j else j + 1;
      assert ps[i'].isDrawing && ps[j'].isDrawing;
    }
  }

  /** The roster after a correct guess: the guesser gains ten points, then
      the artist five. */
  function Award(ps: seq<Player>, guesser: nat, artist: nat): seq<Player>
    requires guesser < |ps| && artist < |ps|
  {
    var q := ps[guesser := ps[guesser].(score := ps[guesser].score + GuesserPoints)];
    q[artist := q[artist].(score := q[artist].score + ArtistPoints)]
  }

  /** A correct guess changes exactly two scores, by exactly ten and five,
      and no score decreases. */
  lemma AwardScores(ps: seq<Player>, guesser: nat, artist: nat)
    requires guesser < |ps| && artist < |ps| && guesser != artist
    ensures |Award(ps, guesser, artist)| == |ps|
    ensures Award(ps, guesser, artist)[guesser] == ps[guesser].(score := ps[guesser].score + 10)
    ensures Award(ps, guesser, artist)[artist] == ps[artist].(score := ps[artist].score + 5)
    ensures forall i :: 0 <= i < |ps| && i != guesser && i != artist ==> Award(ps, guesser, artist)[i] == ps[i]
    ensures forall i :: 0 <= i < |ps| ==> Award(ps, guesser, artist)[i].score >= ps[i].score
  {
  }

  function TotalScore(ps: seq<Player>): nat
  {
    if ps == [] then 0 else ps[0].score + TotalScore(ps[1..])
  }

  lemma {:induction false} TotalScoreUpdate(ps: seq<Player>, i: nat, p: Player)
    requires i < |ps|
    ensures TotalScore(ps[i := p]) + ps[i].score == TotalScore(ps) + p.score
  {
    if i == 0 {
      assert ps[i := p][1..] == ps[1..];
    } else {
      assert ps[i := p][1..] == ps[1..][i - 1 := p];
      TotalScoreUpdate(ps[1..], i - 1, p);
    }
  }

  /** Every correct guess puts exactly fifteen points into the room. */
  lemma {:induction false} AwardAddsFifteen(ps: seq<Player>, guesser: nat, artist: nat)
    requires guesser < |ps| && artist < |ps|
    ensures TotalScore(Award(ps, guesser, artist)) == TotalScore(ps) + 15
  {
    var g := ps[guesser].(score := ps[guesser].score + GuesserPoints);
    var q := ps[guesser := g];
    var a := q[artist].(score := q[artist].score + ArtistPoints);
    TotalScoreUpdate(ps, guesser, g);
    TotalScoreUpdate(q, artist, a);
  }
}
