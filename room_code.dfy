/** Generation of the six-character codes players type to join a room. */
module RoomCode {

  /** Upper-case letters and digits without the look-alikes 0, O, 1 and I. */
  const Alphabet: string := "ABCDEFGHJKLMNPQRSTUVWXYZ23456789"

  const CodeLength: nat := 6

  /** The random draws a code is built from: one alphabet index per character. */
  predicate ValidDraws(draws: seq<nat>)
  {
    |draws| == CodeLength && forall i :: 0 <= i < |draws| ==> draws[i] < |Alphabet|
  }

  predicate Unambiguous(c: char)
  {
    c != '0' && c != 'O' && c != '1' && c != 'I'
  }

  /** The alphabet has 32 characters, none of them a look-alike. */
  lemma AlphabetFacts()
    ensures |Alphabet| == 32
    ensures forall i :: 0 <= i < |Alphabet| ==> Unambiguous(Alphabet[i])
  {
  }

  /** Builds a code one character at a time, character `i` being the
      alphabet entry the `i`-th draw selects. */
  method GenerateRoomCode(draws: seq<nat>) returns (code: string)
    requires ValidDraws(draws)
    ensures |code| == CodeLength
    ensures forall i :: 0 <= i < CodeLength ==> code[i] == Alphabet[draws[i]]
    ensures forall c :: c in code ==> c in Alphabet && Unambiguous(c)
  {
    AlphabetFacts();
    code := "";
    for i := 0 to CodeLength
      invariant |code| == i
      invariant forall j :: 0 <= j < i ==> code[j] == Alphabet[draws[j]]
    {
      code := code + [Alphabet[draws[i]]];
    }
  }
}
