/**
 * One round's outcome: its score (the guesses left when the round ended) and the id of
 * the player. The order on records looks at the score only; equality looks at both fields.
 */
module Records {

  /** Guesses a round starts with; as the score is the guesses left, also the best score. */
  const InitialGuesses: int := 5

  /** The player id that every round writes into its record. */
  const DefaultPlayer: string := "user"

  datatype GameRecord = GameRecord(score: int, playerId: string)

  /** `compareTo`: 1, -1 or 0 as this score is greater than, less than or equal to the other. */
  function CompareTo(a: GameRecord, o: GameRecord): (r: int)
    ensures r == 1 <==> a.score > o.score
    ensures r == -1 <==> a.score < o.score
    ensures r == 0 <==> a.score == o.score
  {
    if a.score > o.score then 1
    else if a.score < o.score then -1
    else 0
  }

  /** `equals`: the two fields agree, which for a record value is plain value equality. */
  predicate Equals(a: GameRecord, o: GameRecord)
    ensures Equals(a, o) <==> a == o
  {
    a.score == o.score && a.playerId == o.playerId
  }

  lemma CompareAntisymmetric(a: GameRecord, b: GameRecord)
    ensures CompareTo(a, b) == -CompareTo(b, a)
  {
  }

  /** `compareTo` is a total preorder: transitive and total. */
  lemma CompareTransitive(a: GameRecord, b: GameRecord, c: GameRecord)
    ensures CompareTo(a, b) <= 0 && CompareTo(b, c) <= 0 ==> CompareTo(a, c) <= 0
    ensures CompareTo(a, b) <= 0 || CompareTo(b, a) <= 0
  {
  }

  /** The player id plays no part in the order. */
  lemma CompareIgnoresPlayer(a: GameRecord, b: GameRecord, id: string)
    ensures CompareTo(a, b) == CompareTo(a.(playerId := id), b)
    ensures a.score == b.score ==> CompareTo(a, b) == 0
  {
  }

  /** Equal records compare 0, but comparing 0 does not make records equal. */
  lemma EqualsRefinesCompare(a: GameRecord, b: GameRecord)
    ensures Equals(a, b) ==> CompareTo(a, b) == 0
    ensures CompareTo(GameRecord(3, "ann"), GameRecord(3, "bob")) == 0
    ensures !Equals(GameRecord(3, "ann"), GameRecord(3, "bob"))
  {
  }
}
