/** The csharp copy's `Player` object: a token position it moves itself
    and its own position-to-category dictionary. */
module Players {
  import opened Numeric
  import opened Board

  class Player {
    const name: string
    /** The token's square (the source calls it the roll total). */
    var rollTotal: Int32
    var coinTotal: Int32
    var inPenaltyBox: bool

    /** The player's own dictionary, keyed like the game's but holding
        category objects instead of names. */
    const categories: map<int, Category> :=
      map[0 := Pop, 1 := Science, 2 := Sports,
          4 := Pop, 5 := Science, 6 := Sports,
          8 := Pop, 9 := Science, 10 := Sports]

    constructor (name: string)
      ensures this.name == name
      ensures rollTotal == 0 && coinTotal == 0 && !inPenaltyBox
    {
      this.name := name;
      rollTotal := 0;
      coinTotal := 0;
      inPenaltyBox := false;
    }

    /** Moves the token exactly as the game moves a player's place. */
    method UpdateRollTotal(roll: Int32)
      modifies this`rollTotal
      ensures rollTotal == NextPosition(old(rollTotal), roll)
    {
      rollTotal := Wrap32(rollTotal + roll);
      if rollTotal > 11 {
        rollTotal := rollTotal - 12;
      }
    }

    /** The category of the token's square; on every position it names the
        category the game's own dictionary gives. */
    function CurrentCategory(): (c: Category)
      reads this
      ensures c.Name() == CategoryNameFor(rollTotal)
    {
      if rollTotal in categories then categories[rollTotal] else Rock
    }
  }
}
