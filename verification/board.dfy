/** The twelve-square board: how a roll moves a token and which question
    category a square belongs to. */
module Board {
  import opened Numeric

  /** The four question topics (the csharp copy's `Category.Pop`, `Rock`,
      `Science` and `Sports` objects). */
  datatype Category = Pop | Rock | Science | Sports {
    function Name(): string {
      match this
      case Pop => "Pop"
      case Rock => "Rock"
      case Science => "Science"
      case Sports => "Sports"
    }
  }

  const Squares: int := 12

  /** The game's position-to-category dictionary. Squares 3, 7 and 11 are
      absent from it, as is every position off the board. */
  const CategoryNames: map<int, string> :=
    map[0 := "Pop", 1 := "Science", 2 := "Sports",
        4 := "Pop", 5 := "Science", 6 := "Sports",
        8 := "Pop", 9 := "Science", 10 := "Sports"]

  /** The category of a position: the dictionary's entry, or "Rock" for a
      position the dictionary does not hold. The entries are spelled out
      key by key; `CategoryNameForIsLookup` shows this is the lookup. */
  function CategoryNameFor(place: int): (name: string)
    ensures name == "Pop" || name == "Science" || name == "Sports" || name == "Rock"
  {
    if place == 0 || place == 4 || place == 8 then "Pop"
    else if place == 1 || place == 5 || place == 9 then "Science"
    else if place == 2 || place == 6 || place == 10 then "Sports"
    else "Rock"
  }

  /** Looking a position up in the dictionary, with "Rock" for a missing
      key, gives CategoryNameFor; "Rock" comes exactly from the missing keys. */
  lemma CategoryNameForIsLookup(place: int)
    ensures place in CategoryNames ==> CategoryNameFor(place) == CategoryNames[place]
    ensures CategoryNameFor(place) == "Rock" <==> place !in CategoryNames
  {
  }

  /** Reference rule: on the board the categories cycle Pop, Science,
      Sports, Rock from square 0; everything else is Rock. */
  function CycleCategory(place: int): string {
    if 0 <= place < Squares then ["Pop", "Science", "Sports", "Rock"][place % 4] else "Rock"
  }

  lemma CategoryNameForCycles(place: int)
    ensures CategoryNameFor(place) == CycleCategory(place)
  {
    if 0 <= place < Squares {
      assert place == 0 || place == 1 || place == 2 || place == 3 || place == 4 || place == 5
          || place == 6 || place == 7 || place == 8 || place == 9 || place == 10 || place == 11;
    }
  }

  /** A token's new position: the roll is added (with `int` wrap-around)
      and 12 is subtracted once if the sum is past square 11. */
  function NextPosition(place: Int32, roll: Int32): (r: Int32)
    ensures r <= MaxInt32 - 12
  {
    var moved := Wrap32(place + roll);
    if moved > 11 then moved - 12 else moved
  }

  /** For a token on the board and a roll of at most 12 the move stays on
      the board and is addition modulo 12. */
  lemma NextPositionOnBoard(place: Int32, roll: Int32)
    requires 0 <= place < Squares && 0 <= roll <= Squares
    ensures 0 <= NextPosition(place, roll) < Squares
    ensures NextPosition(place, roll) == (place + roll) % Squares
  {
  }

  /** The single subtraction does not reduce rolls of 24 and more onto the
      board: from square 0 a roll of 24 lands on 12. */
  lemma NextPositionWrapsOnce()
    ensures NextPosition(0, 13) == 1
    ensures NextPosition(0, 24) == 12
    ensures CategoryNameFor(NextPosition(0, 24)) == "Rock"
  {
  }
}
