/** The `Game` object: the per-player arrays, the question queues and the
    display sink, updated in place by the five public operations. Both
    copies of the game (csharp/Trivia/Game.cs and Trivia/Game.cs) behave as
    this class does; they differ in structure (helper names, the csharp
    copy's `Player` objects and shared `Category` singletons), not in what
    they display or return. */
module Trivia {
  import opened Numeric
  import opened Board
  import Rules

  class Game {
    var currentPlayer: int
    const inPenaltyBox: array<bool>
    var isGettingOutOfPenaltyBox: bool
    /** Each player's square (the csharp copy names this array `_playerCategories`). */
    const places: array<Int32>
    var players: seq<string>
    const coins: array<Int32>

    var popQuestions: seq<string>
    var rockQuestions: seq<string>
    var scienceQuestions: seq<string>
    var sportsQuestions: seq<string>

    /** Every line handed to `Display`, oldest first. */
    var output: seq<string>

    /** The object's state as a value of the rules' state type. */
    ghost function State(): Rules.GameState
      reads this`players, this`currentPlayer, this`isGettingOutOfPenaltyBox
      reads this`popQuestions, this`scienceQuestions, this`sportsQuestions, this`rockQuestions
      reads places, coins, inPenaltyBox
    {
      Rules.GameState(players, places[..], coins[..], inPenaltyBox[..], currentPlayer,
                      isGettingOutOfPenaltyBox, popQuestions, scienceQuestions,
                      sportsQuestions, rockQuestions)
    }

    ghost predicate Valid()
      reads this`players, this`currentPlayer, this`isGettingOutOfPenaltyBox
      reads this`popQuestions, this`scienceQuestions, this`sportsQuestions, this`rockQuestions
      reads places, coins, inPenaltyBox
    {
      places != coins && Rules.Wellformed(State())
    }

    constructor ()
      ensures Valid() && fresh(places) && fresh(coins) && fresh(inPenaltyBox)
      ensures State() == Rules.NewGame() && output == []
    {
      currentPlayer := 0;
      inPenaltyBox := new bool[Rules.Slots](_ => false);
      isGettingOutOfPenaltyBox := false;
      places := new Int32[Rules.Slots](_ => 0);
      players := [];
      coins := new Int32[Rules.Slots](_ => 0);
      popQuestions, rockQuestions, scienceQuestions, sportsQuestions := [], [], [], [];
      output := [];
      new;
      CreateQuestions();
    }

    /** Appends "<Category> Question i" for i = 0..49 to each queue. */
    method CreateQuestions()
      modifies this`popQuestions, this`scienceQuestions, this`sportsQuestions, this`rockQuestions
      ensures popQuestions == old(popQuestions) + Rules.Deck("Pop", Rules.QuestionsPerCategory)
      ensures scienceQuestions == old(scienceQuestions) + Rules.Deck("Science", Rules.QuestionsPerCategory)
      ensures sportsQuestions == old(sportsQuestions) + Rules.Deck("Sports", Rules.QuestionsPerCategory)
      ensures rockQuestions == old(rockQuestions) + Rules.Deck("Rock", Rules.QuestionsPerCategory)
    {
      var i := 0;
      while i < 50
        invariant 0 <= i <= 50
        invariant popQuestions == old(popQuestions) + Rules.Deck("Pop", i)
        invariant scienceQuestions == old(scienceQuestions) + Rules.Deck("Science", i)
        invariant sportsQuestions == old(sportsQuestions) + Rules.Deck("Sports", i)
        invariant rockQuestions == old(rockQuestions) + Rules.Deck("Rock", i)
      {
        DeckGrows(old(popQuestions), "Pop", i);
        DeckGrows(old(scienceQuestions), "Science", i);
        DeckGrows(old(sportsQuestions), "Sports", i);
        DeckGrows(old(rockQuestions), "Rock", i);
        popQuestions := popQuestions + [Rules.QuestionText("Pop", i)];
        scienceQuestions := scienceQuestions + [Rules.QuestionText("Science", i)];
        sportsQuestions := sportsQuestions + [Rules.QuestionText("Sports", i)];
        rockQuestions := rockQuestions + [Rules.QuestionText("Rock", i)];
        i := i + 1;
      }
    }

    /** At most five players are ever seated. */
    function NumberOfPlayers(): (n: nat)
      reads this, places, coins, inPenaltyBox
      ensures Valid() ==> n == |State().players| < Rules.Slots
    {
      |players|
    }

    /** The game can start once two players are seated. */
    function IsPlayable(): (playable: bool)
      reads this, places, coins, inPenaltyBox
      ensures playable == Rules.IsPlayable(State())
    {
      NumberOfPlayers() >= 2
    }

    method Display(message: string)
      modifies this`output
      ensures output == old(output) + [message]
    {
      output := output + [message];
    }

    /** Seats a player. It writes index `NumberOfPlayers()` after appending,
        so only five players fit in the six-element arrays. */
    method AddPlayer(name: string) returns (added: bool)
      requires Valid() && Rules.CanAddPlayer(State())
      modifies this`players, this`output, places, coins, inPenaltyBox
      ensures State() == Rules.AddPlayer(old(State()), name).next
      ensures output == old(output) + Rules.AddPlayer(old(State()), name).shown
      ensures Valid() && added
    {
      players := players + [name];
      places[NumberOfPlayers()] := 0;
      coins[NumberOfPlayers()] := 0;
      inPenaltyBox[NumberOfPlayers()] := false;

      Display(name + " was added");
      Display("They are player number " + IntToString(|players|));
      added := true;
    }

    method Roll(roll: Int32)
      requires Valid() && Rules.CanRoll(State(), roll)
      modifies this`isGettingOutOfPenaltyBox, this`output, places
      modifies this`popQuestions, this`scienceQuestions, this`sportsQuestions, this`rockQuestions
      ensures State() == Rules.Roll(old(State()), roll).next
      ensures output == old(output) + Rules.Roll(old(State()), roll).shown
      ensures Valid()
    {
      ghost var before := State();
      ghost var name := Rules.CurrentName(before);
      ghost var opening := [name + " is the current player", "They have rolled a " + IntToString(roll)];
      Display(players[currentPlayer] + " is the current player");
      Display("They have rolled a " + IntToString(roll));

      if inPenaltyBox[currentPlayer] {
        if roll % 2 == 0 {
          Display(players[currentPlayer] + " is not getting out of the penalty box");
          isGettingOutOfPenaltyBox := false;
          ShownInOrder(old(output), opening, [name + " is not getting out of the penalty box"], []);
        } else {
          Display(players[currentPlayer] + " is getting out of the penalty box");
          isGettingOutOfPenaltyBox := true;
          ghost var released := before.(isGettingOutOfPenaltyBox := true);
          assert State() == released;
          Rules.RollReleases(before, roll);
          AskNextQuestion(roll);
          ShownInOrder(old(output), opening, [name + " is getting out of the penalty box"],
                       Rules.AskNextQuestion(released, roll).shown);
        }
      } else {
        assert State() == before;
        Rules.RollOutsideBox(before, roll);
        AskNextQuestion(roll);
        ShownInOrder(old(output), opening, Rules.AskNextQuestion(before, roll).shown, []);
      }
    }

    method AskNextQuestion(roll: Int32)
      requires Valid() && Rules.HasPlayers(State()) && Rules.CanAskAfterMoving(State(), roll)
      modifies this`output, places
      modifies this`popQuestions, this`scienceQuestions, this`sportsQuestions, this`rockQuestions
      ensures State() == Rules.AskNextQuestion(old(State()), roll).next
      ensures output == old(output) + Rules.AskNextQuestion(old(State()), roll).shown
      ensures Valid()
    {
      ghost var before := State();
      ghost var asked := Rules.AskNextQuestion(before, roll);
      assert Rules.Wellformed(asked.next);
      UpdatePlayerPlace(roll);
      ghost var moved := State();
      ghost var opening := [Rules.CurrentName(before) + "'s new location is " + IntToString(moved.places[currentPlayer]),
                            "The category is " + Rules.CurrentCategory(moved)];

      Display(players[currentPlayer] + "'s new location is " + IntToString(places[currentPlayer]));
      Display("The category is " + CurrentCategory());

      AskQuestion();
      ShownInOrder(old(output), opening, Rules.AskQuestion(moved).shown, []);
    }

    /** Moves the current player's token (`UpdatePlayerCategory` in the
        csharp copy). */
    method UpdatePlayerPlace(roll: Int32)
      requires Valid() && Rules.HasPlayers(State())
      modifies places
      ensures State() == Rules.UpdatePlayerPlace(old(State()), roll)
      ensures Valid()
    {
      places[currentPlayer] := Wrap32(places[currentPlayer] + roll);

      if places[currentPlayer] > 11 {
        places[currentPlayer] := places[currentPlayer] - 12;
      }
    }

    method AskQuestion()
      requires Valid() && Rules.CanAskQuestion(State())
      modifies this`output
      modifies this`popQuestions, this`scienceQuestions, this`sportsQuestions, this`rockQuestions
      ensures State() == Rules.AskQuestion(old(State())).next
      ensures output == old(output) + Rules.AskQuestion(old(State())).shown
      ensures Valid()
    {
      ghost var before := State();
      ghost var asked := Rules.AskQuestion(before);
      assert Rules.Wellformed(asked.next);
      assert CurrentCategory() == Rules.CurrentCategory(before);
      if CurrentCategory() == "Pop" {
        Display(popQuestions[0]);
        popQuestions := popQuestions[1..];
        assert State() == asked.next && output == old(output) + asked.shown;
      }
      if CurrentCategory() == "Science" {
        Display(scienceQuestions[0]);
        scienceQuestions := scienceQuestions[1..];
        assert State() == asked.next && output == old(output) + asked.shown;
      }
      if CurrentCategory() == "Sports" {
        Display(sportsQuestions[0]);
        sportsQuestions := sportsQuestions[1..];
        assert State() == asked.next && output == old(output) + asked.shown;
      }
      if CurrentCategory() == "Rock" {
        Display(rockQuestions[0]);
        rockQuestions := rockQuestions[1..];
        assert State() == asked.next && output == old(output) + asked.shown;
      }
    }

    /** The category text of the current player's square. */
    function CurrentCategory(): string
      requires 0 <= currentPlayer < places.Length
      reads this`currentPlayer, places
    {
      CategoryNameFor(places[currentPlayer])
    }

    method WasCorrectlyAnswered() returns (result: bool)
      requires Valid() && Rules.HasPlayers(State())
      modifies this`currentPlayer, this`output, coins
      ensures State() == Rules.WasCorrectlyAnswered(old(State())).step.next
      ensures output == old(output) + Rules.WasCorrectlyAnswered(old(State())).step.shown
      ensures result == Rules.WasCorrectlyAnswered(old(State())).result
      ensures Valid()
    {
      ghost var before := State();
      ghost var answer := Rules.WasCorrectlyAnswered(before);
      assert Rules.Wellformed(answer.step.next);
      ghost var cur := currentPlayer;
      ghost var scored := before.coins[cur := Wrap32(before.coins[cur] as int + 1)];
      if inPenaltyBox[currentPlayer] {
        if isGettingOutOfPenaltyBox {
          Display("Answer was correct!!!!");
          coins[currentPlayer] := Wrap32(coins[currentPlayer] as int + 1);
          assert coins[..] == scored;
          Display(players[currentPlayer] + " now has " + IntToString(coins[currentPlayer]) + " Gold Coins.");

          var winner := DidPlayerWin();
          currentPlayer := currentPlayer + 1;
          if currentPlayer == |players| { currentPlayer := 0; }
          assert currentPlayer == Rules.NextPlayer(before);

          assert answer == Rules.AwardCoin(before);
          assert State() == before.(coins := scored, currentPlayer := Rules.NextPlayer(before));
          ShownInOrder(old(output), answer.step.shown, [], []);
          return winner;
        }

        currentPlayer := currentPlayer + 1;
        if currentPlayer == |players| { currentPlayer := 0; }
        assert currentPlayer == Rules.NextPlayer(before);
        assert State() == before.(currentPlayer := Rules.NextPlayer(before));
        return true;
      }
      Display("Answer was correct!!!!");
      coins[currentPlayer] := Wrap32(coins[currentPlayer] as int + 1);
      assert coins[..] == scored;
      Display(players[currentPlayer] + " now has " + IntToString(coins[currentPlayer]) + " Gold Coins.");

      var winner := DidPlayerWin();
      currentPlayer := currentPlayer + 1;
      if currentPlayer == |players| { currentPlayer := 0; }
      assert currentPlayer == Rules.NextPlayer(before);

      assert answer == Rules.AwardCoin(before);
      assert State() == before.(coins := scored, currentPlayer := Rules.NextPlayer(before));
      ShownInOrder(old(output), answer.step.shown, [], []);
      return winner;
    }

    method WrongAnswer() returns (result: bool)
      requires Valid() && Rules.HasPlayers(State())
      modifies this`currentPlayer, this`output, inPenaltyBox
      ensures State() == Rules.WrongAnswer(old(State())).next
      ensures output == old(output) + Rules.WrongAnswer(old(State())).shown
      ensures Valid() && result
    {
      Display("Question was incorrectly answered");
      Display(players[currentPlayer] + " was sent to the penalty box");
      inPenaltyBox[currentPlayer] := true;

      currentPlayer := currentPlayer + 1;
      if currentPlayer == |players| { currentPlayer := 0; }
      return true;
    }

    /** True while the current player does NOT hold six coins. */
    function DidPlayerWin(): bool
      requires 0 <= currentPlayer < coins.Length
      reads this`currentPlayer, coins
    {
      coins[currentPlayer] != 6
    }
  }

  /** Appending the next question to a deck of `i` questions gives the deck of `i + 1`. */
  lemma DeckGrows(start: seq<string>, category: string, i: nat)
    ensures start + Rules.Deck(category, i) + [Rules.QuestionText(category, i)]
         == start + Rules.Deck(category, i + 1)
  {
    assert Rules.Deck(category, i) + [Rules.QuestionText(category, i)] == Rules.Deck(category, i + 1);
  }

  /** Lines displayed one at a time form the concatenation of the groups
      they were displayed in. */
  lemma ShownInOrder(log: seq<string>, opening: seq<string>, middle: seq<string>, rest: seq<string>)
    requires |opening| == 2
    ensures log + [opening[0]] + [opening[1]] + middle + rest == log + (opening + middle + rest)
    ensures log + [opening[0]] + [opening[1]] + middle == log + (opening + middle)
    ensures log + [opening[0]] + [opening[1]] == log + opening
  {
  }
}
