/** The trivia game as values: the state the `Game` object keeps, and what
    each public operation does to it and displays. The `Game` class in
    module Trivia is proved to follow these step functions. */
module Rules {
  import opened Numeric
  import opened Board

  /** Length of the game's per-player arrays. */
  const Slots: int := 6
  const QuestionsPerCategory: nat := 50
  const CategoryNameList: seq<string> := ["Pop", "Science", "Sports", "Rock"]

  /** Placeholder text of a question: the category name, then " Question ",
      then the index in decimal. */
  function QuestionText(category: string, index: nat): (text: string)
    ensures |text| > |category| + 10
    ensures text[..|category|] == category
    ensures text[|category|..|category| + 10] == " Question "
    ensures text[|category| + 10..] == IntToString(index)
  {
    category + " Question " + IntToString(index)
  }

  /** The first `count` questions of a category, in the order they are asked. */
  function Deck(category: string, count: nat): (d: seq<string>)
    ensures |d| == count
    ensures forall k :: 0 <= k < count ==> d[k] == QuestionText(category, k)
  {
    seq(count, k requires 0 <= k => QuestionText(category, k))
  }

  lemma QuestionTextInjective(category: string, i: nat, j: nat)
    requires QuestionText(category, i) == QuestionText(category, j)
    ensures i == j
  {
    IntToStringInjective(i, j);
  }

  /** No question of a deck is asked twice. */
  lemma DeckDistinct(category: string, count: nat, i: nat, j: nat)
    requires i < j < count
    ensures Deck(category, count)[i] != Deck(category, count)[j]
  {
    if Deck(category, count)[i] == Deck(category, count)[j] {
      QuestionTextInjective(category, i, j);
    }
  }

  /** Everything a `Game` object holds. `places`, `coins` and `inPenaltyBox`
      are the three six-element arrays indexed by player number; the four
      queues are the question lists, front first. */
  datatype GameState = GameState(
    players: seq<string>,
    places: seq<Int32>,
    coins: seq<Int32>,
    inPenaltyBox: seq<bool>,
    currentPlayer: int,
    isGettingOutOfPenaltyBox: bool,
    popQuestions: seq<string>,
    scienceQuestions: seq<string>,
    sportsQuestions: seq<string>,
    rockQuestions: seq<string>)
  {
    /** The queue a question is drawn from when the category text is `category`. */
    function QuestionsFor(category: string): seq<string> {
      if category == "Pop" then popQuestions
      else if category == "Science" then scienceQuestions
      else if category == "Sports" then sportsQuestions
      else if category == "Rock" then rockQuestions
      else []
    }

    function WithQuestionsFor(category: string, questions: seq<string>): GameState {
      if category == "Pop" then this.(popQuestions := questions)
      else if category == "Science" then this.(scienceQuestions := questions)
      else if category == "Sports" then this.(sportsQuestions := questions)
      else if category == "Rock" then this.(rockQuestions := questions)
      else this
    }
  }

  /** What one operation displayed, and the state it left. */
  datatype Step = Step(next: GameState, shown: seq<string>)

  /** A step of an operation that also returns a boolean. */
  datatype Answer = Answer(step: Step, result: bool)

  /** The invariant every reachable state keeps: six slots per array, at
      most five players (the sixth `AddPlayer` throws), a current player
      among the players, and untouched slots for everyone not yet added. */
  predicate Wellformed(s: GameState) {
    && |s.places| == Slots && |s.coins| == Slots && |s.inPenaltyBox| == Slots
    && |s.players| < Slots
    && (if s.players == [] then s.currentPlayer == 0 else 0 <= s.currentPlayer < |s.players|)
    && forall k :: |s.players| <= k < Slots ==> s.places[k] == 0 && s.coins[k] == 0 && !s.inPenaltyBox[k]
  }

  predicate HasPlayers(s: GameState) {
    s.players != []
  }

  /** The fields other than the question queues agree. */
  predicate SameTable(s: GameState, t: GameState) {
    && s.players == t.players && s.places == t.places && s.coins == t.coins
    && s.inPenaltyBox == t.inPenaltyBox && s.currentPlayer == t.currentPlayer
    && s.isGettingOutOfPenaltyBox == t.isGettingOutOfPenaltyBox
  }

  /** A fresh game: no players, every slot zero, and fifty questions per category. */
  function NewGame(): (s: GameState)
    ensures Wellformed(s) && !HasPlayers(s)
    ensures forall c :: c in CategoryNameList ==> s.QuestionsFor(c) == Deck(c, QuestionsPerCategory)
  {
    GameState([], seq(Slots, _ => 0), seq(Slots, _ => 0), seq(Slots, _ => false), 0, false,
              Deck("Pop", QuestionsPerCategory), Deck("Science", QuestionsPerCategory),
              Deck("Sports", QuestionsPerCategory), Deck("Rock", QuestionsPerCategory))
  }

  /** The game can start: at least two players are seated, so there is a
      current player and passing the turn hands it to someone else. */
  function IsPlayable(s: GameState): (playable: bool)
    ensures Wellformed(s) && playable ==> HasPlayers(s) && NextPlayer(s) != s.currentPlayer
  {
    |s.players| >= 2
  }

  // ---------------------------------------------------------------- AddPlayer

  /** `AddPlayer` writes index `|players|` after appending, so it completes
      only while that index is inside the six-element arrays. */
  predicate CanAddPlayer(s: GameState) {
    |s.players| + 1 < Slots
  }

  function AddPlayer(s: GameState, name: string): (r: Step)
    requires Wellformed(s) && CanAddPlayer(s)
    ensures Wellformed(r.next) && r.next.players == s.players + [name]
  {
    var players := s.players + [name];
    var n := |players|;
    Step(s.(players := players, places := s.places[n := 0], coins := s.coins[n := 0],
            inPenaltyBox := s.inPenaltyBox[n := false]),
         [name + " was added", "They are player number " + IntToString(n)])
  }

  /** The newcomer is seated last, on square 0 with no coins and outside the
      box; the players already seated keep their places, coins and flags and
      the turn does not move; the two lines name the newcomer and the new
      player count. */
  lemma AddPlayerSeatsNewcomer(s: GameState, name: string)
    requires Wellformed(s) && CanAddPlayer(s)
    ensures var r := AddPlayer(s, name); var k := |s.players|;
      && r.next.places[k] == 0 && r.next.coins[k] == 0 && !r.next.inPenaltyBox[k]
      && r.next.places[..k] == s.places[..k]
      && r.next.coins[..k] == s.coins[..k]
      && r.next.inPenaltyBox[..k] == s.inPenaltyBox[..k]
      && r.next.currentPlayer == s.currentPlayer
      && r.next.isGettingOutOfPenaltyBox == s.isGettingOutOfPenaltyBox
      && SameQuestions(s, r.next)
      && r.shown == [name + " was added", "They are player number " + IntToString(k + 1)]
  {
  }

  lemma AppendAssociative<T>(a: seq<T>, b: seq<T>, c: seq<T>)
    ensures a + b + c == a + (b + c)
  {
  }

  /** Adding several players one after the other. */
  function AddPlayers(s: GameState, names: seq<string>): (r: Step)
    requires Wellformed(s) && |s.players| + |names| < Slots
    ensures Wellformed(r.next)
    decreases |names|
  {
    if names == [] then Step(s, [])
    else
      var first := AddPlayer(s, names[0]);
      var rest := AddPlayers(first.next, names[1..]);
      Step(rest.next, first.shown + rest.shown)
  }

  /** The lines announcing `names`, numbered from `first`. */
  function Announcements(names: seq<string>, first: int): (lines: seq<string>)
    ensures |lines| == 2 * |names|
    decreases |names|
  {
    if names == [] then []
    else [names[0] + " was added", "They are player number " + IntToString(first)]
         + Announcements(names[1..], first + 1)
  }

  /** Each addition's first line names the player added. */
  lemma {:induction false} AddedLineAt(names: seq<string>, first: int, k: nat)
    requires k < |names|
    ensures Announcements(names, first)[2 * k] == names[k] + " was added"
    decreases k
  {
    var head := [names[0] + " was added", "They are player number " + IntToString(first)];
    var rest := Announcements(names[1..], first + 1);
    assert Announcements(names, first) == head + rest;
    if k > 0 {
      AddedLineAt(names[1..], first + 1, k - 1);
      assert names[1..][k - 1] == names[k];
      assert (head + rest)[2 * k] == rest[2 * (k - 1)];
    }
  }

  /** Each addition's second line gives the player's number, counting on
      from `first`. */
  lemma {:induction false} NumberLineAt(names: seq<string>, first: int, k: nat)
    requires k < |names|
    ensures Announcements(names, first)[2 * k + 1] == "They are player number " + IntToString(first + k)
    decreases k
  {
    var head := [names[0] + " was added", "They are player number " + IntToString(first)];
    var rest := Announcements(names[1..], first + 1);
    assert Announcements(names, first) == head + rest;
    if k == 0 {
      assert IntToString(first + k) == IntToString(first);
    } else {
      NumberLineAt(names[1..], first + 1, k - 1);
      assert (head + rest)[2 * k + 1] == rest[2 * (k - 1) + 1];
      assert IntToString(first + 1 + (k - 1)) == IntToString(first + k);
    }
  }

  /** Adding several players appends their names and announces each with
      its 1-based count. */
  lemma {:induction false} PlayersAdded(s: GameState, names: seq<string>)
    requires Wellformed(s) && |s.players| + |names| < Slots
    ensures AddPlayers(s, names).next.players == s.players + names
    ensures AddPlayers(s, names).shown == Announcements(names, |s.players| + 1)
    decreases |names|
  {
    if names != [] {
      var first := AddPlayer(s, names[0]);
      PlayersAdded(first.next, names[1..]);
      assert names == [names[0]] + names[1..];
      AppendAssociative(s.players, [names[0]], names[1..]);
    }
  }

  /** A game started with `names` is playable exactly when at least two
      names were added. */
  lemma PlayableIffTwoPlayers(names: seq<string>)
    requires |names| < Slots
    ensures IsPlayable(AddPlayers(NewGame(), names).next) <==> |names| >= 2
  {
    PlayersAdded(NewGame(), names);
  }

  // -------------------------------------------------------------------- Roll

  function CurrentName(s: GameState): string
    requires Wellformed(s) && HasPlayers(s)
  {
    s.players[s.currentPlayer]
  }

  /** The category text of the current player's square. */
  function CurrentCategory(s: GameState): (category: string)
    requires Wellformed(s)
    ensures category in CategoryNameList
  {
    CategoryNameFor(s.places[s.currentPlayer])
  }

  /** Moves the current player's token; nothing else changes. */
  function UpdatePlayerPlace(s: GameState, roll: Int32): (t: GameState)
    requires Wellformed(s) && HasPlayers(s)
    ensures Wellformed(t) && HasPlayers(t)
    ensures t == s.(places := t.places)
    ensures forall k :: 0 <= k < Slots && k != s.currentPlayer ==> t.places[k] == s.places[k]
    ensures 0 <= s.places[s.currentPlayer] < Squares && 1 <= roll <= Squares ==>
              0 <= t.places[s.currentPlayer] < Squares
  {
    var cur := s.currentPlayer;
    s.(places := s.places[cur := NextPosition(s.places[cur], roll)])
  }

  /** The question queue of the current category has a question left. */
  predicate CanAskQuestion(s: GameState)
    requires Wellformed(s)
  {
    s.QuestionsFor(CurrentCategory(s)) != []
  }

  /** Displays and removes the front question of the current category's
      queue (asking on an empty queue throws in the source). */
  function AskQuestion(s: GameState): (r: Step)
    requires Wellformed(s) && CanAskQuestion(s)
    ensures Wellformed(r.next)
  {
    var category := CurrentCategory(s);
    var queue := s.QuestionsFor(category);
    Step(s.WithQuestionsFor(category, queue[1..]), [queue[0]])
  }

  /** Exactly one question leaves exactly one queue, from its front, and is
      the line displayed. */
  lemma AskQuestionTakesFront(s: GameState)
    requires Wellformed(s) && CanAskQuestion(s)
    ensures var category := CurrentCategory(s);
      && AskQuestion(s).shown == [s.QuestionsFor(category)[0]]
      && AskQuestion(s).next.QuestionsFor(category) == s.QuestionsFor(category)[1..]
      && (forall c :: c in CategoryNameList && c != category ==>
            AskQuestion(s).next.QuestionsFor(c) == s.QuestionsFor(c))
      && SameTable(s, AskQuestion(s).next)
  {
  }

  predicate CanAskAfterMoving(s: GameState, roll: Int32)
    requires Wellformed(s) && HasPlayers(s)
  {
    CanAskQuestion(UpdatePlayerPlace(s, roll))
  }

  function AskNextQuestion(s: GameState, roll: Int32): (r: Step)
    requires Wellformed(s) && HasPlayers(s) && CanAskAfterMoving(s, roll)
    ensures Wellformed(r.next)
  {
    var moved := UpdatePlayerPlace(s, roll);
    var asked := AskQuestion(moved);
    Step(asked.next,
         [CurrentName(s) + "'s new location is " + IntToString(moved.places[s.currentPlayer]),
          "The category is " + CurrentCategory(moved)] + asked.shown)
  }

  /** The roll moves the current player: they are outside the box, or the
      roll is odd. (`roll % 2 == 0` holds for the same rolls under C#'s
      truncating remainder and Dafny's Euclidean one.) */
  predicate Moves(s: GameState, roll: Int32)
    requires Wellformed(s)
  {
    !s.inPenaltyBox[s.currentPlayer] || roll % 2 != 0
  }

  /** `Roll` completes: there is a player to name, and a question left in the
      category the move lands on. */
  predicate CanRoll(s: GameState, roll: Int32) {
    Wellformed(s) && HasPlayers(s) && (Moves(s, roll) ==> CanAskAfterMoving(s, roll))
  }

  function Roll(s: GameState, roll: Int32): (r: Step)
    requires CanRoll(s, roll)
    ensures Wellformed(r.next) && HasPlayers(r.next)
  {
    var name := CurrentName(s);
    var opening := [name + " is the current player", "They have rolled a " + IntToString(roll)];
    if s.inPenaltyBox[s.currentPlayer] then
      if roll % 2 == 0 then
        Step(s.(isGettingOutOfPenaltyBox := false),
             opening + [name + " is not getting out of the penalty box"])
      else
        var released := s.(isGettingOutOfPenaltyBox := true);
        var asked := AskNextQuestion(released, roll);
        Step(asked.next, opening + [name + " is getting out of the penalty box"] + asked.shown)
    else
      var asked := AskNextQuestion(s, roll);
      Step(asked.next, opening + asked.shown)
  }

  /** How Roll unfolds when an in-box player rolls odd. */
  lemma RollReleases(s: GameState, roll: Int32)
    requires CanRoll(s, roll) && s.inPenaltyBox[s.currentPlayer] && roll % 2 != 0
    ensures var released := s.(isGettingOutOfPenaltyBox := true);
      && Wellformed(released) && HasPlayers(released) && CanAskAfterMoving(released, roll)
      && Roll(s, roll).next == AskNextQuestion(released, roll).next
      && Roll(s, roll).shown ==
         [CurrentName(s) + " is the current player", "They have rolled a " + IntToString(roll),
          CurrentName(s) + " is getting out of the penalty box"] + AskNextQuestion(released, roll).shown
  {
  }

  /** How Roll unfolds for a player outside the box. */
  lemma RollOutsideBox(s: GameState, roll: Int32)
    requires CanRoll(s, roll) && !s.inPenaltyBox[s.currentPlayer]
    ensures Roll(s, roll).next == AskNextQuestion(s, roll).next
    ensures Roll(s, roll).shown ==
      [CurrentName(s) + " is the current player", "They have rolled a " + IntToString(roll)]
      + AskNextQuestion(s, roll).shown
  {
  }

  /** A player in the box who rolls even stays put: three lines, the release
      flag cleared, and no place, coin, flag or queue changed. */
  lemma RollStayingInBox(s: GameState, roll: Int32)
    requires CanRoll(s, roll) && s.inPenaltyBox[s.currentPlayer] && roll % 2 == 0
    ensures Roll(s, roll).shown ==
      [CurrentName(s) + " is the current player", "They have rolled a " + IntToString(roll),
       CurrentName(s) + " is not getting out of the penalty box"]
    ensures Roll(s, roll).next == s.(isGettingOutOfPenaltyBox := false)
  {
  }

  /** A roll that moves the player moves only the current token, to
      NextPosition, and then asks exactly one question: the front of the
      queue of the square's category, which is the last line displayed. */
  lemma RollMovesAndAsks(s: GameState, roll: Int32)
    requires CanRoll(s, roll) && Moves(s, roll)
    ensures var t := Roll(s, roll).next;
      var cur := s.currentPlayer;
      var place := NextPosition(s.places[cur], roll);
      var category := CategoryNameFor(place);
      && t.places == s.places[cur := place]
      && t.players == s.players && t.coins == s.coins && t.inPenaltyBox == s.inPenaltyBox
      && t.currentPlayer == cur
      && t.isGettingOutOfPenaltyBox == (s.inPenaltyBox[cur] || s.isGettingOutOfPenaltyBox)
      && t.QuestionsFor(category) == s.QuestionsFor(category)[1..]
      && (forall c :: c in CategoryNameList && c != category ==> t.QuestionsFor(c) == s.QuestionsFor(c))
      && |Roll(s, roll).shown| == (if s.inPenaltyBox[cur] then 6 else 5)
      && Roll(s, roll).shown[|Roll(s, roll).shown| - 1] == s.QuestionsFor(category)[0]
      && Roll(s, roll).shown[|Roll(s, roll).shown| - 2] == "The category is " + category
      && Roll(s, roll).shown[|Roll(s, roll).shown| - 3] ==
         CurrentName(s) + "'s new location is " + IntToString(place)
  {
    var cur := s.currentPlayer;
    var base := if s.inPenaltyBox[cur] then s.(isGettingOutOfPenaltyBox := true) else s;
    var moved := UpdatePlayerPlace(base, roll);
    AskQuestionTakesFront(moved);
  }

  /** For a player in the box the roll decides the release flag: set exactly
      when the roll is odd. Outside the box the flag is left alone. */
  lemma RollSetsReleaseFlag(s: GameState, roll: Int32)
    requires CanRoll(s, roll)
    ensures s.inPenaltyBox[s.currentPlayer] ==>
              Roll(s, roll).next.isGettingOutOfPenaltyBox == (roll % 2 != 0)
    ensures !s.inPenaltyBox[s.currentPlayer] ==>
              Roll(s, roll).next.isGettingOutOfPenaltyBox == s.isGettingOutOfPenaltyBox
  {
    if Moves(s, roll) {
      RollMovesAndAsks(s, roll);
    }
  }

  /** Everyone is on the board and rolls a die of at most 12: the board
      invariant survives the roll. */
  predicate OnBoard(s: GameState) {
    forall k :: 0 <= k < |s.places| ==> 0 <= s.places[k] < Squares
  }

  lemma RollKeepsTokensOnBoard(s: GameState, roll: Int32)
    requires CanRoll(s, roll) && OnBoard(s) && 1 <= roll <= Squares
    ensures OnBoard(Roll(s, roll).next)
  {
    if Moves(s, roll) {
      RollMovesAndAsks(s, roll);
      NextPositionOnBoard(s.places[s.currentPlayer], roll);
    }
  }

  // ----------------------------------------------------------------- Answers

  /** The index of the player after the current one: one more, reset to 0
      on reaching the player count. */
  function NextPlayer(s: GameState): (next: int)
    requires Wellformed(s) && HasPlayers(s)
    ensures next == (s.currentPlayer + 1) % |s.players|
  {
    if s.currentPlayer + 1 == |s.players| then 0 else s.currentPlayer + 1
  }

  /** The (inverted) win check: true while the current player does NOT hold six coins. */
  function DidPlayerWin(s: GameState): bool
    requires Wellformed(s)
  {
    s.coins[s.currentPlayer] != 6
  }

  /** A correct answer earns a coin unless the player sits in the box without
      having been released this turn. */
  predicate Scores(s: GameState)
    requires Wellformed(s)
  {
    !s.inPenaltyBox[s.currentPlayer] || s.isGettingOutOfPenaltyBox
  }

  function AwardCoin(s: GameState): (a: Answer)
    requires Wellformed(s) && HasPlayers(s)
    ensures Wellformed(a.step.next)
  {
    var cur := s.currentPlayer;
    var scored := s.(coins := s.coins[cur := Wrap32(s.coins[cur] as int + 1)]);
    var winner := DidPlayerWin(scored);
    Answer(Step(scored.(currentPlayer := NextPlayer(s)),
                ["Answer was correct!!!!",
                 CurrentName(s) + " now has " + IntToString(scored.coins[cur]) + " Gold Coins."]),
           winner)
  }

  function WasCorrectlyAnswered(s: GameState): (a: Answer)
    requires Wellformed(s) && HasPlayers(s)
    ensures Wellformed(a.step.next) && HasPlayers(a.step.next)
  {
    if Scores(s) then AwardCoin(s)
    else Answer(Step(s.(currentPlayer := NextPlayer(s)), []), true)
  }

  /** The question queues agree. */
  predicate SameQuestions(s: GameState, t: GameState) {
    && s.popQuestions == t.popQuestions && s.scienceQuestions == t.scienceQuestions
    && s.sportsQuestions == t.sportsQuestions && s.rockQuestions == t.rockQuestions
  }

  lemma QueuesAgree(s: GameState, t: GameState, c: string)
    requires SameQuestions(s, t)
    ensures s.QuestionsFor(c) == t.QuestionsFor(c)
  {
  }

  /** A category text other than the four names selects no queue. */
  lemma NoQueueFor(s: GameState, c: string)
    requires c !in CategoryNameList
    ensures s.QuestionsFor(c) == []
  {
  }

  /** In every branch a correct answer passes the turn to the next player
      and leaves places, penalty flags, the release flag, the queues and the
      other players' coins alone. */
  lemma CorrectAnswerPassesTurn(s: GameState)
    requires Wellformed(s) && HasPlayers(s)
    ensures var t := WasCorrectlyAnswered(s).step.next;
      && t.currentPlayer == (s.currentPlayer + 1) % |s.players|
      && t.players == s.players && t.places == s.places && t.inPenaltyBox == s.inPenaltyBox
      && t.isGettingOutOfPenaltyBox == s.isGettingOutOfPenaltyBox
      && SameQuestions(s, t)
      && (forall k :: 0 <= k < Slots && k != s.currentPlayer ==> t.coins[k] == s.coins[k])
  {
  }

  /** In the scoring branches the current player's coins rise by one (as an
      `int`), the new total is displayed, and the result is false exactly
      when they now hold six. */
  lemma CorrectAnswerScores(s: GameState)
    requires Wellformed(s) && HasPlayers(s) && Scores(s)
    ensures var a := WasCorrectlyAnswered(s); var coins := a.step.next.coins[s.currentPlayer];
      && coins == Wrap32(s.coins[s.currentPlayer] as int + 1)
      && (s.coins[s.currentPlayer] < MaxInt32 ==> coins == s.coins[s.currentPlayer] + 1)
      && (a.result <==> coins != 6)
      && a.step.shown == ["Answer was correct!!!!",
                          CurrentName(s) + " now has " + IntToString(coins) + " Gold Coins."]
  {
  }

  /** The only answer that reports the game over (returns false) is a
      scoring one that brings the player from five coins to six. */
  lemma GameEndsOnSixthCoin(s: GameState)
    requires Wellformed(s) && HasPlayers(s)
    ensures !WasCorrectlyAnswered(s).result <==> Scores(s) && s.coins[s.currentPlayer] == 5
  {
    if Scores(s) {
      CorrectAnswerScores(s);
      IncrementReaches(s.coins[s.currentPlayer], 6);
    } else {
      CorrectAnswerInBox(s);
    }
  }

  /** The release flag belongs to the game, not to a player: whenever it is
      set, a player in the box scores on a correct answer, whoever's roll set
      it. */
  lemma ReleaseFlagIsShared(s: GameState)
    requires Wellformed(s) && HasPlayers(s)
    requires s.inPenaltyBox[s.currentPlayer] && s.isGettingOutOfPenaltyBox
    ensures WasCorrectlyAnswered(s).step.shown != []
    ensures WasCorrectlyAnswered(s).step.next.coins[s.currentPlayer] == Wrap32(s.coins[s.currentPlayer] as int + 1)
  {
  }

  /** In the box without release a correct answer shows nothing, moves no
      coin and returns true. */
  lemma CorrectAnswerInBox(s: GameState)
    requires Wellformed(s) && HasPlayers(s) && !Scores(s)
    ensures var a := WasCorrectlyAnswered(s);
      a.step.next.coins == s.coins && a.result && a.step.shown == []
  {
  }

  function WrongAnswer(s: GameState): (r: Step)
    requires Wellformed(s) && HasPlayers(s)
    ensures Wellformed(r.next) && HasPlayers(r.next)
  {
    var cur := s.currentPlayer;
    Step(s.(inPenaltyBox := s.inPenaltyBox[cur := true], currentPlayer := NextPlayer(s)),
         ["Question was incorrectly answered", CurrentName(s) + " was sent to the penalty box"])
  }

  /** A wrong answer puts the current player in the box (and no one else in
      or out of it) and passes the turn; places, coins and queues stay. */
  lemma WrongAnswerOutcome(s: GameState)
    requires Wellformed(s) && HasPlayers(s)
    ensures var t := WrongAnswer(s).next; var cur := s.currentPlayer;
      && t.inPenaltyBox[cur]
      && (forall k :: 0 <= k < Slots && k != cur ==> t.inPenaltyBox[k] == s.inPenaltyBox[k])
      && t.currentPlayer == (cur + 1) % |s.players|
      && t.players == s.players && t.places == s.places && t.coins == s.coins
      && t.isGettingOutOfPenaltyBox == s.isGettingOutOfPenaltyBox
      && SameQuestions(s, t)
      && WrongAnswer(s).shown ==
         ["Question was incorrectly answered", CurrentName(s) + " was sent to the penalty box"]
  {
  }

  /** Within one turn (a roll, then a correct answer) a player in the box
      scores exactly when the roll was odd: the game-wide release flag is
      always rewritten by the roll before the answer reads it. */
  lemma TurnScoresIffReleased(s: GameState, roll: Int32)
    requires CanRoll(s, roll) && s.inPenaltyBox[s.currentPlayer]
    ensures var t := Roll(s, roll).next; Scores(t) <==> roll % 2 != 0
  {
    RollSetsReleaseFlag(s, roll);
    if Moves(s, roll) {
      RollMovesAndAsks(s, roll);
    }
  }

  /** Adding John and Oliver to a new game seats John first, on square 0,
      outside the box, with the Rock queue untouched. */
  lemma JohnAndOliverAdded()
    ensures var added := AddPlayers(NewGame(), ["John", "Oliver"]).next;
      && added.players == ["John", "Oliver"] && added.currentPlayer == 0
      && !added.inPenaltyBox[0] && added.places[0] == 0
      && added.rockQuestions == Deck("Rock", QuestionsPerCategory)
  {
    var s0 := NewGame();
    var s1 := AddPlayer(s0, "John").next;
    var s2 := AddPlayer(s1, "Oliver").next;
    assert AddPlayers(s1, ["Oliver"]).next == s2;
    assert AddPlayers(s0, ["John", "Oliver"]).next == s2;
  }

  /** A player outside the box on square 0 who rolls 3 lands on the Rock
      square 3 and is asked the front Rock question. */
  lemma RollThreeFromStart(s: GameState)
    requires Wellformed(s) && HasPlayers(s)
    requires !s.inPenaltyBox[s.currentPlayer] && s.places[s.currentPlayer] == 0
    requires s.rockQuestions != []
    ensures CanRoll(s, 3)
    ensures Roll(s, 3).shown ==
      [CurrentName(s) + " is the current player", "They have rolled a 3",
       CurrentName(s) + "'s new location is 3", "The category is Rock", s.rockQuestions[0]]
  {
    assert NextPosition(0, 3) == 3 && CategoryNameFor(3) == "Rock";
    assert IntToString(3) == "3";
    var moved := UpdatePlayerPlace(s, 3);
    assert moved.places[s.currentPlayer] == 3 && CurrentCategory(moved) == "Rock";
    assert AskQuestion(moved).shown == [s.rockQuestions[0]];
    var name := CurrentName(s);
    assert name + "'s new location is " + IntToString(3) == name + "'s new location is 3";
    assert "The category is " + CurrentCategory(moved) == "The category is Rock";
    assert "They have rolled a " + IntToString(3) == "They have rolled a 3";
    assert AskNextQuestion(s, 3).shown ==
      [name + "'s new location is 3", "The category is Rock", s.rockQuestions[0]];
  }

  /** The opening turn of a two-player game: John rolls 3 and is asked the
      first Rock question. */
  lemma FirstTurnOfTwoPlayerGame(added: GameState)
    requires added == AddPlayers(NewGame(), ["John", "Oliver"]).next
    ensures CanRoll(added, 3)
    ensures Roll(added, 3).shown ==
      ["John is the current player", "They have rolled a 3", "John's new location is 3",
       "The category is Rock", "Rock Question 0"]
  {
    JohnAndOliverAdded();
    FirstRockQuestion();
    assert added.rockQuestions[0] == "Rock Question 0";
    RollThreeFromStart(added);
    JohnOpening(CurrentName(added));
  }

  lemma FirstRockQuestion()
    ensures Deck("Rock", QuestionsPerCategory)[0] == "Rock Question 0"
  {
    assert IntToString(0) == "0";
  }

  lemma JohnOpening(name: string)
    requires name == "John"
    ensures name + " is the current player" == "John is the current player"
    ensures name + "'s new location is 3" == "John's new location is 3"
  {
  }
}
