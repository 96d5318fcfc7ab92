# Trivia game model

This is a Dafny model of the trivia kata's `Game` object. The repository holds two copies of it, csharp/Trivia/Game.cs and Trivia/Game.cs. Their observable behaviour is identical, so one model covers both copies. The differences do not change what either copy displays or returns:
- Private helpers have different names: `UpdatePlayerCategory` vs `UpdatePlayerPlace`, and an inline category dictionary vs `GetCategoryFor`.
- The csharp copy has a `Player` class with its own move and lookup (csharp/Trivia/Game.cs:7-49). It also keeps an `_altPlayers` list that `AddPlayer` fills (lines 90 and 108-109) and the game never reads.
- The csharp copy's `Category` objects are shared static singletons (lines 56-59). Trivia/Game.cs creates one instance of each per game (lines 46-49).

The table below cites the csharp copy. In Trivia/Game.cs the same members sit at these lines:
- `IsPlayable`: 56-58
- `AddPlayer`: 60-70
- `Roll`: 72-95
- `AskNextQuestion`: 97-105
- `CreateQuestions`: 107-121
- `UpdatePlayerPlace`: 123-131
- `AskQuestion`: 133-155
- `GetCategoryFor` (read by `CurrentCategory`): 157-178
- `WasCorrectlyAnswered`: 180-218
- `WrongAnswer`: 220-229
- `DidPlayerWin`: 231-234

The csharp copy's `Player` object is modelled too: its token move and its category lookup.

The game works as follows:
- Up to five players are seated.
- Each turn the current player rolls and moves round a twelve-square board.
- The player is asked the front question of the category of the square they land on.
- A correct answer earns a gold coin and passes the turn.
- A wrong answer sends the player to the penalty box and passes the turn.
- A player in the box moves only on an odd roll. A player in the box who rolls and then answers scores only on an odd roll (`Rules.TurnScoresIffReleased`). The release flag belongs to the whole game and answering does not clear it, so an in-box player who answers without having rolled scores whenever the flag is set (`Rules.ReleaseFlagIsShared`).
- Everything the game says goes to `Display`, one line at a time.

Modules:
- `Numeric`: C#'s 32-bit `int` (`Int32`), unchecked wrap-around (`Wrap32`), and the decimal text that `"..." + n` produces (`IntToString`), with a parser proving that text round-trips.
- `Board`: the twelve squares, the position-to-category dictionary (`CategoryNames`, read through `CategoryNameFor`), and the token move (`NextPosition`).
- `Players`: the csharp copy's `Player` class.
- `Rules`: the game as values. `GameState` holds what a `Game` object holds. Each public operation is a step function returning the next state and the lines displayed. The properties of the game are lemmas over these functions.
- `Session`: any sequence of public calls (`Play`), and what holds across every such session.
- `Trivia`: the `Game` class itself. It has the three six-element arrays, the player list, the four question queues and the display log as fields. Each method is proved to leave exactly the state, and to display exactly the lines, that the matching step function in `Rules` prescribes, and to keep the invariant `Valid()`.

The source's quirks are modelled as written:
- `DidPlayerWin` returns true while the player does NOT hold six coins.
- A move subtracts 12 only once, so a roll of 24 or more leaves the board.
- No operation ever takes a player out of the penalty box.
- The release flag `isGettingOutOfPenaltyBox` is one flag for the whole game, not one per player.
- The sixth `AddPlayer` writes index 6 of a six-element array, so at most five players fit.

## Model

| member | source | states |
|---|---|---|
| Trivia.Game.constructor | csharp/Trivia/Game.cs:97-100 | a new game has no players, zeroed slots, fifty questions per category and an empty display log (`Rules.NewGame`) |
| Trivia.Game.CreateQuestions | csharp/Trivia/Game.cs:157-171 | the loop appends "Pop/Science/Sports/Rock Question i" for i = 0..49 to the matching queue, in order |
| Trivia.Game.IsPlayable | csharp/Trivia/Game.cs:102-104 | playable exactly when the state's player count is at least two |
| Trivia.Game.NumberOfPlayers | csharp/Trivia/Game.cs:104 | the count is the model's player count, and it is always below six |
| Trivia.Game.AddPlayer | csharp/Trivia/Game.cs:106-120 | the new state and the two lines are those of `Rules.AddPlayer`; returns true; the invariant holds |
| Trivia.Game.Roll | csharp/Trivia/Game.cs:122-145 | the new state and the displayed lines are those of `Rules.Roll`, in every branch of the penalty-box test |
| Trivia.Game.AskNextQuestion | csharp/Trivia/Game.cs:147-155 | moves the token, shows the new location and category, then asks, as `Rules.AskNextQuestion` |
| Trivia.Game.UpdatePlayerPlace | csharp/Trivia/Game.cs:173-181 | only the current player's square changes, to `Rules.UpdatePlayerPlace` (the csharp copy calls it `UpdatePlayerCategory`) |
| Trivia.Game.AskQuestion | csharp/Trivia/Game.cs:183-205 | displays and removes the front of the current category's queue, as `Rules.AskQuestion` |
| Trivia.Game.WasCorrectlyAnswered | csharp/Trivia/Game.cs:227-265 | new state, lines and returned flag are those of `Rules.WasCorrectlyAnswered`, across the three branches |
| Trivia.Game.WrongAnswer | csharp/Trivia/Game.cs:267-276 | new state and lines are those of `Rules.WrongAnswer`; returns true |
| Trivia.Game.Display | csharp/Trivia/Game.cs:283-286 | the message is appended to the display log |
| Trivia.DeckGrows | csharp/Trivia/Game.cs:164-170 | one more loop iteration extends a deck of i questions to the deck of i + 1 |
| Players.Player.constructor | csharp/Trivia/Game.cs:27-33 | a new player keeps its name and starts on square 0 with no coins, outside the box |
| Players.Player.UpdateRollTotal | csharp/Trivia/Game.cs:35-43 | the token moves exactly as the game's `NextPosition` moves a place |
| Players.Player.CurrentCategory | csharp/Trivia/Game.cs:45-48 | the player's category names the same category as the game's dictionary, on every position |
| Numeric.Wrap32 | csharp/Trivia/Game.cs:234 | the result is in `int` range, congruent to the input modulo 2^32, and equal to it when no overflow occurs |
| Numeric.NatToString | csharp/Trivia/Game.cs:118 | a non-empty string of digits with no leading zero |
| Numeric.IntToString | csharp/Trivia/Game.cs:125 | non-empty; starts with '-' exactly for negative numbers |
| Numeric.NatToStringRoundTrip | csharp/Trivia/Game.cs:118 | reading the digits back gives the number |
| Numeric.IntToStringRoundTrip | csharp/Trivia/Game.cs:125 | the displayed text is a numeral that parses back to the number |
| Numeric.IntToStringInjective | csharp/Trivia/Game.cs:237 | distinct numbers are displayed as distinct texts |
| Board.CategoryNameFor | csharp/Trivia/Game.cs:207-225 | every position maps to one of the four category names |
| Board.CategoryNameForIsLookup | csharp/Trivia/Game.cs:211-224 | `CategoryNameFor` is the dictionary lookup with "Rock" as default, and "Rock" comes exactly from missing keys |
| Board.CategoryNameForCycles | Trivia/Game.cs:164-177 | the categories cycle Pop, Science, Sports, Rock round the board, and every off-board position is Rock |
| Board.NextPosition | csharp/Trivia/Game.cs:175-180 | its definition adds the roll with wrap-around and subtracts 12 once past square 11; its contract states only that the result never exceeds MaxInt32 - 12; `Board.NextPositionOnBoard` ties it to addition modulo 12 on the board |
| Board.NextPositionOnBoard | Trivia/Game.cs:123-131 | from the board, a roll of 0..12 stays on the board and is addition modulo 12 |
| Board.NextPositionWrapsOnce | Trivia/Game.cs:127-130 | the single subtraction lets a roll of 24 land on square 12, which is a Rock square |
| Rules.Deck | csharp/Trivia/Game.cs:164-170 | a deck of `count` questions whose k-th entry is "<category> Question k" |
| Rules.QuestionTextInjective | csharp/Trivia/Game.cs:166-169 | two question texts of one category are equal only for equal indices |
| Rules.DeckDistinct | csharp/Trivia/Game.cs:164-170 | no question appears twice in a deck |
| Rules.QuestionText | csharp/Trivia/Game.cs:166-169 | a question's text is its category's name, then exactly " Question ", then its index in decimal (with `QuestionTextInjective` as partner) |
| Rules.IsPlayable | csharp/Trivia/Game.cs:102 | in a playable game there is a current player, and passing the turn hands it to someone else |
| Rules.NewGame | csharp/Trivia/Game.cs:97-100 | a fresh state is well-formed, has no players, and each category's queue is its full deck |
| Rules.AddPlayer | csharp/Trivia/Game.cs:106-120 | the name is appended to the players and the invariant holds |
| Rules.AddPlayerSeatsNewcomer | Trivia/Game.cs:60-70 | the newcomer sits last on square 0 with no coins, outside the box; earlier players, the turn, the release flag and the queues are unchanged; the lines name them and the new count |
| Rules.AddPlayers | Trivia/Game.cs:60-70 | adding players one after another keeps the invariant |
| Rules.Announcements | Trivia.Test/GameShould.cs:33-47 | two lines per added player |
| Rules.AddedLineAt | Trivia.Test/GameShould.cs:42-44 | the k-th addition's first line is "<name> was added" |
| Rules.NumberLineAt | Trivia.Test/GameShould.cs:43-45 | the k-th addition's second line is "They are player number" followed by that player's number |
| Rules.PlayersAdded | Trivia.Test/GameShould.cs:33-47 | adding names appends them in order and displays their announcements, numbered on from the players already seated |
| Rules.PlayableIffTwoPlayers | Trivia.Test/GameShould.cs:49-64 | a game built from `names` is playable if and only if at least two were added |
| Rules.CurrentCategory | csharp/Trivia/Game.cs:207-209 | the current square's category is always one of the four names, so one of `AskQuestion`'s four tests always selects a queue |
| Rules.UpdatePlayerPlace | Trivia/Game.cs:123-131 | only the current player's place changes; from the board, a roll of 1..12 keeps them on it |
| Rules.AskQuestion | Trivia/Game.cs:133-155 | asking keeps the state well-formed |
| Rules.AskQuestionTakesFront | csharp/Trivia/Game.cs:183-205 | exactly one question leaves exactly one queue, the current category's, from its front, and it is the line displayed |
| Rules.AskNextQuestion | csharp/Trivia/Game.cs:147-155 | moving and asking keeps the state well-formed |
| Rules.Roll | csharp/Trivia/Game.cs:122-145 | a roll keeps the state well-formed with players present |
| Rules.RollReleases | csharp/Trivia/Game.cs:134-139 | an odd roll in the box sets the release flag, displays three lines, then moves and asks |
| Rules.RollOutsideBox | csharp/Trivia/Game.cs:141-144 | outside the box the roll displays two lines, then moves and asks |
| Rules.RollStayingInBox | csharp/Trivia/Game.cs:129-133 | an even roll in the box displays three lines, clears the release flag and changes nothing else |
| Rules.RollMovesAndAsks | Trivia/Game.cs:72-105 | a moving roll changes only the current token (to `NextPosition`) and one queue's front; it displays six lines in the box and five outside, the last three being "<name>'s new location is <square>", the category line and that category's front question |
| Rules.RollSetsReleaseFlag | Trivia/Game.cs:77-89 | in the box the release flag becomes "roll is odd"; outside the box it is left alone |
| Rules.RollKeepsTokensOnBoard | csharp/Trivia/Game.cs:173-181 | with rolls of 1..12 every token stays on the board |
| Rules.NextPlayer | csharp/Trivia/Game.cs:241-242 | the next turn goes to (current + 1) mod player count |
| Rules.AwardCoin | csharp/Trivia/Game.cs:251-264 | awarding a coin keeps the state well-formed |
| Rules.DidPlayerWin | csharp/Trivia/Game.cs:278-281 | no contract of its own; `Rules.CorrectAnswerScores` and `Rules.GameEndsOnSixthCoin` state its effect: the answer returns false exactly when it earns the sixth coin |
| Rules.GameEndsOnSixthCoin | csharp/Trivia/Game.cs:227-265 | a correct answer returns false if and only if it scores and the player held five coins before it |
| Rules.ReleaseFlagIsShared | csharp/Trivia/Game.cs:229-245 | whenever the game-wide release flag is set, a player in the box scores on a correct answer, whoever's roll set the flag |
| Rules.WasCorrectlyAnswered | Trivia/Game.cs:180-218 | the answer keeps the state well-formed with players present |
| Rules.NoQueueFor | csharp/Trivia/Game.cs:183-205 | a category text other than the four names draws no question |
| Rules.CorrectAnswerPassesTurn | csharp/Trivia/Game.cs:227-265 | every branch passes the turn and leaves places, flags, queues and other players' coins alone |
| Rules.CorrectAnswerScores | csharp/Trivia/Game.cs:231-244 | a scoring answer adds one coin, displays the new total, and returns false exactly when the player now holds six |
| Rules.CorrectAnswerInBox | csharp/Trivia/Game.cs:247-249 | in the box without release nothing is displayed, no coin moves, and the result is true |
| Rules.WrongAnswer | csharp/Trivia/Game.cs:267-276 | a wrong answer keeps the state well-formed with players present |
| Rules.WrongAnswerOutcome | Trivia/Game.cs:220-229 | the current player, and only they, enters the box; the turn passes; places, coins, the release flag and queues stay; the two lines are "Question was incorrectly answered" and "<name> was sent to the penalty box" |
| Rules.TurnScoresIffReleased | Trivia/Game.cs:182-203 | after a roll in the box, a correct answer scores if and only if the roll was odd |
| Rules.JohnAndOliverAdded | Trivia.Test/GameShould.cs:33-47 | after adding John and Oliver, John is first and current, on square 0 outside the box, and the Rock queue is intact |
| Rules.RollThreeFromStart | csharp/Trivia/Game.cs:122-155 | from square 0, a roll of 3 lands on Rock square 3 and asks the front Rock question, with the five lines in order |
| Rules.FirstTurnOfTwoPlayerGame | csharp/Trivia/Game.cs:122-155 | in the John and Oliver game, John's roll of 3 displays the exact five opening lines ending "Rock Question 0" (derived from the code; no test in the repository rolls) |
| Session.Apply | csharp/Trivia/Game.cs:106-276 | any single completed public call keeps the state well-formed |
| Session.Play | csharp/Trivia/Game.cs:106-276 | a session that does not crash ends in a well-formed state |
| Session.ApplyKeepsPenalty | csharp/Trivia/Game.cs:267-276 | no call takes a player out of the penalty box |
| Session.PenaltyIsPermanent | Trivia/Game.cs:220-229 | once in the box, a player stays there for the rest of any session |
| Session.ApplyOnlyConsumes | csharp/Trivia/Game.cs:183-205 | a single call leaves each queue as it was or without its front question |
| Session.QuestionsOnlyConsumed | Trivia/Game.cs:133-155 | over any session, each queue only ever loses questions from its front |
| Session.PlayersOnlyJoin | Trivia/Game.cs:60-70 | over any session, the player list only grows at its end |

## Left out

- Console output: `Display` writes to the `output` sequence rather than the console. The test subclass that intercepts it is not part of this model.
- `Category._questions` and `Category.GenerateQuestions`: these lists are filled but never read by the game, so they do not affect behaviour.
- The csharp copy's `_altPlayers` list: `AddPlayer` fills it but never reads it. The `Player` class itself is modelled on its own.
- The csharp copy's `Player._coinTotal` and `_inPenaltyBox`: they are set by the constructor and never updated, and are modelled only as constructor state.
- Exceptions are modelled as preconditions on the methods and step functions, and as `Crashed` in `Session.Play`:
  - a sixth `AddPlayer` (index 6 is out of range);
  - `Roll` or an answer with no players;
  - a question asked from an empty queue.
- `IsPlayable` has no case in `Session.Move`, the type of a session's calls: it changes nothing, so leaving it out of a session loses nothing.
- Null player names: names are strings, never null. The source accepts `AddPlayer(null)` and displays " was added" (csharp/Trivia/Game.cs:117); the model has no such call.
- Partial effects of a throwing call: `Session.Play` ends in `Crashed` and discards what the call did before it threw. Examples:
  - the sixth `AddPlayer` has already appended the name (csharp/Trivia/Game.cs:112);
  - a `Roll` onto an empty queue has already moved the token and displayed its lines (lines 149-152);
  - `WasCorrectlyAnswered` with no players has already incremented `_playerCoins[0]` (line 253).
  The methods of `Trivia.Game` do not model these calls at all; their preconditions exclude them.
- `IntToString`: C#'s culture-specific number formatting is not modelled; the text is the invariant-culture decimal form.
- `Trivia.Game.CurrentCategory` and `Trivia.Game.DidPlayerWin`: these private helpers have no contract of their own. The methods that call them are proved against `Rules.CurrentCategory` and `Rules.DidPlayerWin`, which have rows above.
- Aliasing: the three arrays are separate objects, created by the constructor.
