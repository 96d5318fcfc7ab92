/** A game session: the driver's calls one after another, and what holds
    across any sequence of them. */
module Session {
  import opened Numeric
  import opened Board
  import opened Rules

  /** One call of the public API (`IsPlayable` changes nothing and is left out). */
  datatype Move =
    | AddPlayerMove(name: string)
    | RollMove(roll: Int32)
    | CorrectAnswerMove
    | WrongAnswerMove

  /** The call returns normally; otherwise the source throws (index six in
      AddPlayer, no player to name, an empty question queue). */
  predicate Completes(s: GameState, m: Move)
    requires Wellformed(s)
  {
    match m
    case AddPlayerMove(_) => CanAddPlayer(s)
    case RollMove(roll) => CanRoll(s, roll)
    case CorrectAnswerMove => HasPlayers(s)
    case WrongAnswerMove => HasPlayers(s)
  }

  function Apply(s: GameState, m: Move): (r: Step)
    requires Wellformed(s) && Completes(s, m)
    ensures Wellformed(r.next)
  {
    match m
    case AddPlayerMove(name) => AddPlayer(s, name)
    case RollMove(roll) => Roll(s, roll)
    case CorrectAnswerMove => WasCorrectlyAnswered(s).step
    case WrongAnswerMove => WrongAnswer(s)
  }

  datatype Outcome = Crashed | Reached(state: GameState, shown: seq<string>)

  /** Runs the moves in order, collecting the displayed lines; a move that
      would throw ends the session as Crashed. */
  function Play(s: GameState, moves: seq<Move>): (o: Outcome)
    requires Wellformed(s)
    ensures o.Reached? ==> Wellformed(o.state)
    decreases |moves|
  {
    if moves == [] then Reached(s, [])
    else if !Completes(s, moves[0]) then Crashed
    else
      var first := Apply(s, moves[0]);
      match Play(first.next, moves[1..])
      case Crashed => Crashed
      case Reached(t, lines) => Reached(t, first.shown + lines)
  }

  /** No single call takes anyone out of the penalty box. */
  lemma ApplyKeepsPenalty(s: GameState, m: Move, k: int)
    requires Wellformed(s) && Completes(s, m) && 0 <= k < Slots && s.inPenaltyBox[k]
    ensures Apply(s, m).next.inPenaltyBox[k]
  {
    match m
    case RollMove(roll) =>
      if Moves(s, roll) {
        RollMovesAndAsks(s, roll);
      }
    case CorrectAnswerMove =>
      CorrectAnswerPassesTurn(s);
    case _ =>
  }

  /** Once in the penalty box, a player stays in it for the rest of any
      session: no call ever clears the flag. */
  lemma {:induction false} PenaltyIsPermanent(s: GameState, moves: seq<Move>, k: int)
    requires Wellformed(s) && Play(s, moves).Reached?
    requires 0 <= k < Slots && s.inPenaltyBox[k]
    ensures Play(s, moves).state.inPenaltyBox[k]
    decreases |moves|
  {
    if moves != [] {
      ApplyKeepsPenalty(s, moves[0], k);
      PenaltyIsPermanent(Apply(s, moves[0]).next, moves[1..], k);
    }
  }

  /** `q` is what is left of `p` after questions were taken from its front. */
  predicate IsSuffix(q: seq<string>, p: seq<string>) {
    |q| <= |p| && q == p[|p| - |q|..]
  }

  /** `q` is `p` itself or `p` without its front element. */
  predicate AtMostFrontRemoved(q: seq<string>, p: seq<string>) {
    q == p || (p != [] && q == p[1..])
  }

  /** A single call leaves each queue as it was or without its front question. */
  lemma ApplyOnlyConsumes(s: GameState, m: Move, c: string)
    requires Wellformed(s) && Completes(s, m)
    ensures AtMostFrontRemoved(Apply(s, m).next.QuestionsFor(c), s.QuestionsFor(c))
  {
    var t := Apply(s, m).next;
    match m
    case RollMove(roll) =>
      if Moves(s, roll) {
        RollMovesAndAsks(s, roll);
        var category := CategoryNameFor(NextPosition(s.places[s.currentPlayer], roll));
        if c == category {
          assert s.QuestionsFor(c) != [];
        } else if c !in CategoryNameList {
          NoQueueFor(s, c);
          NoQueueFor(t, c);
        }
      } else {
        RollStayingInBox(s, roll);
        QueuesAgree(s, t, c);
      }
    case CorrectAnswerMove =>
      CorrectAnswerPassesTurn(s);
      QueuesAgree(s, t, c);
    case WrongAnswerMove =>
      WrongAnswerOutcome(s);
      QueuesAgree(s, t, c);
    case AddPlayerMove(name) =>
      AddPlayerSeatsNewcomer(s, name);
      QueuesAgree(s, t, c);
  }

  /** Questions are never added back or reordered: every queue at the end of
      a session is what remains of it after removals from the front. */
  lemma {:induction false} QuestionsOnlyConsumed(s: GameState, moves: seq<Move>, c: string)
    requires Wellformed(s) && Play(s, moves).Reached?
    ensures IsSuffix(Play(s, moves).state.QuestionsFor(c), s.QuestionsFor(c))
    decreases |moves|
  {
    var p := s.QuestionsFor(c);
    if moves == [] {
      assert p[|p| - |p|..] == p;
    } else {
      var t := Apply(s, moves[0]).next;
      ApplyOnlyConsumes(s, moves[0], c);
      QuestionsOnlyConsumed(t, moves[1..], c);
      var q := t.QuestionsFor(c);
      var r := Play(s, moves).state.QuestionsFor(c);
      if q != p {
        assert q[|q| - |r|..] == p[|p| - |r|..];
      }
    }
  }

  /** Players are only ever appended, never removed or renamed. */
  lemma {:induction false} PlayersOnlyJoin(s: GameState, moves: seq<Move>)
    requires Wellformed(s) && Play(s, moves).Reached?
    ensures s.players <= Play(s, moves).state.players
    decreases |moves|
  {
    if moves != [] {
      var m := moves[0];
      match m {
        case RollMove(roll) =>
          if Moves(s, roll) { RollMovesAndAsks(s, roll); }
        case CorrectAnswerMove => CorrectAnswerPassesTurn(s);
        case _ =>
      }
      PlayersOnlyJoin(Apply(s, m).next, moves[1..]);
    }
  }
}
