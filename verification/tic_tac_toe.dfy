/** A two-player game on one shared board: X moves first, every accepted move
    marks one blank cell, and the game stops as soon as the mover owns a line
    (a win) or no blank cell is left (a tie). */
module TicTacToe {
  import opened Board
  import opened Moves

  /** How a run of the turn loop ends. `AwaitingInput` is where the loop
      would wait for more keyboard input once the given lines are used up. */
  datatype Outcome = Won(winner: Player) | Tie | AwaitingInput(next: Player)

  /** The end of a run: its outcome, the final board, and the cells of the
      accepted moves in the order they were played. */
  datatype Final = Final(outcome: Outcome, board: seq<Cell>, moves: seq<Index>)

  /** The mark of the k-th accepted move (0-based) when `first` moved first. */
  function Mover(first: Player, k: nat): Player {
    if k % 2 == 0 then first else Other(first)
  }

  /** The turn loop on a board value: `p` is to move and `inputs` are the
      lines typed from now on. A refused line asks the same player again;
      after an accepted move the win check comes first, then the tie check,
      then the turn passes to the other player. */
  function Play(b: seq<Cell>, p: Player, inputs: seq<string>): (f: Final)
    requires IsBoard(b)
    ensures IsBoard(f.board)
    ensures |f.moves| <= |inputs|
    decreases |inputs|
  {
    if inputs == [] then Final(AwaitingInput(p), b, [])
    else
      match Judge(b, inputs[0])
      case Placed(n) =>
        var b' := b[n := p];
        if Wins(b', p) then Final(Won(p), b', [n])
        else if IsFull(b') then Final(Tie, b', [n])
        else
          var f := Play(b', Other(p), inputs[1..]);
          Final(f.outcome, f.board, [n] + f.moves)
      case _ => Play(b, p, inputs[1..])
  }

  /** `f` with `earlier` moves in front of its own. */
  function Prepend(earlier: seq<Index>, f: Final): Final {
    Final(f.outcome, f.board, earlier + f.moves)
  }

  /** X has made as many moves as O when X is to move, one more when O is. */
  predicate Balanced(b: seq<Cell>, next: Player) {
    Count(b, X) - Count(b, O) == if next == X then 0 else 1
  }

  /** What holds whenever a player is asked for a move: the marks are
      balanced for that player, nobody owns a line, and a blank cell is left. */
  predicate TurnStart(b: seq<Cell>, next: Player) {
    IsBoard(b) && Balanced(b, next) && !Wins(b, X) && !Wins(b, O) && !IsFull(b)
  }

  /** `board` arises from `b` by the moves in `moves`: each marks a cell
      that was blank in `b`, no cell is marked twice, the marks alternate
      starting with `p`, and every other cell is as in `b`. */
  ghost predicate Fills(b: seq<Cell>, p: Player, board: seq<Cell>, moves: seq<Index>)
    requires IsBoard(b) && IsBoard(board)
  {
    && (forall k :: 0 <= k < |moves| ==> b[moves[k]] == Empty && board[moves[k]] == Mover(p, k))
    && (forall j, k :: 0 <= j < k < |moves| ==> moves[j] != moves[k])
    && (forall i: Index :: i !in moves ==> board[i] == b[i])
  }

  /** One move in front of a filling run is again a filling run. */
  lemma FillsCons(b: seq<Cell>, p: Player, n: Index, board: seq<Cell>, moves: seq<Index>)
    requires IsBoard(b) && IsBoard(board) && b[n] == Empty
    requires Fills(b[n := p], Other(p), board, moves)
    ensures Fills(b, p, board, [n] + moves)
  {
    var b' := b[n := p];
    var all := [n] + moves;
    forall k | 0 <= k < |moves| ensures moves[k] != n {
      assert b'[moves[k]] == Empty;
    }
    assert n !in moves;
    forall k | 0 <= k < |all|
      ensures b[all[k]] == Empty && board[all[k]] == Mover(p, k)
    {
      if k > 0 {
        assert all[k] == moves[k - 1];
        assert b'[moves[k - 1]] == Empty;
        assert Mover(Other(p), k - 1) == Mover(p, k);
      }
    }
    forall j, k | 0 <= j < k < |all| ensures all[j] != all[k] {
      if j > 0 {
        assert all[j] == moves[j - 1] && all[k] == moves[k - 1];
      } else {
        assert all[k] in moves;
      }
    }
  }

  /** Every run fills the board from `b` as `Fills` describes. */
  lemma {:induction false} PlayFills(b: seq<Cell>, p: Player, inputs: seq<string>)
    requires IsBoard(b)
    ensures Fills(b, p, Play(b, p, inputs).board, Play(b, p, inputs).moves)
    decreases |inputs|
  {
    if inputs != [] {
      match Judge(b, inputs[0])
      case Placed(n) =>
        var b' := b[n := p];
        if !Wins(b', p) && !IsFull(b') {
          PlayFills(b', Other(p), inputs[1..]);
          var f := Play(b', Other(p), inputs[1..]);
          FillsCons(b, p, n, f.board, f.moves);
        } else {
          FillsCons(b, p, n, b', []);
        }
      case _ =>
        PlayFills(b, p, inputs[1..]);
    }
  }

  /** Each accepted move uses up exactly one blank cell. */
  lemma {:induction false} PlayUsesBlanks(b: seq<Cell>, p: Player, inputs: seq<string>)
    requires IsBoard(b)
    ensures |Play(b, p, inputs).moves| + Count(Play(b, p, inputs).board, Empty) == Count(b, Empty)
    decreases |inputs|
  {
    if inputs != [] {
      match Judge(b, inputs[0])
      case Placed(n) =>
        var b' := b[n := p];
        PlaceCounts(b, n, p);
        if !Wins(b', p) && !IsFull(b') {
          PlayUsesBlanks(b', Other(p), inputs[1..]);
        }
      case _ =>
        PlayUsesBlanks(b, p, inputs[1..]);
    }
  }

  /** A win goes to the player who made the last accepted move, a tie
      follows at least one move, and a run waiting for input waits on the
      player whose turn the move count gives. */
  lemma {:induction false} PlayTurnOrder(b: seq<Cell>, p: Player, inputs: seq<string>)
    requires IsBoard(b)
    ensures var f := Play(b, p, inputs);
            && (f.outcome.Won? ==> |f.moves| > 0 && f.outcome.winner == Mover(p, |f.moves| - 1))
            && (f.outcome.Tie? ==> |f.moves| > 0)
            && (f.outcome.AwaitingInput? ==> f.outcome.next == Mover(p, |f.moves|))
    decreases |inputs|
  {
    if inputs != [] {
      match Judge(b, inputs[0])
      case Placed(n) =>
        var b' := b[n := p];
        if !Wins(b', p) && !IsFull(b') {
          PlayTurnOrder(b', Other(p), inputs[1..]);
          var f := Play(b', Other(p), inputs[1..]);
          assert Mover(Other(p), |f.moves|) == Mover(p, |f.moves| + 1);
          assert |f.moves| > 0 ==> Mover(Other(p), |f.moves| - 1) == Mover(p, |f.moves|);
        }
      case _ =>
        PlayTurnOrder(b, p, inputs[1..]);
    }
  }

  /** What a run from a turn start leaves behind: a win leaves only the
      winner with a line and the other player's turn balance, a tie leaves a
      full board with no line, a run cut short by missing input stops at
      another turn start, and in every case X is level with O or one ahead. */
  ghost predicate Settled(f: Final)
    requires IsBoard(f.board)
  {
    && (f.outcome.Won? ==>
          Wins(f.board, f.outcome.winner) && !Wins(f.board, Other(f.outcome.winner))
          && Balanced(f.board, Other(f.outcome.winner)))
    && (f.outcome.Tie? ==> IsFull(f.board) && !Wins(f.board, X) && !Wins(f.board, O))
    && (f.outcome.AwaitingInput? ==> TurnStart(f.board, f.outcome.next))
    && 0 <= Count(f.board, X) - Count(f.board, O) <= 1
  }

  /** One accepted move from a turn start: the opponent gets no line, the
      balance passes to the opponent, and unless the game stops here the
      opponent's turn is again a turn start. */
  lemma TurnStep(b: seq<Cell>, p: Player, n: Index)
    requires TurnStart(b, p) && b[n] == Empty
    ensures !Wins(b[n := p], Other(p)) && Balanced(b[n := p], Other(p))
    ensures !Wins(b[n := p], p) && !IsFull(b[n := p]) ==> TurnStart(b[n := p], Other(p))
  {
    PlaceCounts(b, n, p);
    PlaceKeepsOtherLines(b, n, p, Other(p));
  }

  /** The turn-start conditions carry through the whole loop. */
  lemma {:induction false} PlayOutcome(b: seq<Cell>, p: Player, inputs: seq<string>)
    requires TurnStart(b, p)
    ensures Settled(Play(b, p, inputs))
    decreases |inputs|
  {
    if inputs != [] {
      match Judge(b, inputs[0])
      case Placed(n) =>
        var b' := b[n := p];
        TurnStep(b, p, n);
        if !Wins(b', p) && !IsFull(b') {
          PlayOutcome(b', Other(p), inputs[1..]);
        }
      case _ =>
        PlayOutcome(b, p, inputs[1..]);
    }
  }

  /** The empty board is where X is first asked to move: nine blanks, no
      marks, no line. */
  lemma EmptyBoardIsTurnStart()
    ensures TurnStart(EmptyBoard(), X) && Count(EmptyBoard(), Empty) == 9
  {
    var b := EmptyBoard();
    CountUniform(b, Empty);
    assert X !in b && O !in b;
    forall q: Player, k | 0 <= k < |Lines| ensures !Completes(b, Lines[k], q) {
      assert b[Lines[k].0] == Empty;
    }
    assert b[0] == Empty;
  }

  /** The move record of a game that X opened on the empty board: X made
      the first move, at most nine moves were accepted, a tie took exactly
      nine, a game still waiting for input has had fewer than nine and waits
      on the player the move count gives, and the winner made the last move. */
  ghost predicate MovesProper(f: Final)
    requires IsBoard(f.board)
  {
    && |f.moves| <= 9
    && (|f.moves| > 0 ==> f.board[f.moves[0]] == X)
    && (f.outcome.AwaitingInput? ==> |f.moves| < 9 && f.outcome.next == Mover(X, |f.moves|))
    && (f.outcome.Tie? ==> |f.moves| == 9)
    && (f.outcome.Won? ==> |f.moves| > 0 && f.outcome.winner == Mover(X, |f.moves| - 1))
  }

  /** How a game that X opened on the empty board can end. */
  ghost predicate ProperEnd(f: Final)
    requires IsBoard(f.board)
  {
    MovesProper(f) && Settled(f)
  }

  /** The move record of every game from the empty board. */
  lemma GameMoves(inputs: seq<string>)
    ensures MovesProper(Play(EmptyBoard(), X, inputs))
  {
    var b := EmptyBoard();
    var f := Play(b, X, inputs);
    assert |f.moves| > 0 ==> f.board[f.moves[0]] == X by {
      PlayFills(b, X, inputs);
      assert |f.moves| > 0 ==> f.board[f.moves[0]] == Mover(X, 0);
    }
    assert |f.moves| + Count(f.board, Empty) == 9 by {
      EmptyBoardIsTurnStart();
      PlayUsesBlanks(b, X, inputs);
    }
    assert (f.outcome.Tie? ==> IsFull(f.board)) && (f.outcome.AwaitingInput? ==> !IsFull(f.board)) by {
      EmptyBoardIsTurnStart();
      PlayOutcome(b, X, inputs);
    }
    PlayTurnOrder(b, X, inputs);
  }

  /** Every game from the empty board with X to move ends properly. */
  lemma GameFromStart(inputs: seq<string>)
    ensures ProperEnd(Play(EmptyBoard(), X, inputs))
  {
    GameMoves(inputs);
    EmptyBoardIsTurnStart();
    PlayOutcome(EmptyBoard(), X, inputs);
  }

  /** The win check runs before the tie check: a move that fills the last
      blank cell and completes a line is a win, not a tie. */
  lemma WinBeatsTie(b: seq<Cell>, p: Player, input: string, rest: seq<string>)
    requires IsBoard(b) && Judge(b, input).Placed?
    requires var after := b[Judge(b, input).cell := p]; Wins(after, p) && IsFull(after)
    ensures Play(b, p, [input] + rest).outcome == Won(p)
  {
    assert ([input] + rest)[0] == input;
  }

  /** A concrete last move: X to play with only cell 9 blank, and taking it
      completes the diagonal 1-5-9, so the game ends in X's win on a full board. */
  lemma LastCellWin()
    ensures var b := [X, O, X, O, X, O, O, X, Empty];
            var f := Play(b, X, ["9"]);
            f.outcome == Won(X) && IsFull(f.board)
  {
    var b := [X, O, X, O, X, O, O, X, Empty];
    assert IsDigits("9") && DigitsValue("9") == 9;
    assert Judge(b, "9") == Placed(8);
    var after := b[8 := X];
    assert Completes(after, Lines[6], X);
    WinBeatsTie(b, X, "9", []);
    assert ["9"] + [] == ["9"];
  }

  /** The running game: the shared nine-cell board, updated in place. */
  class Game {
    var board: array<Cell>

    ghost predicate Valid()
      reads this
    {
      board.Length == 9
    }

    /** A fresh game: nine blank cells. */
    constructor ()
      ensures Valid() && fresh(board)
      ensures board[..] == EmptyBoard()
    {
      board := new Cell[9](_ => Empty);
    }

    /** One attempt by `player` to move, with `input` the line typed.
        A refused line leaves the board as it was; an accepted one marks
        exactly the chosen cell. */
    method PlayerMove(player: Player, input: string) returns (r: MoveStatus)
      requires Valid()
      modifies board
      ensures r == Judge(old(board[..]), input)
      ensures board[..] == if r.Placed? then old(board[..])[r.cell := player] else old(board[..])
    {
      if !IsDigits(input) {
        return NotANumber;
      }
      var move := DigitsValue(input) - 1;
      if move < 0 || move > 8 {
        r := OutOfRange;
      } else if board[move] != Empty {
        r := Taken;
      } else {
        board[move] := player;
        r := Placed(move);
      }
    }

    /** Whether `player` owns one of the eight lines, checked in list order. */
    method CheckWinner(player: Player) returns (won: bool)
      requires Valid()
      ensures won <==> Wins(board[..], player)
    {
      var winConditions := Lines;
      for k := 0 to |winConditions|
        invariant forall j :: 0 <= j < k ==> !Completes(board[..], Lines[j], player)
      {
        var (a, b, c) := winConditions[k];
        if board[a] == player && board[b] == player && board[c] == player {
          assert Completes(board[..], Lines[k], player);
          return true;
        }
      }
      return false;
    }

    /** The whole game on this board, fed the lines in `inputs`: X moves
        first, refused lines are asked again, and the loop stops at the first
        win or tie. `moves` lists the accepted cells in order. */
    method PlayGame(inputs: seq<string>) returns (outcome: Outcome, ghost moves: seq<Index>)
      requires Valid() && board[..] == EmptyBoard()
      modifies board
      ensures Final(outcome, board[..], moves) == Play(EmptyBoard(), X, inputs)
      ensures ProperEnd(Final(outcome, board[..], moves))
    {
      var currentPlayer: Player := X;
      ghost var done: seq<Index> := [];
      outcome := AwaitingInput(X);
      var i := 0;
      while i < |inputs|
        invariant 0 <= i <= |inputs| && Valid()
        invariant outcome == AwaitingInput(currentPlayer)
        invariant Play(EmptyBoard(), X, inputs) == Prepend(done, Play(board[..], currentPlayer, inputs[i..]))
      {
        ghost var before := board[..];
        ghost var rest := inputs[i..];
        assert rest[0] == inputs[i] && rest[1..] == inputs[i + 1..];
        var status := PlayerMove(currentPlayer, inputs[i]);
        i := i + 1;
        if status.Placed? {
          assert board[..] == before[status.cell := currentPlayer];
          done := done + [status.cell];
          var won := CheckWinner(currentPlayer);
          if won {
            outcome := Won(currentPlayer);
            assert Play(before, currentPlayer, rest) == Final(outcome, board[..], [status.cell]);
            break;
          }
          if IsFull(board[..]) {
            outcome := Tie;
            assert Play(before, currentPlayer, rest) == Final(outcome, board[..], [status.cell]);
            break;
          }
          ghost var f := Play(board[..], Other(currentPlayer), inputs[i..]);
          assert Play(before, currentPlayer, rest) == Prepend([status.cell], f);
          currentPlayer := Other(currentPlayer);
          outcome := AwaitingInput(currentPlayer);
        } else {
          assert Play(before, currentPlayer, rest) == Play(board[..], currentPlayer, inputs[i..]);
        }
      }
      moves := done;
      GameFromStart(inputs);
    }
  }
}
