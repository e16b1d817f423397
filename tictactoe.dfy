/**
 * The tic-tac-toe game of `TicTacToe` (src/components/tictactoe.tsx): winner
 * detection, the exhaustive minimax search of the computer (O), its choice of
 * move, and the game state changed by the player's clicks and by the effect
 * that runs after each change.
 *
 * `minimax` and `findBestMove` try each move in place on the board array and
 * undo it; here they are methods over an `array<Square>` proved against the
 * pure functions `Value` and `BestMove`.
 */
module TicTacToe {
  import opened Common

  datatype Player = X | O
  /** A square of the board: `null` or a player's mark. */
  datatype Square = Empty | Mark(player: Player)

  /** The numbers `-Infinity`, a finite score, and `Infinity`. */
  datatype Score = NegInf | Fin(v: int) | PosInf

  function Max(a: Score, b: Score): Score
  {
    match (a, b)
    case (PosInf, _) => PosInf
    case (_, PosInf) => PosInf
    case (NegInf, _) => b
    case (_, NegInf) => a
    case (Fin(x), Fin(y)) => if x >= y then a else b
  }

  function Min(a: Score, b: Score): Score
  {
    match (a, b)
    case (NegInf, _) => NegInf
    case (_, NegInf) => NegInf
    case (PosInf, _) => b
    case (_, PosInf) => a
    case (Fin(x), Fin(y)) => if x <= y then a else b
  }

  /** `a > b` on scores. */
  predicate Greater(a: Score, b: Score)
  {
    match (a, b)
    case (NegInf, _) => false
    case (_, PosInf) => false
    case (PosInf, _) => true
    case (_, NegInf) => true
    case (Fin(x), Fin(y)) => x > y
  }

  /** The eight lines, in the order `calculateWinner` lists them. */
  function Line(k: nat): (l: (nat, nat, nat))
    requires k < 8
    ensures l.0 < 9 && l.1 < 9 && l.2 < 9
  {
    if k == 0 then (0, 1, 2)
    else if k == 1 then (3, 4, 5)
    else if k == 2 then (6, 7, 8)
    else if k == 3 then (0, 3, 6)
    else if k == 4 then (1, 4, 7)
    else if k == 5 then (2, 5, 8)
    else if k == 6 then (0, 4, 8)
    else (2, 4, 6)
  }

  /** Line `k` holds three marks of `p`. */
  predicate Wins(b: seq<Square>, k: nat, p: Player)
    requires |b| == 9 && k < 8
  {
    var (x, y, z) := Line(k);
    b[x] == Mark(p) && b[y] == Mark(p) && b[z] == Mark(p)
  }

  /** The test of one line: `squares[a] && squares[a] === squares[b] && squares[a] === squares[c]`. */
  function LineWinner(b: seq<Square>, k: nat): (r: Option<Player>)
    requires |b| == 9 && k < 8
    ensures r.Some? ==> Wins(b, k, r.value)
    ensures r.None? ==> !Wins(b, k, X) && !Wins(b, k, O)
  {
    var (x, y, z) := Line(k);
    if b[x] != Empty && b[x] == b[y] && b[x] == b[z] then Some(b[x].player) else None
  }

  /** The scan of `calculateWinner` from line `k` on: the mark of the first complete line. */
  function WinnerFrom(b: seq<Square>, k: nat): (r: Option<Player>)
    requires |b| == 9 && k <= 8
    decreases 8 - k
    ensures r.Some? ==> exists j :: k <= j < 8 && Wins(b, j, r.value) &&
                          (forall i :: k <= i < j ==> !Wins(b, i, X) && !Wins(b, i, O))
    ensures r.None? ==> forall j :: k <= j < 8 ==> !Wins(b, j, X) && !Wins(b, j, O)
  {
    if k == 8 then None
    else
      var w := LineWinner(b, k);
      if w.Some? then w else WinnerFrom(b, k + 1)
  }

  /** `calculateWinner`. */
  function Winner(b: seq<Square>): Option<Player>
    requires |b| == 9
  {
    WinnerFrom(b, 0)
  }

  /** `calculateWinner` names a player exactly when some line holds three of that player's marks. */
  lemma WinnerIsACompleteLine(b: seq<Square>, p: Player)
    requires |b| == 9
    ensures Winner(b) == Some(p) ==> exists k :: 0 <= k < 8 && Wins(b, k, p)
    ensures Winner(b).None? <==> forall k :: 0 <= k < 8 ==> !Wins(b, k, X) && !Wins(b, k, O)
  {
    var w := Winner(b);
    if w.Some? {
      var j :| 0 <= j < 8 && Wins(b, j, w.value);
      assert w.value == X ==> Wins(b, j, X);
      assert w.value == O ==> Wins(b, j, O);
    }
  }

  /** `board.every((square) => square !== null)`. */
  predicate Full(b: seq<Square>)
  {
    forall i :: 0 <= i < |b| ==> b[i] != Empty
  }

  function EmptyCount(b: seq<Square>): nat
  {
    if b == [] then 0 else (if b[0] == Empty then 1 else 0) + EmptyCount(b[1..])
  }

  lemma {:induction false} EmptyCountZero(b: seq<Square>)
    ensures EmptyCount(b) == 0 <==> Full(b)
  {
    if b != [] {
      EmptyCountZero(b[1..]);
      if Full(b[1..]) && b[0] != Empty {
        forall i | 0 <= i < |b| ensures b[i] != Empty {
          if i > 0 { assert b[i] == b[1..][i - 1]; }
        }
      }
    }
  }

  /** Placing a mark on an empty square leaves one empty square fewer. */
  lemma {:induction false} EmptyCountPlace(b: seq<Square>, i: nat, p: Player)
    requires i < |b| && b[i] == Empty
    ensures EmptyCount(b[i := Mark(p)]) == EmptyCount(b) - 1
  {
    if i > 0 {
      assert b[i := Mark(p)][1..] == b[1..][i - 1 := Mark(p)];
      EmptyCountPlace(b[1..], i - 1, p);
    } else {
      assert b[i := Mark(p)][1..] == b[1..];
    }
  }

  /** The mark the side to move places: O maximises, X minimises. */
  function Mover(maximizing: bool): Player
  {
    if maximizing then O else X
  }

  /** The scores a search at `depth` can give: a win at `depth` is worth 10 - depth. */
  predicate InRange(v: int, depth: int)
  {
    depth - 10 <= v <= 10 - depth
  }

  /**
   * `minimax(board, depth, isMaximizing)`: 10 - depth when O has won, depth - 10
   * when X has won, 0 on a full board, and otherwise the best score of the
   * moves of the side to move. It never yields an infinite score, and a win
   * found deeper scores closer to 0.
   */
  function Value(b: seq<Square>, depth: int, maximizing: bool): (r: Score)
    requires |b| == 9
    decreases EmptyCount(b), 1
    ensures r.Fin?
    ensures 0 <= depth && depth + EmptyCount(b) <= 10 ==> InRange(r.v, depth)
  {
    var w := Winner(b);
    if w == Some(O) then Fin(10 - depth)
    else if w == Some(X) then Fin(depth - 10)
    else if Full(b) then Fin(0)
    else
      EmptyCountZero(b);
      Scan(b, depth, maximizing, 0, if maximizing then NegInf else PosInf)
  }

  /** The scores `minimax`'s loop can hold: its starting infinity, or a finite score. */
  predicate Seed(maximizing: bool, best: Score)
  {
    best.Fin? || best == (if maximizing then NegInf else PosInf)
  }

  /** The `for` loop of `minimax` from square `i` on, with `best` the score so far. */
  function Scan(b: seq<Square>, depth: int, maximizing: bool, i: nat, best: Score): (r: Score)
    requires |b| == 9 && i <= 9
    decreases EmptyCount(b), 0, 9 - i
    ensures Seed(maximizing, best) && (best.Fin? || exists j :: i <= j < 9 && b[j] == Empty) ==> r.Fin?
    ensures Seed(maximizing, best) ==> Seed(maximizing, r)
    ensures Seed(maximizing, best) && 0 <= depth && depth + EmptyCount(b) <= 10 && r.Fin? &&
      (best.Fin? ==> InRange(best.v, depth))
      ==> InRange(r.v, depth)
  {
    if i == 9 then best
    else if b[i] == Empty then
      EmptyCountPlace(b, i, Mover(maximizing));
      var s := Value(b[i := Mark(Mover(maximizing))], depth + 1, !maximizing);
      Scan(b, depth, maximizing, i + 1, if maximizing then Max(s, best) else Min(s, best))
    else
      Scan(b, depth, maximizing, i + 1, best)
  }

  /** The score `findBestMove` gives to O playing on empty square `i`. */
  function MoveScore(b: seq<Square>, i: nat): int
    requires |b| == 9 && i < 9
  {
    Value(b[i := Mark(O)], 0, false).v
  }

  /** The `for` loop of `findBestMove` from square `i` on. */
  function BestFrom(b: seq<Square>, i: nat, best: Score, move: int): int
    requires |b| == 9 && i <= 9
    decreases 9 - i
  {
    if i == 9 then move
    else if b[i] == Empty && Greater(Fin(MoveScore(b, i)), best) then
      BestFrom(b, i + 1, Fin(MoveScore(b, i)), i)
    else
      BestFrom(b, i + 1, best, move)
  }

  /** `findBestMove`. */
  function BestMove(b: seq<Square>): int
    requires |b| == 9
  {
    BestFrom(b, 0, NegInf, -1)
  }

  /** The best score so far of `findBestMove` when it has chosen `move`. */
  function ScoreOf(b: seq<Square>, move: int): Score
    requires |b| == 9
  {
    if 0 <= move < 9 then Fin(MoveScore(b, move)) else NegInf
  }

  /** The score of every square, as `findBestMove` would compute it. */
  function Scores(b: seq<Square>): (r: seq<int>)
    requires |b| == 9
    ensures |r| == 9 && forall j :: 0 <= j < 9 ==> r[j] == MoveScore(b, j)
  {
    seq(9, j requires 0 <= j < 9 => MoveScore(b, j))
  }

  /** Which squares are empty. */
  function Empties(b: seq<Square>): (r: seq<bool>)
    requires |b| == 9
    ensures |r| == 9 && forall j :: 0 <= j < 9 ==> (r[j] <==> b[j] == Empty)
  {
    seq(9, j requires 0 <= j < 9 => b[j] == Empty)
  }

  /** What the loop of `findBestMove` knows about `move` after the squares before `i`. */
  predicate BestSoFar(b: seq<Square>, i: nat, move: int)
    requires |b| == 9 && i <= 9
  {
    BestSoFarOn(Scores(b), Empties(b), i, move)
  }

  lemma {:induction false} BestFromKeeps(b: seq<Square>, i: nat, move: int)
    requires |b| == 9 && i <= 9
    requires BestSoFar(b, i, move)
    ensures BestSoFar(b, 9, BestFrom(b, i, ScoreOf(b, move), move))
    decreases 9 - i
  {
    if i < 9 {
      BestSoFarStep(b, i, move);
      if b[i] == Empty && Greater(Fin(MoveScore(b, i)), ScoreOf(b, move)) {
        BestFromKeeps(b, i + 1, i);
      } else {
        BestFromKeeps(b, i + 1, move);
      }
    }
  }

  /** One turn of the loop of `findBestMove` keeps `BestSoFar`. */
  lemma BestSoFarStep(b: seq<Square>, i: nat, move: int)
    requires |b| == 9 && i < 9 && BestSoFar(b, i, move)
    ensures b[i] == Empty && Greater(Fin(MoveScore(b, i)), ScoreOf(b, move)) ==>
      BestSoFar(b, i + 1, i) && ScoreOf(b, i) == Fin(MoveScore(b, i))
    ensures !(b[i] == Empty && Greater(Fin(MoveScore(b, i)), ScoreOf(b, move))) ==>
      BestSoFar(b, i + 1, move)
  {
    var scores := Scores(b);
    assert scores[i] == MoveScore(b, i);
    ScanStep(scores, Empties(b), i, move);
  }

  /** `BestSoFar` with the scores and the empty squares as plain sequences. */
  predicate BestSoFarOn(scores: seq<int>, empty: seq<bool>, i: nat, move: int)
    requires |scores| == |empty| == 9 && i <= 9
  {
    && (move == -1 ==> forall j :: 0 <= j < i ==> !empty[j])
    && (move != -1 ==>
         && 0 <= move < i && empty[move]
         && (forall j :: 0 <= j < i && empty[j] ==> scores[j] <= scores[move])
         && (forall j :: 0 <= j < move && empty[j] ==> scores[j] < scores[move]))
  }

  lemma ScanStep(scores: seq<int>, empty: seq<bool>, i: nat, move: int)
    requires |scores| == |empty| == 9 && i < 9 && BestSoFarOn(scores, empty, i, move)
    ensures var better := empty[i] && (move == -1 || scores[i] > scores[move]);
      BestSoFarOn(scores, empty, i + 1, if better then i else move)
  {
  }
  /**
   * `findBestMove` returns -1 exactly when no square is empty; otherwise an empty
   * square whose score is maximal, the lowest such square.
   */
  lemma BestMoveIsLowestMaximal(b: seq<Square>)
    requires |b| == 9
    ensures BestMove(b) == -1 <==> Full(b)
    ensures BestMove(b) != -1 ==> 0 <= BestMove(b) < 9 && b[BestMove(b)] == Empty
    ensures BestMove(b) != -1 ==> forall j :: 0 <= j < 9 && b[j] == Empty ==>
      MoveScore(b, j) <= MoveScore(b, BestMove(b))
    ensures BestMove(b) != -1 ==> forall j :: 0 <= j < BestMove(b) && b[j] == Empty ==>
      MoveScore(b, j) < MoveScore(b, BestMove(b))
  {
    BestFromKeeps(b, 0, -1);
  }

  /**
   * `minimax`: tries every empty square in place and puts `null` back, so the
   * board is as it was when the search returns.
   */
  method Minimax(board: array<Square>, depth: int, isMaximizing: bool) returns (score: Score)
    requires board.Length == 9
    modifies board
    decreases EmptyCount(board[..])
    ensures board[..] == old(board[..])
    ensures score == Value(old(board[..]), depth, isMaximizing)
  {
    var win := Winner(board[..]);
    if win == Some(O) { return Fin(10 - depth); }
    if win == Some(X) { return Fin(depth - 10); }
    if Full(board[..]) { return Fin(0); }

    ghost var b0 := board[..];
    var mark := Mover(isMaximizing);
    var bestScore := if isMaximizing then NegInf else PosInf;
    var i := 0;
    while i < 9
      invariant 0 <= i <= 9
      invariant board[..] == b0
      invariant Scan(b0, depth, isMaximizing, i, bestScore) == Value(b0, depth, isMaximizing)
    {
      if board[i] == Empty {
        board[i] := Mark(mark);
        EmptyCountPlace(b0, i, mark);
        assert board[..] == b0[i := Mark(mark)];
        var s := Minimax(board, depth + 1, !isMaximizing);
        board[i] := Empty;
        assert board[..] == b0;
        bestScore := if isMaximizing then Max(s, bestScore) else Min(s, bestScore);
      }
      i := i + 1;
    }
    return bestScore;
  }

  /** `findBestMove`: the board is as it was when it returns. */
  method FindBestMove(board: array<Square>) returns (move: int)
    requires board.Length == 9
    modifies board
    ensures board[..] == old(board[..])
    ensures move == BestMove(old(board[..]))
  {
    ghost var b0 := board[..];
    var bestScore := NegInf;
    move := -1;
    var i := 0;
    while i < 9
      invariant 0 <= i <= 9
      invariant board[..] == b0
      invariant BestFrom(b0, i, bestScore, move) == BestMove(b0)
    {
      if board[i] == Empty {
        board[i] := Mark(O);
        assert board[..] == b0[i := Mark(O)];
        var score := Minimax(board, 0, false);
        board[i] := Empty;
        assert board[..] == b0;
        if Greater(score, bestScore) {
          bestScore := score;
          move := i;
        }
      }
      i := i + 1;
    }
  }

  /** The winner state: `null`, a player, or "Draw". */
  datatype Verdict = Pending | Won(player: Player) | Draw

  /** The component's state: `board`, `isXNext` and `winner`. */
  datatype State = State(board: seq<Square>, isXNext: bool, winner: Verdict)

  function Initial(): (s: State)
    ensures |s.board| == 9 && EmptyCount(s.board) == 9 && s.isXNext && s.winner == Pending
  {
    State([Empty, Empty, Empty, Empty, Empty, Empty, Empty, Empty, Empty], true, Pending)
  }

  /**
   * `handleClick(index)`: blocked when the square is taken, the game is decided,
   * or it is not X's turn; otherwise X takes exactly that square and the turn passes.
   */
  function Click(s: State, index: nat): (r: State)
    requires |s.board| == 9 && index < 9
    ensures |r.board| == 9
    ensures s.board[index] != Empty || s.winner != Pending || !s.isXNext ==> r == s
    ensures s.board[index] == Empty && s.winner == Pending && s.isXNext ==>
      && r.board[index] == Mark(X)
      && (forall j :: 0 <= j < 9 && j != index ==> r.board[j] == s.board[j])
      && !r.isXNext && r.winner == s.winner
  {
    if s.board[index] != Empty || s.winner != Pending || !s.isXNext then s
    else s.(board := s.board[index := Mark(X)], isXNext := false)
  }

  /**
   * The effect of lines 12-28 as written: the turn of O is tested before the
   * full board. A winner is recorded with the board left alone, and a draw is
   * only ever announced on X's turn on a full board.
   */
  function EffectAsWritten(s: State): (r: State)
    requires |s.board| == 9
    ensures |r.board| == 9
    ensures Winner(s.board).Some? ==> r.winner == Won(Winner(s.board).value) && r.board == s.board
    ensures r.winner == Draw && s.winner != Draw ==> s.isXNext && Full(s.board)
  {
    var win := Winner(s.board);
    if win.Some? then s.(winner := Won(win.value))
    else if !s.isXNext then
      var m := BestMove(s.board);
      BestMoveIsLowestMaximal(s.board);
      if m != -1 then s.(board := s.board[m := Mark(O)], isXNext := true) else s
    else if Full(s.board) then s.(winner := Draw)
    else s
  }

  /**
   * The effect with the full-board test first: a winner is recorded, a full
   * board without one is a draw, and otherwise O answers at `findBestMove`.
   */
  function Effect(s: State): (r: State)
    requires |s.board| == 9
    ensures |r.board| == 9
    ensures Full(s.board) && Winner(s.board).None? ==> r.winner == Draw
    ensures !(Full(s.board) && Winner(s.board).None? && !s.isXNext) ==> r == EffectAsWritten(s)
  {
    var win := Winner(s.board);
    if win.Some? then s.(winner := Won(win.value))
    else if Full(s.board) then s.(winner := Draw)
    else if !s.isXNext then
      var m := BestMove(s.board);
      BestMoveIsLowestMaximal(s.board);
      s.(board := s.board[m := Mark(O)], isXNext := true)
    else s
  }

  /**
   * The computer moves only when nobody has won and it is O's turn; it then
   * puts an O on an empty square, changes nothing else, and gives the turn to X.
   */
  lemma ComputerMovesLegally(s: State)
    requires |s.board| == 9
    ensures var r := Effect(s);
      r.board != s.board ==>
        && Winner(s.board).None? && !s.isXNext && r.isXNext
        && 0 <= BestMove(s.board) < 9 && s.board[BestMove(s.board)] == Empty
        && r.board == s.board[BestMove(s.board) := Mark(O)]
  {
    BestMoveIsLowestMaximal(s.board);
  }

  /** The last move of a drawn game, X to play on square 8. */
  function BeforeLastMove(): State
  {
    State([Mark(X), Mark(O), Mark(X),
           Mark(X), Mark(O), Mark(O),
           Mark(O), Mark(X), Empty], true, Pending)
  }

  /**
   * The effect as written never announces a draw at the end of a game: once the
   * board is full without a winner and it is O's turn, `findBestMove` returns -1,
   * the effect changes nothing and no click is accepted any more.
   */
  lemma {:induction false} StuckOnFullBoard(s: State)
    requires |s.board| == 9 && Full(s.board) && Winner(s.board).None? && !s.isXNext
    ensures EffectAsWritten(s) == s
    ensures forall i :: 0 <= i < 9 ==> Click(s, i) == s
  {
    BestMoveIsLowestMaximal(s.board);
  }

  /**
   * Such a state is what X's ninth move produces in a drawn game: X moves first,
   * so X also fills the last square, and the verdict stays pending.
   */
  lemma DrawNeverAnnounced()
    ensures var s := Click(BeforeLastMove(), 8);
      && Winner(BeforeLastMove().board).None?
      && Full(s.board) && Winner(s.board).None? && !s.isXNext && s.winner == Pending
  {
    LastMoveFillsBoard();
    NoWinnerBeforeLastMove();
    NoWinnerOnDrawnBoard();
  }

  /** The drawn board after X's ninth move. */
  function DrawnBoard(): seq<Square>
  {
    [Mark(X), Mark(O), Mark(X),
     Mark(X), Mark(O), Mark(O),
     Mark(O), Mark(X), Mark(X)]
  }

  lemma LastMoveFillsBoard()
    ensures Click(BeforeLastMove(), 8) == State(DrawnBoard(), false, Pending)
  {
    assert BeforeLastMove().board[8 := Mark(X)] == DrawnBoard();
  }

  lemma NoWinnerBeforeLastMove()
    ensures Winner(BeforeLastMove().board).None?
  {
    NoLineComplete(BeforeLastMove().board);
  }

  lemma NoWinnerOnDrawnBoard()
    ensures Full(DrawnBoard()) && Winner(DrawnBoard()).None?
  {
    NoLineComplete(DrawnBoard());
  }

  /** A board on which every line holds two different squares has no winner. */
  lemma NoLineComplete(b: seq<Square>)
    requires |b| == 9
    requires forall k :: 0 <= k < 8 ==> b[Line(k).0] != b[Line(k).1] || b[Line(k).0] != b[Line(k).2]
    ensures Winner(b).None?
  {
    forall k | 0 <= k < 8 ensures !Wins(b, k, X) && !Wins(b, k, O) {
    }
    WinnerIsACompleteLine(b, X);
  }

  /** With the full-board test first, every full board without a winner is a draw. */
  lemma {:induction false} DrawAnnounced(s: State)
    requires |s.board| == 9 && Full(s.board) && Winner(s.board).None?
    ensures Effect(s).winner == Draw
    ensures forall i :: 0 <= i < 9 ==> Click(Effect(s), i) == Effect(s)
  {
  }

  /** The component: the board, whose turn it is, and the verdict. */
  class Game {
    var board: seq<Square>
    var isXNext: bool
    var winner: Verdict

    function View(): State
      reads this
    {
      State(board, isXNext, winner)
    }

    ghost predicate Valid()
      reads this
    {
      |board| == 9
    }

    constructor ()
      ensures Valid() && View() == Initial()
    {
      board := Initial().board;
      isXNext := true;
      winner := Pending;
    }

    /** `resetGame`. */
    method ResetGame()
      modifies this
      ensures Valid() && View() == Initial()
    {
      board := Initial().board;
      isXNext := true;
      winner := Pending;
    }

    /** `handleClick(index)`. */
    method HandleClick(index: nat)
      requires Valid() && index < 9
      modifies this
      ensures Valid() && View() == Click(old(View()), index)
    {
      if board[index] != Empty || winner != Pending || !isXNext {
        return;
      }
      board := board[index := Mark(X)];
      isXNext := false;
    }

    /**
     * One run of the effect, with the full-board test moved before the
     * computer's turn; the search works on a copy of the board.
     */
    method RunEffect()
      requires Valid()
      modifies this
      ensures Valid() && View() == Effect(old(View()))
    {
      var win := Winner(board);
      if win.Some? {
        winner := Won(win.value);
      } else if Full(board) {
        winner := Draw;
      } else if !isXNext {
        var b := board;
        var squares := new Square[9](i requires 0 <= i < 9 => b[i]);
        assert squares[..] == b;
        var bestMove := FindBestMove(squares);
        BestMoveIsLowestMaximal(b);
        if bestMove != -1 {
          board := board[bestMove := Mark(O)];
          isXNext := true;
        }
      }
    }

    /**
     * One run of the effect in the order of lines 12-28: the computer's turn
     * is tested before the full board, so a board that X filled is never
     * declared a draw.
     */
    method RunEffectAsWritten()
      requires Valid()
      modifies this
      ensures Valid() && View() == EffectAsWritten(old(View()))
    {
      var win := Winner(board);
      if win.Some? {
        winner := Won(win.value);
      } else if !isXNext {
        var b := board;
        var squares := new Square[9](i requires 0 <= i < 9 => b[i]);
        assert squares[..] == b;
        var bestMove := FindBestMove(squares);
        BestMoveIsLowestMaximal(b);
        if bestMove != -1 {
          board := board[bestMove := Mark(O)];
          isXNext := true;
        }
      } else if Full(board) {
        winner := Draw;
      }
    }
  }
}
