/** LA4: the 9 x 9 board, the shuffles that make a new one, and the game on values. */
module Foodoku {

  type Board = seq<seq<int>>

  predicate Square(b: Board) {
    |b| == 9 && forall i | 0 <= i < 9 :: |b[i]| == 9
  }

  predicate OnBoard(i: int, j: int) {
    0 <= i < 9 && 0 <= j < 9
  }

  /** Two different cells in a row, a column or a 3 x 3 block. */
  predicate Sees(i: int, j: int, k: int, l: int) {
    (i != k || j != l) && (i == k || j == l || (i / 3 == k / 3 && j / 3 == l / 3))
  }

  ghost predicate ConflictFree(b: Board)
    requires Square(b)
  {
    forall i, j, k, l | OnBoard(i, j) && OnBoard(k, l) && Sees(i, j, k, l) :: b[i][j] == 0 || b[i][j] != b[k][l]
  }

  ghost predicate Entries(b: Board, lo: int)
    requires Square(b)
  {
    forall i, j | OnBoard(i, j) :: lo <= b[i][j] <= 9
  }

  /** Every cell filled and no conflict: each digit once in each row, column and block. */
  ghost predicate Solution(b: Board) {
    Square(b) && Entries(b, 1) && ConflictFree(b)
  }

  /** `a` shows part of `b`. */
  ghost predicate Shows(a: Board, b: Board)
    requires Square(a) && Square(b)
  {
    forall i, j | OnBoard(i, j) :: a[i][j] == 0 || a[i][j] == b[i][j]
  }

  // ----- The board that is shuffled -----

  const PUZZLE: Board :=
    [[1, 0, 0, 0, 0, 8, 0, 0, 9],
     [0, 0, 2, 0, 0, 0, 0, 0, 8],
     [0, 8, 0, 5, 4, 9, 0, 0, 0],
     [0, 4, 0, 2, 0, 0, 9, 0, 0],
     [3, 0, 9, 0, 0, 0, 2, 0, 1],
     [0, 0, 1, 0, 0, 5, 0, 4, 0],
     [0, 0, 0, 9, 1, 2, 0, 3, 0],
     [7, 0, 0, 0, 0, 0, 1, 0, 0],
     [2, 0, 0, 7, 0, 0, 0, 0, 6]]

  const SOLVED: Board :=
    [[1, 3, 4, 6, 2, 8, 5, 7, 9],
     [9, 5, 2, 1, 3, 7, 4, 6, 8],
     [6, 8, 7, 5, 4, 9, 3, 1, 2],
     [5, 4, 6, 2, 7, 1, 9, 8, 3],
     [3, 7, 9, 4, 8, 6, 2, 5, 1],
     [8, 2, 1, 3, 9, 5, 6, 4, 7],
     [4, 6, 8, 9, 1, 2, 7, 3, 5],
     [7, 9, 5, 8, 6, 3, 1, 2, 4],
     [2, 1, 3, 7, 5, 4, 8, 9, 6]]

  lemma PuzzleShowsSolved()
    ensures Square(PUZZLE) && Square(SOLVED) && Entries(SOLVED, 1) && Shows(PUZZLE, SOLVED)
  {
  }

  lemma SolvedRow(i: int, j: int, l: int)
    requires 0 <= i < 9 && 0 <= j < l < 9
    ensures SOLVED[i][j] != SOLVED[i][l]
  {
  }

  lemma SolvedColumn(i: int, k: int, j: int)
    requires 0 <= j < 9 && 0 <= i < k < 9
    ensures SOLVED[i][j] != SOLVED[k][j]
  {
  }

  lemma SolvedInBlock(u: int, v: int, i: int, j: int, k: int, l: int)
    requires u in {0, 3, 6} && v in {0, 3, 6} && u <= i < k < u + 3 && v <= j < v + 3 && v <= l < v + 3 && j != l
    ensures SOLVED[i][j] != SOLVED[k][l]
  {
  }

  lemma SolvedBlock(i: int, j: int, k: int, l: int)
    requires OnBoard(i, j) && OnBoard(k, l) && i < k && j != l && i / 3 == k / 3 && j / 3 == l / 3
    ensures SOLVED[i][j] != SOLVED[k][l]
  {
    SolvedInBlock(i / 3 * 3, j / 3 * 3, i, j, k, l);
  }

  lemma SolvedIsSolution()
    ensures Solution(SOLVED)
  {
    PuzzleShowsSolved();
    forall i, j, k, l | OnBoard(i, j) && OnBoard(k, l) && Sees(i, j, k, l) ensures SOLVED[i][j] != SOLVED[k][l] {
      if i == k {
        if j < l { SolvedRow(i, j, l); } else { SolvedRow(i, l, j); }
      } else if j == l {
        if i < k { SolvedColumn(i, k, j); } else { SolvedColumn(k, i, j); }
      } else {
        if i < k { SolvedBlock(i, j, k, l); } else { SolvedBlock(k, l, i, j); }
      }
    }
  }

  // ----- Shuffles -----

  /** A renaming of the digits that leaves the empty cell alone. */
  predicate Digits(p: seq<int>) {
    && |p| == 10 && p[0] == 0
    && (forall d | 1 <= d <= 9 :: 1 <= p[d] <= 9)
    && forall d, e | 1 <= d < e <= 9 :: p[d] != p[e]
  }

  /** A reordering of the lines that keeps every line in its band of three. */
  predicate Lines(r: seq<int>) {
    && |r| == 9
    && (forall i | 0 <= i < 9 :: 0 <= r[i] < 9 && r[i] / 3 == i / 3)
    && forall i, k | 0 <= i < k < 9 :: r[i] != r[k]
  }

  /** Cell (i, j) of the shuffled board. */
  function Cell(b: Board, p: seq<int>, rows: seq<int>, cols: seq<int>, flip: bool, i: int, j: int): int
    requires Square(b) && Entries(b, 0) && Digits(p) && Lines(rows) && Lines(cols) && OnBoard(i, j)
  {
    p[if flip then b[rows[j]][cols[i]] else b[rows[i]][cols[j]]]
  }

  function Shuffled(b: Board, p: seq<int>, rows: seq<int>, cols: seq<int>, flip: bool): (s: Board)
    requires Square(b) && Entries(b, 0) && Digits(p) && Lines(rows) && Lines(cols)
    ensures Square(s) && forall i, j | OnBoard(i, j) :: s[i][j] == Cell(b, p, rows, cols, flip, i, j)
  {
    seq(9, i requires 0 <= i < 9 => seq(9, j requires 0 <= j < 9 => Cell(b, p, rows, cols, flip, i, j)))
  }

  /** Cell (i, j) shows the renamed digit of row rows[i] and column cols[j]; flipping exchanges the
      rows and columns of the result. */
  lemma ShuffledCells(b: Board, p: seq<int>, rows: seq<int>, cols: seq<int>, i: int, j: int)
    requires Square(b) && Entries(b, 0) && Digits(p) && Lines(rows) && Lines(cols) && OnBoard(i, j)
    ensures Shuffled(b, p, rows, cols, false)[i][j] == p[b[rows[i]][cols[j]]]
    ensures Shuffled(b, p, rows, cols, true)[i][j] == Shuffled(b, p, rows, cols, false)[j][i]
  {
    assert OnBoard(j, i);
  }

  lemma SightKept(rows: seq<int>, cols: seq<int>, i: int, j: int, k: int, l: int)
    requires Lines(rows) && Lines(cols) && OnBoard(i, j) && OnBoard(k, l)
    ensures Sees(rows[i], cols[j], rows[k], cols[l]) <==> Sees(i, j, k, l)
  {
  }

  /** Shuffling keeps a solution a solution, and what a board shows of it. */
  lemma ShufflingKeepsSolutions(a: Board, b: Board, p: seq<int>, rows: seq<int>, cols: seq<int>, flip: bool)
    requires Solution(b) && Square(a) && Entries(a, 0) && Shows(a, b) && Digits(p) && Lines(rows) && Lines(cols)
    ensures Solution(Shuffled(b, p, rows, cols, flip))
    ensures Shows(Shuffled(a, p, rows, cols, flip), Shuffled(b, p, rows, cols, flip))
  {
    var s := Shuffled(b, p, rows, cols, flip);
    forall i, j, k, l | OnBoard(i, j) && OnBoard(k, l) && Sees(i, j, k, l) ensures s[i][j] != s[k][l] {
      if flip { SightKept(rows, cols, j, i, l, k); } else { SightKept(rows, cols, i, j, k, l); }
    }
  }

  // ----- The game -----

  /** What the coordinator and the nine blocks know; `started` is its `flag`. */
  datatype Game = Game(started: bool, solution: Board, given: Board, now: Board)

  datatype Command = NewGame(puzzle: Board, solution: Board) | Put(b: int, c: int, d: int) | Solve | Other

  function RowOf(b: int, c: int): int {
    b / 3 * 3 + c / 3
  }

  function ColumnOf(b: int, c: int): int {
    b % 3 * 3 + c % 3
  }

  ghost predicate Generated(puzzle: Board, solution: Board) {
    Solution(solution) && Square(puzzle) && Entries(puzzle, 0) && Shows(puzzle, solution)
  }

  ghost predicate GameOk(g: Game) {
    && Square(g.given) && Square(g.now) && Solution(g.solution)
    && Entries(g.now, 0) && ConflictFree(g.now)
    && (forall i, j | OnBoard(i, j) :: g.given[i][j] != 0 ==> g.now[i][j] == g.given[i][j])
  }

  /** The digit may go into cell (i, j): the cell is not given, and neither it nor a cell it sees
      holds the digit. */
  ghost predicate Legal(g: Game, i: int, j: int, d: int)
    requires Square(g.given) && Square(g.now) && OnBoard(i, j)
  {
    && g.given[i][j] == 0 && g.now[i][j] != d
    && forall k, l | OnBoard(k, l) && Sees(i, j, k, l) :: g.now[k][l] != d
  }

  ghost function Do(g: Game, command: Command): Game
    requires Square(g.given) && Square(g.now)
    requires command.NewGame? ==> Square(command.puzzle)
  {
    match command
    case NewGame(puzzle, solution) => Game(true, solution, puzzle, puzzle)
    case Put(b, c, d) =>
      if g.started && 0 <= b < 9 && 0 <= c < 9 && 1 <= d <= 9 && Legal(g, RowOf(b, c), ColumnOf(b, c), d)
      then g.(now := g.now[RowOf(b, c) := g.now[RowOf(b, c)][ColumnOf(b, c) := d]])
      else g
    case Solve => g.(started := false, given := g.solution, now := g.solution)
    case Other => g
  }

  /** A new game: the board shows part of a solution, so it is free of conflicts. */
  lemma NewGameOk(puzzle: Board, solution: Board)
    requires Generated(puzzle, solution)
    ensures GameOk(Game(true, solution, puzzle, puzzle))
  {
  }

  /** A digit from 1 to 9 that is legal in cell c of block b is written there and nowhere else, once a
      game has been started; any other placement changes nothing. */
  lemma PutWrites(g: Game, b: int, c: int, d: int)
    requires Square(g.given) && Square(g.now)
    ensures var i, j, r := RowOf(b, c), ColumnOf(b, c), Do(g, Put(b, c, d));
      && r == g.(now := r.now)
      && if g.started && 0 <= b < 9 && 0 <= c < 9 && 1 <= d <= 9 && Legal(g, i, j, d)
         then Square(r.now) && forall k, l | OnBoard(k, l) :: r.now[k][l] == if k == i && l == j then d else g.now[k][l]
         else r == g
  {
  }

  lemma PutKeepsOk(g: Game, b: int, c: int, d: int)
    requires GameOk(g)
    ensures GameOk(Do(g, Put(b, c, d)))
  {
  }

  lemma DoKeepsOk(g: Game, command: Command)
    requires GameOk(g) && (command.NewGame? ==> Generated(command.puzzle, command.solution))
    ensures GameOk(Do(g, command))
  {
    match command
    case NewGame(puzzle, solution) => NewGameOk(puzzle, solution);
    case Put(b, c, d) => PutKeepsOk(g, b, c, d);
    case _ =>
  }

  ghost predicate Playable(commands: seq<Command>) {
    forall i | 0 <= i < |commands| && commands[i].NewGame? :: Generated(commands[i].puzzle, commands[i].solution)
  }

  ghost function Play(g: Game, commands: seq<Command>): (r: Game)
    requires GameOk(g) && Playable(commands)
    ensures GameOk(r)
    decreases |commands|
  {
    if commands == [] then g
    else
      DoKeepsOk(g, commands[0]);
      Play(Do(g, commands[0]), commands[1..])
  }

  /** A game is one command after the other, in their order. */
  lemma {:induction false} PlayInTurn(g: Game, commands: seq<Command>, last: Command)
    requires GameOk(g) && Playable(commands) && (last.NewGame? ==> Generated(last.puzzle, last.solution))
    ensures Playable(commands + [last]) && Play(g, commands + [last]) == Do(Play(g, commands), last)
    decreases |commands|
  {
    var all := commands + [last];
    if commands == [] {
      assert all[1..] == [];
    } else {
      assert all[1..] == commands[1..] + [last];
      DoKeepsOk(g, commands[0]);
      PlayInTurn(Do(g, commands[0]), commands[1..], last);
    }
  }

  /** Until the next new game or solution, a given never changes. */
  lemma {:induction false} GivensStay(g: Game, commands: seq<Command>)
    requires GameOk(g) && Playable(commands)
    requires forall i | 0 <= i < |commands| :: commands[i].Put? || commands[i].Other?
    ensures var r := Play(g, commands);
      && r.given == g.given && r.solution == g.solution && r.started == g.started
      && forall i, j | OnBoard(i, j) && g.given[i][j] != 0 :: r.now[i][j] == g.given[i][j]
    decreases |commands|
  {
    if commands != [] {
      DoKeepsOk(g, commands[0]);
      assert commands[0].Put? || commands[0].Other?;
      GivensStay(Do(g, commands[0]), commands[1..]);
    }
  }

  /** The solution stays on show, whatever is placed, until the next new game. */
  lemma {:induction false} SolutionStays(g: Game, commands: seq<Command>)
    requires GameOk(g) && Playable(commands)
    requires forall i | 0 <= i < |commands| :: commands[i].Put? || commands[i].Other?
    ensures var r := Play(g, [Solve] + commands); !r.started && r.now == r.given == r.solution == g.solution
  {
    var all := [Solve] + commands;
    assert all[1..] == commands;
    DoKeepsOk(g, Solve);
    NothingIsPlaced(Do(g, Solve), commands);
  }

  lemma {:induction false} NothingIsPlaced(g: Game, commands: seq<Command>)
    requires GameOk(g) && !g.started && Playable(commands)
    requires forall i | 0 <= i < |commands| :: commands[i].Put? || commands[i].Other?
    ensures Play(g, commands) == g
    decreases |commands|
  {
    if commands != [] {
      assert commands[0].Put? || commands[0].Other?;
      NothingIsPlaced(g, commands[1..]);
    }
  }

  /** Whatever follows the first new game, no two cells that see each other ever show the same
      digit, and the solution shown is one. */
  lemma GameStaysConflictFree(puzzle: Board, solution: Board, commands: seq<Command>)
    requires Generated(puzzle, solution) && Playable(commands)
    ensures var g := Game(true, solution, puzzle, puzzle);
      GameOk(g) && ConflictFree(Play(g, commands).now) && Solution(Play(g, commands).solution)
  {
    NewGameOk(puzzle, solution);
  }
}
