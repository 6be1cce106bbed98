/** LA4's `newboard`: in-place shuffles of a puzzle and its solution. */
module BoardGen {
  import opened Foodoku
  import opened BoardDraws

  /** The contents of a 9 x 9 array. */
  ghost function Contents(a: array2<int>): (b: Board)
    requires a.Length0 == 9 && a.Length1 == 9
    reads a
    ensures Square(b) && forall i, j | OnBoard(i, j) :: b[i][j] == a[i, j]
  {
    seq(9, i requires 0 <= i < 9 reads a => seq(9, j requires 0 <= j < 9 reads a => a[i, j]))
  }

  lemma SameCells(a: Board, b: Board)
    requires Square(a) && Square(b) && forall i, j | OnBoard(i, j) :: a[i][j] == b[i][j]
    ensures a == b
  {
    forall i | 0 <= i < 9 ensures a[i] == b[i] {
      assert forall j | 0 <= j < 9 :: OnBoard(i, j) ==> a[i][j] == b[i][j];
    }
  }

  lemma ExchangedLines(r: seq<int>, x: nat, y: nat)
    requires Lines(r) && x < 9 && y < 9 && x / 3 == y / 3
    ensures Lines(Exchanged(r, x, y))
  {
  }

  /** Lines 27-31: a random renaming of the digits. */
  method ShuffleDigits(p: array<int>, draws: seq<nat>)
    requires p.Length == 10 && |draws| == 8 && DigitDraws(draws)
    modifies p
    ensures p[..] == Renamed(old(p[..]), draws)
  {
    ghost var names := Renamed(p[..], draws);
    var i, rest := 8, draws;
    while i > 0
      invariant 0 <= i == |rest| && DigitDraws(rest) && Renamed(p[..], rest) == names
    {
      var j := rest[0];
      SwapDigits(p, 1 + i, 1 + j);
      i, rest := i - 1, rest[1..];
    }
  }

  /** Line 30. */
  method SwapDigits(p: array<int>, x: nat, y: nat)
    requires x < p.Length && y < p.Length
    modifies p
    ensures p[..] == Exchanged(old(p[..]), x, y)
  {
    p[x], p[y] := p[y], p[x];
  }

  /** `m` is `base` with its lines reordered. */
  ghost predicate Reordered(m: array2<int>, base: Board, rows: seq<int>, cols: seq<int>)
    requires Square(base) && Lines(rows) && Lines(cols)
    reads m
  {
    && m.Length0 == 9 && m.Length1 == 9
    && forall i, j | OnBoard(i, j) :: m[i, j] == base[rows[i]][cols[j]]
  }

  /** Lines 37-38: rows `x` and `y` of `m` exchanged, cell by cell. */
  method SwapRows(m: array2<int>, x: nat, y: nat, ghost base: Board, ghost rows: seq<int>, ghost cols: seq<int>)
    requires Square(base) && Lines(rows) && Lines(cols) && Reordered(m, base, rows, cols)
    requires x < 9 && y < 9 && x / 3 == y / 3
    modifies m
    ensures Lines(Exchanged(rows, x, y)) && Reordered(m, base, Exchanged(rows, x, y), cols)
  {
    ExchangedLines(rows, x, y);
    for j := 0 to 9
      invariant forall i, c | OnBoard(i, c) ::
        m[i, c] == base[if c < j then Exchanged(rows, x, y)[i] else rows[i]][cols[c]]
    {
      m[x, j], m[y, j] := m[y, j], m[x, j];
    }
  }

  /** Lines 47-48. */
  method SwapColumns(m: array2<int>, x: nat, y: nat, ghost base: Board, ghost rows: seq<int>, ghost cols: seq<int>)
    requires Square(base) && Lines(rows) && Lines(cols) && Reordered(m, base, rows, cols)
    requires x < 9 && y < 9 && x / 3 == y / 3
    modifies m
    ensures Lines(Exchanged(cols, x, y)) && Reordered(m, base, rows, Exchanged(cols, x, y))
  {
    ExchangedLines(cols, x, y);
    for i := 0 to 9
      invariant forall c, j | OnBoard(c, j) ::
        m[c, j] == base[rows[c]][if c < i then Exchanged(cols, x, y)[j] else cols[j]]
    {
      m[i, x], m[i, y] := m[i, y], m[i, x];
    }
  }

  /** Both boards have their lines reordered alike. */
  ghost predicate Both(b: array2<int>, c: array2<int>, p: Board, q: Board, rows: seq<int>, cols: seq<int>)
    reads b, c
  {
    && b != c && Square(p) && Square(q) && Lines(rows) && Lines(cols)
    && Reordered(b, p, rows, cols) && Reordered(c, q, rows, cols)
  }

  /** Lines 35-40. */
  method SwapBothRows(b: array2<int>, c: array2<int>, x: nat, y: nat,
                      ghost p: Board, ghost q: Board, ghost rows: seq<int>, ghost cols: seq<int>)
    requires Both(b, c, p, q, rows, cols) && x < 9 && y < 9 && x / 3 == y / 3
    modifies b, c
    ensures Both(b, c, p, q, Exchanged(rows, x, y), cols)
  {
    if x != y {
      SwapRows(b, x, y, p, rows, cols);
      SwapRows(c, x, y, q, rows, cols);
    } else {
      assert Exchanged(rows, x, y) == rows;
    }
  }

  /** Lines 45-50. */
  method SwapBothColumns(b: array2<int>, c: array2<int>, x: nat, y: nat,
                         ghost p: Board, ghost q: Board, ghost rows: seq<int>, ghost cols: seq<int>)
    requires Both(b, c, p, q, rows, cols) && x < 9 && y < 9 && x / 3 == y / 3
    modifies b, c
    ensures Both(b, c, p, q, rows, Exchanged(cols, x, y))
  {
    if x != y {
      SwapColumns(b, x, y, p, rows, cols);
      SwapColumns(c, x, y, q, rows, cols);
    } else {
      assert Exchanged(cols, x, y) == cols;
    }
  }

  /** Lines 32-41. */
  method ShuffleRows(b: array2<int>, c: array2<int>, draws: seq<(nat, nat)>,
                     ghost p: Board, ghost q: Board, ghost start: seq<int>, ghost cols: seq<int>)
    requires Both(b, c, p, q, start, cols) && LineDraws(draws)
    modifies b, c
    ensures Both(b, c, p, q, Bands(start, draws, |draws|), cols)
  {
    ghost var rows := start;
    for band := 0 to |draws|
      invariant rows == Bands(start, draws, band) && Both(b, c, p, q, rows, cols)
    {
      var x, y := 3 * band + draws[band].0, 3 * band + draws[band].1;
      NextBand(start, draws, band, x, y);
      SwapBothRows(b, c, x, y, p, q, rows, cols);
      rows := Bands(start, draws, band + 1);
    }
  }

  /** Lines 42-51. */
  method ShuffleColumns(b: array2<int>, c: array2<int>, draws: seq<(nat, nat)>,
                        ghost p: Board, ghost q: Board, ghost rows: seq<int>, ghost start: seq<int>)
    requires Both(b, c, p, q, rows, start) && LineDraws(draws)
    modifies b, c
    ensures Both(b, c, p, q, rows, Bands(start, draws, |draws|))
  {
    ghost var cols := start;
    for band := 0 to |draws|
      invariant cols == Bands(start, draws, band) && Both(b, c, p, q, rows, cols)
    {
      var x, y := 3 * band + draws[band].0, 3 * band + draws[band].1;
      NextBand(start, draws, band, x, y);
      SwapBothColumns(b, c, x, y, p, q, rows, cols);
      cols := Bands(start, draws, band + 1);
    }
  }

  /** Lines 52-66 for one of the two boards. */
  method WriteOut(target: array2<int>, m: array2<int>, p: array<int>, straight: bool,
                  ghost base: Board, ghost rows: seq<int>, ghost cols: seq<int>)
    requires target.Length0 == 9 && target.Length1 == 9 && target != m && p.Length == 10 && Digits(p[..])
    requires Square(base) && Entries(base, 0) && Lines(rows) && Lines(cols) && Reordered(m, base, rows, cols)
    modifies target
    ensures Contents(target) == Shuffled(base, p[..], rows, cols, !straight)
  {
    ghost var s := Shuffled(base, p[..], rows, cols, !straight);
    for i := 0 to 9
      invariant forall r, c | OnBoard(r, c) && r < i :: target[r, c] == s[r][c]
    {
      for j := 0 to 9
        invariant forall r, c | OnBoard(r, c) && (r < i || (r == i && c < j)) :: target[r, c] == s[r][c]
      {
        assert OnBoard(i, j) && OnBoard(j, i);
        assert s[i][j] == Cell(base, p[..], rows, cols, !straight, i, j);
        target[i, j] := p[if straight then m[i, j] else m[j, i]];
      }
    }
    SameCells(Contents(target), s);
  }

  lemma NotReordered(m: array2<int>, base: Board, lines: seq<int>)
    requires m.Length0 == 9 && m.Length1 == 9 && Contents(m) == base
    requires |lines| == 9 && forall i | 0 <= i < 9 :: lines[i] == i
    ensures Lines(lines) && Reordered(m, base, lines, lines)
  {
  }

  /** Lines 32-51 on boards `p` and `q`, which are in `b` and `c`. */
  method Reorder(b: array2<int>, c: array2<int>, rowDraws: seq<(nat, nat)>, colDraws: seq<(nat, nat)>,
                 ghost p: Board, ghost q: Board)
    requires b.Length0 == 9 && b.Length1 == 9 && c.Length0 == 9 && c.Length1 == 9 && b != c
    requires Contents(b) == p && Contents(c) == q && LineDraws(rowDraws) && LineDraws(colDraws)
    modifies b, c
    ensures Both(b, c, p, q, OrderOf(rowDraws), OrderOf(colDraws))
  {
    ghost var lines := InOrder();
    NotReordered(b, p, lines);
    NotReordered(c, q, lines);
    ShuffleRows(b, c, rowDraws, p, q, lines, lines);
    ShuffleColumns(b, c, colDraws, p, q, OrderOf(rowDraws), lines);
  }

  /** Lines 27-66 on boards `p` and `q`, which are in `b` and `c`. */
  method Shuffle(puzzle: array2<int>, solution: array2<int>, b: array2<int>, c: array2<int>, draws: Draws,
                 ghost p: Board, ghost q: Board)
    requires puzzle.Length0 == 9 && puzzle.Length1 == 9 && solution.Length0 == 9 && solution.Length1 == 9
    requires puzzle != solution && b != c && b != puzzle && b != solution && c != puzzle && c != solution
    requires Square(p) && Square(q) && Entries(p, 0) && Entries(q, 0)
    requires b.Length0 == 9 && b.Length1 == 9 && c.Length0 == 9 && c.Length1 == 9
    requires Contents(b) == p && Contents(c) == q && InRange(draws)
    modifies puzzle, solution, b, c
    ensures Contents(puzzle) == Drawn(p, draws) && Contents(solution) == Drawn(q, draws)
  {
    var names := new int[10](i => i);
    assert names[..] == NAMES;
    ShuffleDigits(names, draws.digits);
    assert names[..] == NamesOf(draws);
    Reorder(b, c, draws.rows, draws.cols, p, q);
    ghost var rows, cols := OrderOf(draws.rows), OrderOf(draws.cols);
    WriteOut(puzzle, b, names, draws.straight, p, rows, cols);
    WriteOut(solution, c, names, draws.straight, q, rows, cols);
  }

  /** The puzzle that the draws make of the fixed one. */
  ghost function NewPuzzle(d: Draws): Board
    requires InRange(d)
  {
    PuzzleShowsSolved();
    Drawn(PUZZLE, d)
  }

  ghost function NewSolution(d: Draws): Board
    requires InRange(d)
  {
    PuzzleShowsSolved();
    Drawn(SOLVED, d)
  }

  lemma NewBoardIsGenerated(draws: Draws)
    requires InRange(draws)
    ensures Generated(NewPuzzle(draws), NewSolution(draws))
  {
    SolvedIsSolution();
    PuzzleShowsSolved();
    ShufflingKeepsSolutions(PUZZLE, SOLVED, NamesOf(draws), OrderOf(draws.rows), OrderOf(draws.cols),
                            !draws.straight);
  }

  /** `newboard`: whatever the random draws, `solution` gets a solution and `puzzle` the same part of
      it that the fixed puzzle shows of the fixed solution. */
  method NewBoard(puzzle: array2<int>, solution: array2<int>, draws: Draws)
    requires puzzle.Length0 == 9 && puzzle.Length1 == 9 && solution.Length0 == 9 && solution.Length1 == 9
    requires puzzle != solution && InRange(draws)
    modifies puzzle, solution
    ensures Contents(puzzle) == NewPuzzle(draws) && Contents(solution) == NewSolution(draws)
    ensures Generated(Contents(puzzle), Contents(solution))
  {
    var b := Copy(PUZZLE);
    var c := Copy(SOLVED);
    PuzzleShowsSolved();
    Shuffle(puzzle, solution, b, c, draws, PUZZLE, SOLVED);
    NewBoardIsGenerated(draws);
  }

  /** The initial values of lines 5-24. */
  method Copy(board: Board) returns (m: array2<int>)
    requires Square(board)
    ensures fresh(m) && m.Length0 == 9 && m.Length1 == 9 && Contents(m) == board
  {
    m := new int[9, 9]((i, j) => if 0 <= i < 9 && 0 <= j < 9 then board[i][j] else 0);
    SameCells(Contents(m), board);
  }
}
