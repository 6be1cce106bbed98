/** LA4's coordinator and its nine blocks; a command is handled to its end before the next.

    Block 3 * u + v is in block row u and block column v; its cell (r, c) is cell
    (3 * u + r, 3 * v + c) of the board. */
module FoodokuBlocks {
  import opened Foodoku
  import opened BoardDraws
  import opened BoardGen

  predicate Place4(u: int, v: int, r: int, c: int) {
    0 <= u < 3 && 0 <= v < 3 && 0 <= r < 3 && 0 <= c < 3
  }

  /** Cell (r, c) of block (u, v). */
  function At(b: Board, u: int, v: int, r: int, c: int): int
    requires Square(b) && Place4(u, v, r, c)
  {
    b[3 * u + r][3 * v + c]
  }

  lemma WrittenCell(b: Board, u: int, v: int, r: int, c: int, d: int, u2: int, v2: int, r2: int, c2: int)
    requires Square(b) && Place4(u, v, r, c) && Place4(u2, v2, r2, c2)
    ensures At(b[3 * u + r := b[3 * u + r][3 * v + c := d]], u2, v2, r2, c2) ==
      if u2 == u && v2 == v && r2 == r && c2 == c then d else At(b, u2, v2, r2, c2)
  {
    if 3 * u2 + r2 == 3 * u + r {
      assert u2 == u && r2 == r;
      if 3 * v2 + c2 == 3 * v + c { assert v2 == v && c2 == c; }
    }
  }

  lemma Coordinates(u: int, v: int)
    requires 0 <= u < 3 && 0 <= v < 3
    ensures (3 * u + v) / 3 == u && (3 * u + v) % 3 == v
  {
  }

  lemma CellAddress(x: int, cell: int)
    requires 0 <= x < 9 && 0 <= cell < 9
    ensures Place4(x / 3, x % 3, cell / 3, cell % 3) && x == 3 * (x / 3) + x % 3
    ensures RowOf(x, cell) == 3 * (x / 3) + cell / 3 && ColumnOf(x, cell) == 3 * (x % 3) + cell % 3
  {
  }

  // ----- Neighbours -----

  /** `row_get`: the other two blocks of a block row. */
  method RowGet(block: int) returns (n1: int, n2: int)
    requires 0 <= block < 9
    ensures n1 != n2 && n1 != block && n2 != block
    ensures 0 <= n1 < 9 && 0 <= n2 < 9 && n1 / 3 == n2 / 3 == block / 3
  {
    var rowStart := block / 3 * 3;
    n1 := rowStart + (block + 1) % 3;
    n2 := rowStart + (block + 2) % 3;
  }

  /** `col_get`: the other two blocks of a block column. */
  method ColGet(block: int) returns (n1: int, n2: int)
    requires 0 <= block < 9
    ensures n1 != n2 && n1 != block && n2 != block
    ensures 0 <= n1 < 9 && 0 <= n2 < 9 && n1 % 3 == n2 % 3 == block % 3
  {
    n1 := (block + 3) % 9;
    n2 := (block + 6) % 9;
    if n1 / 3 == block / 3 || n2 / 3 == block / 3 {
      assert false;    // the corrections of lines 43-46 never apply
    }
  }

  // ----- What the blocks are asked -----

  ghost predicate FreeInBlock(b: Board, u: int, v: int, d: int)
    requires Square(b) && 0 <= u < 3 && 0 <= v < 3
  {
    forall r, c | 0 <= r < 3 && 0 <= c < 3 :: At(b, u, v, r, c) != d
  }

  ghost predicate FreeInRow(b: Board, u: int, v: int, r: int, d: int)
    requires Square(b) && 0 <= u < 3 && 0 <= v < 3 && 0 <= r < 3
  {
    forall c | 0 <= c < 3 :: At(b, u, v, r, c) != d
  }

  ghost predicate FreeInColumn(b: Board, u: int, v: int, c: int, d: int)
    requires Square(b) && 0 <= u < 3 && 0 <= v < 3 && 0 <= c < 3
  {
    forall r | 0 <= r < 3 :: At(b, u, v, r, c) != d
  }

  /** The digit is nowhere in row r of the blocks of block row u. */
  ghost predicate FreeRow(b: Board, u: int, r: int, d: int)
    requires Square(b) && 0 <= u < 3 && 0 <= r < 3
  {
    forall v | 0 <= v < 3 :: FreeInRow(b, u, v, r, d)
  }

  ghost predicate FreeColumn(b: Board, v: int, c: int, d: int)
    requires Square(b) && 0 <= v < 3 && 0 <= c < 3
  {
    forall u | 0 <= u < 3 :: FreeInColumn(b, u, v, c, d)
  }

  lemma SeesAt(u: int, v: int, r: int, c: int, k: int, l: int)
    requires Place4(u, v, r, c) && OnBoard(k, l)
    ensures Sees(3 * u + r, 3 * v + c, k, l) <==>
      !(k == 3 * u + r && l == 3 * v + c)
      && ((k / 3 == u && k % 3 == r) || (l / 3 == v && l % 3 == c) || (k / 3 == u && l / 3 == v))
  {
  }

  lemma CellFree(b: Board, u: int, v: int, r: int, c: int, d: int, k: int, l: int)
    requires Square(b) && Place4(u, v, r, c) && OnBoard(k, l) && Sees(3 * u + r, 3 * v + c, k, l)
    requires FreeInBlock(b, u, v, d) && FreeRow(b, u, r, d) && FreeColumn(b, v, c, d)
    ensures b[k][l] != d
  {
    SeesAt(u, v, r, c, k, l);
    var u2, v2 := k / 3, l / 3;
    assert At(b, u2, v2, k % 3, l % 3) == b[k][l];
    if k % 3 == r && u2 == u { assert FreeInRow(b, u, v2, r, d); }
    if l % 3 == c && v2 == v { assert FreeInColumn(b, u2, v, c, d); }
  }

  /** A placement is legal exactly if the cell is not given and its block, its row and its column
      are free of the digit. */
  lemma ThreeChecksAreEnough(g: Game, u: int, v: int, r: int, c: int, d: int)
    requires Square(g.given) && Square(g.now) && Place4(u, v, r, c)
    ensures OnBoard(3 * u + r, 3 * v + c)
    ensures Legal(g, 3 * u + r, 3 * v + c, d) <==>
      && At(g.given, u, v, r, c) == 0
      && FreeInBlock(g.now, u, v, d) && FreeRow(g.now, u, r, d) && FreeColumn(g.now, v, c, d)
  {
    var i, j := 3 * u + r, 3 * v + c;
    if FreeInBlock(g.now, u, v, d) && FreeRow(g.now, u, r, d) && FreeColumn(g.now, v, c, d) {
      assert At(g.now, u, v, r, c) != d;
      forall k, l | OnBoard(k, l) && Sees(i, j, k, l) ensures g.now[k][l] != d {
        CellFree(g.now, u, v, r, c, d, k, l);
      }
    }
    if Legal(g, i, j, d) {
      forall u2, v2, r2, c2 | Place4(u2, v2, r2, c2)
        && ((u2 == u && v2 == v) || (u2 == u && r2 == r) || (v2 == v && c2 == c))
        ensures At(g.now, u2, v2, r2, c2) != d
      {
        SeesAt(u, v, r, c, 3 * u2 + r2, 3 * v2 + c2);
        assert OnBoard(3 * u2 + r2, 3 * v2 + c2);
      }
    }
  }

  // ----- One block -----

  class Block {
    const a: array2<int>      // the original block
    const b: array2<int>      // its current state

    constructor ()
      ensures fresh(a) && fresh(b) && Sized() && Blank()
    {
      a := new int[3, 3]((i, j) => 0);
      b := new int[3, 3]((i, j) => 0);
    }

    predicate Sized() {
      a.Length0 == 3 && a.Length1 == 3 && b.Length0 == 3 && b.Length1 == 3 && a != b
    }

    ghost predicate Blank()
      requires Sized()
      reads a, b
    {
      forall r, c | 0 <= r < 3 && 0 <= c < 3 :: a[r, c] == b[r, c] == 0
    }

    /** The block shows block (u, v) of the boards `given` and `now`. */
    ghost predicate Holds(given: Board, now: Board, u: int, v: int)
      requires Sized() && Square(given) && Square(now) && 0 <= u < 3 && 0 <= v < 3
      reads a, b
    {
      forall r, c | 0 <= r < 3 && 0 <= c < 3 :: a[r, c] == At(given, u, v, r, c) && b[r, c] == At(now, u, v, r, c)
    }

    /** The `n` command, the digits being those of lines 145-157 of the coordinator. */
    method Load(board: array2<int>, x: int)
      requires Sized() && board.Length0 == 9 && board.Length1 == 9 && 0 <= x < 9 && board != a && board != b
      modifies a, b
      ensures Holds(Contents(board), Contents(board), x / 3, x % 3)
    {
      var blockRow, blockCol := x / 3 * 3, x % 3 * 3;
      ghost var u, v := x / 3, x % 3;
      ghost var all := Contents(board);
      for j := 0 to 3
        invariant Contents(board) == all
        invariant forall r, c | 0 <= r < 3 && 0 <= c < 3 && r < j :: a[r, c] == b[r, c] == At(all, u, v, r, c)
      {
        for k := 0 to 3
          invariant Contents(board) == all
          invariant forall r, c | 0 <= r < 3 && 0 <= c < 3 && (r < j || (r == j && c < k)) ::
            a[r, c] == b[r, c] == At(all, u, v, r, c)
        {
          assert OnBoard(blockRow + j, blockCol + k);
          a[j, k] := board[blockRow + j, blockCol + k];
          b[j, k] := a[j, k];
        }
      }
    }

    /** `row_check_signal`. */
    method RowSignal(row: int, d: int) returns (flag: bool)
      requires Sized() && 0 <= row < 3
      ensures !flag <==> forall i | 0 <= i < 3 :: b[row, i] != d
    {
      flag := false;
      for i := 0 to 3
        invariant !flag && forall k | 0 <= k < 3 && k < i :: b[row, k] != d
      {
        if b[row, i] == d { return true; }
      }
    }

    /** `col_check_signal`. */
    method ColSignal(col: int, d: int) returns (flag: bool)
      requires Sized() && 0 <= col < 3
      ensures !flag <==> forall i | 0 <= i < 3 :: b[i, col] != d
    {
      flag := false;
      for i := 0 to 3
        invariant !flag && forall k | 0 <= k < 3 && k < i :: b[k, col] != d
      {
        if b[i, col] == d { return true; }
      }
    }

    /** Lines 96-109 of `handle_p_command`. */
    method BlockConflict(d: int) returns (conflict: bool)
      requires Sized()
      ensures !conflict <==> forall i, j | 0 <= i < 3 && 0 <= j < 3 :: b[i, j] != d
    {
      conflict := false;
      for i := 0 to 3
        invariant !conflict && forall k, l | 0 <= k < 3 && 0 <= l < 3 && k < i :: b[k, l] != d
      {
        for j := 0 to 3
          invariant !conflict && forall k, l | 0 <= k < 3 && 0 <= l < 3 && (k < i || (k == i && l < j)) :: b[k, l] != d
        {
          if b[i, j] == d { return true; }
        }
      }
    }
  }

  ghost predicate BlocksApart(blocks: seq<Block>) {
    && (forall x | 0 <= x < |blocks| :: blocks[x].Sized())
    && (forall x, y | 0 <= x < |blocks| && 0 <= y < |blocks| :: blocks[x].a != blocks[y].b)
    && (forall x, y | 0 <= x < y < |blocks| :: blocks[x].a != blocks[y].a && blocks[x].b != blocks[y].b)
  }

  method MakeBlocks(n: nat) returns (blocks: seq<Block>)
    ensures |blocks| == n && BlocksApart(blocks)
    ensures forall x | 0 <= x < n :: fresh(blocks[x].a) && fresh(blocks[x].b) && blocks[x].Blank()
  {
    blocks := [];
    for i := 0 to n
      invariant |blocks| == i && BlocksApart(blocks)
      invariant forall x | 0 <= x < i :: fresh(blocks[x].a) && fresh(blocks[x].b) && blocks[x].Blank()
    {
      var block := new Block();
      blocks := blocks + [block];
    }
  }

  // ----- The coordinator -----

  class Coordinator {
    const blocks: seq<Block>
    const puzzle: array2<int>        // A
    const solution: array2<int>      // S
    var started: bool                // flag
    ghost var given: Board           // what the nine blocks show together
    ghost var now: Board

    ghost predicate Apart() {
      && |blocks| == 9 && BlocksApart(blocks)
      && puzzle.Length0 == 9 && puzzle.Length1 == 9 && solution.Length0 == 9 && solution.Length1 == 9
      && puzzle != solution
      && (forall x | 0 <= x < 9 :: blocks[x].a != puzzle && blocks[x].a != solution)
      && (forall x | 0 <= x < 9 :: blocks[x].b != puzzle && blocks[x].b != solution)
    }

    ghost function BlockOf(u: int, v: int): Block
      requires |blocks| == 9 && 0 <= u < 3 && 0 <= v < 3
    {
      blocks[3 * u + v]
    }

    ghost function Originals(): set<array2<int>> {
      set x | 0 <= x < |blocks| :: blocks[x].a
    }

    ghost function Currents(): set<array2<int>> {
      set x | 0 <= x < |blocks| :: blocks[x].b
    }

    ghost predicate Valid()
      reads this, Originals(), Currents()
    {
      && Apart() && Square(given) && Square(now)
      && forall u, v | 0 <= u < 3 && 0 <= v < 3 :: BlockOf(u, v).Holds(given, now, u, v)
    }

    ghost function Snapshot(): Game
      requires Apart()
      reads this, solution
    {
      Game(started, Contents(solution), given, now)
    }

    /** Lines 143-159 and 198-215: every block gets its part of the board. */
    method Deal(board: array2<int>)
      requires Apart() && (board == puzzle || board == solution)
      modifies `given, `now, Originals(), Currents()
      ensures Valid() && given == now == Contents(board)
    {
      given, now := Contents(board), Contents(board);
      for x := 0 to 9
        modifies Originals(), Currents()
        invariant Contents(board) == now
        invariant forall y | 0 <= y < x :: blocks[y].Holds(given, now, y / 3, y % 3)
      {
        blocks[x].Load(board, x);
      }
      NineBlocks();
    }

    lemma NineBlocks()
      requires Apart() && Square(given) && Square(now)
      requires forall y | 0 <= y < 9 :: blocks[y].Holds(given, now, y / 3, y % 3)
      ensures Valid()
    {
      forall u, v | 0 <= u < 3 && 0 <= v < 3 ensures BlockOf(u, v).Holds(given, now, u, v) {
        var y := 3 * u + v;
        Coordinates(u, v);
        assert blocks[y].Holds(given, now, y / 3, y % 3);
      }
    }

    /** The `n` command. */
    method NewGame(draws: Draws)
      requires Valid() && InRange(draws)
      modifies this, puzzle, solution, Originals(), Currents()
      ensures Valid() && Generated(Contents(puzzle), Contents(solution))
      ensures started && given == now == Contents(puzzle) == NewPuzzle(draws)
      ensures Contents(solution) == NewSolution(draws)
      ensures Snapshot() == Do(old(Snapshot()), Command.NewGame(Contents(puzzle), Contents(solution)))
    {
      started := true;
      NewBoard(puzzle, solution, draws);
      Deal(puzzle);
    }

    /** The `s` command; `if (flag = 0)` is false and `if (flag = 1)` true, so the flag ends at 0. */
    method ShowSolution()
      requires Valid()
      modifies this, Originals(), Currents()
      ensures Valid() && Snapshot() == Do(old(Snapshot()), Solve)
      ensures !started && given == now == Contents(solution) == old(Contents(solution))
    {
      started := false;
      Deal(solution);
    }

    method AskRow(x: int, ghost u: int, ghost v: int, r: int, d: int) returns (flag: bool)
      requires Valid() && Place4(u, v, r, 0) && x == 3 * u + v
      ensures !flag <==> FreeInRow(now, u, v, r, d)
    {
      assert BlockOf(u, v).Holds(given, now, u, v);
      flag := blocks[x].RowSignal(r, d);
    }

    method AskColumn(x: int, ghost u: int, ghost v: int, c: int, d: int) returns (flag: bool)
      requires Valid() && Place4(u, v, 0, c) && x == 3 * u + v
      ensures !flag <==> FreeInColumn(now, u, v, c, d)
    {
      assert BlockOf(u, v).Holds(given, now, u, v);
      flag := blocks[x].ColSignal(c, d);
    }

    /** `row_check_receive`: both row neighbours are asked; the block's own row is known to be free. */
    method RowConflict(x: int, ghost u: int, ghost v: int, r: int, d: int) returns (conflict: bool)
      requires Valid() && Place4(u, v, r, 0) && x == 3 * u + v && FreeInRow(now, u, v, r, d)
      ensures !conflict <==> FreeRow(now, u, r, d)
    {
      assert x / 3 == u && x % 3 == v;
      var n1, n2 := RowGet(x);
      ghost var v1, v2 := n1 - 3 * u, n2 - 3 * u;
      var res1 := AskRow(n1, u, v1, r, d);
      var res2 := AskRow(n2, u, v2, r, d);
      assert {v, v1, v2} == {0, 1, 2};
      conflict := res1 || res2;
    }

    /** `col_check_receive`. */
    method ColConflict(x: int, ghost u: int, ghost v: int, c: int, d: int) returns (conflict: bool)
      requires Valid() && Place4(u, v, 0, c) && x == 3 * u + v && FreeInColumn(now, u, v, c, d)
      ensures !conflict <==> FreeColumn(now, v, c, d)
    {
      assert x / 3 == u && x % 3 == v;
      var n1, n2 := ColGet(x);
      ghost var u1, u2 := n1 / 3, n2 / 3;
      var res1 := AskColumn(n1, u1, v, c, d);
      var res2 := AskColumn(n2, u2, v, c, d);
      assert {u, u1, u2} == {0, 1, 2};
      conflict := res1 || res2;
    }

    method OwnConflict(x: int, ghost u: int, ghost v: int, d: int) returns (conflict: bool)
      requires Valid() && 0 <= u < 3 && 0 <= v < 3 && x == 3 * u + v
      ensures !conflict <==> FreeInBlock(now, u, v, d)
    {
      assert BlockOf(u, v).Holds(given, now, u, v);
      conflict := blocks[x].BlockConflict(d);
    }

    /** `handle_p_command` of block x up to the assignment. */
    method MayPlace(x: int, ghost u: int, ghost v: int, row: int, col: int, d: int) returns (ok: bool)
      requires Valid() && Place4(u, v, row, col) && x == 3 * u + v
      ensures ok <==>
        && At(given, u, v, row, col) == 0
        && FreeInBlock(now, u, v, d) && FreeRow(now, u, row, d) && FreeColumn(now, v, col, d)
    {
      assert BlockOf(u, v).Holds(given, now, u, v);
      if blocks[x].a[row, col] != 0 { return false; }
      var conflict := OwnConflict(x, u, v, d);
      if conflict { return false; }
      conflict := RowConflict(x, u, v, row, d);
      if conflict { return false; }
      conflict := ColConflict(x, u, v, col, d);
      return !conflict;
    }

    method Write(x: int, ghost u: int, ghost v: int, row: int, col: int, d: int)
      requires Valid() && Place4(u, v, row, col) && x == 3 * u + v
      modifies `now, Currents()
      ensures Valid() && Contents(solution) == old(Contents(solution))
      ensures var i, j, b := 3 * u + row, 3 * v + col, old(now); now == b[i := b[i][j := d]]
    {
      ghost var i, j := 3 * u + row, 3 * v + col;
      ghost var b := now;
      blocks[x].b[row, col] := d;
      now := b[i := b[i][j := d]];
      forall u2, v2 | 0 <= u2 < 3 && 0 <= v2 < 3 ensures BlockOf(u2, v2).Holds(given, now, u2, v2) {
        assert u2 != u || v2 != v ==> 3 * u2 + v2 != x;
        forall r, c | 0 <= r < 3 && 0 <= c < 3 ensures
          BlockOf(u2, v2).a[r, c] == At(given, u2, v2, r, c) && BlockOf(u2, v2).b[r, c] == At(now, u2, v2, r, c)
        {
          WrittenCell(b, u, v, row, col, d, u2, v2, r, c);
        }
      }
    }

    /** `handle_p_command` of block x: the digit is written if that is legal. */
    method TryPlace(x: int, ghost u: int, ghost v: int, row: int, col: int, d: int)
      requires Valid() && Place4(u, v, row, col) && x == 3 * u + v
      modifies `now, Currents()
      ensures Valid() && Contents(solution) == old(Contents(solution))
      ensures var i, j, b := 3 * u + row, 3 * v + col, old(now);
        OnBoard(i, j) && now == if Legal(old(Snapshot()), i, j, d) then b[i := b[i][j := d]] else b
    {
      ThreeChecksAreEnough(Snapshot(), u, v, row, col, d);
      var ok := MayPlace(x, u, v, row, col, d);
      if ok { Write(x, u, v, row, col, d); }
    }

    /** The `p` command: a legal digit is written into its cell, and nothing else changes. */
    method Place(x: int, cell: int, d: int)
      requires Valid()
      modifies `now, Currents()
      ensures var i, j, b := RowOf(x, cell), ColumnOf(x, cell), old(now);
        if started && 0 <= x < 9 && 0 <= cell < 9 && 1 <= d <= 9 && Legal(old(Snapshot()), i, j, d)
        then Square(now) && forall k, l | OnBoard(k, l) :: now[k][l] == if k == i && l == j then d else b[k][l]
        else now == b
      ensures Valid() && Snapshot() == Do(old(Snapshot()), Put(x, cell, d))
    {
      if !started { return; }
      if x < 0 || x >= 9 || cell < 0 || cell >= 9 || d < 1 || d > 9 { return; }
      CellAddress(x, cell);
      TryPlace(x, x / 3, x % 3, cell / 3, cell % 3, d);
    }

    constructor ()
      ensures Valid() && !started
      ensures fresh(puzzle) && fresh(solution) && fresh(Originals()) && fresh(Currents())
    {
      started := false;
      puzzle := new int[9, 9]((i, j) => 0);
      solution := new int[9, 9]((i, j) => 0);
      var made := MakeBlocks(9);
      blocks := made;
      given, now := EmptyBoard(), EmptyBoard();
    }
  }

  ghost function EmptyBoard(): (b: Board)
    ensures Square(b) && forall i, j | OnBoard(i, j) :: b[i][j] == 0
  {
    seq(9, i => seq(9, j => 0))
  }
}
