/** LA4: which boards the random draws of `newboard` lead to. */
module BoardDraws {
  import opened Sequences
  import opened Foodoku

  /** What `rand` yields, reduced to its range: for each exchange of digits, for each exchange of
      rows and of columns, and for the last choice. */
  datatype Draws = Draws(digits: seq<nat>, rows: seq<(nat, nat)>, cols: seq<(nat, nat)>, straight: bool)

  /** `rand() % (i + 1)`, with i the number of draws, and so on down to `rand() % 2`. */
  predicate DigitDraws(draws: seq<nat>) {
    |draws| <= 8 && forall k | 0 <= k < |draws| :: draws[k] <= |draws| - k
  }

  predicate LineDraws(draws: seq<(nat, nat)>) {
    |draws| == 3 && forall k | 0 <= k < 3 :: draws[k].0 < 3 && draws[k].1 < 3
  }

  predicate InRange(d: Draws) {
    |d.digits| == 8 && DigitDraws(d.digits) && LineDraws(d.rows) && LineDraws(d.cols)
  }

  /** The elements `x` and `y` exchanged. */
  function Exchanged(r: seq<int>, x: nat, y: nat): seq<int>
    requires x < |r| && y < |r|
  {
    r[x := r[y]][y := r[x]]
  }

  // ----- Digits -----

  const NAMES: seq<int> := [0, 1, 2, 3, 4, 5, 6, 7, 8, 9]

  /** Lines 28-31, from i = |draws| down; `P` is one element longer than `Q`. */
  function Renamed(p: seq<int>, draws: seq<nat>): (r: seq<int>)
    requires |p| == 10 && DigitDraws(draws)
    ensures |r| == 10
    decreases |draws|
  {
    if draws == [] then p else Renamed(Exchanged(p, 1 + |draws|, 1 + draws[0]), draws[1..])
  }

  lemma {:induction false} RenamedIsRenaming(p: seq<int>, draws: seq<nat>)
    requires Digits(p) && DigitDraws(draws)
    ensures Digits(Renamed(p, draws)) && Renamed(p, draws)[|draws| + 2..] == p[|draws| + 2..]
    decreases |draws|
  {
    if draws != [] {
      var q := Exchanged(p, 1 + |draws|, 1 + draws[0]);
      RenamedIsRenaming(q, draws[1..]);
      assert Renamed(p, draws)[|draws| + 2..] == q[|draws| + 1..][1..];
    }
  }

  /** The first exchange settles the last place. */
  lemma LastIsSettled(p: seq<int>, draws: seq<nat>)
    requires Digits(p) && DigitDraws(draws) && draws != []
    ensures Renamed(p, draws)[1 + |draws|] == p[1 + draws[0]]
  {
    var q := Exchanged(p, 1 + |draws|, 1 + draws[0]);
    RenamedIsRenaming(q, draws[1..]);
    assert Renamed(p, draws)[1 + |draws|..][0] == q[1 + |draws|..][0];
  }

  /** A renaming uses every digit. */
  lemma EveryDigitIsUsed(p: seq<int>, d: int) returns (k: nat)
    requires Digits(p) && 1 <= d <= 9
    ensures 1 <= k <= 9 && p[k] == d
  {
    if j :| 1 <= j <= 9 && p[j] == d {
      k := j;
    } else {
      var all: seq<nat> := [d - 1] + seq(9, j requires 0 <= j < 9 => p[j + 1] - 1);
      DistinctBound(all, 9);
      assert false;
    }
  }

  /** The digit that has to come into the last place not settled is still before it. */
  lemma LastDigit(p: seq<int>, target: seq<int>, i: nat) returns (k: nat)
    requires Digits(p) && Digits(target) && i <= 8 && p[i + 2..] == target[i + 2..]
    ensures 1 <= k <= 1 + i && p[k] == target[1 + i] && Exchanged(p, 1 + i, k)[i + 1..] == target[i + 1..]
  {
    k := EveryDigitIsUsed(p, target[1 + i]);
    forall j | i + 2 <= j <= 9 ensures p[j] == target[j] {
      assert p[i + 2..][j - i - 2] == target[i + 2..][j - i - 2];
    }
  }

  lemma AllSettled(p: seq<int>, target: seq<int>)
    requires Digits(p) && Digits(target) && p[2..] == target[2..]
    ensures p == target
  {
    var k := LastDigit(p, target, 0);
    assert p == p[..2] + p[2..] && target == target[..2] + target[2..];
  }

  lemma OneMoreDraw(p: seq<int>, k: nat, rest: seq<nat>) returns (draws: seq<nat>)
    requires |p| == 10 && DigitDraws(rest) && |rest| < 8 && 1 <= k <= |rest| + 2
    ensures |draws| == |rest| + 1 && DigitDraws(draws)
    ensures Renamed(p, draws) == Renamed(Exchanged(p, |rest| + 2, k), rest)
  {
    draws := [k - 1] + rest;
    assert draws[1..] == rest;
  }

  /** Every renaming can come out ... */
  lemma {:induction false} SomeDraws(p: seq<int>, target: seq<int>, i: nat) returns (draws: seq<nat>)
    requires Digits(p) && Digits(target) && i <= 8 && p[i + 2..] == target[i + 2..]
    ensures |draws| == i && DigitDraws(draws) && Renamed(p, draws) == target
    decreases i
  {
    if i == 0 {
      AllSettled(p, target);
      draws := [];
    } else {
      var k := LastDigit(p, target, i);
      var rest := SomeDraws(Exchanged(p, 1 + i, k), target, i - 1);
      draws := OneMoreDraw(p, k, rest);
    }
  }

  /** ... and of one sequence of draws only. */
  lemma {:induction false} SameDraws(p: seq<int>, d: seq<nat>, e: seq<nat>)
    requires Digits(p) && DigitDraws(d) && DigitDraws(e) && |d| == |e| && Renamed(p, d) == Renamed(p, e)
    ensures d == e
    decreases |d|
  {
    if d != [] {
      LastIsSettled(p, d);
      LastIsSettled(p, e);
      assert d[0] == e[0];
      SameDraws(Exchanged(p, 1 + |d|, 1 + d[0]), d[1..], e[1..]);
      assert d == [d[0]] + d[1..] && e == [e[0]] + e[1..];
    }
  }

  /** `names` is what the draws make of the digits in their order. */
  ghost predicate Names(draws: seq<nat>, names: seq<int>) {
    |draws| == 8 && DigitDraws(draws) && Renamed(NAMES, draws) == names
  }

  /** Each of the renamings comes out of exactly one sequence of draws, so none is favoured. */
  lemma EveryRenamingOnce(names: seq<int>)
    requires Digits(names)
    ensures exists d :: Names(d, names) && forall e | Names(e, names) :: e == d
  {
    var d := SomeDraws(NAMES, names, 8);
    assert Names(d, names);
    forall e | Names(e, names) ensures e == d { SameDraws(NAMES, d, e); }
  }

  // ----- Rows and columns -----

  function InOrder(): (r: seq<int>)
    ensures |r| == 9 && forall i | 0 <= i < 9 :: r[i] == i
  {
    seq(9, i => i)
  }

  /** One exchange in each of the first `n` bands. */
  function Bands(r: seq<int>, draws: seq<(nat, nat)>, n: nat): (s: seq<int>)
    requires |r| == 9 && n <= 3 && LineDraws(draws)
    ensures |s| == 9
  {
    if n == 0 then r
    else Exchanged(Bands(r, draws, n - 1), 3 * n - 3 + draws[n - 1].0, 3 * n - 3 + draws[n - 1].1)
  }

  lemma NextBand(start: seq<int>, draws: seq<(nat, nat)>, band: nat, x: nat, y: nat)
    requires |start| == 9 && LineDraws(draws) && band < 3
    requires x == 3 * band + draws[band].0 && y == 3 * band + draws[band].1
    ensures x < 9 && y < 9 && x / 3 == y / 3 == band
    ensures Bands(start, draws, band + 1) == Exchanged(Bands(start, draws, band), x, y)
  {
  }

  /** Where line `i` of the result comes from. */
  function Origin(draws: seq<(nat, nat)>, i: int): (o: int)
    requires LineDraws(draws) && 0 <= i < 9
    ensures 0 <= o < 9 && o / 3 == i / 3
  {
    var k := 3 * (i / 3);
    var (s, t) := draws[i / 3];
    if i == k + s then k + t else if i == k + t then k + s else i
  }

  lemma {:induction false} BandsAt(draws: seq<(nat, nat)>, n: nat, i: int)
    requires LineDraws(draws) && n <= 3 && 0 <= i < 9
    ensures Bands(InOrder(), draws, n)[i] == if i < 3 * n then Origin(draws, i) else i
  {
    if n > 0 {
      var x, y := 3 * n - 3 + draws[n - 1].0, 3 * n - 3 + draws[n - 1].1;
      NextBand(InOrder(), draws, n - 1, x, y);
      BandsAt(draws, n - 1, if i == x then y else if i == y then x else i);
      if 3 * n - 3 <= i < 3 * n { assert i / 3 == n - 1; }
    }
  }

  /** Every band keeps its lines, one of them in its place. */
  ghost predicate OneExchange(r: seq<int>) {
    && Lines(r)
    && (r[0] == 0 || r[1] == 1 || r[2] == 2)
    && (r[3] == 3 || r[4] == 4 || r[5] == 5)
    && (r[6] == 6 || r[7] == 7 || r[8] == 8)
  }

  lemma OriginsDiffer(draws: seq<(nat, nat)>, i: int, k: int)
    requires LineDraws(draws) && 0 <= i < k < 9
    ensures Origin(draws, i) != Origin(draws, k)
  {
  }

  lemma BandsAreExchanges(draws: seq<(nat, nat)>)
    requires LineDraws(draws)
    ensures OneExchange(Bands(InOrder(), draws, 3))
  {
    var r := Bands(InOrder(), draws, 3);
    forall i | 0 <= i < 9 ensures r[i] == Origin(draws, i) { BandsAt(draws, 3, i); }
    forall i, k | 0 <= i < k < 9 ensures r[i] != r[k] { OriginsDiffer(draws, i, k); }
  }

  /** The draw that makes of the band of lines k, k + 1 and k + 2 what it is in `r`. */
  function DrawOf(r: seq<int>, k: nat): (d: (nat, nat))
    requires Lines(r) && k in {0, 3, 6}
    ensures d.0 < 3 && d.1 < 3
  {
    var j := if r[k] == k && r[k + 1] != k + 1 then 1 else 0;
    (j, r[k + j] - k)
  }

  lemma DrawnBand(r: seq<int>, draws: seq<(nat, nat)>, k: nat, i: int)
    requires OneExchange(r) && LineDraws(draws) && k in {0, 3, 6} && k <= i < k + 3 && draws[k / 3] == DrawOf(r, k)
    ensures Origin(draws, i) == r[i]
  {
    assert i / 3 == k / 3;
    assert r[k] != r[k + 1] && r[k + 1] != r[k + 2] && r[k] != r[k + 2];
  }

  lemma SomeLineDraws(r: seq<int>) returns (draws: seq<(nat, nat)>)
    requires OneExchange(r)
    ensures LineDraws(draws) && Bands(InOrder(), draws, 3) == r
  {
    draws := [DrawOf(r, 0), DrawOf(r, 3), DrawOf(r, 6)];
    var s := Bands(InOrder(), draws, 3);
    forall i | 0 <= i < 9 ensures s[i] == r[i] {
      BandsAt(draws, 3, i);
      DrawnBand(r, draws, if i < 3 then 0 else if i < 6 then 3 else 6, i);
    }
  }

  /** The orders that can come out are exactly those: in no band can all three lines move. */
  lemma LineOrdersAreExactly(r: seq<int>)
    ensures (exists draws :: LineDraws(draws) && Bands(InOrder(), draws, 3) == r) <==> OneExchange(r)
  {
    if draws :| LineDraws(draws) && Bands(InOrder(), draws, 3) == r { BandsAreExchanges(draws); }
    if OneExchange(r) { var draws := SomeLineDraws(r); }
  }

  // ----- Boards -----

  ghost function NamesOf(d: Draws): (p: seq<int>)
    requires InRange(d)
    ensures Digits(p)
  {
    RenamedIsRenaming(NAMES, d.digits);
    Renamed(NAMES, d.digits)
  }

  ghost function OrderOf(draws: seq<(nat, nat)>): (r: seq<int>)
    requires LineDraws(draws)
    ensures OneExchange(r)
  {
    BandsAreExchanges(draws);
    Bands(InOrder(), draws, |draws|)
  }

  /** What the draws make of the board `b`. */
  ghost function Drawn(b: Board, d: Draws): Board
    requires Square(b) && Entries(b, 0) && InRange(d)
  {
    Shuffled(b, NamesOf(d), OrderOf(d.rows), OrderOf(d.cols), !d.straight)
  }

  ghost predicate Reachable(b: Board, s: Board, p: seq<int>, rows: seq<int>, cols: seq<int>, flip: bool)
    requires Square(b) && Entries(b, 0)
  {
    Digits(p) && OneExchange(rows) && OneExchange(cols) && s == Shuffled(b, p, rows, cols, flip)
  }

  /** A board can come out exactly if it is `b` with its digits renamed in any way, and in each band
      of rows and of columns at most two lines exchanged, and then perhaps flipped. */
  lemma BoardsAreExactly(b: Board, s: Board)
    requires Square(b) && Entries(b, 0)
    ensures (exists d :: InRange(d) && s == Drawn(b, d))
       <==> (exists p, rows, cols, flip :: Reachable(b, s, p, rows, cols, flip))
  {
    if d :| InRange(d) && s == Drawn(b, d) {
      assert Reachable(b, s, NamesOf(d), OrderOf(d.rows), OrderOf(d.cols), !d.straight);
    }
    if p, rows, cols, flip :| Reachable(b, s, p, rows, cols, flip) {
      var d := SomeBoardDraws(b, p, rows, cols, flip);
    }
  }

  lemma SomeBoardDraws(b: Board, p: seq<int>, rows: seq<int>, cols: seq<int>, flip: bool) returns (d: Draws)
    requires Square(b) && Entries(b, 0) && Digits(p) && OneExchange(rows) && OneExchange(cols)
    ensures InRange(d) && Drawn(b, d) == Shuffled(b, p, rows, cols, flip)
  {
    var digits := SomeDraws(NAMES, p, 8);
    var r := SomeLineDraws(rows);
    var c := SomeLineDraws(cols);
    d := Draws(digits, r, c, !flip);
  }
}
