/** LA10's free-frame list: which page is given up, and which free frame is taken for it. */
module ReplacementChoice {
  import opened PageTables
  import opened Sequences

  const SPAN: nat := 0x4000
  const MIN_FREE: nat := 1000
  const FULL: int := 0xFFFF
  const NOBODY: int := -1

  datatype FrameEntry = FrameEntry(frameNo: int, lastOwner: int, pgNo: int)
  datatype PageEntry = PageEntry(entry: int, history: int)

  // ----- The victim -----

  predicate Candidate(t: seq<PageEntry>, i: int) {
    ESSENTIAL_PAGES <= i < |t| && IsValid(t[i].entry) && t[i].history < FULL
  }

  /** The scan of lines 91-100 over the pages below `n`. */
  function Victim(t: seq<PageEntry>, n: nat): (v: int)
    requires ESSENTIAL_PAGES <= n <= |t|
    ensures v == -1 || Candidate(t, v)
    ensures v < n
  {
    if n == ESSENTIAL_PAGES then -1
    else
      var v := Victim(t, n - 1);
      if IsValid(t[n - 1].entry) && t[n - 1].history < (if v == -1 then FULL else t[v].history) then n - 1 else v
  }

  /** The victim has the least history, and the least number among those that do; there is none
      only if there is no candidate. */
  lemma {:induction false} VictimIsLeast(t: seq<PageEntry>, n: nat, j: int)
    requires ESSENTIAL_PAGES <= n <= |t| && Candidate(t, j) && j < n
    ensures var v := Victim(t, n);
      v != -1 && (t[v].history < t[j].history || (t[v].history == t[j].history && v <= j))
  {
    if n - 1 != j { VictimIsLeast(t, n - 1, j); }
    if Victim(t, n - 1) != -1 && n - 1 == j {
      assert Candidate(t, Victim(t, n - 1));
    }
  }

  // ----- The free frame -----

  /** What each of the first three attempts looks for. */
  predicate Fits(e: FrameEntry, attempt: nat, pid: int, page: int) {
    if attempt == 1 then e.lastOwner == pid && e.pgNo == page
    else if attempt == 2 then e.lastOwner == NOBODY
    else e.lastOwner == pid
  }

  function LastFit(ff: seq<FrameEntry>, attempt: nat, pid: int, page: int): (r: int)
    ensures -1 <= r < |ff|
    ensures r >= 0 ==> Fits(ff[r], attempt, pid, page)
    ensures forall i | r < i < |ff| :: !Fits(ff[i], attempt, pid, page)
  {
    if ff == [] then -1
    else if Fits(ff[|ff| - 1], attempt, pid, page) then |ff| - 1
    else LastFit(ff[..|ff| - 1], attempt, pid, page)
  }

  datatype Choice = Choice(index: int, attempt: nat)

  /** Lines 111-162; `draw` is the number `rand` returns. */
  function Choose(ff: seq<FrameEntry>, pid: int, page: int, draw: nat): Choice
    requires ff != []
  {
    if LastFit(ff, 1, pid, page) != -1 then Choice(LastFit(ff, 1, pid, page), 1)
    else if LastFit(ff, 2, pid, page) != -1 then Choice(LastFit(ff, 2, pid, page), 2)
    else if LastFit(ff, 3, pid, page) != -1 then Choice(LastFit(ff, 3, pid, page), 3)
    else Choice(draw % |ff|, 4)
  }

  /** The frame chosen is of the best class there is, and the last of its class in the list; of
      the fourth class it is the one that is drawn. */
  lemma ChoiceIsBest(ff: seq<FrameEntry>, pid: int, page: int, draw: nat)
    requires ff != []
    ensures var c := Choose(ff, pid, page, draw);
      && 0 <= c.index < |ff| && 1 <= c.attempt <= 4
      && (forall i, a | 0 <= i < |ff| && 1 <= a < c.attempt :: !Fits(ff[i], a, pid, page))
      && (c.attempt < 4 ==> Fits(ff[c.index], c.attempt, pid, page))
      && (c.attempt < 4 ==> forall i | c.index < i < |ff| :: !Fits(ff[i], c.attempt, pid, page))
      && (c.attempt == 4 ==> c.index == draw % |ff|)
  {
    var c := Choose(ff, pid, page, draw);
    forall i, a | 0 <= i < |ff| && 1 <= a < c.attempt ensures !Fits(ff[i], a, pid, page) {
      assert LastFit(ff, a, pid, page) == -1;
    }
  }

  /** The same with the three classes written out: an entry of this very page, one of nobody, one
      of this process; and without any of them the entry that is drawn. */
  lemma ChoiceByOwner(ff: seq<FrameEntry>, pid: int, page: int, draw: nat)
    requires ff != []
    ensures var same := exists i :: 0 <= i < |ff| && ff[i].lastOwner == pid && ff[i].pgNo == page;
      var free := exists i :: 0 <= i < |ff| && ff[i].lastOwner == -1;
      var own := exists i :: 0 <= i < |ff| && ff[i].lastOwner == pid;
      var c := Choose(ff, pid, page, draw);
      && (c.attempt == 1 <==> same) && (c.attempt == 2 <==> !same && free)
      && (c.attempt == 3 <==> !same && !free && own) && (c.attempt == 4 <==> !same && !free && !own)
      && 0 <= c.index < |ff|
      && (c.attempt == 1 ==> ff[c.index].lastOwner == pid && ff[c.index].pgNo == page)
      && (c.attempt == 2 ==> ff[c.index].lastOwner == -1)
      && (c.attempt == 3 ==> ff[c.index].lastOwner == pid)
      && (c.attempt == 4 ==> c.index == draw % |ff|)
  {
    ChoiceIsBest(ff, pid, page, draw);
    var c := Choose(ff, pid, page, draw);
    forall i | 0 <= i < |ff|
      ensures c.attempt > 1 ==> !(ff[i].lastOwner == pid && ff[i].pgNo == page)
      ensures c.attempt > 2 ==> ff[i].lastOwner != -1
      ensures c.attempt > 3 ==> ff[i].lastOwner != pid
    {
      assert c.attempt > 1 ==> !Fits(ff[i], 1, pid, page);
      assert c.attempt > 2 ==> !Fits(ff[i], 2, pid, page);
      assert c.attempt > 3 ==> !Fits(ff[i], 3, pid, page);
    }
  }

  // ----- A frame for a page -----

  /** `attempt` is 0 when the list is long enough to take its first frame. */
  datatype Got = NoVictim | Got(table: seq<PageEntry>, ff: seq<FrameEntry>, frame: int, attempt: nat)

  /** `get_frame`. */
  function GetFrame(t: seq<PageEntry>, ff: seq<FrameEntry>, pid: int, page: int, draw: nat): Got
    requires |t| == TABLE_SIZE && ff != []
  {
    if |ff| > MIN_FREE then Got(t, ff[1..], ff[0].frameNo, 0)
    else
      var v := Victim(t, TABLE_SIZE);
      if v == -1 then NoVictim
      else
        ChoiceIsBest(ff, pid, page, draw);
        var c := Choose(ff, pid, page, draw);
        Got(t[v := t[v].(entry := t[v].entry - VALID)],
            Without(ff, c.index) + [FrameEntry(FrameOf(t[v].entry, SPAN), pid, v)],
            ff[c.index].frameNo, c.attempt)
  }

  /** No frame is to be had exactly when the list is down to its minimum and no resident page but
      the essential ones has a clear bit in its history.  A search from before a page was loaded
      counts as one that used it. */
  lemma NoFrameExactlyWhen(t: seq<PageEntry>, ff: seq<FrameEntry>, pid: int, page: int, draw: nat)
    requires |t| == TABLE_SIZE && ff != []
    ensures GetFrame(t, ff, pid, page, draw) == NoVictim <==>
      |ff| <= MIN_FREE && forall i | ESSENTIAL_PAGES <= i < TABLE_SIZE :: !Candidate(t, i)
  {
    if v :| Candidate(t, v) { VictimIsLeast(t, TABLE_SIZE, v); }
  }

  /** The list shrinks only while it is above its minimum. */
  lemma ListStaysLong(t: seq<PageEntry>, ff: seq<FrameEntry>, pid: int, page: int, draw: nat)
    requires |t| == TABLE_SIZE && |ff| >= MIN_FREE && GetFrame(t, ff, pid, page, draw).Got?
    ensures var g := GetFrame(t, ff, pid, page, draw);
      |g.table| == TABLE_SIZE && |g.ff| == if |ff| == MIN_FREE then MIN_FREE else |ff| - 1
  {
  }
}
