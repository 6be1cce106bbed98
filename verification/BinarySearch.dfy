/** The binary search that drives LA9 and LA10: which pages it probes and where it ends. */
module BinarySearch {
  import opened PageTables

  const ELEMENTS_PER_PAGE := 1024

  function Middle(l: int, r: int): (m: int)
    requires 0 <= l < r
    ensures l <= m < r
    ensures 2 * m <= l + r < 2 * m + 2
  {
    (l + r) / 2
  }

  function PageOf(m: int): (page: nat)
    requires m >= 0
    ensures page >= ESSENTIAL_PAGES
    ensures 1024 * (page - 10) <= m < 1024 * (page - 10 + 1)
  {
    ESSENTIAL_PAGES + m / ELEMENTS_PER_PAGE
  }

  /** The page of each probe, in order. */
  function Probes(l: int, r: int, idx: int): (pages: seq<nat>)
    requires 0 <= l
    ensures forall i | 0 <= i < |pages| :: ESSENTIAL_PAGES <= pages[i]
    decreases r - l
  {
    if l >= r then []
    else
      var m := Middle(l, r);
      [PageOf(m)] + if idx <= m then Probes(l, m, idx) else Probes(m + 1, r, idx)
  }

  function EndsAt(l: int, r: int, idx: int): int
    requires 0 <= l
    decreases r - l
  {
    if l >= r then l
    else if idx <= Middle(l, r) then EndsAt(l, Middle(l, r), idx)
    else EndsAt(Middle(l, r) + 1, r, idx)
  }

  lemma {:induction false} SearchFindsIndex(l: int, r: int, idx: int)
    requires 0 <= l <= idx <= r
    ensures EndsAt(l, r, idx) == idx
    decreases r - l
  {
    if l < r {
      if idx <= Middle(l, r) {
        SearchFindsIndex(l, Middle(l, r), idx);
      } else {
        SearchFindsIndex(Middle(l, r) + 1, r, idx);
      }
    }
  }

  /** The least k with 2^k >= n. */
  function Log2Up(n: int): nat {
    if n <= 1 then 0 else 1 + Log2Up((n + 1) / 2)
  }

  function Pow2(k: nat): nat {
    if k == 0 then 1 else 2 * Pow2(k - 1)
  }

  lemma {:induction false} Log2UpIsLeast(n: int, k: nat)
    ensures Log2Up(n) <= k <==> n <= Pow2(k)
    decreases k
  {
    if k > 0 && n > 1 { Log2UpIsLeast((n + 1) / 2, k - 1); } else { PowPositive(k); }
  }

  lemma {:induction false} PowPositive(k: nat)
    ensures Pow2(k) >= 1
  {
    if k > 0 { PowPositive(k - 1); }
  }

  lemma {:induction false} Log2UpMonotone(a: int, b: int)
    requires a <= b
    ensures Log2Up(a) <= Log2Up(b)
    decreases b
  {
    if a > 1 { Log2UpMonotone((a + 1) / 2, (b + 1) / 2); }
  }

  /** A search among s elements takes at most as many probes as s has binary digits to halve. */
  lemma {:induction false} ProbesAreFew(l: int, r: int, idx: int)
    requires 0 <= l
    ensures |Probes(l, r, idx)| <= Log2Up(r - l + 1)
    decreases r - l
  {
    if l < r {
      var m := Middle(l, r);
      if idx <= m {
        ProbesAreFew(l, m, idx);
      } else {
        ProbesAreFew(m + 1, r, idx);
      }
      Log2UpMonotone(if idx <= m then m - l + 1 else r - m, (r - l + 2) / 2);
    }
  }

  predicate PagesBelow(pages: seq<nat>, limit: nat) {
    forall i | 0 <= i < |pages| :: pages[i] < limit
  }

  /** The page table covers every element a search among s elements can look at. */
  predicate TableCovers(s: int) {
    s >= 1 && (s == 1 || PageOf(s - 2) < TABLE_SIZE)
  }

  lemma {:induction false} ProbesInRange(l: int, r: int, idx: int, s: int)
    requires 0 <= l && r < s && TableCovers(s)
    ensures PagesBelow(Probes(l, r, idx), TABLE_SIZE)
    decreases r - l
  {
    if l < r {
      var m := Middle(l, r);
      if idx <= m { ProbesInRange(l, m, idx, s); } else { ProbesInRange(m + 1, r, idx, s); }
    }
  }

  function NextLeft(l: int, r: int, idx: int): int
    requires 0 <= l < r
  {
    if idx <= Middle(l, r) then l else Middle(l, r) + 1
  }

  function NextRight(l: int, r: int, idx: int): int
    requires 0 <= l < r
  {
    if idx <= Middle(l, r) then Middle(l, r) else r
  }

  lemma ProbesHead(l: int, r: int, s: int, idx: int)
    requires 0 <= l < r < s && TableCovers(s)
    ensures 0 <= NextLeft(l, r, idx) && NextRight(l, r, idx) < s
    ensures Probes(l, r, idx) == [PageOf(Middle(l, r))] + Probes(NextLeft(l, r, idx), NextRight(l, r, idx), idx)
    ensures EndsAt(l, r, idx) == EndsAt(NextLeft(l, r, idx), NextRight(l, r, idx), idx)
    ensures PageOf(Middle(l, r)) < TABLE_SIZE && PagesBelow(Probes(l, r, idx), TABLE_SIZE)
  {
    ProbesInRange(l, r, idx, s);
    assert Probes(l, r, idx)[0] == PageOf(Middle(l, r));
  }
}
