/** One binary search of LA9 on a page table and the free-frame queue, as a function, and
    where the frames are afterwards. */
module DemandPagingSpec {
  import opened PageTables
  import opened BinarySearch

  const SPAN: nat := 0x8000

  /** `frame | (1 << 15)`. */
  function Packed(frame: int): int {
    frame + VALID
  }

  /** `found` is false when a page was missing and no frame was free. */
  datatype Walked = Walked(table: seq<int>, free: seq<int>, accesses: nat, faults: nat, found: bool)

  /** Lines 77-118, the swap-out of lines 95-112 excepted: probe after probe until the search
      is over or memory is. */
  function Walk(t: seq<int>, free: seq<int>, pages: seq<nat>): (w: Walked)
    requires PagesBelow(pages, |t|)
    ensures |w.table| == |t|
    decreases |pages|
  {
    if pages == [] then Walked(t, free, 0, 0, true)
    else if IsValid(t[pages[0]]) then
      var w := Walk(t, free, pages[1..]);
      w.(accesses := w.accesses + 1)
    else if free != [] then
      var w := Walk(t[pages[0] := Packed(free[0])], free[1..], pages[1..]);
      w.(accesses := w.accesses + 1, faults := w.faults + 1)
    else Walked(t, free, 1, 1, false)
  }

  /** The whole of `BS` on a table that covers `s` elements. */
  ghost function SearchIn(t: seq<int>, free: seq<int>, s: int, idx: int): (w: Walked)
    requires |t| == TABLE_SIZE && TableCovers(s)
    ensures |w.table| == |t|
  {
    ProbesInRange(0, s - 1, idx, s);
    Walk(t, free, Probes(0, s - 1, idx))
  }

  ghost predicate GoodFrames(frames: seq<int>) {
    forall i | 0 <= i < |frames| :: 0 <= frames[i] < SPAN
  }

  /** Entries are 16 bits wide and zero unless valid. */
  ghost predicate GoodTable(t: seq<int>) {
    |t| == TABLE_SIZE && forall i | 0 <= i < |t| :: 0 <= t[i] < 0x10000 && (IsValid(t[i]) || t[i] == 0)
  }

  lemma LoadedFrames(t: seq<int>, page: nat, frame: int)
    requires page < |t| && !IsValid(t[page]) && 0 <= frame < SPAN
    ensures TableFrames(t[page := Packed(frame)], SPAN) == TableFrames(t, SPAN) + multiset{frame}
  {
    FramesUpdate(t, page, Packed(frame), SPAN);
    assert EntryFrames(t[page], SPAN) == multiset{};
    assert EntryFrames(Packed(frame), SPAN) == multiset{frame};
    var before, after := TableFrames(t, SPAN), TableFrames(t[page := Packed(frame)], SPAN);
    assert after == after + multiset{};
  }

  lemma TakeFrame(t: seq<int>, free: seq<int>, page: nat)
    requires GoodTable(t) && GoodFrames(free) && free != [] && page < |t| && !IsValid(t[page])
    ensures var u := t[page := Packed(free[0])];
            && GoodTable(u) && GoodFrames(free[1..]) && IsValid(u[page])
            && multiset(free[1..]) + TableFrames(u, SPAN) == multiset(free) + TableFrames(t, SPAN)
            && |TableFrames(u, SPAN)| == |TableFrames(t, SPAN)| + 1
  {
    LoadedFrames(t, page, free[0]);
    HeadAndRest(free);
    var held := TableFrames(t, SPAN);
    assert multiset(free[1..]) + (held + multiset{free[0]}) == (multiset{free[0]} + multiset(free[1..])) + held;
  }

  lemma HeadAndRest(free: seq<int>)
    requires free != []
    ensures multiset(free) == multiset{free[0]} + multiset(free[1..])
  {
    assert free == [free[0]] + free[1..];
  }

  /** A search moves frames from the queue into the table and loses none; if it fails, the
      queue is empty and some page of the table is not there. */
  lemma {:induction false} WalkKeepsFrames(t: seq<int>, free: seq<int>, pages: seq<nat>)
    requires GoodTable(t) && GoodFrames(free) && PagesBelow(pages, TABLE_SIZE)
    ensures var w := Walk(t, free, pages);
      && GoodTable(w.table) && GoodFrames(w.free)
      && multiset(w.free) + TableFrames(w.table, SPAN) == multiset(free) + TableFrames(t, SPAN)
      && (!w.found ==> w.free == [] && exists i :: 0 <= i < |w.table| && !IsValid(w.table[i]))
    decreases |pages|
  {
    if pages != [] {
      if IsValid(t[pages[0]]) {
        WalkKeepsFrames(t, free, pages[1..]);
      } else if free != [] {
        TakeFrame(t, free, pages[0]);
        WalkKeepsFrames(t[pages[0] := Packed(free[0])], free[1..], pages[1..]);
      }
    }
  }

  /** A search evicts nothing. */
  lemma {:induction false} WalkKeepsPages(t: seq<int>, free: seq<int>, pages: seq<nat>, i: nat)
    requires GoodTable(t) && GoodFrames(free) && PagesBelow(pages, TABLE_SIZE)
    requires i < |t| && IsValid(t[i])
    ensures Walk(t, free, pages).table[i] == t[i]
    decreases |pages|
  {
    if pages != [] {
      if IsValid(t[pages[0]]) {
        WalkKeepsPages(t, free, pages[1..], i);
      } else if free != [] {
        TakeFrame(t, free, pages[0]);
        WalkKeepsPages(t[pages[0] := Packed(free[0])], free[1..], pages[1..], i);
      }
    }
  }

  lemma FoundStep(t: seq<int>, free: seq<int>, pages: seq<nat>)
    requires GoodTable(t) && GoodFrames(free) && PagesBelow(pages, TABLE_SIZE) && pages != []
    requires Walk(t, free, pages).found
    ensures IsValid(t[pages[0]]) || free != []
    ensures var u := if IsValid(t[pages[0]]) then t else t[pages[0] := Packed(free[0])];
            var rest := if IsValid(t[pages[0]]) then free else free[1..];
            && GoodTable(u) && GoodFrames(rest) && IsValid(u[pages[0]])
            && Walk(u, rest, pages[1..]).found
            && Walk(t, free, pages).table == Walk(u, rest, pages[1..]).table
  {
    if !IsValid(t[pages[0]]) { TakeFrame(t, free, pages[0]); }
  }

  /** A successful search leaves every page it probed in memory. */
  lemma {:induction false} WalkLoadsPages(t: seq<int>, free: seq<int>, pages: seq<nat>, k: nat)
    requires GoodTable(t) && GoodFrames(free) && PagesBelow(pages, TABLE_SIZE) && k < |pages|
    requires Walk(t, free, pages).found
    ensures IsValid(Walk(t, free, pages).table[pages[k]])
    decreases |pages|
  {
    FoundStep(t, free, pages);
    var u := if IsValid(t[pages[0]]) then t else t[pages[0] := Packed(free[0])];
    var rest := if IsValid(t[pages[0]]) then free else free[1..];
    if k == 0 {
      WalkKeepsPages(u, rest, pages[1..], pages[0]);
    } else {
      assert pages[k] == pages[1..][k - 1];
      WalkLoadsPages(u, rest, pages[1..], k - 1);
    }
  }

  /** Every fault but the one that fails brings in one page. */
  lemma {:induction false} WalkFaultsAreLoads(t: seq<int>, free: seq<int>, pages: seq<nat>)
    requires GoodTable(t) && GoodFrames(free) && PagesBelow(pages, TABLE_SIZE)
    ensures var w := Walk(t, free, pages);
      && w.faults <= w.accesses <= |pages| && (w.found ==> w.accesses == |pages|)
      && |TableFrames(w.table, SPAN)| == |TableFrames(t, SPAN)| + w.faults - if w.found then 0 else 1
    decreases |pages|
  {
    if pages != [] {
      if IsValid(t[pages[0]]) {
        WalkFaultsAreLoads(t, free, pages[1..]);
      } else if free != [] {
        TakeFrame(t, free, pages[0]);
        WalkFaultsAreLoads(t[pages[0] := Packed(free[0])], free[1..], pages[1..]);
      }
    }
  }

  // ----- Which frames are taken -----

  /** The probed pages that are not in memory, each once, in the order in which they are met. */
  ghost function Missing(t: seq<int>, pages: seq<nat>): (m: seq<nat>)
    requires PagesBelow(pages, |t|)
    ensures PagesBelow(m, |t|)
    decreases |pages|
  {
    if pages == [] then []
    else if IsValid(t[pages[0]]) then Missing(t, pages[1..])
    else [pages[0]] + Missing(t[pages[0] := VALID], pages[1..])
  }

  lemma {:induction false} SameMissing(t: seq<int>, u: seq<int>, pages: seq<nat>)
    requires |t| == |u| && PagesBelow(pages, |t|)
    requires forall i | 0 <= i < |t| :: IsValid(t[i]) <==> IsValid(u[i])
    ensures Missing(t, pages) == Missing(u, pages)
    decreases |pages|
  {
    if pages != [] {
      if IsValid(t[pages[0]]) {
        SameMissing(t, u, pages[1..]);
      } else {
        SameMissing(t[pages[0] := VALID], u[pages[0] := VALID], pages[1..]);
      }
    }
  }

  lemma FirstLoad(t: seq<int>, free: seq<int>, pages: seq<nat>)
    requires GoodTable(t) && GoodFrames(free) && PagesBelow(pages, TABLE_SIZE)
    requires pages != [] && !IsValid(t[pages[0]]) && free != []
    ensures var u := t[pages[0] := Packed(free[0])];
      && GoodTable(u) && GoodFrames(free[1..]) && PagesBelow(pages[1..], TABLE_SIZE)
      && Missing(t, pages) == [pages[0]] + Missing(u, pages[1..])
      && Walk(u, free[1..], pages[1..]).table[pages[0]] == Packed(free[0])
  {
    var u := t[pages[0] := Packed(free[0])];
    TakeFrame(t, free, pages[0]);
    SameMissing(t[pages[0] := VALID], u, pages[1..]);
    WalkKeepsPages(u, free[1..], pages[1..], pages[0]);
  }

  /** A search succeeds exactly if there is a free frame for every missing page it probes.  The
      frames are taken from the head of the queue and go to the missing pages as they are met. */
  lemma {:induction false} WalkTakesInOrder(t: seq<int>, free: seq<int>, pages: seq<nat>)
    requires GoodTable(t) && GoodFrames(free) && PagesBelow(pages, TABLE_SIZE)
    ensures var w, m := Walk(t, free, pages), Missing(t, pages);
      var k := if w.found then |m| else |free|;
      && (w.found <==> |m| <= |free|)
      && w.free == free[k..] && w.faults == k + (if w.found then 0 else 1)
      && forall i | 0 <= i < k :: w.table[m[i]] == Packed(free[i])
    decreases |pages|
  {
    if pages != [] {
      if IsValid(t[pages[0]]) {
        WalkTakesInOrder(t, free, pages[1..]);
      } else if free != [] {
        FirstLoad(t, free, pages);
        WalkTakesInOrder(t[pages[0] := Packed(free[0])], free[1..], pages[1..]);
      }
    }
  }

  /** The pages that the search of `SearchIn` has to load. */
  ghost function MissingIn(t: seq<int>, s: int, idx: int): (m: seq<nat>)
    requires |t| == TABLE_SIZE && TableCovers(s)
    ensures PagesBelow(m, |t|)
  {
    ProbesInRange(0, s - 1, idx, s);
    Missing(t, Probes(0, s - 1, idx))
  }

  lemma WalkCountsExactly(t: seq<int>, free: seq<int>, pages: seq<nat>)
    requires GoodTable(t) && GoodFrames(free) && PagesBelow(pages, TABLE_SIZE)
    ensures var w, m := Walk(t, free, pages), |Missing(t, pages)|;
      if m <= |free| then w.found && w.accesses == |pages| && w.faults == m
      else !w.found && w.accesses <= |pages| && w.faults == |free| + 1
  {
    WalkTakesInOrder(t, free, pages);
    WalkFaultsAreLoads(t, free, pages);
  }

  lemma SearchInCountsExactly(t: seq<int>, free: seq<int>, s: int, idx: int)
    requires GoodTable(t) && GoodFrames(free) && TableCovers(s)
    ensures var w, m, probes := SearchIn(t, free, s, idx), |MissingIn(t, s, idx)|, |Probes(0, s - 1, idx)|;
      if m <= |free| then w.found && w.accesses == probes && w.faults == m
      else !w.found && w.accesses <= probes && w.faults == |free| + 1
  {
    ProbesInRange(0, s - 1, idx, s);
    WalkCountsExactly(t, free, Probes(0, s - 1, idx));
  }

  // ----- Swapping out -----

  function Emptied(t: seq<int>): (u: seq<int>)
    ensures |u| == |t| && forall i | 0 <= i < |u| :: u[i] == if IsValid(t[i]) then 0 else t[i]
  {
    seq(|t|, i requires 0 <= i < |t| => if IsValid(t[i]) then 0 else t[i])
  }

  lemma EmptiedHoldsNothing(t: seq<int>)
    requires GoodTable(t)
    ensures GoodTable(Emptied(t)) && TableFrames(Emptied(t), SPAN) == multiset{}
    ensures multiset(HeldFrames(t, SPAN)) == TableFrames(t, SPAN)
  {
    NoFrames(Emptied(t), SPAN);
    FramesInOrder(t, SPAN);
  }

  lemma {:induction false} HeldFramesAreGood(t: seq<int>)
    ensures GoodFrames(HeldFrames(t, SPAN))
  {
    if t != [] {
      HeldFramesAreGood(t[1..]);
    }
  }

  /** When every frame is taken and one process with a missing page holds `mine` of them,
      at least six others must hold the rest. */
  lemma SwapLeavesSix(mine: nat, others: nat, count: nat)
    requires mine + others >= USABLE_FRAMES
    requires mine < TABLE_SIZE && others <= count * TABLE_SIZE
    ensures count >= 6
  {
  }
}
