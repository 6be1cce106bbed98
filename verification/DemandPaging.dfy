/** LA9's program: the two queues of processes and the queue of free frames. */
module DemandPaging {
  import opened PageTables
  import opened BinarySearch
  import opened DemandPagingSpec
  import opened SwappingSpec
  import opened Processes
  import opened DealingSpec

  lemma SomeTables(ready: seq<Process<int>>, swapped: seq<Process<int>>, all: seq<Process<int>>)
    requires forall p | p in ready + swapped :: p in all
    ensures Tables(ready) <= Tables(all) && forall p | p in ready :: p in all
  {
    assert forall p | p in ready :: p in ready + swapped;
  }

  /** What is left of `Iterate` when job `j`, out of the queues, has done one more search. */
  ghost function Concluded(m: Memory, j: Job<int>): Memory {
    if j.done == |j.searches| then Finish(m, Walked(j.table, m.free, 0, 0, true))
    else m.(ready := m.ready + [j])
  }

  /** The counters of the run. */
  datatype Totals = Totals(accesses: nat, faults: nat, swaps: nat, degree: int, active: int)

  ghost function TotalsOf(m: Memory): Totals {
    Totals(m.accesses, m.faults, m.swaps, m.degree, m.active)
  }

  /** What a search adds to them, with the swap-out if it fails. */
  ghost function Counted(c: Totals, w: Walked): Totals {
    var d := c.(accesses := c.accesses + w.accesses, faults := c.faults + w.faults);
    if w.found then d
    else d.(swaps := c.swaps + 1, active := c.active - 1,
            degree := if c.degree < c.active - 1 then c.degree else c.active - 1)
  }

  lemma FailedSearch(m: Memory, after: Memory)
    requires m.ready != [] && JobOk(m.ready[0]) && !Search(m.ready[0], m.free).found
    requires var w := Search(m.ready[0], m.free);
      && after.ready == m.ready[1..]
      && after.swapped == m.swapped + [m.ready[0].(table := Emptied(w.table))]
      && after.free == w.free + HeldFrames(w.table, SPAN) && TotalsOf(after) == Counted(TotalsOf(m), w)
    ensures after == Iterate(m)
  {
  }

  lemma FoundSearch(m: Memory, served: Memory, j: Job<int>)
    requires m.ready != [] && JobOk(m.ready[0]) && Search(m.ready[0], m.free).found
    requires var w := Search(m.ready[0], m.free);
      && j == m.ready[0].(table := w.table, done := m.ready[0].done + 1)
      && served.ready == m.ready[1..] && served.swapped == m.swapped && served.free == w.free
      && TotalsOf(served) == Counted(TotalsOf(m), w)
    ensures Concluded(served, j) == Iterate(m)
  {
  }

  /** A walk whose first `a` accesses and `f` faults have already been counted. */
  ghost function Later(w: Walked, a: nat, f: nat): Walked {
    w.(accesses := w.accesses + a, faults := w.faults + f)
  }

  /** The search between `l` and `r` is what remains of `whole`. */
  ghost predicate Remains(whole: Walked, t: seq<int>, free: seq<int>, l: int, r: int, s: int, idx: int, a: nat, f: nat)
  {
    && 0 <= l && r < s && TableCovers(s) && |t| == TABLE_SIZE
    && PagesBelow(Probes(l, r, idx), TABLE_SIZE)
    && whole == Later(Walk(t, free, Probes(l, r, idx)), a, f)
  }

  lemma RemainsAtStart(t: seq<int>, free: seq<int>, s: int, idx: int)
    requires |t| == TABLE_SIZE && TableCovers(s)
    ensures Remains(SearchIn(t, free, s, idx), t, free, 0, s - 1, s, idx, 0, 0)
  {
    ProbesInRange(0, s - 1, idx, s);
  }

  /** Memory after one probe of `page`. */
  ghost function Fetched(t: seq<int>, free: seq<int>, page: nat): (after: (seq<int>, seq<int>))
    requires page < |t|
  {
    if IsValid(t[page]) || free == [] then (t, free) else (t[page := Packed(free[0])], free[1..])
  }

  lemma WalkHead(t: seq<int>, free: seq<int>, page: nat, pages: seq<nat>, rest: seq<nat>)
    requires page < |t| && pages == [page] + rest && PagesBelow(pages, |t|)
    ensures PagesBelow(rest, |t|)
    ensures !IsValid(t[page]) && free == [] ==> Walk(t, free, pages) == Walked(t, free, 1, 1, false)
    ensures IsValid(t[page]) || free != [] ==>
      var after := Fetched(t, free, page);
      Walk(t, free, pages) == Later(Walk(after.0, after.1, rest), 1, if IsValid(t[page]) then 0 else 1)
  {
    assert pages[0] == page && pages[1..] == rest;
    assert PagesBelow(rest, |t|) by { assert forall i | 0 <= i < |rest| :: rest[i] == pages[i + 1]; }
  }

  lemma RemainsAfterProbe(whole: Walked, t: seq<int>, free: seq<int>, l: int, r: int, s: int, idx: int, a: nat, f: nat)
    requires Remains(whole, t, free, l, r, s, idx, a, f) && l < r
    ensures
      var page := PageOf(Middle(l, r));
      && page < TABLE_SIZE
      && (!IsValid(t[page]) && free == [] ==> whole == Walked(t, free, a + 1, f + 1, false))
      && (IsValid(t[page]) || free != [] ==>
          var after := Fetched(t, free, page);
          Remains(whole, after.0, after.1, NextLeft(l, r, idx), NextRight(l, r, idx), s, idx, a + 1,
                  if IsValid(t[page]) then f else f + 1))
  {
    ProbesHead(l, r, s, idx);
    WalkHead(t, free, PageOf(Middle(l, r)), Probes(l, r, idx), Probes(NextLeft(l, r, idx), NextRight(l, r, idx), idx));
  }

  /** The first process swapped out, if there is one, goes to the tail of the ready queue. */
  function Refilled<T>(ready: seq<T>, swapped: seq<T>): (queues: (seq<T>, seq<T>))
    ensures queues.0 + queues.1 == ready + swapped && |queues.1| == if |swapped| > 0 then |swapped| - 1 else 0
  {
    if swapped == [] then (ready, swapped)
    else
      assert ready + swapped == ready + [swapped[0]] + swapped[1..];
      (ready + [swapped[0]], swapped[1..])
  }

  /** Where the processes are after `p`, out of the queues, has had its turn: at the tail of the ready
      queue, if it has searches left; replaced there by the first one swapped out, if it has none;
      at the tail of the swapped queue, if its search failed. */
  function Rotated<T>(ready: seq<T>, swapped: seq<T>, p: T, found: bool, over: bool): (seq<T>, seq<T>) {
    if !found then (ready, swapped + [p])
    else if !over then (ready + [p], swapped)
    else Refilled(ready, swapped)
  }

  lemma SameProcesses(ready: seq<Process<int>>, swapped: seq<Process<int>>, found: bool, over: bool)
    requires ready != []
    ensures var queues := Rotated(ready[1..], swapped, ready[0], found, over);
      forall p | p in queues.0 + queues.1 :: p in ready + swapped
  {
    var queues := Rotated(ready[1..], swapped, ready[0], found, over);
    forall p | p in queues.0 + queues.1 ensures p in ready + swapped {
      if found && over { assert p in ready[1..] + swapped; }
    }
  }

  class Pager {
    var readyQueue: seq<Process<int>>
    var swappedQueue: seq<Process<int>>
    var freeFrames: seq<int>
    var accesses: nat
    var faults: nat
    var swaps: nat
    var degMultiprog: int
    var activeProcesses: int

    ghost function Snapshot(): Memory
      reads this, readyQueue, swappedQueue, Tables(readyQueue), Tables(swappedQueue)
    {
      Memory(JobsOf(readyQueue), JobsOf(swappedQueue), freeFrames, accesses, faults, swaps, degMultiprog,
             activeProcesses)
    }

    ghost function Counters(): Totals
      reads this
    {
      Totals(accesses, faults, swaps, degMultiprog, activeProcesses)
    }

    ghost predicate Valid(n: nat)
      reads this, readyQueue, swappedQueue, Tables(readyQueue), Tables(swappedQueue)
    {
      Apart(readyQueue + swappedQueue) && Inv(Snapshot(), n)
    }

    /** Lines 100-107: the frames of `p` join the free queue in page order. */
    method ReleaseAll(p: Process<int>, clear: bool)
      requires p.pageTable.Length == TABLE_SIZE
      modifies `freeFrames, if clear then {p.pageTable} else {}
      ensures freeFrames == old(freeFrames) + HeldFrames(old(p.pageTable[..]), SPAN)
      ensures p.pageTable[..] == if clear then Emptied(old(p.pageTable[..])) else old(p.pageTable[..])
    {
      ghost var table, frames := p.pageTable[..], freeFrames;
      assert HeldFrames(table[..0], SPAN) == [];
      for i := 0 to TABLE_SIZE
        modifies `freeFrames, if clear then {p.pageTable} else {}
        invariant freeFrames == frames + HeldFrames(table[..i], SPAN)
        invariant forall k | i <= k < TABLE_SIZE :: p.pageTable[k] == table[k]
        invariant forall k | 0 <= k < i :: p.pageTable[k] == if clear then Emptied(table)[k] else table[k]
      {
        FramesSnoc(table[..i], table[i], SPAN);
        assert table[..i + 1] == table[..i] + [table[i]];
        if IsValid(p.pageTable[i]) {
          freeFrames := freeFrames + [FrameOf(p.pageTable[i], SPAN)];
          if clear { p.pageTable[i] := 0; }
        }
      }
      assert table[..TABLE_SIZE] == table;
    }

    /** Lines 97-111. */
    method SwapOutProcess(p: Process<int>)
      requires p.pageTable.Length == TABLE_SIZE
      modifies this, p.pageTable
      ensures p.pageTable[..] == Emptied(old(p.pageTable[..]))
      ensures freeFrames == old(freeFrames) + HeldFrames(old(p.pageTable[..]), SPAN)
      ensures readyQueue == old(readyQueue) && swappedQueue == old(swappedQueue) + [p]
      ensures accesses == old(accesses) && faults == old(faults) && swaps == old(swaps) + 1
      ensures activeProcesses == old(activeProcesses) - 1
      ensures degMultiprog == if old(degMultiprog) < activeProcesses then old(degMultiprog) else activeProcesses
    {
      activeProcesses := activeProcesses - 1;
      ReleaseAll(p, true);
      swappedQueue := swappedQueue + [p];
      swaps := swaps + 1;
      degMultiprog := if degMultiprog < activeProcesses then degMultiprog else activeProcesses;
    }

    /** Lines 81-94: one probe.  False if the page is missing and there is no frame for it. */
    method Fetch(p: Process<int>, page: nat) returns (ok: bool, ghost faulted: bool)
      requires page < p.pageTable.Length
      modifies `accesses, `faults, `freeFrames, p.pageTable
      ensures accesses == old(accesses) + 1
      ensures faulted == !IsValid(old(p.pageTable[page])) && ok == (!faulted || old(freeFrames) != [])
      ensures faults == if faulted then old(faults) + 1 else old(faults)
      ensures (p.pageTable[..], freeFrames) == Fetched(old(p.pageTable[..]), old(freeFrames), page)
    {
      ok, faulted := true, false;
      accesses := accesses + 1;
      if !IsValid(p.pageTable[page]) {
        faults, faulted := faults + 1, true;
        if freeFrames != [] {
          var frame := freeFrames[0];
          freeFrames := freeFrames[1..];
          p.pageTable[page] := frame + VALID;
        } else {
          ok := false;
        }
      }
    }

    /** The loop of `BS`, up to the swap-out.  `end` is where the search stands when it is over. */
    method Look(p: Process<int>, searchIdx: int) returns (found: bool, ghost end: int, ghost whole: Walked)
      requires p.pageTable.Length == TABLE_SIZE && TableCovers(p.s)
      modifies `accesses, `faults, `freeFrames, p.pageTable
      ensures whole == SearchIn(old(p.pageTable[..]), old(freeFrames), p.s, searchIdx)
      ensures accesses == old(accesses) + whole.accesses && faults == old(faults) + whole.faults
      ensures p.pageTable[..] == whole.table && freeFrames == whole.free && found == whole.found
      ensures found ==> end == EndsAt(0, p.s - 1, searchIdx)
    {
      var l, r := 0, p.s - 1;
      whole := SearchIn(p.pageTable[..], freeFrames, p.s, searchIdx);
      ghost var a, f := 0, 0;
      RemainsAtStart(p.pageTable[..], freeFrames, p.s, searchIdx);
      while l < r
        invariant Remains(whole, p.pageTable[..], freeFrames, l, r, p.s, searchIdx, a, f)
        invariant EndsAt(l, r, searchIdx) == EndsAt(0, p.s - 1, searchIdx)
        invariant accesses == old(accesses) + a && faults == old(faults) + f
        decreases r - l
      {
        var m := (l + r) / 2;
        var page := ESSENTIAL_PAGES + m / ELEMENTS_PER_PAGE;
        ghost var nl, nr := NextLeft(l, r, searchIdx), NextRight(l, r, searchIdx);
        ProbesHead(l, r, p.s, searchIdx);
        RemainsAfterProbe(whole, p.pageTable[..], freeFrames, l, r, p.s, searchIdx, a, f);
        var ok, faulted := Fetch(p, page);
        a, f := a + 1, if faulted then f + 1 else f;
        if !ok {
          assert whole == Walked(p.pageTable[..], freeFrames, a, f, false);
          return false, l, whole;
        }
        assert Remains(whole, p.pageTable[..], freeFrames, nl, nr, p.s, searchIdx, a, f);
        if searchIdx <= m { r := m; } else { l := m + 1; }
        assert l == nl && r == nr;
      }
      return true, l, whole;
    }

    /** `BS`.  It leaves the other processes, in either queue, alone. */
    method BS(p: Process<int>, searchIdx: int, ghost ready: seq<Process<int>>, ghost swapped: seq<Process<int>>)
      returns (failed: bool, ghost end: int, ghost w: Walked)
      requires p.pageTable.Length == TABLE_SIZE && TableCovers(p.s)
      requires p.pageTable !in Tables(ready) && p.pageTable !in Tables(swapped)
      modifies this, p.pageTable
      ensures w == SearchIn(old(p.pageTable[..]), old(freeFrames), p.s, searchIdx) && failed == !w.found
      ensures Counters() == Counted(old(Counters()), w)
      ensures p.pageTable[..] == if failed then Emptied(w.table) else w.table
      ensures freeFrames == if failed then w.free + HeldFrames(w.table, SPAN) else w.free
      ensures readyQueue == old(readyQueue)
      ensures swappedQueue == if failed then old(swappedQueue) + [p] else old(swappedQueue)
      ensures !failed ==> end == EndsAt(0, p.s - 1, searchIdx)
      ensures JobsOf(ready) == old(JobsOf(ready)) && JobsOf(swapped) == old(JobsOf(swapped))
    {
      var found;
      found, end, w := Look(p, searchIdx);
      failed := !found;
      if failed { SwapOutProcess(p); }
    }

    /** Lines 187-189: the first ready process leaves the queue and searches. */
    method Serve() returns (p: Process<int>, failed: bool, ghost w: Walked)
      requires Apart(readyQueue + swappedQueue) && readyQueue != [] && JobOk(JobOf(readyQueue[0]))
      modifies this, readyQueue[0].pageTable
      ensures p == old(readyQueue[0]) && readyQueue == old(readyQueue[1..])
      ensures swappedQueue == if failed then old(swappedQueue) + [p] else old(swappedQueue)
      ensures JobsOf(readyQueue) == old(JobsOf(readyQueue[1..]))
      ensures JobsOf(old(swappedQueue)) == old(JobsOf(swappedQueue))
      ensures w == Search(old(JobOf(readyQueue[0])), old(freeFrames)) && failed == !w.found
      ensures JobOf(p) == old(JobOf(readyQueue[0])).(table := if failed then Emptied(w.table) else w.table)
      ensures freeFrames == if failed then w.free + HeldFrames(w.table, SPAN) else w.free
      ensures Counters() == Counted(old(Counters()), w)
    {
      HeadApart(readyQueue, swappedQueue);
      p := readyQueue[0];
      ghost var j, free := JobOf(p), freeFrames;
      readyQueue := readyQueue[1..];
      ghost var end;
      failed, end, w := BS(p, p.searchIndices[p.currSearchCnt], readyQueue, swappedQueue);
      assert w == Search(j, free);
    }

    /** Lines 211-217. */
    method SwapIn()
      modifies `readyQueue, `swappedQueue, `activeProcesses
      ensures (readyQueue, swappedQueue) == Refilled(old(readyQueue), old(swappedQueue))
      ensures Snapshot() == old(
        if swappedQueue == [] then Snapshot()
        else Snapshot().(ready := JobsOf(readyQueue) + [JobsOf(swappedQueue)[0]],
                         swapped := JobsOf(swappedQueue)[1..], active := activeProcesses + 1))
    {
      if swappedQueue != [] {
        var q := swappedQueue[0];
        ghost var ready, swapped := JobsOf(readyQueue), JobsOf(swappedQueue);
        JobsOfSnoc(readyQueue, q);
        swappedQueue := swappedQueue[1..];
        readyQueue := readyQueue + [q];
        activeProcesses := activeProcesses + 1;
        assert JobsOf(readyQueue) == ready + [swapped[0]];
        assert JobsOf(swappedQueue) == swapped[1..];
      }
    }

    /** Lines 194-217: `p`, in neither queue, has done its last search. */
    method Terminate(p: Process<int>)
      requires p.pageTable.Length == TABLE_SIZE
      modifies `readyQueue, `swappedQueue, `freeFrames, `activeProcesses
      ensures (readyQueue, swappedQueue) == Refilled(old(readyQueue), old(swappedQueue))
      ensures Snapshot() == Finish(old(Snapshot()), Walked(p.pageTable[..], old(freeFrames), 0, 0, true))
    {
      ReleaseAll(p, false);
      activeProcesses := activeProcesses - 1;
      SwapIn();
    }

    /** Lines 192-217 after a successful search of `p`, which has been counted. */
    method Conclude(p: Process<int>)
      requires Apart(readyQueue + swappedQueue + [p]) && p.pageTable.Length == TABLE_SIZE
      modifies `readyQueue, `swappedQueue, `freeFrames, `activeProcesses
      ensures Snapshot() == Concluded(old(Snapshot()), JobOf(p))
      ensures (readyQueue, swappedQueue) ==
        Rotated(old(readyQueue), old(swappedQueue), p, true, p.currSearchCnt == |p.searchIndices|)
      ensures Apart(readyQueue + swappedQueue)
    {
      ghost var ready, swapped := readyQueue, swappedQueue;
      LastApart(ready, swapped, p);
      if p.currSearchCnt == |p.searchIndices| {
        Terminate(p);
      } else {
        JobsOfSnoc(ready, p);
        readyQueue := readyQueue + [p];
      }
    }

    /** Line 191. */
    method CountSearch(p: Process<int>, ghost ready: seq<Process<int>>, ghost swapped: seq<Process<int>>)
      requires p !in ready && p !in swapped
      modifies p`currSearchCnt
      ensures JobOf(p) == old(JobOf(p)).(done := old(p.currSearchCnt) + 1)
      ensures JobsOf(ready) == old(JobsOf(ready)) && JobsOf(swapped) == old(JobsOf(swapped))
    {
      p.currSearchCnt := p.currSearchCnt + 1;
    }

    /** Lines 185-218: the first ready process has its turn. */
    method StepFirst()
      requires Apart(readyQueue + swappedQueue) && readyQueue != [] && JobOk(JobOf(readyQueue[0]))
      modifies this, readyQueue[0], readyQueue[0].pageTable
      ensures Apart(readyQueue + swappedQueue) && Snapshot() == Iterate(old(Snapshot()))
      ensures var p, found := old(readyQueue[0]), old(Search(JobOf(readyQueue[0]), freeFrames)).found;
        && p.currSearchCnt == old(readyQueue[0].currSearchCnt) + (if found then 1 else 0)
        && (readyQueue, swappedQueue) ==
           Rotated(old(readyQueue[1..]), old(swappedQueue), p, found, p.currSearchCnt == |p.searchIndices|)
    {
      ghost var before, swapped := Snapshot(), swappedQueue;
      HeadApart(readyQueue, swapped);
      ghost var w;
      var p, failed;
      p, failed, w := Serve();
      if failed {
        JobsOfSnoc(swapped, p);
        FailedSearch(before, Snapshot());
      } else {
        CountSearch(p, readyQueue, swappedQueue);
        FoundSearch(before, Snapshot(), JobOf(p));
        Conclude(p);
      }
    }

    /** One iteration of the loop of `main`, lines 184-218. */
    method Step()
      requires Apart(readyQueue + swappedQueue) && (readyQueue != [] ==> JobOk(JobOf(readyQueue[0])))
      modifies this, readyQueue, Tables(readyQueue)
      ensures Apart(readyQueue + swappedQueue) && Snapshot() == Iterate(old(Snapshot()))
      ensures old(readyQueue) != [] ==>
        var p, found := old(readyQueue[0]), old(Search(JobOf(readyQueue[0]), freeFrames)).found;
        (readyQueue, swappedQueue) ==
        Rotated(old(readyQueue[1..]), old(swappedQueue), p, found, p.currSearchCnt == |p.searchIndices|)
      ensures forall p | p in readyQueue + swappedQueue :: p in old(readyQueue + swappedQueue)
    {
      if readyQueue != [] {
        ghost var ready, swapped, found := readyQueue, swappedQueue, Search(JobOf(readyQueue[0]), freeFrames).found;
        StepFirst();
        SameProcesses(ready, swapped, found, ready[0].currSearchCnt == |ready[0].searchIndices|);
      }
    }

    /** One iteration of a run that began with the processes `all`. */
    method StepOn(ghost n: nat, ghost all: seq<Process<int>>)
      requires Valid(n) && forall p | p in readyQueue + swappedQueue :: p in all
      modifies this, all, Tables(all)
      ensures Valid(n) && Snapshot() == Iterate(old(Snapshot()))
      ensures forall p | p in readyQueue + swappedQueue :: p in all
    {
      SomeTables(readyQueue, swappedQueue, all);
      IterateKeepsInvariant(Snapshot(), n);
      Step();
    }

    /** Lines 182-219. */
    method Run(ghost n: nat)
      requires Valid(n)
      modifies this, readyQueue + swappedQueue, Tables(readyQueue + swappedQueue)
      ensures Valid(n) && Snapshot() == Finished(old(Snapshot()), n)
      ensures readyQueue == [] && swappedQueue == []
    {
      ghost var all := readyQueue + swappedQueue;
      ghost var start := Snapshot();
      IterateTowardsEnd(start, n);
      StepOn(n, all);
      while readyQueue != [] || swappedQueue != []
        invariant Valid(n) && Finished(Snapshot(), n) == Finished(start, n)
        invariant forall p | p in readyQueue + swappedQueue :: p in all
        decreases |Snapshot().ready| + |Snapshot().swapped|, Left(Snapshot()), |Snapshot().ready|
      {
        IterateTowardsEnd(Snapshot(), n);
        StepOn(n, all);
      }
    }

    /** Lines 48-59 for the free frames: an empty queue gives `NULL`, as a frame 0. */
    method TakeFrame() returns (frame: int)
      modifies `freeFrames
      ensures frame == Head(old(freeFrames)) && freeFrames == Rest(old(freeFrames))
    {
      if freeFrames == [] { return 0; }
      frame := freeFrames[0];
      freeFrames := freeFrames[1..];
    }

    /** Lines 164-170. */
    method LoadEssential(p: Process<int>)
      requires p.pageTable.Length == TABLE_SIZE
      modifies `freeFrames, p.pageTable
      ensures (p.pageTable[..], freeFrames) == DealPages(old(p.pageTable[..]), old(freeFrames), ESSENTIAL_PAGES)
    {
      ghost var table, before := p.pageTable[..], freeFrames;
      for j := 0 to ESSENTIAL_PAGES
        invariant (p.pageTable[..], freeFrames) == DealPages(table, before, j)
      {
        var frame := TakeFrame();
        p.pageTable[j] := frame + VALID;
      }
    }

    /** Lines 144-173. */
    method Admit(inputs: seq<Input>, i: nat) returns (p: Process<int>)
      requires i < |inputs| && Apart(readyQueue) && swappedQueue == [] && Snapshot() == Deal(inputs, i)
      modifies `freeFrames, `readyQueue, `activeProcesses
      ensures readyQueue == old(readyQueue) + [p] && fresh(p) && fresh(p.pageTable)
      ensures Apart(readyQueue) && Snapshot() == Deal(inputs, i + 1)
    {
      ghost var queue, jobs := readyQueue, JobsOf(readyQueue);
      p := new Process(i, inputs[i], 0);
      assert p.pageTable[..] == Blank();
      LoadEssential(p);
      assert JobsOf(queue) == jobs;
      readyQueue := readyQueue + [p];
      activeProcesses := activeProcesses + 1;
      OneMoreDealt(inputs, i, Deal(inputs, i), queue, p);
    }

    lemma OneMoreDealt(inputs: seq<Input>, i: nat, before: Memory, queue: seq<Process<int>>, p: Process<int>)
      requires i < |inputs| && before == Deal(inputs, i) && before.ready == JobsOf(queue)
      requires readyQueue == queue + [p] && swappedQueue == []
      requires (p.pageTable[..], freeFrames) == DealPages(Blank(), before.free, ESSENTIAL_PAGES)
      requires JobOf(p) == Job(i, inputs[i].s, inputs[i].searches, 0, p.pageTable[..])
      requires Snapshot() == before.(ready := JobsOf(readyQueue), free := freeFrames, active := before.active + 1)
      ensures Snapshot() == Deal(inputs, i + 1)
    {
      JobsOfSnoc(queue, p);
      DealNext(inputs, i + 1);
      AdmittedAs(before, i, inputs[i], p.pageTable[..], freeFrames);
    }

    /** Lines 124-174, for any number of processes. */
    constructor (inputs: seq<Input>)
      requires forall i | 0 <= i < |inputs| :: InputOk(inputs[i])
      ensures Snapshot() == Deal(inputs, |inputs|) && Apart(readyQueue + swappedQueue)
      ensures Valid(|inputs|) && (FramesOk(Snapshot()) <==> |inputs| <= MAX_PROCESSES)
      ensures forall p | p in readyQueue :: fresh(p) && fresh(p.pageTable)
    {
      readyQueue, swappedQueue := [], [];
      freeFrames := FirstFrames(USABLE_FRAMES);
      accesses, faults, swaps := 0, 0, 0;
      degMultiprog, activeProcesses := 127, 0;
      new;
      for i := 0 to |inputs|
        modifies `freeFrames, `readyQueue, `activeProcesses
        invariant Apart(readyQueue) && swappedQueue == [] && Snapshot() == Deal(inputs, i)
        invariant forall p | p in readyQueue :: fresh(p) && fresh(p.pageTable)
      {
        var p := Admit(inputs, i);
      }
      assert readyQueue + swappedQueue == readyQueue;
      StartInvariant(inputs);
      FramesAreSoundExactly(inputs);
    }
  }
}
