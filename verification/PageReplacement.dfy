/** LA10's program: the free-frame list in its array, the ready queue, and the counters. */
module PageReplacement {
  import opened PageTables
  import opened Sequences
  import opened BinarySearch
  import opened ReplacementChoice
  import opened AgingSpec
  import opened AgingRuns
  import opened AgingStart
  import opened Processes

  /** What is left of `Iterate` when process `p`, out of the queues, has searched. */
  ghost function Concluded(w: World, p: Proc, failed: bool): World {
    if failed then w.(dropped := w.dropped + [p])
    else if p.done == |p.searches| then w.(ff := w.ff + Returned(p.table))
    else w.(ready := w.ready + [p])
  }

  lemma InParts(w: World, v: World, p: Proc, draw: nat)
    requires Ready(w)
    requires var r := FirstSearch(w, draw);
      && p == w.ready[0].(table := r.at.table, done := w.ready[0].done + if r.found then 1 else 0)
      && v.ready == w.ready[1..] && v.dropped == w.dropped
      && v.ff == r.at.ff && v.total == r.at.total && v.stats == w.stats[w.ready[0].id := r.at.mine]
    ensures Iterate(w, draw) == Concluded(v, p, !FirstSearch(w, draw).found)
  {
  }

  ghost function FreedBelow(e: seq<int>, i: nat): seq<FrameEntry>
    requires i <= |e|
  {
    Freed(HeldFrames(e[..i], SPAN))
  }

  lemma FreedNext(e: seq<int>, i: nat)
    requires i < |e|
    ensures FreedBelow(e, i + 1) ==
      FreedBelow(e, i) + if IsValid(e[i]) then [FrameEntry(FrameOf(e[i], SPAN), NOBODY, -1)] else []
    ensures |FreedBelow(e, i + 1)| <= |HeldFrames(e, SPAN)|
  {
    FramesSnoc(e[..i], e[i], SPAN);
    assert e[..i + 1] == e[..i] + [e[i]];
    HeldPrefix(e, i + 1, SPAN);
  }

  /** The search between `l` and `r` is what remains of `whole`. */
  ghost predicate Remains(whole: Walked, now: Local, pid: int, l: int, r: int, s: int, idx: int, draw: nat) {
    && 0 <= l && r < s && TableCovers(s) && Good(now)
    && PagesBelow(Probes(l, r, idx), TABLE_SIZE)
    && whole == Walk(now, pid, Probes(l, r, idx), draw)
  }

  lemma RemainsAfterProbe(whole: Walked, now: Local, pid: int, l: int, r: int, s: int, idx: int, draw: nat)
    requires Remains(whole, now, pid, l, r, s, idx, draw) && l < r
    ensures PageOf(Middle(l, r)) < TABLE_SIZE
    ensures var w := Probe(now, pid, PageOf(Middle(l, r)), draw);
      if w.found then Remains(whole, w.at, pid, NextLeft(l, r, idx), NextRight(l, r, idx), s, idx, draw) else whole == w
  {
    ProbesHead(l, r, s, idx);
    var page := PageOf(Middle(l, r));
    var rest := Probes(NextLeft(l, r, idx), NextRight(l, r, idx), idx);
    ProbeKeepsFrames(now, pid, page, draw);
    ProbesInRange(NextLeft(l, r, idx), NextRight(l, r, idx), idx, s);
    assert Probes(l, r, idx)[0] == page && Probes(l, r, idx)[1..] == rest;
  }

  lemma UpdatedTwice(stats: seq<Counters>, i: nat, x: Counters, y: Counters)
    requires i < |stats|
    ensures stats[i := x][i := y] == stats[i := y]
  {
  }

  class Replacer {
    const fflist: array<FrameEntry>
    var nff: nat
    var readyQueue: seq<Process<PageEntry>>
    ghost var dropped: seq<Process<PageEntry>>
    var total: Counters
    const processStats: array<Counters>
    const draw: nat                       // what `rand` returns after `srand(42)`

    ghost function FF(): seq<FrameEntry>
      requires nff <= fflist.Length
      reads this, fflist
    {
      fflist[..nff]
    }

    ghost predicate ListOk()
      reads this
    {
      fflist.Length == USABLE_FRAMES && MIN_FREE <= nff <= USABLE_FRAMES
    }

    /** Lines 91-100. */
    method FindVictim(p: Process<PageEntry>) returns (victim: int)
      requires p.pageTable.Length == TABLE_SIZE
      ensures victim == Victim(p.pageTable[..], TABLE_SIZE)
    {
      victim := -1;
      var minHist := FULL;
      for i := ESSENTIAL_PAGES to TABLE_SIZE
        invariant victim == Victim(p.pageTable[..], i)
        invariant minHist == if victim == -1 then FULL else p.pageTable[victim].history
      {
        if IsValid(p.pageTable[i].entry) && p.pageTable[i].history < minHist {
          minHist := p.pageTable[i].history;
          victim := i;
        }
      }
    }

    /** The loop of each of the first three attempts: from the end of the list backwards. */
    method ScanBack(attempt: nat, pid: int, page: int) returns (foundIndex: int)
      requires ListOk()
      ensures foundIndex == LastFit(FF(), attempt, pid, page)
    {
      var i := nff - 1;
      while i >= 0
        invariant -1 <= i < nff
        invariant forall k | i < k < nff :: !Fits(fflist[k], attempt, pid, page)
      {
        if Fits(fflist[i], attempt, pid, page) {
          assert FF()[i] == fflist[i];
          return i;
        }
        i := i - 1;
      }
      return -1;
    }

    /** Lines 164-168 and 237-241: later entries move up by one. */
    method RemoveAt(k: nat)
      requires ListOk() && k < nff
      modifies `nff, fflist
      ensures nff == old(nff) - 1 && FF() == Without(old(FF()), k)
    {
      ghost var before := FF();
      for j := k to nff - 1
        modifies fflist
        invariant forall i | 0 <= i < j :: fflist[i] == before[if i < k then i else i + 1]
        invariant forall i | j <= i < nff :: fflist[i] == before[i]
      {
        fflist[j] := fflist[j + 1];
      }
      nff := nff - 1;
    }

    /** Lines 111-162. */
    method ChooseFrame(pid: int, page: int) returns (foundIndex: int, attempt: nat)
      requires ListOk()
      ensures Choice(foundIndex, attempt) == Choose(FF(), pid, page, draw)
    {
      attempt := 1;
      foundIndex := ScanBack(1, pid, page);
      if foundIndex == -1 {
        attempt := 2;
        foundIndex := ScanBack(2, pid, page);
      }
      if foundIndex == -1 {
        attempt := 3;
        foundIndex := ScanBack(3, pid, page);
      }
      if foundIndex == -1 {
        foundIndex, attempt := draw % nff, 4;
      }
    }

    ghost function LocalFor(p: Process<PageEntry>): Local
      requires nff <= fflist.Length && p.id < processStats.Length
      reads this, fflist, processStats, p.pageTable
    {
      Local(p.pageTable[..], FF(), total, processStats[p.id])
    }

    /** The list is in order and `p` has its table and its statistics. */
    ghost predicate Fit(p: Process<PageEntry>)
      reads this, fflist
    {
      ListOk() && p.pageTable.Length == TABLE_SIZE && p.id < processStats.Length && GoodList(FF())
    }

    method Append(e: FrameEntry)
      requires fflist.Length == USABLE_FRAMES && nff < USABLE_FRAMES
      modifies `nff, fflist
      ensures nff == old(nff) + 1 && FF() == old(FF()) + [e]
    {
      fflist[nff] := e;
      nff := nff + 1;
    }

    /** `page_replacement_algo`. */
    method PageReplacementAlgo(p: Process<PageEntry>, page: nat) returns (frame: int)
      requires Fit(p) && nff == MIN_FREE && GoodTable(p.pageTable[..])
      modifies `nff, `total, fflist, processStats, p.pageTable
      ensures ListOk()
      ensures var g := GetFrame(old(p.pageTable[..]), old(FF()), p.id, page, draw);
        if g.NoVictim? then
          && frame == -1 && LocalFor(p) == old(LocalFor(p)) && processStats[..] == old(processStats[..])
        else
          && frame == g.frame && frame != -1
          && p.pageTable[..] == g.table && FF() == g.ff && total == Charge(old(total), g.attempt)
          && processStats[..] == old(processStats[..])[p.id := Charge(old(processStats[p.id]), g.attempt)]
    {
      ghost var t, ff := p.pageTable[..], FF();
      var victim := FindVictim(p);
      if victim == -1 { return -1; }
      var victimFrame := p.pageTable[victim].entry % SPAN;
      var foundIndex, attempt := ChooseFrame(p.id, page);
      ChoiceIsBest(ff, p.id, page, draw);
      frame := fflist[foundIndex].frameNo;
      assert frame == ff[foundIndex].frameNo;
      RemoveAt(foundIndex);
      Append(FrameEntry(victimFrame, p.id, victim));
      p.pageTable[victim] := p.pageTable[victim].(entry := p.pageTable[victim].entry - VALID);
      assert p.pageTable[..] == t[victim := t[victim].(entry := t[victim].entry - VALID)];
      total := Charge(total, attempt);
      processStats[p.id] := Charge(processStats[p.id], attempt);
    }

    /** `get_frame`. */
    method TakeFrame(p: Process<PageEntry>, page: nat) returns (frame: int)
      requires Fit(p) && GoodTable(p.pageTable[..])
      modifies `nff, `total, fflist, processStats, p.pageTable
      ensures ListOk()
      ensures var g := GetFrame(old(p.pageTable[..]), old(FF()), p.id, page, draw);
        if g.NoVictim? then
          && frame == -1 && LocalFor(p) == old(LocalFor(p)) && processStats[..] == old(processStats[..])
        else
          && frame == g.frame && frame != -1
          && p.pageTable[..] == g.table && FF() == g.ff && total == Charge(old(total), g.attempt)
          && processStats[..] == old(processStats[..])[p.id := Charge(old(processStats[p.id]), g.attempt)]
    {
      if nff > MIN_FREE {
        frame := fflist[0].frameNo;
        assert frame == FF()[0].frameNo && Without(FF(), 0) == FF()[1..];
        RemoveAt(0);
      } else {
        frame := PageReplacementAlgo(p, page);
      }
    }

    /** Lines 279-296: one probe.  False when there is no frame to be had. */
    method ProbePage(p: Process<PageEntry>, page: nat) returns (ok: bool)
      requires Fit(p) && GoodTable(p.pageTable[..]) && page < TABLE_SIZE
      modifies `nff, `total, fflist, processStats, p.pageTable
      ensures ListOk()
      ensures Walked(LocalFor(p), ok) == Probe(old(LocalFor(p)), p.id, page, draw)
      ensures processStats[..] == old(processStats[..])[p.id := processStats[p.id]]
    {
      ghost var t := p.pageTable[..];
      ok := true;
      var fault := !IsValid(p.pageTable[page].entry);
      total := Access(total, fault);
      processStats[p.id] := Access(processStats[p.id], fault);
      if fault {
        var frame := TakeFrame(p, page);
        if frame == -1 {
          ok := false;
        } else {
          p.pageTable[page] := PageEntry(frame + VALID + REFERENCED, FULL);
        }
      } else {
        p.pageTable[page] := p.pageTable[page].(entry := SetReference(p.pageTable[page].entry));
      }
    }

    /** Lines 303-311. */
    method AgeTable(p: Process<PageEntry>)
      requires p.pageTable.Length == TABLE_SIZE
      modifies p.pageTable
      ensures p.pageTable[..] == Age(old(p.pageTable[..]))
    {
      for i := 0 to TABLE_SIZE
        invariant forall k | 0 <= k < i :: p.pageTable[k] == Aged(old(p.pageTable[k]))
        invariant forall k | i <= k < TABLE_SIZE :: p.pageTable[k] == old(p.pageTable[k])
      {
        var e := p.pageTable[i];
        if IsValid(e.entry) {
          var history := e.history / 2 + if HasReference(e.entry) then VALID else 0;
          p.pageTable[i] := PageEntry(ClearReference(e.entry), history);
        }
      }
    }

    /** `BS`.  `end` is where the search stands when it is over. */
    method BS(p: Process<PageEntry>, searchIdx: int) returns (failed: bool, ghost end: int)
      requires Fit(p) && GoodTable(p.pageTable[..]) && TableCovers(p.s)
      modifies `nff, `total, fflist, processStats, p.pageTable
      ensures ListOk()
      ensures Walked(LocalFor(p), !failed) == Search(old(LocalFor(p)), p.id, p.s, searchIdx, draw)
      ensures processStats[..] == old(processStats[..])[p.id := processStats[p.id]]
      ensures !failed ==> end == EndsAt(0, p.s - 1, searchIdx)
    {
      var l, r := 0, p.s - 1;
      ProbesInRange(l, r, searchIdx, p.s);
      ghost var whole := Walk(LocalFor(p), p.id, Probes(l, r, searchIdx), draw);
      while l < r
        invariant ListOk()
        invariant Remains(whole, LocalFor(p), p.id, l, r, p.s, searchIdx, draw)
        invariant EndsAt(l, r, searchIdx) == EndsAt(0, p.s - 1, searchIdx)
        invariant processStats[..] == old(processStats[..])[p.id := processStats[p.id]]
        decreases r - l
      {
        var m := (l + r) / 2;
        var page := ESSENTIAL_PAGES + m / ELEMENTS_PER_PAGE;
        ghost var nl, nr := NextLeft(l, r, searchIdx), NextRight(l, r, searchIdx);
        ghost var mine := processStats[p.id];
        ProbesHead(l, r, p.s, searchIdx);
        RemainsAfterProbe(whole, LocalFor(p), p.id, l, r, p.s, searchIdx, draw);
        var ok := ProbePage(p, page);
        UpdatedTwice(old(processStats[..]), p.id, mine, processStats[p.id]);
        if !ok { return true, l; }
        assert Remains(whole, LocalFor(p), p.id, nl, nr, p.s, searchIdx, draw);
        if searchIdx <= m { r := m; } else { l := m + 1; }
        assert l == nl && r == nr;
      }
      AgeTable(p);
      return false, l;
    }

    /** `finish_process`: the frames of `p` join the list in page order, owned by nobody.  Where the
        program would write past the end of `FFLIST`, the model stops with `fits` false. */
    method FinishProcess(p: Process<PageEntry>) returns (fits: bool)
      requires ListOk() && p.pageTable.Length == TABLE_SIZE
      modifies `nff, fflist
      ensures ListOk() && (fits <==> old(nff) + |Returned(p.pageTable[..])| <= USABLE_FRAMES)
      ensures fits ==> FF() == old(FF()) + Returned(p.pageTable[..])
    {
      ghost var e, ff := Entries(p.pageTable[..]), FF();
      assert ff + FreedBelow(e, 0) == ff;
      for i := 0 to TABLE_SIZE
        invariant ListOk() && FF() == ff + FreedBelow(e, i)
      {
        FreedNext(e, i);
        if IsValid(p.pageTable[i].entry) {
          if nff == USABLE_FRAMES { return false; }
          Append(FrameEntry(FrameOf(p.pageTable[i].entry, SPAN), NOBODY, -1));
        }
        assert FF() == ff + FreedBelow(e, i + 1);
      }
      assert e[..TABLE_SIZE] == e;
      return true;
    }

    ghost function Snapshot(): World
      requires nff <= fflist.Length
      reads this, fflist, processStats, readyQueue, dropped, Tables(readyQueue), Tables(dropped)
    {
      World(JobsOf(readyQueue), JobsOf(dropped), FF(), total, processStats[..])
    }

    /** Lines 375-377: the first ready process leaves the queue and searches. */
    method Serve() returns (p: Process<PageEntry>, failed: bool)
      requires Apart(readyQueue + dropped) && readyQueue != [] && Fit(readyQueue[0])
      requires ProcOk(JobOf(readyQueue[0]), processStats.Length)
      modifies `nff, `total, `readyQueue, fflist, processStats, readyQueue[0].pageTable
      ensures ListOk() && p == old(readyQueue[0]) && readyQueue == old(readyQueue[1..])
      ensures JobsOf(readyQueue) == old(JobsOf(readyQueue[1..])) && JobsOf(dropped) == old(JobsOf(dropped))
      ensures var q := old(JobOf(readyQueue[0]));
        var r := Search(old(LocalFor(readyQueue[0])), q.id, q.s, q.searches[q.done], draw);
        && failed == !r.found && JobOf(p) == q.(table := r.at.table)
        && FF() == r.at.ff && total == r.at.total && processStats[..] == old(processStats[..])[p.id := r.at.mine]
    {
      HeadApart(readyQueue, dropped);
      p := readyQueue[0];
      readyQueue := readyQueue[1..];
      ghost var end;
      failed, end := BS(p, p.searchIndices[p.currSearchCnt]);
    }

    /** Lines 379-383 after a search of `p`, which is in no queue. */
    method Conclude(p: Process<PageEntry>, failed: bool) returns (fits: bool)
      requires ListOk() && Apart(readyQueue + dropped + [p]) && p.pageTable.Length == TABLE_SIZE
      modifies `nff, `readyQueue, `dropped, fflist
      ensures ListOk() && (fits <==> |Concluded(old(Snapshot()), JobOf(p), failed).ff| <= USABLE_FRAMES)
      ensures fits ==> Snapshot() == Concluded(old(Snapshot()), JobOf(p), failed)
      ensures readyQueue == old(readyQueue) + if !failed && p.currSearchCnt != |p.searchIndices| then [p] else []
      ensures dropped == old(dropped) + if failed then [p] else []
      ensures Apart(readyQueue + dropped)
      ensures forall q | q in readyQueue + dropped :: q in old(readyQueue + dropped + [p])
    {
      LastApart(readyQueue, dropped, p);
      fits := true;
      if failed {
        JobsOfSnoc(dropped, p);
        dropped := dropped + [p];
      } else if p.currSearchCnt == |p.searchIndices| {
        fits := FinishProcess(p);
      } else {
        JobsOfSnoc(readyQueue, p);
        readyQueue := readyQueue + [p];
      }
    }

    /** Line 379. */
    method CountSearch(p: Process<PageEntry>, ghost ready: seq<Process<PageEntry>>, ghost lost: seq<Process<PageEntry>>)
      requires p !in ready && p !in lost
      modifies p
      ensures JobOf(p) == old(JobOf(p)).(done := old(p.currSearchCnt) + 1)
      ensures JobsOf(ready) == old(JobsOf(ready)) && JobsOf(lost) == old(JobsOf(lost))
    {
      p.currSearchCnt := p.currSearchCnt + 1;
    }

    /** One iteration of the loop of `main`, lines 375-384.  The process that was first is last
        afterwards, or nowhere if it has finished or its search has failed. */
    method ServeFirst() returns (fits: bool)
      requires Apart(readyQueue + dropped) && readyQueue != [] && Fit(readyQueue[0])
      requires ProcOk(JobOf(readyQueue[0]), processStats.Length)
      modifies `nff, `total, `readyQueue, `dropped, fflist, processStats, readyQueue[0], readyQueue[0].pageTable
      ensures ListOk() && (fits <==> |Iterate(old(Snapshot()), draw).ff| <= USABLE_FRAMES)
      ensures fits ==> Snapshot() == Iterate(old(Snapshot()), draw)
      ensures var p, found := old(readyQueue[0]), old(FirstSearch(Snapshot(), draw)).found;
        && readyQueue == old(readyQueue[1..]) + (if found && p.currSearchCnt != |p.searchIndices| then [p] else [])
        && dropped == old(dropped) + (if found then [] else [p])
        && p.currSearchCnt == old(readyQueue[0].currSearchCnt) + if found then 1 else 0
      ensures Apart(readyQueue + dropped)
      ensures forall q | q in readyQueue + dropped :: q in old(readyQueue[1..] + dropped + [readyQueue[0]])
    {
      ghost var before, lost := Snapshot(), dropped;
      HeadApart(readyQueue, dropped);
      var p, failed := Serve();
      if !failed { CountSearch(p, readyQueue, lost); }
      InParts(before, Snapshot(), JobOf(p), draw);
      ghost var next := Concluded(Snapshot(), JobOf(p), failed);
      assert next == Iterate(before, draw);
      fits := Conclude(p, failed);
    }

    method Step(ghost all: seq<Process<PageEntry>>) returns (fits: bool)
      requires Valid() && readyQueue != [] && forall p | p in readyQueue + dropped :: p in all
      modifies this, fflist, processStats, all, Tables(all)
      ensures fits <==> |Iterate(old(Snapshot()), draw).ff| <= USABLE_FRAMES
      ensures fits ==> Valid() && Snapshot() == Iterate(old(Snapshot()), draw)
      ensures var p, found := old(readyQueue[0]), old(FirstSearch(Snapshot(), draw)).found;
        && readyQueue == old(readyQueue[1..]) + (if found && p.currSearchCnt != |p.searchIndices| then [p] else [])
        && dropped == old(dropped) + (if found then [] else [p])
      ensures forall p | p in readyQueue + dropped :: p in all
    {
      IterateTowardsEnd(Snapshot(), draw);
      assert readyQueue[0] in readyQueue + dropped;
      fits := ServeFirst();
    }

    ghost predicate Valid()
      reads this, fflist, processStats, readyQueue, dropped, Tables(readyQueue), Tables(dropped)
    {
      ListOk() && Apart(readyQueue + dropped) && Running(Snapshot())
    }

    /** Lines 373-385. */
    method Run() returns (fits: bool)
      requires Valid()
      modifies this, fflist, processStats, readyQueue + dropped, Tables(readyQueue + dropped)
      ensures fits <==> StaysInArray(old(Snapshot()), draw)
      ensures fits ==> Valid() && Snapshot() == Finished(old(Snapshot()), draw) && readyQueue == []
    {
      ghost var all, start := readyQueue + dropped, Snapshot();
      fits := true;
      while readyQueue != []
        invariant Valid() && Finished(Snapshot(), draw) == Finished(start, draw)
        invariant StaysInArray(Snapshot(), draw) <==> StaysInArray(start, draw)
        invariant forall p | p in readyQueue + dropped :: p in all
        decreases SearchesLeft(Snapshot().ready)
      {
        ghost var w := Snapshot();
        NextFits(w, draw);
        fits := Step(all);
        if !fits { return; }
      }
    }

    lemma NextFits(w: World, draw: nat)
      requires Running(w) && w.ready != [] && |w.ff| <= USABLE_FRAMES
      ensures var next := Iterate(w, draw);
        && Running(next) && Finished(next, draw) == Finished(w, draw)
        && 0 <= SearchesLeft(next.ready) < SearchesLeft(w.ready)
        && (|next.ff| <= USABLE_FRAMES ==> (StaysInArray(next, draw) <==> StaysInArray(w, draw)))
        && (|next.ff| > USABLE_FRAMES ==> !StaysInArray(w, draw))
    {
      IterateTowardsEnd(w, draw);
    }

    /** Lines 357-362. */
    method LoadEssential(p: Process<PageEntry>, i: nat)
      requires Fit(p) && p.pageTable[..] == EssentialTable(i, 0) && FF() == FreeAfter(10 * i)
      modifies `nff, `total, fflist, processStats, p.pageTable
      ensures ListOk() && p.pageTable[..] == EssentialTable(i, ESSENTIAL_PAGES) && FF() == FreeAfter(10 * (i + 1))
      ensures total == old(total) && processStats[..] == old(processStats[..])
    {
      for j := 0 to ESSENTIAL_PAGES
        invariant Fit(p) && p.pageTable[..] == EssentialTable(i, j) && FF() == FreeAfter(10 * i + j)
        invariant total == old(total) && processStats[..] == old(processStats[..])
      {
        LoadPage(p, i, j);
      }
    }

    /** Lines 359-361. */
    method LoadPage(p: Process<PageEntry>, ghost i: nat, j: nat)
      requires j < ESSENTIAL_PAGES
      requires Fit(p) && p.pageTable[..] == EssentialTable(i, j) && FF() == FreeAfter(10 * i + j)
      modifies `nff, `total, fflist, processStats, p.pageTable
      ensures ListOk() && p.pageTable[..] == EssentialTable(i, j + 1) && FF() == FreeAfter(10 * i + j + 1)
      ensures total == old(total) && processStats[..] == old(processStats[..])
    {
      EssentialIsGood(i, j);
      EssentialGot(i, j, draw);
      EssentialNext(i, j);
      var frame := TakeFrame(p, j);
      assert frame == Nth(10 * i + j) && p.pageTable[..] == EssentialTable(i, j);
      p.pageTable[j] := PageEntry(if frame == -1 then 0xFFFF else frame + VALID, FULL);
    }

    /** The first i processes have been admitted. */
    ghost predicate Admitted(inputs: seq<Input>, i: nat)
      requires i <= |inputs|
      reads this, fflist, processStats, readyQueue, dropped, Tables(readyQueue), Tables(dropped)
    {
      ListOk() && Apart(readyQueue) && dropped == [] && Snapshot() == Dealt(inputs, i)
    }

    /** Lines 340-365. */
    method Admit(inputs: seq<Input>, i: nat) returns (p: Process<PageEntry>)
      requires i < |inputs| && Admitted(inputs, i)
      modifies `nff, `total, `readyQueue, fflist, processStats
      ensures Admitted(inputs, i + 1)
      ensures readyQueue == old(readyQueue) + [p] && fresh(p) && fresh(p.pageTable)
    {
      ghost var queue, procs := readyQueue, JobsOf(readyQueue);
      p := new Process(i, inputs[i], PageEntry(0, 0));
      assert p.pageTable[..] == EssentialTable(i, 0);
      LoadEssential(p, i);
      assert JobsOf(queue) == procs;
      readyQueue := readyQueue + [p];
      OneMoreAdmitted(inputs, i, queue, p);
    }

    lemma {:induction false} OneMoreAdmitted(inputs: seq<Input>, i: nat, queue: seq<Process<PageEntry>>,
                                             p: Process<PageEntry>)
      requires i < |inputs| && readyQueue == queue + [p] && dropped == [] && ListOk()
      requires Apart(queue) && p !in queue && p.pageTable !in Tables(queue)
      requires JobsOf(queue) == FirstProcs(inputs, i) && JobOf(p) == FirstProc(inputs, i)
      requires FF() == FreeAfter(10 * (i + 1)) && total == ZERO && processStats[..] == NoCounts(|inputs|)
      ensures Admitted(inputs, i + 1)
    {
      JobsOfSnoc(queue, p);
      assert FirstProcs(inputs, i + 1) == FirstProcs(inputs, i) + [JobOf(p)];
    }

    lemma {:induction false} NobodyAdmitted(inputs: seq<Input>)
      requires fflist.Length == USABLE_FRAMES == nff
      requires forall i | 0 <= i < nff :: fflist[i] == FrameEntry(i, NOBODY, -1)
      requires readyQueue == [] && dropped == [] && total == ZERO
      requires processStats.Length == |inputs| && forall i | 0 <= i < |inputs| :: processStats[i] == ZERO
      ensures Admitted(inputs, 0)
    {
      assert FF() == FreeAfter(0) && processStats[..] == NoCounts(|inputs|);
      assert JobsOf(readyQueue) == FirstProcs(inputs, 0);
    }

    lemma {:induction false} AllAdmitted(inputs: seq<Input>)
      requires InputsOk(inputs) && Admitted(inputs, |inputs|)
      ensures Valid() && Snapshot() == Deal(inputs, |inputs|, draw)
      ensures FramesAre(Snapshot(), AllFrames()) <==> |inputs| <= MAX_PROCESSES
    {
      assert readyQueue + dropped == readyQueue;
      DealtInOrder(inputs, |inputs|, draw);
      BeginRuns(inputs);
      FramesAreSoundExactly(inputs);
    }

    /** Lines 326-367, for any number of processes. */
    constructor (inputs: seq<Input>, draw: nat)
      requires InputsOk(inputs)
      ensures Valid() && this.draw == draw && Snapshot() == Deal(inputs, |inputs|, draw)
      ensures FramesAre(Snapshot(), AllFrames()) <==> |inputs| <= MAX_PROCESSES
      ensures fresh(fflist) && fresh(processStats) && forall p | p in readyQueue :: fresh(p) && fresh(p.pageTable)
    {
      fflist := new FrameEntry[USABLE_FRAMES](i => FrameEntry(i, NOBODY, -1));
      nff := USABLE_FRAMES;
      readyQueue, dropped := [], [];
      total, this.draw := ZERO, draw;
      processStats := new Counters[|inputs|](i => ZERO);
      new;
      NobodyAdmitted(inputs);
      for i := 0 to |inputs|
        modifies `nff, `total, `readyQueue, fflist, processStats
        invariant Admitted(inputs, i)
        invariant forall p | p in readyQueue :: fresh(p) && fresh(p.pageTable)
      {
        var p := Admit(inputs, i);
      }
      AllAdmitted(inputs);
    }
  }
}
