/** When LA10's searches fail, so that line 289 leaves a process behind. */
module AgingFailures {
  import opened PageTables
  import opened BinarySearch
  import opened Processes
  import opened ReplacementChoice
  import opened AgingSpec
  import opened AgingContent
  import opened AgingRuns
  import opened AgingStart

  // ----- One search -----

  ghost predicate NoCandidates(t: seq<PageEntry>) {
    forall i | ESSENTIAL_PAGES <= i < TABLE_SIZE :: !Candidate(t, i)
  }

  /** The search gets to its probe k, and that needs a frame which is not to be had. */
  ghost predicate StuckAt(l: Local, pid: int, pages: seq<nat>, draw: nat, k: nat)
    requires Sized(l) && PagesBelow(pages, TABLE_SIZE) && k < |pages|
  {
    var w := Walk(l, pid, pages[..k], draw);
    w.found && |w.at.ff| == MIN_FREE && !IsValid(w.at.table[pages[k]].entry) && NoCandidates(w.at.table)
  }

  ghost predicate Sticks(l: Local, pid: int, pages: seq<nat>, draw: nat)
    requires Sized(l) && PagesBelow(pages, TABLE_SIZE)
  {
    exists k: nat :: k < |pages| && StuckAt(l, pid, pages, draw, k)
  }

  lemma FirstProbeSticks(l: Local, pid: int, pages: seq<nat>, draw: nat)
    requires Sized(l) && PagesBelow(pages, TABLE_SIZE) && pages != []
    ensures !Probe(l, pid, pages[0], draw).found <==> StuckAt(l, pid, pages, draw, 0)
  {
    assert pages[..0] == [];
    NoFrameExactlyWhen(l.table, l.ff, pid, pages[0], draw);
  }

  lemma LaterProbeSticks(l: Local, pid: int, pages: seq<nat>, draw: nat, k: nat)
    requires Sized(l) && PagesBelow(pages, TABLE_SIZE) && 0 < k < |pages|
    requires Probe(l, pid, pages[0], draw).found
    ensures StuckAt(l, pid, pages, draw, k) <==> StuckAt(Probe(l, pid, pages[0], draw).at, pid, pages[1..], draw, k - 1)
  {
    assert pages[..k][0] == pages[0] && pages[..k][1..] == pages[1..][..k - 1];
  }

  /** A search fails exactly when it comes to a page that is missing while the list is at its
      minimum and every page that could be given up has been used throughout. */
  lemma {:induction false} WalkFailsExactlyWhen(l: Local, pid: int, pages: seq<nat>, draw: nat)
    requires Sized(l) && PagesBelow(pages, TABLE_SIZE)
    ensures !Walk(l, pid, pages, draw).found <==> Sticks(l, pid, pages, draw)
    decreases |pages|
  {
    if pages != [] {
      FirstProbeSticks(l, pid, pages, draw);
      var w := Probe(l, pid, pages[0], draw);
      if w.found {
        WalkFailsExactlyWhen(w.at, pid, pages[1..], draw);
        forall k: nat | 0 < k < |pages|
          ensures StuckAt(l, pid, pages, draw, k) <==> StuckAt(w.at, pid, pages[1..], draw, k - 1)
        {
          LaterProbeSticks(l, pid, pages, draw, k);
        }
        StuckLater(l, w.at, pid, pages, draw);
      }
    }
  }

  lemma StuckLater(l: Local, m: Local, pid: int, pages: seq<nat>, draw: nat)
    requires Sized(l) && Sized(m) && PagesBelow(pages, TABLE_SIZE) && pages != []
    requires !StuckAt(l, pid, pages, draw, 0)
    requires forall k: nat | 0 < k < |pages| ::
      StuckAt(l, pid, pages, draw, k) <==> StuckAt(m, pid, pages[1..], draw, k - 1)
    ensures Sticks(l, pid, pages, draw) <==> Sticks(m, pid, pages[1..], draw)
  {
    if k: nat :| k < |pages| && StuckAt(l, pid, pages, draw, k) {
      assert StuckAt(m, pid, pages[1..], draw, k - 1);
    }
    if k: nat :| k < |pages[1..]| && StuckAt(m, pid, pages[1..], draw, k) {
      assert StuckAt(l, pid, pages, draw, k + 1);
    }
  }

  lemma SearchFailsExactlyWhen(l: Local, pid: int, s: int, idx: int, draw: nat)
    requires Sized(l) && TableCovers(s)
    ensures PagesBelow(Probes(0, s - 1, idx), TABLE_SIZE)
    ensures !Search(l, pid, s, idx, draw).found <==> Sticks(l, pid, Probes(0, s - 1, idx), draw)
  {
    ProbesInRange(0, s - 1, idx, s);
    WalkFailsExactlyWhen(l, pid, Probes(0, s - 1, idx), draw);
  }

  // ----- A search with nothing to give up -----

  /** The different pages to be probed that are not in memory. */
  ghost function Missing(t: seq<PageEntry>, pages: seq<nat>): set<nat>
    requires PagesBelow(pages, |t|)
  {
    set p | p in pages && !IsValid(t[p].entry)
  }

  /** A probe makes no page that could be given up, and takes a frame from the list if and only if
      it misses its page. */
  lemma ProbeOfNothing(l: Local, pid: int, page: nat, draw: nat)
    requires Good(l) && page < TABLE_SIZE && NoCandidates(l.table)
    ensures var w, t := Probe(l, pid, page, draw), l.table;
      && (w.found <==> IsValid(t[page].entry) || |l.ff| > MIN_FREE)
      && (w.found ==> |w.at.ff| == |l.ff| - if IsValid(t[page].entry) then 0 else 1)
      && (w.found ==> NoCandidates(w.at.table))
      && (w.found ==> forall p: nat | p < TABLE_SIZE ::
            IsValid(w.at.table[p].entry) <==> p == page || IsValid(t[p].entry))
  {
    NoFrameExactlyWhen(l.table, l.ff, pid, page, draw);
    var w := Probe(l, pid, page, draw);
    if w.found {
      forall i | ESSENTIAL_PAGES <= i < TABLE_SIZE ensures !Candidate(w.at.table, i) {
        assert !Candidate(l.table, i);
      }
    }
  }

  lemma OneLessMissing(t: seq<PageEntry>, u: seq<PageEntry>, pages: seq<nat>)
    requires |t| == |u| == TABLE_SIZE && PagesBelow(pages, TABLE_SIZE) && pages != []
    requires forall p: nat | p < TABLE_SIZE :: IsValid(u[p].entry) <==> p == pages[0] || IsValid(t[p].entry)
    ensures |Missing(t, pages)| == |Missing(u, pages[1..])| + if IsValid(t[pages[0]].entry) then 0 else 1
  {
    assert pages == [pages[0]] + pages[1..];
    assert Missing(u, pages[1..]) == Missing(t, pages) - {pages[0]};
  }

  /** If no page could be given up, a search succeeds exactly when the list can spare a frame for
      each of the different pages it is going to miss. */
  lemma {:induction false} WalkOfNothing(l: Local, pid: int, pages: seq<nat>, draw: nat)
    requires Good(l) && PagesBelow(pages, TABLE_SIZE) && NoCandidates(l.table)
    ensures Walk(l, pid, pages, draw).found <==> |Missing(l.table, pages)| <= |l.ff| - MIN_FREE
    decreases |pages|
  {
    if pages == [] {
      assert Missing(l.table, pages) == {};
    } else {
      ProbeOfNothing(l, pid, pages[0], draw);
      ProbeKeepsFrames(l, pid, pages[0], draw);
      var w := Probe(l, pid, pages[0], draw);
      if w.found {
        OneLessMissing(l.table, w.at.table, pages);
        WalkOfNothing(w.at, pid, pages[1..], draw);
      } else {
        assert pages[0] in Missing(l.table, pages);
      }
    }
  }

  ghost function Different(pages: seq<nat>): set<nat> {
    set p | p in pages
  }

  /** So it is for a process that has only its essential pages, as every process has in its first
      search: it needs a frame for each different page that it probes. */
  lemma FirstSearchFoundExactlyWhen(l: Local, pid: int, s: int, idx: int, draw: nat)
    requires Good(l) && TableCovers(s)
    requires forall i | ESSENTIAL_PAGES <= i < TABLE_SIZE :: !IsValid(l.table[i].entry)
    ensures Search(l, pid, s, idx, draw).found <==> |Different(Probes(0, s - 1, idx))| <= |l.ff| - MIN_FREE
  {
    var pages := Probes(0, s - 1, idx);
    ProbesInRange(0, s - 1, idx, s);
    WalkOfNothing(l, pid, pages, draw);
    assert Missing(l.table, pages) == Different(pages);
  }

  // ----- A run in which a process is dropped -----

  /** The different pages that a search for the first of r + 1 elements probes. */
  ghost function PagesProbed(r: int): set<nat>
    requires r >= 0
  {
    Different(Probes(0, r, 0))
  }

  lemma {:induction false} PagesGoDown(r: int, p: nat)
    requires r >= 1 && p in Probes(0, r, 0)
    ensures p <= PageOf(r / 2)
    decreases r
  {
    assert Probes(0, r, 0) == [PageOf(r / 2)] + Probes(0, r / 2, 0);
    if p != PageOf(r / 2) { PagesGoDown(r / 2, p); }
  }

  /** Halving the range moves the probe to another page as long as the half spans two pages. */
  lemma OneMorePage(r: int)
    requires r >= 4096
    ensures |PagesProbed(r)| == |PagesProbed(r / 2)| + 1
  {
    var half := r / 2;
    assert Probes(0, r, 0) == [PageOf(half)] + Probes(0, half, 0);
    forall p | p in Probes(0, half, 0) ensures p < PageOf(half) {
      PagesGoDown(half, p);
      assert PageOf(half / 2) < PageOf(half);
    }
    assert PagesProbed(r) == PagesProbed(half) + {PageOf(half)};
  }

  lemma {:induction false} ManyPages(r: int, k: nat)
    requires r >= 2048 * Pow2(k)
    ensures |PagesProbed(r)| > k
    decreases k
  {
    if k == 0 {
      assert PageOf(r / 2) in PagesProbed(r);
    } else {
      PowPositive(k - 1);
      assert r / 2 >= 2048 * Pow2(k - 1);
      OneMorePage(r);
      ManyPages(r / 2, k - 1);
    }
  }

  lemma BeginReady(inputs: seq<Input>)
    requires inputs != [] && InputsOk(inputs)
    ensures Ready(Begin(inputs))
  {
    FirstProcIsOk(inputs, 0);
  }

  /** With 1128 processes of which the first looks for the first of its more than half a million
      elements, the first search fails and its process is dropped. */
  lemma BigProcessIsDropped(inputs: seq<Input>, draw: nat)
    requires |inputs| == MAX_PROCESSES && InputsOk(inputs)
    requires inputs[0].s > 0x80000 && inputs[0].searches[0] == 0
    ensures Ready(Begin(inputs)) && !FirstSearch(Begin(inputs), draw).found
    ensures |Iterate(Begin(inputs), draw).dropped| == 1
  {
    BeginReady(inputs);
    BigSearchFails(inputs, draw);
  }

  lemma BigSearchFails(inputs: seq<Input>, draw: nat)
    requires |inputs| == MAX_PROCESSES && Ready(Begin(inputs))
    requires inputs[0].s > 0x80000 && inputs[0].searches != [] && inputs[0].searches[0] == 0
    ensures !FirstSearch(Begin(inputs), draw).found
  {
    var s := inputs[0].s;
    assert Pow2(4) == 16 && Pow2(8) == 256;
    ManyPages(s - 1, 8);
    EssentialIsGood(0, ESSENTIAL_PAGES);
    FirstSearchFoundExactlyWhen(LocalOf(Begin(inputs)), 0, s, 0, draw);
  }

  lemma SomeRunDropsAProcess(inputs: seq<Input>, draw: nat)
    requires inputs == seq(MAX_PROCESSES, i => Input(2000000, [0]))
    ensures InputsOk(inputs) && Ready(Begin(inputs)) && |Iterate(Begin(inputs), draw).dropped| == 1
  {
    BigProcessIsDropped(inputs, draw);
  }

  // ----- Whole runs -----

  /** Every search of the run is found. */
  ghost predicate AllFound(w: World, draw: nat)
    requires Running(w)
    decreases SearchesLeft(w.ready)
  {
    w.ready == [] ||
    (FirstSearch(w, draw).found && (IterateGoesOn(w, draw); AllFound(Iterate(w, draw), draw)))
  }

  lemma OneIteration(w: World, draw: nat)
    requires Running(w) && w.ready != []
    ensures if FirstSearch(w, draw).found then Iterate(w, draw).dropped == w.dropped
            else |Iterate(w, draw).dropped| == |w.dropped| + 1
  {
  }

  lemma {:induction false} DroppedStay(w: World, draw: nat)
    requires Running(w)
    ensures |w.dropped| <= |Finished(w, draw).dropped|
    decreases SearchesLeft(w.ready)
  {
    if w.ready != [] {
      OneIteration(w, draw);
      IterateGoesOn(w, draw);
      DroppedStay(Iterate(w, draw), draw);
    }
  }

  /** A run leaves nobody behind exactly if no search of it fails. */
  lemma {:induction false} NobodyDroppedExactlyWhen(w: World, draw: nat)
    requires Running(w)
    ensures Finished(w, draw).dropped == w.dropped <==> AllFound(w, draw)
    decreases SearchesLeft(w.ready)
  {
    if w.ready != [] {
      OneIteration(w, draw);
      IterateGoesOn(w, draw);
      if FirstSearch(w, draw).found {
        NobodyDroppedExactlyWhen(Iterate(w, draw), draw);
      } else {
        DroppedStay(Iterate(w, draw), draw);
      }
    }
  }

  // ----- What a dropped process takes with it -----

  /** Essential pages are never given up. */
  ghost predicate HasEssentials(t: seq<PageEntry>) {
    |t| == TABLE_SIZE && forall k | 0 <= k < ESSENTIAL_PAGES :: IsValid(t[k].entry)
  }

  lemma ProbeKeepsEssentials(l: Local, pid: int, page: nat, draw: nat)
    requires Good(l) && page < TABLE_SIZE && HasEssentials(l.table)
    ensures HasEssentials(Probe(l, pid, page, draw).at.table)
  {
    if !IsValid(l.table[page].entry) && Probe(l, pid, page, draw).found { ProbeLoads(l, pid, page, draw); }
  }

  lemma {:induction false} WalkKeepsEssentials(l: Local, pid: int, pages: seq<nat>, draw: nat)
    requires Good(l) && PagesBelow(pages, TABLE_SIZE) && HasEssentials(l.table)
    ensures HasEssentials(Walk(l, pid, pages, draw).at.table)
    decreases |pages|
  {
    if pages != [] {
      ProbeKeepsEssentials(l, pid, pages[0], draw);
      ProbeKeepsFrames(l, pid, pages[0], draw);
      var w := Probe(l, pid, pages[0], draw);
      if w.found { WalkKeepsEssentials(w.at, pid, pages[1..], draw); }
    }
  }

  ghost predicate AllHaveEssentials(w: World) {
    && (forall i | 0 <= i < |w.ready| :: HasEssentials(w.ready[i].table))
    && (forall i | 0 <= i < |w.dropped| :: HasEssentials(w.dropped[i].table))
  }

  lemma SearchKeepsEssentials(w: World, draw: nat)
    requires Running(w) && w.ready != [] && HasEssentials(w.ready[0].table)
    ensures HasEssentials(FirstSearch(w, draw).at.table)
  {
    var p := w.ready[0];
    ProbesInRange(0, p.s - 1, p.searches[p.done], p.s);
    WalkKeepsEssentials(LocalOf(w), p.id, Probes(0, p.s - 1, p.searches[p.done]), draw);
  }

  lemma IterateKeepsEssentials(w: World, draw: nat)
    requires Running(w) && AllHaveEssentials(w)
    ensures AllHaveEssentials(Iterate(w, draw))
  {
    if w.ready != [] { SearchKeepsEssentials(w, draw); }
  }

  lemma {:induction false} RunKeepsEssentials(w: World, draw: nat)
    requires Running(w) && AllHaveEssentials(w)
    ensures AllHaveEssentials(Finished(w, draw))
    decreases SearchesLeft(w.ready)
  {
    if w.ready != [] {
      IterateKeepsEssentials(w, draw);
      IterateGoesOn(w, draw);
      RunKeepsEssentials(Iterate(w, draw), draw);
    }
  }

  lemma {:induction false} DroppedHold(ps: seq<Proc>)
    requires forall i | 0 <= i < |ps| :: HasEssentials(ps[i].table)
    ensures HeldBy(ps) == multiset{} <==> ps == []
  {
    if ps != [] {
      IsHeld(ps[0].table, 0);
      assert FrameOf(ps[0].table[0].entry, SPAN) in HeldBy(ps);
    }
  }

  ghost predicate Complete(w: World) {
    w.dropped == [] && AllHaveEssentials(w)
  }

  lemma BeginIsComplete(inputs: seq<Input>)
    ensures Complete(Begin(inputs))
  {
  }

  /** All frames that are somewhere when a run begins are free when it ends exactly if no search of
      it fails: a process that is left behind keeps at least its essential pages. */
  lemma FreeExactlyWhen(w: World, draw: nat)
    requires Running(w) && Complete(w)
    ensures Listed(Finished(w, draw).ff) == FramesIn(w) <==> AllFound(w, draw)
  {
    RunKeepsFrames(w, draw);
    RunKeepsEssentials(w, draw);
    var e := Finished(w, draw);
    NobodyElse(Listed(e.ff), HeldBy(e.dropped), FramesIn(w));
    DroppedHold(e.dropped);
    NobodyDroppedExactlyWhen(w, draw);
  }

  ghost predicate EverySearchFound(inputs: seq<Input>, draw: nat)
    requires InputsOk(inputs)
  {
    BeginRuns(inputs);
    AllFound(Begin(inputs), draw)
  }

  lemma BeginFreeExactlyWhen(inputs: seq<Input>, draw: nat)
    requires InputsOk(inputs)
    ensures Listed(End(inputs, draw).ff) == FramesIn(Begin(inputs)) <==> EverySearchFound(inputs, draw)
  {
    BeginIsComplete(inputs);
    BeginRuns(inputs);
    FreeExactlyWhen(Begin(inputs), draw);
  }

  /** For the whole program: all 12288 frames are free at its end exactly if no search failed. */
  lemma FramesComeBackExactlyWhen(inputs: seq<Input>, draw: nat)
    requires InputsOk(inputs) && |inputs| <= MAX_PROCESSES
    ensures Listed(End(inputs, draw).ff) == AllFrames() <==> EverySearchFound(inputs, draw)
  {
    FramesAreSoundExactly(inputs);
    BeginFreeExactlyWhen(inputs, draw);
  }
}
