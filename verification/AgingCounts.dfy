/** What the counters of LA10 count. */
module AgingCounts {
  import opened PageTables
  import opened BinarySearch
  import opened Processes
  import opened ReplacementChoice
  import opened AgingSpec
  import opened AgingRuns
  import opened AgingFailures

  // ----- Accesses and faults -----

  /** Every probe is an access, and a fault exactly if its page is not there. */
  lemma ProbeIsCounted(l: Local, pid: int, page: nat, draw: nat)
    requires Sized(l) && page < TABLE_SIZE
    ensures var m, fault := Probe(l, pid, page, draw).at, !IsValid(l.table[page].entry);
      && m.mine.accesses == l.mine.accesses + 1 && m.total.accesses == l.total.accesses + 1
      && m.mine.faults == (if fault then l.mine.faults + 1 else l.mine.faults)
      && m.total.faults == if fault then l.total.faults + 1 else l.total.faults
  {
  }

  /** A fault is met from the list as long as that is above its minimum, and by a replacement after
      that; at its minimum the list keeps its length. */
  lemma FaultIsMet(l: Local, pid: int, page: nat, draw: nat)
    requires Sized(l) && page < TABLE_SIZE && !IsValid(l.table[page].entry)
    ensures var w, spare := Probe(l, pid, page, draw), |l.ff| > MIN_FREE;
      && (spare ==> w.found && w.at.ff == l.ff[1..] && w.at.mine.replacements == l.mine.replacements)
      && (spare ==> w.at.table[page].entry == l.ff[0].frameNo + 0xC000)
      && (!spare && w.found ==> |w.at.ff| == |l.ff| && w.at.mine.replacements == l.mine.replacements + 1)
      && (!w.found ==> w.at.ff == l.ff && w.at.table == l.table && w.at.mine.replacements == l.mine.replacements)
  {
    ChoiceIsBest(l.ff, pid, page, draw);
  }

  ghost function Held(l: Local): nat {
    |Holding(l.table)|
  }

  lemma FramesCount(l: Local)
    ensures |FramesOf(l)| == |l.ff| + Held(l)
  {
    assert |Listed(l.ff)| == |l.ff|;
  }

  /** A fault that is met brings one frame in, and a replacement takes one out. */
  lemma ProbeCountsLoads(l: Local, pid: int, page: nat, draw: nat)
    requires Good(l) && page < TABLE_SIZE
    ensures var w := Probe(l, pid, page, draw);
      Held(w.at) + (w.at.mine.replacements - l.mine.replacements)
      == Held(l) + (w.at.mine.faults - l.mine.faults) - if w.found then 0 else 1
  {
    var w := Probe(l, pid, page, draw);
    ProbeKeepsFrames(l, pid, page, draw);
    FramesCount(l);
    FramesCount(w.at);
    ProbeIsCounted(l, pid, page, draw);
    if !IsValid(l.table[page].entry) { FaultIsMet(l, pid, page, draw); }
  }

  /** A search that is found has as many accesses as it has probes, and one fault for each frame
      that it takes; a search that is not found has one fault more than that. */
  lemma {:induction false} WalkCountsLoads(l: Local, pid: int, pages: seq<nat>, draw: nat)
    requires Good(l) && PagesBelow(pages, TABLE_SIZE)
    ensures var w := Walk(l, pid, pages, draw);
      && w.at.mine.accesses <= l.mine.accesses + |pages|
      && (w.found ==> w.at.mine.accesses == l.mine.accesses + |pages|)
      && Held(w.at) + (w.at.mine.replacements - l.mine.replacements)
         == Held(l) + (w.at.mine.faults - l.mine.faults) - if w.found then 0 else 1
    decreases |pages|
  {
    if pages != [] {
      ProbeIsCounted(l, pid, pages[0], draw);
      ProbeCountsLoads(l, pid, pages[0], draw);
      ProbeKeepsFrames(l, pid, pages[0], draw);
      var w := Probe(l, pid, pages[0], draw);
      if w.found { WalkCountsLoads(w.at, pid, pages[1..], draw); }
    }
  }

  lemma SearchCountsLoads(l: Local, pid: int, s: int, idx: int, draw: nat)
    requires Good(l) && TableCovers(s)
    ensures var w, n := Search(l, pid, s, idx, draw), |Probes(0, s - 1, idx)|;
      && w.at.mine.accesses <= l.mine.accesses + n
      && (w.found ==> w.at.mine.accesses == l.mine.accesses + n)
      && Held(w.at) + (w.at.mine.replacements - l.mine.replacements)
         == Held(l) + (w.at.mine.faults - l.mine.faults) - if w.found then 0 else 1
  {
    var pages := Probes(0, s - 1, idx);
    ProbesInRange(0, s - 1, idx, s);
    WalkCountsLoads(l, pid, pages, draw);
    WalkKeepsFrames(l, pid, pages, draw);
    AgingKeepsFrames(Walk(l, pid, pages, draw).at.table);
  }

  // ----- The four attempts -----

  /** A replacement raises the counter of the first of the four classes of which there is an entry
      in the list: entries of this very page, entries of nobody, entries of this process, all. */
  lemma ReplacementIsCounted(l: Local, pid: int, page: nat, draw: nat)
    requires Sized(l) && page < TABLE_SIZE && !IsValid(l.table[page].entry)
    requires |l.ff| == MIN_FREE && Probe(l, pid, page, draw).found
    ensures var same := exists i :: 0 <= i < |l.ff| && l.ff[i].lastOwner == pid && l.ff[i].pgNo == page;
      var free := exists i :: 0 <= i < |l.ff| && l.ff[i].lastOwner == -1;
      var own := exists i :: 0 <= i < |l.ff| && l.ff[i].lastOwner == pid;
      var a, b := l.mine, Probe(l, pid, page, draw).at.mine;
      && b.attempt1 == (if same then a.attempt1 + 1 else a.attempt1)
      && b.attempt2 == (if !same && free then a.attempt2 + 1 else a.attempt2)
      && b.attempt3 == (if !same && !free && own then a.attempt3 + 1 else a.attempt3)
      && b.attempt4 == (if !same && !free && !own then a.attempt4 + 1 else a.attempt4)
      && b.replacements == a.replacements + 1
  {
    ChoiceByOwner(l.ff, pid, page, draw);
  }

  /** Nothing else raises any of them. */
  lemma OthersAreNotCounted(l: Local, pid: int, page: nat, draw: nat)
    requires Sized(l) && page < TABLE_SIZE
    requires IsValid(l.table[page].entry) || |l.ff| > MIN_FREE || !Probe(l, pid, page, draw).found
    ensures var a, b := l.mine, Probe(l, pid, page, draw).at.mine;
      && b.replacements == a.replacements && b.attempt1 == a.attempt1 && b.attempt2 == a.attempt2
      && b.attempt3 == a.attempt3 && b.attempt4 == a.attempt4
  {
  }

  // ----- A whole run -----

  function ProbesFrom(s: int, searches: seq<int>, done: nat): nat
    requires done <= |searches|
    decreases |searches| - done
  {
    if done == |searches| then 0
    else |Probes(0, s - 1, searches[done])| + ProbesFrom(s, searches, done + 1)
  }

  /** The probes of all searches that these processes still have to make. */
  function ProbesLeft(ps: seq<Proc>): nat
    requires forall i | 0 <= i < |ps| :: ps[i].done <= |ps[i].searches|
  {
    if ps == [] then 0 else ProbesFrom(ps[0].s, ps[0].searches, ps[0].done) + ProbesLeft(ps[1..])
  }

  lemma {:induction false} ProbesLeftSnoc(ps: seq<Proc>, p: Proc)
    requires p.done <= |p.searches| && forall i | 0 <= i < |ps| :: ps[i].done <= |ps[i].searches|
    ensures ProbesLeft(ps + [p]) == ProbesLeft(ps) + ProbesFrom(p.s, p.searches, p.done)
  {
    if ps == [] {
      assert ps + [p] == [p];
    } else {
      assert (ps + [p])[1..] == ps[1..] + [p];
      ProbesLeftSnoc(ps[1..], p);
    }
  }

  lemma SearchAccesses(w: World, draw: nat)
    requires Ready(w) && Good(LocalOf(w)) && FirstSearch(w, draw).found
    ensures var p := w.ready[0];
      FirstSearch(w, draw).at.total.accesses == w.total.accesses + |Probes(0, p.s - 1, p.searches[p.done])|
  {
    var p := w.ready[0];
    SearchGains(w, draw);
    SearchCountsLoads(LocalOf(w), p.id, p.s, p.searches[p.done], draw);
  }

  lemma QueueIsCounted(ready: seq<Proc>, next: seq<Proc>, p: Proc)
    requires ready != [] && forall i | 0 <= i < |ready| :: ready[i].done <= |ready[i].searches|
    requires ready[0].done < |ready[0].searches|
    requires p.s == ready[0].s && p.searches == ready[0].searches && p.done == ready[0].done + 1
    requires next == ready[1..] + if p.done == |p.searches| then [] else [p]
    ensures forall i | 0 <= i < |next| :: next[i].done <= |next[i].searches|
    ensures ProbesLeft(next) + |Probes(0, p.s - 1, p.searches[p.done - 1])| == ProbesLeft(ready)
  {
    assert ProbesFrom(p.s, p.searches, p.done - 1)
        == |Probes(0, p.s - 1, p.searches[p.done - 1])| + ProbesFrom(p.s, p.searches, p.done);
    if p.done == |p.searches| {
      assert next == ready[1..];
    } else {
      ProbesLeftSnoc(ready[1..], p);
    }
  }

  lemma IterateCountsProbes(w: World, draw: nat)
    requires Running(w) && w.ready != [] && FirstSearch(w, draw).found
    ensures var next := Iterate(w, draw);
      && (forall i | 0 <= i < |next.ready| :: next.ready[i].done <= |next.ready[i].searches|)
      && next.total.accesses + ProbesLeft(next.ready) == w.total.accesses + ProbesLeft(w.ready)
  {
    SearchAccesses(w, draw);
    IterateRotates(w, draw);
    var p, r := w.ready[0], FirstSearch(w, draw);
    QueueIsCounted(w.ready, Iterate(w, draw).ready, p.(table := r.at.table, done := p.done + 1));
  }

  /** A run in which no search fails has exactly one access for every probe of every search. */
  lemma {:induction false} RunCountsEveryProbe(w: World, draw: nat)
    requires Running(w) && AllFound(w, draw)
    ensures Finished(w, draw).total.accesses == w.total.accesses + ProbesLeft(w.ready)
    decreases SearchesLeft(w.ready)
  {
    if w.ready != [] {
      IterateGoesOn(w, draw);
      IterateCountsProbes(w, draw);
      RunCountsEveryProbe(Iterate(w, draw), draw);
    }
  }
}
