/** The main loop of LA10 on values, and what every run of it keeps. */
module AgingRuns {
  import opened PageTables
  import opened BinarySearch
  import opened Processes
  import opened ReplacementChoice
  import opened AgingSpec

  type Proc = Job<PageEntry>

  /** `dropped` are the processes that line 289 leaves behind: in no queue, their frames not freed. */
  datatype World = World(
    ready: seq<Proc>, dropped: seq<Proc>, ff: seq<FrameEntry>, total: Counters, stats: seq<Counters>)

  ghost predicate ProcOk(p: Proc, n: nat) {
    && |p.table| == TABLE_SIZE && GoodTable(p.table) && TableCovers(p.s)
    && p.done < |p.searches| && p.id < n
    && (forall k | 0 <= k < |p.searches| :: 0 <= p.searches[k] < p.s)
  }

  function LocalOf(w: World): Local
    requires w.ready != [] && w.ready[0].id < |w.stats|
  {
    Local(w.ready[0].table, w.ff, w.total, w.stats[w.ready[0].id])
  }

  ghost predicate Ready(w: World) {
    w.ready != [] && ProcOk(w.ready[0], |w.stats|) && |w.ff| >= MIN_FREE
  }

  /** `BS` for the first ready process. */
  ghost function FirstSearch(w: World, draw: nat): (r: Walked)
    requires Ready(w)
    ensures Sized(r.at)
  {
    var p := w.ready[0];
    Search(LocalOf(w), p.id, p.s, p.searches[p.done], draw)
  }

  function Freed(frames: seq<int>): (ff: seq<FrameEntry>)
    ensures |ff| == |frames| && forall i | 0 <= i < |ff| :: ff[i] == FrameEntry(frames[i], NOBODY, -1)
  {
    seq(|frames|, i requires 0 <= i < |frames| => FrameEntry(frames[i], NOBODY, -1))
  }

  /** What `finish_process` puts at the end of the list. */
  function Returned(t: seq<PageEntry>): seq<FrameEntry> {
    Freed(HeldFrames(Entries(t), SPAN))
  }

  ghost function Searched(w: World, r: Walked): World
    requires Ready(w)
  {
    w.(ready := w.ready[1..], ff := r.at.ff, total := r.at.total, stats := w.stats[w.ready[0].id := r.at.mine])
  }

  /** One iteration of lines 373-385. */
  ghost function Iterate(w: World, draw: nat): World
    requires w.ready != [] ==> Ready(w)
  {
    if w.ready == [] then w
    else
      var r := FirstSearch(w, draw);
      var p := w.ready[0].(table := r.at.table);
      var v := Searched(w, r);
      if !r.found then v.(dropped := v.dropped + [p])
      else if p.done + 1 == |p.searches| then v.(ff := v.ff + Returned(p.table))
      else v.(ready := v.ready + [p.(done := p.done + 1)])
  }

  /** A process that has searches left goes to the tail of the queue, one that has none leaves it,
      and one whose search failed is nowhere; the others move up. */
  lemma IterateRotates(w: World, draw: nat)
    requires Ready(w)
    ensures var r, p, next := FirstSearch(w, draw), w.ready[0], Iterate(w, draw);
      var q := p.(table := r.at.table, done := p.done + 1);
      && (!r.found ==> next.ready == w.ready[1..] && next.dropped == w.dropped + [p.(table := r.at.table)])
      && (r.found ==> next.dropped == w.dropped)
      && (r.found && q.done == |q.searches| ==> next.ready == w.ready[1..] && next.ff == r.at.ff + Returned(q.table))
      && (r.found && q.done < |q.searches| ==> next.ready == w.ready[1..] + [q] && next.ff == r.at.ff)
  {
  }

  // ----- Frames -----

  function HeldBy(ps: seq<Proc>): multiset<int> {
    if ps == [] then multiset{} else Holding(ps[0].table) + HeldBy(ps[1..])
  }

  lemma {:induction false} HeldBySnoc(ps: seq<Proc>, p: Proc)
    ensures HeldBy(ps + [p]) == HeldBy(ps) + Holding(p.table)
  {
    if ps == [] {
      assert ps + [p] == [p];
    } else {
      assert (ps + [p])[1..] == ps[1..] + [p];
      HeldBySnoc(ps[1..], p);
    }
  }

  lemma {:induction false} HeldByIncludes(ps: seq<Proc>, k: nat)
    requires k < |ps|
    ensures Holding(ps[k].table) <= HeldBy(ps)
  {
    if k > 0 { HeldByIncludes(ps[1..], k - 1); }
  }

  ghost predicate ProcsOk(w: World) {
    && (forall i | 0 <= i < |w.ready| :: ProcOk(w.ready[i], |w.stats|))
    && (forall i | 0 <= i < |w.dropped| :: |w.dropped[i].table| == TABLE_SIZE && GoodTable(w.dropped[i].table))
  }

  ghost function FramesIn(w: World): multiset<int> {
    Listed(w.ff) + HeldBy(w.ready) + HeldBy(w.dropped)
  }

  ghost predicate FramesAre(w: World, all: multiset<int>) {
    GoodList(w.ff) && |w.ff| >= MIN_FREE && FramesIn(w) == all
  }

  /** The counters of the run are the sums of those of the processes, and every replacement was
      one of the four attempts. */
  function Add(a: Counters, b: Counters): Counters {
    Counters(a.accesses + b.accesses, a.faults + b.faults, a.replacements + b.replacements,
             a.attempt1 + b.attempt1, a.attempt2 + b.attempt2, a.attempt3 + b.attempt3, a.attempt4 + b.attempt4)
  }

  function Sum(stats: seq<Counters>): Counters {
    if stats == [] then ZERO else Add(stats[0], Sum(stats[1..]))
  }

  /** Every replacement was one of the four attempts. */
  ghost predicate Balanced(stats: seq<Counters>) {
    forall i | 0 <= i < |stats| ::
      && stats[i].replacements == stats[i].attempt1 + stats[i].attempt2 + stats[i].attempt3 + stats[i].attempt4
      && stats[i].replacements <= stats[i].faults <= stats[i].accesses
  }

  ghost predicate CountersOk(w: World) {
    w.total == Sum(w.stats) && Balanced(w.stats)
  }

  /** What any run keeps, whatever frames it began with. */
  ghost predicate Running(w: World) {
    ProcsOk(w) && GoodList(w.ff) && |w.ff| >= MIN_FREE && CountersOk(w)
  }

  /** Every frame is in the list or held by exactly one process, and the list is never shorter
      than its minimum. */
  ghost predicate Inv(w: World) {
    Running(w) && FramesIn(w) == AllFrames()
  }

  /** What `b` has more than `a`, component by component, `d` has more than `c`. */
  predicate SameGain(a: Counters, b: Counters, c: Counters, d: Counters) {
    && b.accesses - a.accesses == d.accesses - c.accesses
    && b.faults - a.faults == d.faults - c.faults
    && b.replacements - a.replacements == d.replacements - c.replacements
    && b.attempt1 - a.attempt1 == d.attempt1 - c.attempt1
    && b.attempt2 - a.attempt2 == d.attempt2 - c.attempt2
    && b.attempt3 - a.attempt3 == d.attempt3 - c.attempt3
    && b.attempt4 - a.attempt4 == d.attempt4 - c.attempt4
  }

  /** From `a` to `b` every replacement was one of the four attempts. */
  predicate BalancedGain(a: Counters, b: Counters) {
    && b.replacements - a.replacements
       == b.attempt1 - a.attempt1 + b.attempt2 - a.attempt2 + b.attempt3 - a.attempt3 + b.attempt4 - a.attempt4
    && b.replacements - a.replacements <= b.faults - a.faults <= b.accesses - a.accesses
  }

  lemma ChargeBalances(c: Counters, attempt: nat)
    requires attempt <= 4
    ensures BalancedGain(c, Charge(Access(c, true), attempt))
  {
  }

  lemma ChargesAlike(c: Counters, d: Counters, attempt: nat)
    ensures SameGain(c, Charge(Access(c, true), attempt), d, Charge(Access(d, true), attempt))
  {
  }

  lemma ProbeCounts(l: Local, pid: int, page: nat, draw: nat)
    requires Sized(l) && page < TABLE_SIZE
    ensures var w := Probe(l, pid, page, draw);
      BalancedGain(l.mine, w.at.mine) && SameGain(l.total, w.at.total, l.mine, w.at.mine)
  {
    var g := GetFrame(l.table, l.ff, pid, page, draw);
    if !IsValid(l.table[page].entry) && g.Got? {
      assert g.attempt <= 4 by { ChoiceIsBest(l.ff, pid, page, draw); }
      ChargeBalances(l.mine, g.attempt);
      ChargesAlike(l.total, l.mine, g.attempt);
    }
  }

  lemma {:induction false} WalkCounts(l: Local, pid: int, pages: seq<nat>, draw: nat)
    requires Sized(l) && PagesBelow(pages, TABLE_SIZE)
    ensures var w := Walk(l, pid, pages, draw);
      BalancedGain(l.mine, w.at.mine) && SameGain(l.total, w.at.total, l.mine, w.at.mine)
    decreases |pages|
  {
    if pages != [] {
      ProbeCounts(l, pid, pages[0], draw);
      var w := Probe(l, pid, pages[0], draw);
      if w.found { WalkCounts(w.at, pid, pages[1..], draw); }
    }
  }

  lemma {:induction false} SumUpdate(stats: seq<Counters>, i: nat, c: Counters)
    requires i < |stats|
    ensures SameGain(Sum(stats), Sum(stats[i := c]), stats[i], c)
    decreases |stats|
  {
    if i == 0 {
      assert stats[0 := c][1..] == stats[1..];
    } else {
      assert stats[i := c][1..] == stats[1..][i - 1 := c];
      SumUpdate(stats[1..], i - 1, c);
    }
  }

  lemma SearchGains(w: World, draw: nat)
    requires Ready(w)
    ensures var r := FirstSearch(w, draw).at;
      && BalancedGain(w.stats[w.ready[0].id], r.mine)
      && SameGain(w.total, r.total, w.stats[w.ready[0].id], r.mine)
  {
    var p := w.ready[0];
    ProbesInRange(0, p.s - 1, p.searches[p.done], p.s);
    WalkCounts(LocalOf(w), p.id, Probes(0, p.s - 1, p.searches[p.done]), draw);
  }

  lemma TotalFollows(stats: seq<Counters>, i: nat, c: Counters, total: Counters)
    requires i < |stats| && SameGain(Sum(stats), total, stats[i], c)
    ensures total == Sum(stats[i := c])
  {
    SumUpdate(stats, i, c);
  }

  /** So in the whole run, too, every replacement was one of the four attempts. */
  lemma {:induction false} TotalIsBalanced(stats: seq<Counters>)
    requires Balanced(stats)
    ensures Balanced([Sum(stats)])
  {
    if stats != [] {
      TotalIsBalanced(stats[1..]);
      assert [Sum(stats[1..])][0] == Sum(stats[1..]) && Balanced([stats[0]]);
    }
  }

  lemma StaysBalanced(stats: seq<Counters>, i: nat, c: Counters)
    requires i < |stats| && Balanced(stats) && BalancedGain(stats[i], c)
    ensures Balanced(stats[i := c])
  {
  }

  lemma SearchCounts(w: World, draw: nat)
    requires Ready(w) && CountersOk(w)
    ensures CountersOk(Searched(w, FirstSearch(w, draw)))
  {
    SearchGains(w, draw);
    var r := FirstSearch(w, draw).at;
    TotalFollows(w.stats, w.ready[0].id, r.mine, r.total);
    StaysBalanced(w.stats, w.ready[0].id, r.mine);
  }

  lemma SearchMovesFrames(w: World, draw: nat, all: multiset<int>)
    requires ProcsOk(w) && FramesAre(w, all) && w.ready != []
    ensures var r := FirstSearch(w, draw);
      && Good(r.at)
      && Listed(r.at.ff) + Holding(r.at.table) + HeldBy(w.ready[1..]) + HeldBy(w.dropped) == all
  {
    var p := w.ready[0];
    SearchKeepsFrames(LocalOf(w), p.id, p.s, p.searches[p.done], draw);
    var mine, others, dropped := Holding(p.table), HeldBy(w.ready[1..]), HeldBy(w.dropped);
    assert Listed(w.ff) + (mine + others) + dropped == (Listed(w.ff) + mine) + others + dropped;
  }

  lemma {:induction false} HeldAreGood(e: seq<int>)
    ensures forall i | 0 <= i < |HeldFrames(e, SPAN)| :: 0 <= HeldFrames(e, SPAN)[i] < SPAN
  {
    if e != [] { HeldAreGood(e[1..]); }
  }

  lemma ReturnedFrames(ff: seq<FrameEntry>, t: seq<PageEntry>)
    requires GoodList(ff)
    ensures GoodList(ff + Returned(t)) && Listed(ff + Returned(t)) == Listed(ff) + Holding(t)
  {
    var e := Entries(t);
    HeldAreGood(e);
    FramesInOrder(e, SPAN);
    assert FrameNos(ff + Returned(t)) == FrameNos(ff) + HeldFrames(e, SPAN);
  }

  lemma DroppedKeepsFrames(v: World, p: Proc, all: multiset<int>)
    requires Listed(v.ff) + Holding(p.table) + HeldBy(v.ready) + HeldBy(v.dropped) == all
    requires GoodList(v.ff) && |v.ff| >= MIN_FREE
    ensures FramesAre(v.(dropped := v.dropped + [p]), all)
  {
    HeldBySnoc(v.dropped, p);
    Rearrange(Listed(v.ff), Holding(p.table), HeldBy(v.ready), HeldBy(v.dropped));
  }

  lemma Rearrange(a: multiset<int>, b: multiset<int>, c: multiset<int>, d: multiset<int>)
    ensures a + b + c + d == a + c + (d + b) == a + (c + b) + d
  {
  }

  lemma QueuedKeepsFrames(v: World, p: Proc, all: multiset<int>)
    requires Listed(v.ff) + Holding(p.table) + HeldBy(v.ready) + HeldBy(v.dropped) == all
    requires GoodList(v.ff) && |v.ff| >= MIN_FREE
    ensures FramesAre(v.(ready := v.ready + [p]), all)
  {
    HeldBySnoc(v.ready, p);
    Rearrange(Listed(v.ff), Holding(p.table), HeldBy(v.ready), HeldBy(v.dropped));
  }

  lemma FinishedKeepsFrames(v: World, t: seq<PageEntry>, all: multiset<int>)
    requires Listed(v.ff) + Holding(t) + HeldBy(v.ready) + HeldBy(v.dropped) == all
    requires GoodList(v.ff) && |v.ff| >= MIN_FREE
    ensures FramesAre(v.(ff := v.ff + Returned(t)), all)
  {
    ReturnedFrames(v.ff, t);
  }

  lemma IterateKeepsFrames(w: World, draw: nat, all: multiset<int>)
    requires ProcsOk(w) && FramesAre(w, all) && w.ready != []
    ensures FramesAre(Iterate(w, draw), all)
  {
    var r := FirstSearch(w, draw);
    var p := w.ready[0].(table := r.at.table);
    var v := Searched(w, r);
    if !r.found {
      assert Iterate(w, draw) == v.(dropped := v.dropped + [p]);
      assert FramesAre(v.(dropped := v.dropped + [p]), all) by {
        SearchMovesFrames(w, draw, all);
        DroppedKeepsFrames(v, p, all);
      }
    } else if p.done + 1 == |p.searches| {
      assert Iterate(w, draw) == v.(ff := v.ff + Returned(p.table));
      assert FramesAre(v.(ff := v.ff + Returned(p.table)), all) by {
        SearchMovesFrames(w, draw, all);
        FinishedKeepsFrames(v, p.table, all);
      }
    } else {
      var next := p.(done := p.done + 1);
      assert Iterate(w, draw) == v.(ready := v.ready + [next]);
      assert FramesAre(v.(ready := v.ready + [next]), all) by {
        SearchMovesFrames(w, draw, all);
        QueuedKeepsFrames(v, next, all);
      }
    }
  }

  lemma IterateKeepsProcs(w: World, draw: nat)
    requires ProcsOk(w) && w.ready != [] && |w.ff| >= MIN_FREE && Good(FirstSearch(w, draw).at)
    ensures ProcsOk(Iterate(w, draw)) && |Iterate(w, draw).stats| == |w.stats|
  {
    var r := FirstSearch(w, draw);
    assert ProcOk(w.ready[0].(table := r.at.table), |w.stats|);
  }

  lemma IterateKeepsInvariant(w: World, draw: nat)
    requires Running(w)
    ensures Running(Iterate(w, draw)) && FramesIn(Iterate(w, draw)) == FramesIn(w)
  {
    if w.ready != [] {
      var all := FramesIn(w);
      SearchMovesFrames(w, draw, all);
      IterateKeepsFrames(w, draw, all);
      IterateKeepsProcs(w, draw);
      SearchCounts(w, draw);
    }
  }

  // ----- The whole run -----

  lemma IterateCountsSearches(w: World, draw: nat)
    requires Ready(w)
    ensures SearchesLeft(Iterate(w, draw).ready) <= SearchesLeft(w.ready) - 1
    ensures |Iterate(w, draw).ready| + |Iterate(w, draw).dropped| <= |w.ready| + |w.dropped|
  {
    var r := FirstSearch(w, draw);
    var p := w.ready[0];
    if r.found && p.done + 1 != |p.searches| {
      SearchesLeftSnoc(w.ready[1..], p.(table := r.at.table, done := p.done + 1));
    }
  }

  lemma IterateGoesOn(w: World, draw: nat)
    requires Running(w) && w.ready != []
    ensures Running(Iterate(w, draw)) && 0 <= SearchesLeft(Iterate(w, draw).ready) < SearchesLeft(w.ready)
  {
    IterateKeepsInvariant(w, draw);
    IterateCountsSearches(w, draw);
    SearchesLeftPositive(Iterate(w, draw).ready);
  }

  /** The state in which the run ends. */
  ghost function Finished(w: World, draw: nat): World
    requires Running(w)
    decreases SearchesLeft(w.ready)
  {
    if w.ready == [] then w
    else
      IterateGoesOn(w, draw);
      Finished(Iterate(w, draw), draw)
  }

  lemma IterateTowardsEnd(w: World, draw: nat)
    requires Running(w)
    ensures Running(Iterate(w, draw)) && Finished(Iterate(w, draw), draw) == Finished(w, draw)
    ensures w.ready != [] ==> 0 <= SearchesLeft(Iterate(w, draw).ready) < SearchesLeft(w.ready)
  {
    IterateKeepsInvariant(w, draw);
    if w.ready != [] { IterateGoesOn(w, draw); }
  }

  lemma {:induction false} RunKeepsFrames(w: World, draw: nat)
    requires Running(w)
    ensures var e := Finished(w, draw); Running(e) && e.ready == [] && FramesIn(e) == FramesIn(w)
    decreases SearchesLeft(w.ready)
  {
    if w.ready != [] {
      IterateGoesOn(w, draw);
      IterateKeepsInvariant(w, draw);
      RunKeepsFrames(Iterate(w, draw), draw);
    }
  }

  /** Every run ends; then every frame is free or held by a process that was dropped. */
  lemma RunEnds(w: World, draw: nat)
    requires Inv(w)
    ensures var e := Finished(w, draw);
      && Inv(e) && e.ready == [] && |e.ff| <= USABLE_FRAMES
      && Listed(e.ff) + HeldBy(e.dropped) == AllFrames()
  {
    RunKeepsFrames(w, draw);
    var e := Finished(w, draw);
    NobodyElse(Listed(e.ff), HeldBy(e.dropped), AllFrames());
    ListFits(e, AllFrames());
  }

  lemma NobodyElse(free: multiset<int>, lost: multiset<int>, all: multiset<int>)
    requires free + multiset{} + lost == all
    ensures free + lost == all && (free == all <==> lost == multiset{})
  {
    assert free + lost == all;
    if free == all { assert |all| == |free| + |lost|; }
  }

  /** The list never outgrows its array. */
  lemma ListFits(w: World, all: multiset<int>)
    requires FramesAre(w, all) && all == AllFrames()
    ensures |w.ff| <= USABLE_FRAMES
  {
    AllFramesOnce(all);
    assert |all| == |Listed(w.ff)| + |HeldBy(w.ready)| + |HeldBy(w.dropped)|;
  }

  /** No state of the run has a list longer than its array. */
  ghost predicate StaysInArray(w: World, draw: nat)
    requires Running(w)
    decreases SearchesLeft(w.ready)
  {
    && |w.ff| <= USABLE_FRAMES
    && (w.ready == [] || (IterateGoesOn(w, draw); StaysInArray(Iterate(w, draw), draw)))
  }

  /** A run that begins with every frame in one place never leaves the array. */
  lemma {:induction false} RunStaysInArray(w: World, draw: nat)
    requires Inv(w)
    ensures StaysInArray(w, draw)
    decreases SearchesLeft(w.ready)
  {
    ListFits(w, AllFrames());
    if w.ready != [] {
      IterateGoesOn(w, draw);
      IterateKeepsInvariant(w, draw);
      RunStaysInArray(Iterate(w, draw), draw);
    }
  }

  lemma {:induction false} EndFits(w: World, draw: nat)
    requires Running(w) && StaysInArray(w, draw)
    ensures |Finished(w, draw).ff| <= USABLE_FRAMES
    decreases SearchesLeft(w.ready)
  {
    if w.ready != [] {
      IterateGoesOn(w, draw);
      EndFits(Iterate(w, draw), draw);
    }
  }
}
