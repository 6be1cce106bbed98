/** The main loop of LA9 on values: processes, the two process queues and the free frames. */
module SwappingSpec {
  import opened PageTables
  import opened BinarySearch
  import opened DemandPagingSpec
  import opened Processes

  datatype Memory = Memory(
    ready: seq<Job<int>>, swapped: seq<Job<int>>, free: seq<int>,
    accesses: nat, faults: nat, swaps: nat,
    degree: int,              // deg_multiprog
    active: int               // active_processes
  )

  ghost predicate JobOk(j: Job<int>) {
    && GoodTable(j.table) && TableCovers(j.s)
    && j.done < |j.searches|
    && (forall i | 0 <= i < |j.searches| :: 0 <= j.searches[i] < j.s)
  }

  ghost predicate HoldsNothing(j: Job<int>) {
    TableFrames(j.table, SPAN) == multiset{}
  }

  /** `BS` for the job at the head of the ready queue. */
  ghost function Search(j: Job<int>, free: seq<int>): (w: Walked)
    requires JobOk(j)
    ensures |w.table| == |j.table|
  {
    SearchIn(j.table, free, j.s, j.searches[j.done])
  }

  /** Lines 95-111: the process gives up all its frames and waits in the swapped queue. */
  ghost function SwapOut(m: Memory, j: Job<int>, w: Walked): Memory {
    m.(swapped := m.swapped + [j.(table := Emptied(w.table))],
       free := w.free + HeldFrames(w.table, SPAN),
       swaps := m.swaps + 1, active := m.active - 1,
       degree := if m.degree < m.active - 1 then m.degree else m.active - 1)
  }

  /** Lines 195-200, then 211-215 if somebody is swapped out. */
  ghost function Finish(m: Memory, w: Walked): Memory {
    var f := m.(free := w.free + HeldFrames(w.table, SPAN), active := m.active - 1);
    if f.swapped == [] then f
    else f.(ready := f.ready + [f.swapped[0]], swapped := f.swapped[1..], active := f.active + 1)
  }

  /** The head of the ready queue has left it and searched. */
  ghost function Searched(m: Memory, w: Walked): Memory
    requires m.ready != []
  {
    m.(ready := m.ready[1..], accesses := m.accesses + w.accesses, faults := m.faults + w.faults)
  }

  /** One iteration of lines 182-219. */
  ghost function Iterate(m: Memory): Memory
    requires m.ready != [] ==> JobOk(m.ready[0])
  {
    if m.ready == [] then m
    else
      var j := m.ready[0];
      var w := Search(j, m.free);
      var r := Searched(m, w);
      if !w.found then SwapOut(r, j, w)
      else if j.done + 1 == |j.searches| then Finish(r, w)
      else r.(ready := r.ready + [j.(table := w.table, done := j.done + 1)], free := w.free)
  }

  /** The process that searched goes to the tail of a queue: of the ready queue, if it has searches
      left, and of the swapped one, with none of its frames, if the search failed.  If it was its
      last, the first process swapped out takes its place.  All others keep their order.  A process
      that is swapped out or over gives its frames to the tail of the free queue, in page order. */
  lemma IterateRotates(m: Memory)
    requires m.ready != [] && JobOk(m.ready[0])
    ensures var w, next := Search(m.ready[0], m.free), Iterate(m);
      var q := m.ready[0].(table := w.table, done := m.ready[0].done + 1);
      && (!w.found ==> next.ready == m.ready[1..]
                       && next.swapped == m.swapped + [m.ready[0].(table := Emptied(w.table))])
      && (w.found && q.done < |q.searches| ==> next.ready == m.ready[1..] + [q] && next.swapped == m.swapped)
      && (w.found && q.done == |q.searches| ==>
            next.ready + next.swapped == m.ready[1..] + m.swapped
            && |next.swapped| == if |m.swapped| > 0 then |m.swapped| - 1 else 0)
      && next.free == if w.found && q.done < |q.searches| then w.free else w.free + HeldFrames(w.table, SPAN)
  {
    if m.swapped != [] {
      assert m.ready[1..] + m.swapped == m.ready[1..] + [m.swapped[0]] + m.swapped[1..];
    }
  }

  // ----- Invariants -----

  function Held(jobs: seq<Job<int>>): multiset<int> {
    if jobs == [] then multiset{} else TableFrames(jobs[0].table, SPAN) + Held(jobs[1..])
  }

  lemma {:induction false} HeldSnoc(jobs: seq<Job<int>>, j: Job<int>)
    ensures Held(jobs + [j]) == Held(jobs) + TableFrames(j.table, SPAN)
  {
    if jobs == [] {
      assert jobs + [j] == [j];
    } else {
      assert (jobs + [j])[1..] == jobs[1..] + [j];
      HeldSnoc(jobs[1..], j);
    }
  }

  lemma {:induction false} HeldBound(jobs: seq<Job<int>>)
    requires forall i | 0 <= i < |jobs| :: |jobs[i].table| == TABLE_SIZE
    ensures |Held(jobs)| <= |jobs| * TABLE_SIZE
  {
    if jobs != [] {
      HeldBound(jobs[1..]);
      FramesBound(jobs[0].table, SPAN);
    }
  }

  ghost predicate JobsOk(m: Memory) {
    && (forall i | 0 <= i < |m.ready| :: JobOk(m.ready[i]))
    && (forall i | 0 <= i < |m.swapped| :: JobOk(m.swapped[i]) && HoldsNothing(m.swapped[i]))
  }

  /** The frames that are free or held, as often as they are. */
  ghost function FramesIn(m: Memory): multiset<int> {
    multiset(m.free) + Held(m.ready)
  }

  ghost predicate FramesAre(m: Memory, all: multiset<int>) {
    GoodFrames(m.free) && FramesIn(m) == all
  }

  /** Every frame is free or held by exactly one ready process. */
  ghost predicate FramesOk(m: Memory) {
    FramesAre(m, AllFrames())
  }

  /** `n` processes were started. */
  ghost predicate CountersOk(m: Memory, n: nat) {
    && m.active == |m.ready|
    && m.swaps + |m.ready| <= n
    && (m.swaps == 0 || m.swaps + 6 <= n)
    && 6 <= m.degree <= 127
  }

  /** What any run keeps, whatever frames were dealt at its start. */
  ghost predicate Inv(m: Memory, n: nat) {
    && JobsOk(m) && GoodFrames(m.free) && |FramesIn(m)| >= USABLE_FRAMES && CountersOk(m, n)
    && (m.ready == [] ==> m.swapped == [])
  }

  // ----- One iteration -----

  lemma AllFramesTaken(mine: multiset<int>, others: multiset<int>, all: multiset<int>)
    requires multiset([]) + mine + others == all
    ensures |mine| + |others| == |all|
  {
    assert multiset([]) + mine == mine;
  }

  /** A search that fails does so because all frames, 12288 at least, are in use, so at least six
      other processes hold frames and stay ready. */
  lemma SwapOutLeavesSix(m: Memory)
    requires JobsOk(m) && GoodFrames(m.free) && |FramesIn(m)| >= USABLE_FRAMES
    requires m.ready != [] && !Search(m.ready[0], m.free).found
    ensures |m.ready| - 1 >= 6
  {
    var j, rest := m.ready[0], m.ready[1..];
    var w := Search(j, m.free);
    SearchMovesFrames(j, m.free, Held(rest), FramesIn(m));
    FailedSearchFindsNothing(j, m.free);
    AllFramesTaken(TableFrames(w.table, SPAN), Held(rest), FramesIn(m));
    FramesBound(w.table, SPAN);
    HeldBound(rest);
    SwapLeavesSix(|TableFrames(w.table, SPAN)|, |Held(rest)|, |rest|);
  }

  lemma FailedSearchFindsNothing(j: Job<int>, free: seq<int>)
    requires JobOk(j) && GoodFrames(free) && !Search(j, free).found
    ensures var w := Search(j, free); w.free == [] && exists i :: 0 <= i < |w.table| && !IsValid(w.table[i])
  {
    ProbesInRange(0, j.s - 1, j.searches[j.done], j.s);
    WalkKeepsFrames(j.table, free, Probes(0, j.s - 1, j.searches[j.done]));
  }

  lemma SearchKeepsTable(j: Job<int>, free: seq<int>)
    requires JobOk(j) && GoodFrames(free)
    ensures var w := Search(j, free); GoodTable(w.table) && GoodFrames(w.free)
  {
    ProbesInRange(0, j.s - 1, j.searches[j.done], j.s);
    WalkKeepsFrames(j.table, free, Probes(0, j.s - 1, j.searches[j.done]));
  }

  lemma SearchKeepsTables(j: Job<int>, free: seq<int>)
    requires JobOk(j) && GoodFrames(free)
    ensures var w := Search(j, free);
            && JobOk(j.(table := w.table)) && GoodFrames(w.free)
            && JobOk(j.(table := Emptied(w.table))) && HoldsNothing(j.(table := Emptied(w.table)))
            && GoodFrames(w.free + HeldFrames(w.table, SPAN))
  {
    var w := Search(j, free);
    SearchKeepsTable(j, free);
    EmptiedHoldsNothing(w.table);
    HeldFramesAreGood(w.table);
  }

  lemma Regroup(f: multiset<int>, t: multiset<int>, f': multiset<int>, t': multiset<int>,
                others: multiset<int>, all: multiset<int>)
    requires f' + t' == f + t && f + (t + others) == all
    ensures f' + t' + others == all
  {
    assert f + (t + others) == f + t + others;
  }

  lemma SearchMovesFrames(j: Job<int>, free: seq<int>, others: multiset<int>, all: multiset<int>)
    requires JobOk(j) && GoodFrames(free) && multiset(free) + (TableFrames(j.table, SPAN) + others) == all
    ensures var w := Search(j, free); multiset(w.free) + TableFrames(w.table, SPAN) + others == all
  {
    var w := Search(j, free);
    ProbesInRange(0, j.s - 1, j.searches[j.done], j.s);
    WalkKeepsFrames(j.table, free, Probes(0, j.s - 1, j.searches[j.done]));
    Regroup(multiset(free), TableFrames(j.table, SPAN), multiset(w.free), TableFrames(w.table, SPAN), others, all);
  }

  lemma ReleasedFrames(free: seq<int>, table: seq<int>)
    ensures multiset(free + HeldFrames(table, SPAN)) == multiset(free) + TableFrames(table, SPAN)
  {
    FramesInOrder(table, SPAN);
  }

  /** All frames are where they belong once the searching process has given up its own. */
  lemma AfterRelease(m: Memory, all: multiset<int>)
    requires JobsOk(m) && FramesAre(m, all) && m.ready != []
    ensures var w := Search(m.ready[0], m.free);
            && GoodFrames(w.free + HeldFrames(w.table, SPAN))
            && multiset(w.free + HeldFrames(w.table, SPAN)) + Held(m.ready[1..]) == all
  {
    var w := Search(m.ready[0], m.free);
    SearchKeepsTables(m.ready[0], m.free);
    SearchMovesFrames(m.ready[0], m.free, Held(m.ready[1..]), all);
    ReleasedFrames(w.free, w.table);
  }

  lemma JoinReady(jobs: seq<Job<int>>, j: Job<int>, others: multiset<int>, all: multiset<int>)
    requires forall i | 0 <= i < |jobs| :: JobOk(jobs[i])
    requires JobOk(j) && others + TableFrames(j.table, SPAN) + Held(jobs) == all
    ensures forall i | 0 <= i < |jobs + [j]| :: JobOk((jobs + [j])[i])
    ensures others + Held(jobs + [j]) == all
  {
    HeldSnoc(jobs, j);
    var mine, rest := TableFrames(j.table, SPAN), Held(jobs);
    assert others + (rest + mine) == others + mine + rest;
  }

  lemma SwapInAddsNothing(jobs: seq<Job<int>>, j: Job<int>, others: multiset<int>, all: multiset<int>)
    requires forall i | 0 <= i < |jobs| :: JobOk(jobs[i])
    requires JobOk(j) && HoldsNothing(j) && others + Held(jobs) == all
    ensures forall i | 0 <= i < |jobs + [j]| :: JobOk((jobs + [j])[i])
    ensures others + Held(jobs + [j]) == all
  {
    HeldSnoc(jobs, j);
    var rest := Held(jobs);
    assert rest + multiset{} == rest;
  }

  lemma SwapOutKeepsFrames(m: Memory, all: multiset<int>)
    requires JobsOk(m) && FramesAre(m, all) && m.ready != []
    requires !Search(m.ready[0], m.free).found
    ensures JobsOk(Iterate(m)) && FramesAre(Iterate(m), all)
  {
    SearchKeepsTables(m.ready[0], m.free);
    AfterRelease(m, all);
  }

  lemma FinishReturnsFrames(r: Memory, w: Walked, all: multiset<int>)
    requires JobsOk(r) && GoodFrames(w.free + HeldFrames(w.table, SPAN))
    requires multiset(w.free + HeldFrames(w.table, SPAN)) + Held(r.ready) == all
    ensures JobsOk(Finish(r, w)) && FramesAre(Finish(r, w), all)
  {
    if r.swapped != [] {
      SwapInAddsNothing(r.ready, r.swapped[0], multiset(w.free + HeldFrames(w.table, SPAN)), all);
    }
  }

  lemma FinishKeepsFrames(m: Memory, all: multiset<int>)
    requires JobsOk(m) && FramesAre(m, all) && m.ready != []
    requires Search(m.ready[0], m.free).found && m.ready[0].done + 1 == |m.ready[0].searches|
    ensures JobsOk(Iterate(m)) && FramesAre(Iterate(m), all)
  {
    AfterRelease(m, all);
    var w := Search(m.ready[0], m.free);
    FinishReturnsFrames(Searched(m, w), w, all);
  }

  lemma ContinueQueues(r: Memory, j: Job<int>, w: Walked, all: multiset<int>)
    requires JobsOk(r) && JobOk(j) && GoodFrames(w.free)
    requires multiset(w.free) + TableFrames(j.table, SPAN) + Held(r.ready) == all
    ensures var c := r.(ready := r.ready + [j], free := w.free); JobsOk(c) && FramesAre(c, all)
  {
    JoinReady(r.ready, j, multiset(w.free), all);
  }

  lemma ContinueKeepsFrames(m: Memory, all: multiset<int>)
    requires JobsOk(m) && FramesAre(m, all) && m.ready != []
    requires Search(m.ready[0], m.free).found && m.ready[0].done + 1 != |m.ready[0].searches|
    ensures JobsOk(Iterate(m)) && FramesAre(Iterate(m), all)
  {
    var j := m.ready[0];
    var w := Search(j, m.free);
    var r := Searched(m, w);
    var next := j.(table := w.table, done := j.done + 1);
    var c := r.(ready := r.ready + [next], free := w.free);
    assert Iterate(m) == c;
    assert JobOk(next) && GoodFrames(w.free) by { SearchKeepsTables(j, m.free); }
    assert multiset(w.free) + TableFrames(next.table, SPAN) + Held(r.ready) == all by {
      SearchMovesFrames(j, m.free, Held(r.ready), all);
    }
    ContinueQueues(r, next, w, all);
  }

  lemma IterateKeepsFrames(m: Memory, all: multiset<int>)
    requires JobsOk(m) && FramesAre(m, all) && m.ready != []
    ensures JobsOk(Iterate(m)) && FramesAre(Iterate(m), all)
  {
    if !Search(m.ready[0], m.free).found {
      SwapOutKeepsFrames(m, all);
    } else if m.ready[0].done + 1 == |m.ready[0].searches| {
      FinishKeepsFrames(m, all);
    } else {
      ContinueKeepsFrames(m, all);
    }
  }

  lemma IterateKeepsInvariant(m: Memory, n: nat)
    requires Inv(m, n)
    ensures Inv(Iterate(m), n) && FramesIn(Iterate(m)) == FramesIn(m)
  {
    if m.ready != [] {
      IterateKeepsFrames(m, FramesIn(m));
      if !Search(m.ready[0], m.free).found { SwapOutLeavesSix(m); }
    }
  }

  /** The pages that the next search of `j` has to load. */
  ghost function PagesToLoad(j: Job<int>): seq<nat>
    requires JobOk(j)
  {
    MissingIn(j.table, j.s, j.searches[j.done])
  }

  /** How many probes it makes, if no page is missing for lack of frames. */
  ghost function ProbeCount(j: Job<int>): nat
    requires JobOk(j)
  {
    |Probes(0, j.s - 1, j.searches[j.done])|
  }

  lemma SearchCountsExactly(j: Job<int>, free: seq<int>)
    requires JobOk(j) && GoodFrames(free)
    ensures var w, load := Search(j, free), |PagesToLoad(j)|;
      if load <= |free| then w.found && w.accesses == ProbeCount(j) && w.faults == load
      else !w.found && w.accesses <= ProbeCount(j) && w.faults == |free| + 1
  {
    SearchInCountsExactly(j.table, free, j.s, j.searches[j.done]);
  }

  /** A process is swapped out exactly if its search meets more missing pages than there are free
      frames.  Only then are swaps counted, and the degree of multiprogramming is the least number
      of ready processes that a swap-out has left.  The faults are the pages loaded, and one more
      if there is no frame left for it. */
  lemma SwappedOutExactlyWhen(m: Memory, n: nat)
    requires Inv(m, n) && m.ready != []
    ensures var next, load, probes := Iterate(m), |PagesToLoad(m.ready[0])|, ProbeCount(m.ready[0]);
      if load <= |m.free| then
        && next.swaps == m.swaps && next.degree == m.degree
        && next.faults == m.faults + load && next.accesses == m.accesses + probes
      else
        && next.swaps == m.swaps + 1
        && next.degree == (if |next.ready| < m.degree then |next.ready| else m.degree)
        && next.faults == m.faults + |m.free| + 1 && next.accesses <= m.accesses + probes
  {
    SearchCountsExactly(m.ready[0], m.free);
  }

  // ----- Termination and the work done -----

  function Left(m: Memory): int {
    SearchesLeft(m.ready) + SearchesLeft(m.swapped)
  }

  /** A found search is done once and for all; a swap-out loses nothing but the attempt. */
  lemma IterateCountsSearches(m: Memory)
    requires m.ready != [] && JobOk(m.ready[0])
    ensures Left(Iterate(m)) == Left(m) - if Search(m.ready[0], m.free).found then 1 else 0
    ensures var over := Search(m.ready[0], m.free).found && m.ready[0].done + 1 == |m.ready[0].searches|;
            |Iterate(m).ready| + |Iterate(m).swapped| == |m.ready| + |m.swapped| - if over then 1 else 0
    ensures !Search(m.ready[0], m.free).found ==> |Iterate(m).ready| == |m.ready| - 1
  {
    var j := m.ready[0];
    var w := Search(j, m.free);
    if !w.found {
      SearchesLeftSnoc(m.swapped, j.(table := Emptied(w.table)));
    } else if j.done + 1 == |j.searches| {
      if m.swapped != [] { SearchesLeftSnoc(m.ready[1..], m.swapped[0]); }
    } else {
      SearchesLeftSnoc(m.ready[1..], j.(table := w.table, done := j.done + 1));
    }
  }

  // ----- The whole run -----

  /** The loop of lines 182-219 to its end: each iteration ends a process, or does a search, or
      shortens the ready queue, so there is one. */
  ghost function Finished(m: Memory, n: nat): Memory
    requires Inv(m, n)
    decreases |m.ready| + |m.swapped|, Left(m), |m.ready|
  {
    if m.ready == [] then m
    else
      IterateKeepsInvariant(m, n);
      IterateCountsSearches(m);
      LeftIsPositive(Iterate(m));
      Finished(Iterate(m), n)
  }

  lemma LeftIsPositive(m: Memory)
    requires JobsOk(m)
    ensures Left(m) >= 0
  {
    SearchesLeftPositive(m.ready);
    SearchesLeftPositive(m.swapped);
  }

  /** One iteration is a step towards the same end. */
  lemma IterateTowardsEnd(m: Memory, n: nat)
    requires Inv(m, n)
    ensures Inv(Iterate(m), n) && Finished(Iterate(m), n) == Finished(m, n)
    ensures m.ready != [] ==>
      var next := Iterate(m);
      var size, nextSize := |m.ready| + |m.swapped|, |next.ready| + |next.swapped|;
      && Left(next) >= 0
      && (nextSize < size || (nextSize == size && Left(next) < Left(m))
          || (nextSize == size && Left(next) == Left(m) && |next.ready| < |m.ready|))
  {
    IterateKeepsInvariant(m, n);
    if m.ready != [] {
      IterateCountsSearches(m);
      LeftIsPositive(Iterate(m));
    }
  }

  ghost function Iterations(m: Memory, n: nat): nat
    requires Inv(m, n)
    decreases |m.ready| + |m.swapped|, Left(m), |m.ready|
  {
    if m.ready == [] then 0
    else
      IterateKeepsInvariant(m, n);
      IterateCountsSearches(m);
      LeftIsPositive(Iterate(m));
      1 + Iterations(Iterate(m), n)
  }

  /** Every run ends with nobody waiting, every frame that was there at its start free, and at most
      n - 6 swaps; no ready queue ever got shorter than six processes because of swapping. */
  lemma {:induction false} RunFreesAllFrames(m: Memory, n: nat)
    requires Inv(m, n)
    ensures var e := Finished(m, n);
      && e.ready == [] && e.swapped == [] && e.active == 0
      && multiset(e.free) == FramesIn(m)
      && (e.swaps == 0 || e.swaps + 6 <= n)
      && 6 <= e.degree <= 127
    decreases |m.ready| + |m.swapped|, Left(m), |m.ready|
  {
    if m.ready == [] {
      NothingHeld(m);
    } else {
      IterateKeepsInvariant(m, n);
      IterateCountsSearches(m);
      LeftIsPositive(Iterate(m));
      RunFreesAllFrames(Iterate(m), n);
    }
  }

  lemma NothingHeld(m: Memory)
    requires m.ready == []
    ensures FramesIn(m) == multiset(m.free)
  {
  }

  /** The loop runs once for every search there is to do and once for every swap-out. */
  lemma {:induction false} RunDoesEverySearchOnce(m: Memory, n: nat)
    requires Inv(m, n)
    ensures Iterations(m, n) == Left(m) + Finished(m, n).swaps - m.swaps
    decreases |m.ready| + |m.swapped|, Left(m), |m.ready|
  {
    if m.ready != [] {
      IterateKeepsInvariant(m, n);
      IterateCountsSearches(m);
      LeftIsPositive(Iterate(m));
      RunDoesEverySearchOnce(Iterate(m), n);
      SwapsCounted(m);
    }
  }

  lemma SwapsCounted(m: Memory)
    requires m.ready != [] && JobOk(m.ready[0])
    ensures Iterate(m).swaps == m.swaps + if Search(m.ready[0], m.free).found then 0 else 1
  {
  }
}
