/** LA9's first loop on values: ten frames for every process, however many there are. */
module DealingSpec {
  import opened PageTables
  import opened DemandPagingSpec
  import opened SwappingSpec
  import opened Processes

  /** Lines 48-51 and 167: an empty queue gives `NULL`, and that is frame 0. */
  function Head(free: seq<int>): int {
    if free == [] then 0 else free[0]
  }

  function Rest(free: seq<int>): seq<int> {
    if free == [] then [] else free[1..]
  }

  /** Lines 164-170 for the first j pages. */
  function DealPages(t: seq<int>, free: seq<int>, j: nat): (r: (seq<int>, seq<int>))
    requires j <= |t|
    ensures |r.0| == |t|
  {
    if j == 0 then (t, free)
    else
      var r := DealPages(t, free, j - 1);
      (r.0[j - 1 := Packed(Head(r.1))], Rest(r.1))
  }

  function Blank(): (t: seq<int>)
    ensures |t| == TABLE_SIZE
  {
    seq(TABLE_SIZE, k => 0)
  }

  /** Lines 144-173. */
  function Admitted(m: Memory, i: nat, x: Input): Memory {
    var r := DealPages(Blank(), m.free, ESSENTIAL_PAGES);
    m.(ready := m.ready + [Job(i, x.s, x.searches, 0, r.0)], free := r.1, active := m.active + 1)
  }

  /** Lines 135-174 for the first n processes. */
  function Deal(inputs: seq<Input>, n: nat): (m: Memory)
    requires n <= |inputs|
    ensures |m.ready| == n && forall i | 0 <= i < n :: |m.ready[i].table| == TABLE_SIZE
  {
    if n == 0 then Memory([], [], FirstFrames(USABLE_FRAMES), 0, 0, 0, 127, 0)
    else Admitted(Deal(inputs, n - 1), n - 1, inputs[n - 1])
  }

  // ----- What that comes to -----

  /** The f-th frame that is handed out, counted from 0. */
  function Nth(f: nat): int {
    if f < USABLE_FRAMES then f else 0
  }

  function StartTable(i: nat, j: nat): (t: seq<int>)
    ensures |t| == TABLE_SIZE
    ensures forall k: nat | k < TABLE_SIZE :: t[k] == if k < j then Packed(Nth(10 * i + k)) else 0
  {
    seq(TABLE_SIZE, k requires 0 <= k => if k < j then Packed(Nth(10 * i + k)) else 0)
  }

  function FreeAfter(f: nat): seq<int> {
    if f < USABLE_FRAMES then FirstFrames(USABLE_FRAMES)[f..] else []
  }

  lemma NextOut(f: nat)
    ensures Head(FreeAfter(f)) == Nth(f) && Rest(FreeAfter(f)) == FreeAfter(f + 1)
  {
  }

  lemma {:induction false} PagesDealt(i: nat, j: nat)
    requires j <= ESSENTIAL_PAGES
    ensures DealPages(Blank(), FreeAfter(10 * i), j) == (StartTable(i, j), FreeAfter(10 * i + j))
  {
    if j == 0 {
      assert Blank() == StartTable(i, 0);
    } else {
      PagesDealt(i, j - 1);
      NextOut(10 * i + j - 1);
      assert StartTable(i, j) == StartTable(i, j - 1)[j - 1 := Packed(Nth(10 * i + j - 1))];
    }
  }

  function StartJob(inputs: seq<Input>, i: nat): Job<int>
    requires i < |inputs|
  {
    Job(i, inputs[i].s, inputs[i].searches, 0, StartTable(i, ESSENTIAL_PAGES))
  }

  function StartJobs(inputs: seq<Input>, n: nat): (jobs: seq<Job<int>>)
    requires n <= |inputs|
    ensures |jobs| == n && forall i | 0 <= i < n :: jobs[i] == StartJob(inputs, i)
  {
    seq(n, i requires 0 <= i < n => StartJob(inputs, i))
  }

  lemma NextDealt(n: nat)
    requires n > 0
    ensures DealPages(Blank(), FreeAfter(10 * (n - 1)), ESSENTIAL_PAGES)
         == (StartTable(n - 1, ESSENTIAL_PAGES), FreeAfter(10 * n))
  {
    PagesDealt(n - 1, ESSENTIAL_PAGES);
  }

  lemma DealNext(inputs: seq<Input>, n: nat)
    requires 0 < n <= |inputs|
    ensures Deal(inputs, n) == Admitted(Deal(inputs, n - 1), n - 1, inputs[n - 1])
  {
  }

  lemma AdmittedAs(m: Memory, i: nat, x: Input, table: seq<int>, free: seq<int>)
    requires DealPages(Blank(), m.free, ESSENTIAL_PAGES) == (table, free)
    ensures Admitted(m, i, x) == m.(ready := m.ready + [Job(i, x.s, x.searches, 0, table)], free := free,
                                    active := m.active + 1)
  {
  }

  /** Process i gets frames 10i to 10i + 9, as long as there are any. */
  function StartMemory(inputs: seq<Input>, n: nat): Memory
    requires n <= |inputs|
  {
    Memory(StartJobs(inputs, n), [], FreeAfter(10 * n), 0, 0, 0, 127, n)
  }

  lemma NextStart(inputs: seq<Input>, n: nat)
    requires 0 < n <= |inputs|
    ensures Admitted(StartMemory(inputs, n - 1), n - 1, inputs[n - 1]) == StartMemory(inputs, n)
  {
    NextDealt(n);
    AdmittedAs(StartMemory(inputs, n - 1), n - 1, inputs[n - 1], StartTable(n - 1, ESSENTIAL_PAGES), FreeAfter(10 * n));
    assert StartJobs(inputs, n) == StartJobs(inputs, n - 1) + [StartJob(inputs, n - 1)];
  }

  lemma {:induction false} DealtInOrder(inputs: seq<Input>, n: nat)
    requires n <= |inputs|
    ensures Deal(inputs, n) == StartMemory(inputs, n)
  {
    if n > 0 {
      DealtInOrder(inputs, n - 1);
      DealNext(inputs, n);
      NextStart(inputs, n);
    }
  }

  // ----- Where the frames are -----

  lemma PageDealt(t: seq<int>, free: seq<int>, j: nat)
    requires GoodTable(t) && GoodFrames(free) && j < |t| && !IsValid(t[j])
    ensures var u, f := t[j := Packed(Head(free))], Rest(free);
      && GoodTable(u) && GoodFrames(f) && |TableFrames(u, SPAN)| == |TableFrames(t, SPAN)| + 1
      && (free != [] ==> multiset(f) + TableFrames(u, SPAN) == multiset(free) + TableFrames(t, SPAN))
  {
    if free != [] { TakeFrame(t, free, j); } else { LoadedFrames(t, j, 0); }
  }

  lemma {:induction false} PagesKeepFrames(t: seq<int>, free: seq<int>, j: nat)
    requires GoodTable(t) && GoodFrames(free) && j <= |t| && forall k | 0 <= k < |t| :: !IsValid(t[k])
    ensures var r := DealPages(t, free, j);
      && GoodTable(r.0) && GoodFrames(r.1) && (forall k | j <= k < |t| :: !IsValid(r.0[k]))
      && |TableFrames(r.0, SPAN)| == j && |r.1| == (if j < |free| then |free| - j else 0)
      && (j <= |free| ==> multiset(r.1) + TableFrames(r.0, SPAN) == multiset(free))
  {
    if j == 0 {
      NoFrames(t, SPAN);
    } else {
      PagesKeepFrames(t, free, j - 1);
      var r := DealPages(t, free, j - 1);
      PageDealt(r.0, r.1, j - 1);
    }
  }

  ghost predicate Accounted(m: Memory, n: nat) {
    && GoodFrames(m.free) && |Held(m.ready)| == 10 * n
    && (10 * n <= USABLE_FRAMES ==> |m.free| == USABLE_FRAMES - 10 * n && FramesOk(m))
  }

  lemma OneMoreProcess(m: Memory, n: nat, j: Job<int>, free: seq<int>)
    requires Accounted(m, n) && GoodFrames(free) && |TableFrames(j.table, SPAN)| == ESSENTIAL_PAGES
    requires |free| == if ESSENTIAL_PAGES < |m.free| then |m.free| - ESSENTIAL_PAGES else 0
    requires ESSENTIAL_PAGES <= |m.free| ==> multiset(free) + TableFrames(j.table, SPAN) == multiset(m.free)
    ensures Accounted(m.(ready := m.ready + [j], free := free, active := m.active + 1), n + 1)
  {
    HeldSnoc(m.ready, j);
    var mine, others := TableFrames(j.table, SPAN), Held(m.ready);
    assert multiset(free) + (others + mine) == (multiset(free) + mine) + others;
  }

  lemma AdmittedKeepsFrames(m: Memory, n: nat, x: Input)
    requires Accounted(m, n)
    ensures Accounted(Admitted(m, n, x), n + 1)
  {
    var r := DealPages(Blank(), m.free, ESSENTIAL_PAGES);
    PagesKeepFrames(Blank(), m.free, ESSENTIAL_PAGES);
    AdmittedAs(m, n, x, r.0, r.1);
    OneMoreProcess(m, n, Job(n, x.s, x.searches, 0, r.0), r.1);
  }

  lemma NothingDealt(inputs: seq<Input>)
    ensures Accounted(Deal(inputs, 0), 0)
  {
    assert multiset(FirstFrames(USABLE_FRAMES)) + multiset{} == AllFrames();
  }

  /** Every process holds ten pages, whether or not there were frames for them. */
  lemma {:induction false} DealingKeepsFrames(inputs: seq<Input>, n: nat)
    requires n <= |inputs|
    ensures Accounted(Deal(inputs, n), n)
  {
    if n == 0 {
      NothingDealt(inputs);
    } else {
      DealingKeepsFrames(inputs, n - 1);
      AdmittedKeepsFrames(Deal(inputs, n - 1), n - 1, inputs[n - 1]);
      DealNext(inputs, n);
    }
  }

  /** With more processes the frames run out while they are dealt. */
  const MAX_PROCESSES := 1228

  /** After dealing every frame is in exactly one place if and only if there are at most 1228
      processes. */
  lemma FramesAreSoundExactly(inputs: seq<Input>)
    ensures FramesOk(Deal(inputs, |inputs|)) <==> |inputs| <= MAX_PROCESSES
  {
    var m := Deal(inputs, |inputs|);
    DealingKeepsFrames(inputs, |inputs|);
    if FramesOk(m) {
      AllFramesOnce(AllFrames());
      assert |multiset(m.free) + Held(m.ready)| == |multiset(m.free)| + |Held(m.ready)|;
    }
  }

  lemma StartTableIsGood(i: nat)
    ensures GoodTable(StartTable(i, ESSENTIAL_PAGES))
  {
  }

  lemma StartJobIsOk(inputs: seq<Input>, i: nat)
    requires i < |inputs| && InputOk(inputs[i])
    ensures JobOk(StartJob(inputs, i))
  {
    StartTableIsGood(i);
  }

  lemma StartJobsOk(inputs: seq<Input>)
    requires forall i | 0 <= i < |inputs| :: InputOk(inputs[i])
    ensures JobsOk(Deal(inputs, |inputs|))
  {
    DealtInOrder(inputs, |inputs|);
    var m := Deal(inputs, |inputs|);
    forall i: nat | i < |inputs| ensures JobOk(m.ready[i]) {
      StartJobIsOk(inputs, i);
    }
  }

  /** Any number of processes can run. */
  lemma StartInvariant(inputs: seq<Input>)
    requires forall i | 0 <= i < |inputs| :: InputOk(inputs[i])
    ensures Inv(Deal(inputs, |inputs|), |inputs|)
  {
    StartJobsOk(inputs);
    DealtInOrder(inputs, |inputs|);
    EnoughFrames(inputs);
  }

  lemma EnoughFrames(inputs: seq<Input>)
    ensures var m := Deal(inputs, |inputs|); GoodFrames(m.free) && |FramesIn(m)| >= USABLE_FRAMES
  {
    DealingKeepsFrames(inputs, |inputs|);
    var m := Deal(inputs, |inputs|);
    assert |FramesIn(m)| == |m.free| + |Held(m.ready)|;
  }

  /** The state in which the program ends. */
  ghost function End(inputs: seq<Input>): Memory
    requires forall i | 0 <= i < |inputs| :: InputOk(inputs[i])
  {
    StartInvariant(inputs);
    Finished(Deal(inputs, |inputs|), |inputs|)
  }

  /** Every run ends, with what it began with free; that is every frame, once, exactly if there are
      at most 1228 processes. */
  lemma AllFramesFreeExactlyWhen(inputs: seq<Input>)
    requires forall i | 0 <= i < |inputs| :: InputOk(inputs[i])
    ensures var e := End(inputs);
      && e.ready == [] && e.swapped == [] && multiset(e.free) == FramesIn(Deal(inputs, |inputs|))
      && (multiset(e.free) == AllFrames() <==> |inputs| <= MAX_PROCESSES)
  {
    StartInvariant(inputs);
    RunFreesAllFrames(Deal(inputs, |inputs|), |inputs|);
    FramesAreSoundExactly(inputs);
    EnoughFrames(inputs);
  }

  lemma {:induction false} HeldIncludes(jobs: seq<Job<int>>, i: nat)
    requires i < |jobs|
    ensures TableFrames(jobs[i].table, SPAN) <= Held(jobs)
  {
    if i > 0 { HeldIncludes(jobs[1..], i - 1); }
  }

  /** One process more than that, and frame 0 has three owners. */
  lemma OneProcessTooMany(inputs: seq<Input>)
    requires |inputs| == MAX_PROCESSES + 1
    ensures var m := Deal(inputs, |inputs|);
      && m.free == []
      && m.ready[0].table[0] == m.ready[1228].table[8] == m.ready[1228].table[9] == Packed(0)
      && Held(m.ready)[0] >= 3
  {
    DealtInOrder(inputs, |inputs|);
    var jobs := Deal(inputs, |inputs|).ready;
    var first, last := jobs[0], jobs[1228];
    assert first == StartJob(inputs, 0) && last == StartJob(inputs, 1228);
    assert jobs == jobs[..1228] + [last] && jobs[..1228][0] == first;
    HeldSnoc(jobs[..1228], last);
    HeldIncludes(jobs[..1228], 0);
    ZeroIsHeld(first.table, 0);
    ZeroIsHeldTwice(last.table, 8);
  }

  lemma {:induction false} ZeroIsHeld(t: seq<int>, k: nat)
    requires k < |t| && t[k] == Packed(0)
    ensures TableFrames(t, SPAN)[0] >= 1
  {
    if k > 0 { ZeroIsHeld(t[1..], k - 1); }
  }

  lemma {:induction false} ZeroIsHeldTwice(t: seq<int>, k: nat)
    requires k + 1 < |t| && t[k] == t[k + 1] == Packed(0)
    ensures TableFrames(t, SPAN)[0] >= 2
  {
    if k > 0 { ZeroIsHeldTwice(t[1..], k - 1); } else { ZeroIsHeld(t[1..], 0); }
  }
}
