/** LA10's first loop: ten frames for every process, however many there are. */
module AgingStart {
  import opened PageTables
  import opened Processes
  import opened ReplacementChoice
  import opened AgingSpec
  import opened AgingRuns

  // ----- Page by page -----

  /** `frame | (1 << 15)` in an `unsigned short`; -1, when there was no frame, has all bits set. */
  function Stored(frame: int): PageEntry {
    PageEntry(if frame == -1 then 0xFFFF else frame + VALID, FULL)
  }

  /** Lines 359-361. */
  function LoadPage(l: Local, pid: int, page: nat, draw: nat): (r: Local)
    requires Sized(l) && page < TABLE_SIZE
    ensures Sized(r)
  {
    match GetFrame(l.table, l.ff, pid, page, draw)
    case NoVictim => l.(table := l.table[page := Stored(-1)])
    case Got(t, ff, frame, attempt) =>
      Local(t[page := Stored(frame)], ff, Charge(l.total, attempt), Charge(l.mine, attempt))
  }

  /** Lines 357-362 for the first j pages. */
  function LoadPages(l: Local, pid: int, j: nat, draw: nat): (r: Local)
    requires Sized(l) && j <= TABLE_SIZE
    ensures Sized(r)
  {
    if j == 0 then l else LoadPage(LoadPages(l, pid, j - 1, draw), pid, j - 1, draw)
  }

  function Blank(): (t: seq<PageEntry>)
    ensures |t| == TABLE_SIZE
  {
    seq(TABLE_SIZE, k => PageEntry(0, 0))
  }

  function NoCounts(n: nat): (stats: seq<Counters>)
    ensures |stats| == n && forall i | 0 <= i < n :: stats[i] == ZERO
  {
    seq(n, i => ZERO)
  }

  function FreeFrom(first: nat): (ff: seq<FrameEntry>)
    requires first <= USABLE_FRAMES
    ensures |ff| == USABLE_FRAMES - first
    ensures forall k | 0 <= k < |ff| :: ff[k] == FrameEntry(first + k, NOBODY, -1)
  {
    seq(USABLE_FRAMES - first, k requires 0 <= k => FrameEntry(first + k, NOBODY, -1))
  }

  /** Lines 338-366 for process n. */
  function Admit(w: World, x: Input, n: nat, draw: nat): (v: World)
    requires |w.ff| >= MIN_FREE && n < |w.stats|
    ensures |v.ff| >= MIN_FREE && |v.stats| == |w.stats|
  {
    var l := LoadPages(Local(Blank(), w.ff, w.total, w.stats[n]), n, ESSENTIAL_PAGES, draw);
    World(w.ready + [Job(n, x.s, x.searches, 0, l.table)], w.dropped, l.ff, l.total, w.stats[n := l.mine])
  }

  /** Lines 327-366 for the first n processes. */
  function Deal(inputs: seq<Input>, n: nat, draw: nat): (w: World)
    requires n <= |inputs|
    ensures |w.ff| >= MIN_FREE && |w.stats| == |inputs|
  {
    if n == 0 then World([], [], FreeFrom(0), ZERO, NoCounts(|inputs|))
    else Admit(Deal(inputs, n - 1, draw), inputs[n - 1], n - 1, draw)
  }

  // ----- What that comes to -----

  /** So many frames are handed out before the list is down to its minimum. */
  const CAPACITY: nat := USABLE_FRAMES - MIN_FREE

  /** The f-th request for a frame, counted from 0, is met with frame f or not at all. */
  function Nth(f: nat): int {
    if f < CAPACITY then f else -1
  }

  /** The table of process i when j of its essential pages have been loaded. */
  function EssentialTable(i: nat, j: nat): (t: seq<PageEntry>)
    ensures |t| == TABLE_SIZE
    ensures forall k: nat | k < TABLE_SIZE :: t[k] == if k < j then Stored(Nth(10 * i + k)) else PageEntry(0, 0)
  {
    seq(TABLE_SIZE, k requires 0 <= k => if k < j then Stored(Nth(10 * i + k)) else PageEntry(0, 0))
  }

  lemma EssentialNext(i: nat, j: nat)
    requires j < ESSENTIAL_PAGES
    ensures EssentialTable(i, j + 1) == EssentialTable(i, j)[j := Stored(Nth(10 * i + j))]
  {
  }

  function FreeAfter(f: nat): (ff: seq<FrameEntry>)
    ensures |ff| >= MIN_FREE && GoodList(ff)
  {
    FreeFrom(if f < CAPACITY then f else CAPACITY)
  }

  function FirstProc(inputs: seq<Input>, i: nat): Proc
    requires i < |inputs|
  {
    Job(i, inputs[i].s, inputs[i].searches, 0, EssentialTable(i, ESSENTIAL_PAGES))
  }

  function FirstProcs(inputs: seq<Input>, n: nat): (ps: seq<Proc>)
    requires n <= |inputs|
    ensures |ps| == n && forall i | 0 <= i < n :: ps[i] == FirstProc(inputs, i)
  {
    seq(n, i requires 0 <= i < n => FirstProc(inputs, i))
  }

  function Dealt(inputs: seq<Input>, n: nat): World
    requires n <= |inputs|
  {
    World(FirstProcs(inputs, n), [], FreeAfter(10 * n), ZERO, NoCounts(|inputs|))
  }

  /** The state at line 373. */
  function Begin(inputs: seq<Input>): World {
    Dealt(inputs, |inputs|)
  }

  /** One request for an essential page: there is nothing to give up for it, so no frame is to be
      had once the list is down to its minimum. */
  lemma EssentialGot(i: nat, j: nat, draw: nat)
    requires j < ESSENTIAL_PAGES
    ensures var t, f := EssentialTable(i, j), 10 * i + j;
      GetFrame(t, FreeAfter(f), i, j, draw) ==
        if f < CAPACITY then Got(t, FreeAfter(f + 1), f, 0) else NoVictim
  {
    var t, f := EssentialTable(i, j), 10 * i + j;
    if f < CAPACITY {
      assert FreeAfter(f)[1..] == FreeAfter(f + 1);
    } else {
      assert forall k | ESSENTIAL_PAGES <= k < TABLE_SIZE :: !Candidate(t, k);
      NoFrameExactlyWhen(t, FreeAfter(f), i, j, draw);
    }
  }

  lemma EssentialLoad(i: nat, j: nat, draw: nat)
    requires j < ESSENTIAL_PAGES
    ensures var l := Local(EssentialTable(i, j), FreeAfter(10 * i + j), ZERO, ZERO);
      LoadPage(l, i, j, draw) == l.(table := EssentialTable(i, j + 1), ff := FreeAfter(10 * i + j + 1))
  {
    EssentialGot(i, j, draw);
    EssentialNext(i, j);
  }

  lemma {:induction false} EssentialLoads(i: nat, j: nat, draw: nat)
    requires j <= ESSENTIAL_PAGES
    ensures LoadPages(Local(Blank(), FreeAfter(10 * i), ZERO, ZERO), i, j, draw)
         == Local(EssentialTable(i, j), FreeAfter(10 * i + j), ZERO, ZERO)
  {
    if j == 0 {
      assert Blank() == EssentialTable(i, 0);
    } else {
      EssentialLoads(i, j - 1, draw);
      EssentialLoad(i, j - 1, draw);
    }
  }

  lemma OneMoreAdmitted(inputs: seq<Input>, n: nat, draw: nat)
    requires n < |inputs|
    ensures Admit(Dealt(inputs, n), inputs[n], n, draw) == Dealt(inputs, n + 1)
  {
    EssentialLoads(n, ESSENTIAL_PAGES, draw);
    assert FirstProcs(inputs, n + 1) == FirstProcs(inputs, n) + [FirstProc(inputs, n)];
    assert NoCounts(|inputs|)[n := ZERO] == NoCounts(|inputs|);
  }

  /** Process i gets frames 10i to 10i + 9, as long as the list is above its minimum. */
  lemma {:induction false} DealtInOrder(inputs: seq<Input>, n: nat, draw: nat)
    requires n <= |inputs|
    ensures Deal(inputs, n, draw) == Dealt(inputs, n)
  {
    if n > 0 {
      DealtInOrder(inputs, n - 1, draw);
      OneMoreAdmitted(inputs, n - 1, draw);
    }
  }

  // ----- Any number of processes can run -----

  lemma EssentialIsGood(i: nat, j: nat)
    ensures GoodTable(EssentialTable(i, j))
  {
  }

  lemma {:induction false} NothingCounted(n: nat)
    ensures Sum(NoCounts(n)) == ZERO
    decreases n
  {
    if n > 0 {
      var counts := NoCounts(n);
      assert counts[1..] == NoCounts(n - 1) && counts[0] == ZERO;
      NothingCounted(n - 1);
    }
  }

  lemma FirstProcIsOk(inputs: seq<Input>, i: nat)
    requires i < |inputs| && InputOk(inputs[i])
    ensures ProcOk(FirstProc(inputs, i), |inputs|)
  {
    EssentialIsGood(i, ESSENTIAL_PAGES);
  }

  ghost predicate InputsOk(inputs: seq<Input>) {
    forall i | 0 <= i < |inputs| :: InputOk(inputs[i])
  }

  lemma BeginProcs(inputs: seq<Input>)
    requires InputsOk(inputs)
    ensures ProcsOk(Begin(inputs))
  {
    forall i: nat | i < |inputs| ensures ProcOk(Begin(inputs).ready[i], |inputs|) {
      FirstProcIsOk(inputs, i);
    }
  }

  lemma BeginCounters(inputs: seq<Input>)
    ensures CountersOk(Begin(inputs))
  {
    NothingCounted(|inputs|);
  }

  lemma RunsIfCounted(inputs: seq<Input>)
    requires InputsOk(inputs) && CountersOk(Begin(inputs))
    ensures Running(Begin(inputs))
  {
    BeginProcs(inputs);
  }

  lemma BeginRuns(inputs: seq<Input>)
    requires InputsOk(inputs)
    ensures Running(Begin(inputs))
  {
    BeginCounters(inputs);
    RunsIfCounted(inputs);
  }

  /** The state in which the program ends. */
  ghost function End(inputs: seq<Input>, draw: nat): World
    requires InputsOk(inputs)
  {
    BeginRuns(inputs);
    Finished(Begin(inputs), draw)
  }

  // ----- Where the frames are -----

  lemma EssentialHeld(t: seq<PageEntry>, j: nat, frame: int)
    requires j < |t| && t[j].entry == 0 && -1 <= frame < CAPACITY
    ensures Holding(t[j := Stored(frame)]) == Holding(t) + multiset{if frame == -1 then 0x3FFF else frame}
  {
    var e := Stored(frame);
    HoldingUpdate(t, j, e);
    assert EntryFrames(e.entry, SPAN) == multiset{if frame == -1 then 0x3FFF else frame};
    Cancel(Holding(t[j := e]), Holding(t) + multiset{if frame == -1 then 0x3FFF else frame}, multiset{});
  }

  /** The frames named by requests a to b - 1. */
  function Requested(a: nat, b: nat): (f: seq<int>)
    requires a <= b
    ensures |f| == b - a && forall k: nat | k < |f| :: f[k] == if a + k < CAPACITY then a + k else 0x3FFF
  {
    seq(b - a, k requires 0 <= k => if a + k < CAPACITY then a + k else 0x3FFF)
  }

  lemma RequestedNext(a: nat, b: nat)
    requires a <= b
    ensures multiset(Requested(a, b + 1))
         == multiset(Requested(a, b)) + multiset{if b < CAPACITY then b else 0x3FFF}
  {
    assert Requested(a, b + 1) == Requested(a, b) + [if b < CAPACITY then b else 0x3FFF];
  }

  lemma RequestedJoined(b: nat, c: nat)
    requires b <= c
    ensures multiset(Requested(0, b)) + multiset(Requested(b, c)) == multiset(Requested(0, c))
  {
    assert Requested(0, c) == Requested(0, b) + Requested(b, c);
  }

  lemma {:induction false} EssentialFrames(i: nat, first: nat, j: nat)
    requires j <= ESSENTIAL_PAGES && first == 10 * i
    ensures Holding(EssentialTable(i, j)) == multiset(Requested(first, first + j))
    decreases j
  {
    if j == 0 {
      NoFrames(Entries(EssentialTable(i, 0)), SPAN);
    } else {
      EssentialFrames(i, first, j - 1);
      var t, f := EssentialTable(i, j - 1), first + j - 1;
      assert EssentialTable(i, j) == t[j - 1 := Stored(Nth(f))];
      EssentialHeld(t, j - 1, Nth(f));
      RequestedNext(first, f);
    }
  }

  lemma ProcsHoldMore(inputs: seq<Input>, n: nat)
    requires n < |inputs|
    ensures HeldBy(FirstProcs(inputs, n + 1))
         == HeldBy(FirstProcs(inputs, n)) + Holding(EssentialTable(n, ESSENTIAL_PAGES))
  {
    HeldBySnoc(FirstProcs(inputs, n), FirstProc(inputs, n));
    assert FirstProcs(inputs, n + 1) == FirstProcs(inputs, n) + [FirstProc(inputs, n)];
  }

  lemma {:induction false} ProcsHold(inputs: seq<Input>, n: nat, first: nat)
    requires n <= |inputs| && first == 10 * n
    ensures HeldBy(FirstProcs(inputs, n)) == multiset(Requested(0, first))
    decreases n
  {
    if n == 0 {
      assert Requested(0, 0) == [];
    } else {
      var last := first - 10;
      ProcsHold(inputs, n - 1, last);
      EssentialFrames(n - 1, last, ESSENTIAL_PAGES);
      RequestedJoined(last, first);
      ProcsHoldMore(inputs, n - 1);
    }
  }

  /** With more processes the list is down to its minimum before all essential pages have frames. */
  const MAX_PROCESSES := 1128

  lemma AllDealt(first: nat)
    requires first <= CAPACITY
    ensures Listed(FreeFrom(first)) + multiset(Requested(0, first)) + multiset{} == AllFrames()
  {
    var held, free := Requested(0, first), FrameNos(FreeFrom(first));
    assert held + free == FirstFrames(USABLE_FRAMES);
    assert multiset(free) + multiset(held) + multiset{} == multiset(held + free);
  }

  lemma NoSuchFrame(ff: seq<FrameEntry>, f: nat)
    requires f > CAPACITY
    ensures Listed(ff) + multiset(Requested(0, f)) + multiset{} != AllFrames()
  {
    var held, free := multiset(Requested(0, f)), Listed(ff);
    assert Requested(0, f)[CAPACITY] == 0x3FFF;
    assert (free + held + multiset{})[0x3FFF] == free[0x3FFF] + held[0x3FFF];
    AllFramesOnce(AllFrames());
    assert AllFrames()[0x3FFF] == 0;
  }

  /** Every frame is in exactly one place when the run begins if and only if there are at most
      1128 processes. */
  lemma FramesAreSoundExactly(inputs: seq<Input>)
    ensures FramesAre(Begin(inputs), AllFrames()) <==> |inputs| <= MAX_PROCESSES
  {
    ProcsHold(inputs, |inputs|, 10 * |inputs|);
    var f := 10 * |inputs|;
    if |inputs| <= MAX_PROCESSES { AllDealt(f); } else { NoSuchFrame(Begin(inputs).ff, f); }
  }

  lemma BeginsSound(inputs: seq<Input>)
    requires |inputs| <= MAX_PROCESSES && InputsOk(inputs)
    ensures Inv(Begin(inputs))
  {
    BeginRuns(inputs);
    FramesAreSoundExactly(inputs);
    assert FramesAre(Begin(inputs), AllFrames());
  }

  lemma BeginsUnsound(inputs: seq<Input>)
    requires |inputs| > MAX_PROCESSES
    ensures !Inv(Begin(inputs))
  {
    FramesAreSoundExactly(inputs);
    assert Inv(Begin(inputs)) ==> FramesAre(Begin(inputs), AllFrames());
  }

  lemma BeginInvariant(inputs: seq<Input>)
    requires InputsOk(inputs)
    ensures Inv(Begin(inputs)) <==> |inputs| <= MAX_PROCESSES
  {
    if |inputs| <= MAX_PROCESSES { BeginsSound(inputs); } else { BeginsUnsound(inputs); }
  }

  /** One process more than that: its last two essential pages hold a frame there is not, and the
      list is at its minimum. */
  lemma OneProcessTooMany(inputs: seq<Input>, draw: nat)
    requires |inputs| == MAX_PROCESSES + 1
    ensures var w := Deal(inputs, |inputs|, draw);
      && |w.ff| == MIN_FREE && |w.ready| == |inputs|
      && var t := w.ready[1128].table;
        && |t| == TABLE_SIZE && t[7].entry == 11287 + VALID && t[8].entry == t[9].entry == 0xFFFF
        && FrameOf(t[8].entry, SPAN) == 16383
  {
    DealtInOrder(inputs, |inputs|, draw);
    assert Begin(inputs).ready[1128] == FirstProc(inputs, 1128);
  }

  // ----- What more processes do to the list -----

  lemma FramesCount(w: World)
    ensures |FramesIn(w)| == |w.ff| + |HeldBy(w.ready)| + |HeldBy(w.dropped)|
  {
    assert |Listed(w.ff)| == |w.ff|;
  }

  /** With more than 1128 processes none of which is dropped, the list ends up longer than its
      array: it gets back the frames that there are not. */
  lemma ListOutgrowsArray(inputs: seq<Input>, draw: nat)
    requires |inputs| > MAX_PROCESSES && InputsOk(inputs)
    ensures var e := End(inputs, draw); e.dropped == [] ==> |e.ff| == MIN_FREE + 10 * |inputs| > USABLE_FRAMES
  {
    BeginCount(inputs);
    EndCount(inputs, draw);
  }

  lemma EndCount(inputs: seq<Input>, draw: nat)
    requires InputsOk(inputs)
    ensures var e := End(inputs, draw); |FramesIn(Begin(inputs))| == |e.ff| + |HeldBy(e.dropped)|
  {
    BeginRuns(inputs);
    RunKeepsFrames(Begin(inputs), draw);
    FramesCount(End(inputs, draw));
  }

  lemma BeginCount(inputs: seq<Input>)
    requires |inputs| > MAX_PROCESSES
    ensures |FramesIn(Begin(inputs))| == MIN_FREE + 10 * |inputs|
  {
    ProcsHold(inputs, |inputs|, 10 * |inputs|);
    FramesCount(Begin(inputs));
  }

  ghost predicate NeedsNoPages(ps: seq<Proc>) {
    forall i | 0 <= i < |ps| :: ps[i].s == 1
  }

  lemma {:induction false} NothingIsDropped(w: World, draw: nat)
    requires Running(w) && NeedsNoPages(w.ready)
    ensures Finished(w, draw).dropped == w.dropped
    decreases SearchesLeft(w.ready)
  {
    if w.ready != [] {
      IterateGoesOn(w, draw);
      assert FirstSearch(w, draw).found;
      NothingIsDropped(Iterate(w, draw), draw);
    }
  }

  /** For any number above 1128 there are such processes: those with a single element to search. */
  lemma SmallProcessesOverrunTheArray(inputs: seq<Input>, draw: nat)
    requires |inputs| > MAX_PROCESSES && InputsOk(inputs) && forall i | 0 <= i < |inputs| :: inputs[i].s == 1
    ensures |End(inputs, draw).ff| == MIN_FREE + 10 * |inputs| > USABLE_FRAMES
  {
    SmallProcessesAreKept(inputs, draw);
    ListOutgrowsArray(inputs, draw);
  }

  lemma SmallProcessesAreKept(inputs: seq<Input>, draw: nat)
    requires InputsOk(inputs) && forall i | 0 <= i < |inputs| :: inputs[i].s == 1
    ensures End(inputs, draw).dropped == []
  {
    assert NeedsNoPages(Begin(inputs).ready);
    BeginRuns(inputs);
    NothingIsDropped(Begin(inputs), draw);
  }

  ghost predicate ListStaysInArray(inputs: seq<Input>, draw: nat)
    requires InputsOk(inputs)
  {
    BeginRuns(inputs);
    StaysInArray(Begin(inputs), draw)
  }

  lemma SmallProcessesLeaveTheArray(inputs: seq<Input>, draw: nat)
    requires |inputs| > MAX_PROCESSES && InputsOk(inputs) && forall i | 0 <= i < |inputs| :: inputs[i].s == 1
    ensures !ListStaysInArray(inputs, draw)
  {
    SmallProcessesOverrunTheArray(inputs, draw);
    BeginRuns(inputs);
    if StaysInArray(Begin(inputs), draw) { EndFits(Begin(inputs), draw); }
  }

  lemma FewProcessesStayInArray(inputs: seq<Input>, draw: nat)
    requires |inputs| <= MAX_PROCESSES && InputsOk(inputs)
    ensures ListStaysInArray(inputs, draw)
  {
    BeginsSound(inputs);
    RunStaysInArray(Begin(inputs), draw);
  }

  /** The array is long enough for every run of n processes exactly if n is at most 1128. */
  lemma ArrayIsLongEnoughExactly(n: nat, draw: nat)
    ensures (forall inputs | |inputs| == n && InputsOk(inputs) :: ListStaysInArray(inputs, draw))
            <==> n <= MAX_PROCESSES
  {
    if n <= MAX_PROCESSES {
      forall inputs | |inputs| == n && InputsOk(inputs) ensures ListStaysInArray(inputs, draw) {
        FewProcessesStayInArray(inputs, draw);
      }
    } else {
      SmallProcessesLeaveTheArray(seq(n, i => Input(1, [0])), draw);
    }
  }
}
