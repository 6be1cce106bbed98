/** LA3's `schedule`, in place, proved against the functions of SchedulerSpec. */
module Scheduler {
  import opened EventOrder
  import opened EventHeap
  import opened SchedulerSpec
  import opened SchedulerSteps
  import opened SchedulerRuns
  import opened Sequences

  const MAXB := 50

  /** Distinct processes below n: the heap never holds more than n events. */
  lemma HeapIsSmall(ids: seq<int>, h: seq<Event>)
    requires Sound(ids, h)
    ensures |h| <= |ids|
  {
    var processes := seq(|h|, i requires 0 <= i < |h| => h[i].process);
    DistinctBound(processes, |ids|);
  }

  /** An event that a reachable state awaits can be inserted. */
  lemma InsertionIsSound(s: Sched, h: seq<Event>, e: Event)
    requires PlacesOk(s) && s.events == multiset(h) + multiset{e}
    ensures e.process < |s.tracks| && Sound(IdsOf(s.tracks), h + [e])
  {
    EventsAreOrderly(s);
    assert multiset(h + [e]) == s.events;
    assert e in s.events;
    SoundFromOrderly(IdsOf(s.tracks), h + [e]);
  }

  /** Arrivals in index order can be inserted one after the other. */
  lemma ArrivalIsSound(ids: seq<int>, procs: seq<Process>, h: seq<Event>, i: nat)
    requires DistinctIds(ids) && |ids| == |procs| && i < |procs|
    requires multiset(h) == Arrivals(procs[..i])
    ensures var e := Event(i, procs[i].arrivalTime, ARRIVAL);
            Sound(ids, h + [e]) && multiset(h) + multiset{e} == Arrivals(procs[..i + 1])
  {
    var e := Event(i, procs[i].arrivalTime, ARRIVAL);
    assert procs[..i + 1][..i] == procs[..i];
    assert multiset(h + [e]) == multiset(h) + multiset{e} == Arrivals(procs[..i + 1]);
    ArrivalsAreOrderly(ids, procs[..i + 1]);
    SoundFromOrderly(ids, h + [e]);
  }

  lemma ArrivalsAreOrderly(ids: seq<int>, procs: seq<Process>)
    requires DistinctIds(ids) && |procs| <= |ids|
    ensures Orderly(ids, Arrivals(procs)) && forall f | f in Arrivals(procs) :: Arrivals(procs)[f] == 1
  {
    var events := Arrivals(procs);
    forall f | f in events ensures IsArrival(procs, f) && events[f] == 1 {
      assert events[f] > 0;
    }
  }

  lemma FirstCanBeHandled(s: Sched, e: Event, q: int)
    requires PlacesOk(s) && First(s, e) && q >= 1
    ensures Earliest(s, e) && HandleReady(s, e) && PlacesOk(Handle(s, e))
    ensures PlacesOk(Step(s, e, q)) && Step(s, e, q) == Dispatch(Handle(s, e), q)
    ensures Handle(s, e).joined == Step(s, e, q).joined == s.joined + if e.kind == BURST_END then 0 else 1
  {
    LeastIsEarliest(s, e);
    HandleKeepsPlaces(s, e);
    HandleChangesOneTrack(s, e);
    StepKeepsPlaces(s, e, q);
  }

  /** What is left to do of a dispatch when process i has been taken from the queue. */
  lemma DispatchInParts(s: Sched, c: Sched, i: nat, q: int, event: Event)
    requires s.run == -1 && s.ready != [] && i == s.ready[0] < |s.tracks|
    requires c == s.(ready := s.ready[1..], run := i)
    requires var p := s.tracks[i].p;
      var time := Min(q, p.remTime);
      event == Event(i, s.now + time, if time == p.remTime then BURST_END else TIMEOUT)
    ensures Dispatch(s, q) == SetTrack(c, i, StartedTrack(s.tracks[i], s.now, q)).(events := c.events + multiset{event})
  {
  }

  /** The first i processes have been reset and their arrivals inserted. */
  ghost predicate PartlyReset(s: Sched, procs: seq<Process>, i: nat)
    requires ValidInput(procs)
  {
    && i <= |procs| == |s.tracks|
    && s == Sched(s.tracks, Arrivals(procs[..i]), [], 0, -1, 0, 0)
    && (forall k | 0 <= k < i :: s.tracks[k] == Fresh(procs[k]))
    && (forall k | i <= k < |procs| :: s.tracks[k].p == procs[k])
  }

  class Simulator {
    const processes: array<Process>
    const heap: Heap
    const readyQueue: array<nat>
    var rFrnt: nat
    var rRear: nat
    var runProc: int
    var currTime: int
    var idleTime: int
    ghost var tracks: seq<Track>

    ghost predicate Valid()
      reads this, processes, readyQueue, heap, heap.eventHeap
    {
      && heap.Valid() && heap.ids == IdsOf(tracks)
      && heap.eventHeap.Length == MAXP * MAXB && readyQueue.Length == MAXP
      && |tracks| == processes.Length <= MAXP
      && (forall i | 0 <= i < |tracks| :: tracks[i].p == processes[i])
      && rFrnt <= rRear <= readyQueue.Length
    }

    ghost function Current(): Sched
      requires Valid()
      reads this, processes, readyQueue, heap, heap.eventHeap
    {
      Sched(tracks, multiset(heap.Items()), readyQueue[rFrnt..rRear], rRear, runProc, currTime, idleTime)
    }

    /** `init`, with the contents of the input file as the argument. */
    constructor (procs: seq<Process>)
      requires ValidInput(procs) && |procs| <= MAXP
      ensures Valid() && fresh(processes) && fresh(readyQueue) && fresh(heap) && fresh(heap.eventHeap)
      ensures |tracks| == |procs|
      ensures forall i | 0 <= i < |procs| :: tracks[i].p == Restarted(procs[i])
    {
      processes := new Process[|procs|](i requires 0 <= i < |procs| => Restarted(procs[i]));
      var ids := seq(|procs|, i requires 0 <= i < |procs| => procs[i].id);
      heap := new Heap(ids, MAXP * MAXB);
      readyQueue := new nat[MAXP](i => 0);
      rFrnt, rRear, runProc, currTime, idleTime := 0, 0, -1, 0, 0;
      tracks := FreshAll(procs);
      new;
      assert heap.ids == IdsOf(tracks);
    }

    /** Lines 114-117. */
    method Enqueue(i: nat)
      requires Valid() && rRear < readyQueue.Length
      modifies this`rRear, readyQueue
      ensures Valid() && Current() == old(Current()).(ready := old(Current()).ready + [i], joined := old(rRear) + 1)
    {
      readyQueue[rRear] := i;
      rRear := rRear + 1;
    }

    /** Lines 119-124. */
    method Dequeue() returns (i: int)
      requires Valid()
      modifies this`rFrnt
      ensures Valid()
      ensures old(Current()).ready == [] ==> i == -1 && Current() == old(Current())
      ensures old(Current()).ready != [] ==>
                i == old(Current()).ready[0] && Current() == old(Current()).(ready := old(Current()).ready[1..])
    {
      if rFrnt == rRear {
        return -1;
      }
      i := readyQueue[rFrnt];
      rFrnt := rFrnt + 1;
    }

    /** The process record and the ghost track that follows it. */
    method Update(i: nat, p: Process, ghost t: Track)
      requires Valid() && i < processes.Length && t.p == p && p.id == processes[i].id
      modifies this`tracks, processes
      ensures Valid() && Current() == SetTrack(old(Current()), i, t)
    {
      processes[i] := p;
      tracks := tracks[i := t];
    }

    /** `insert` */
    method Insert(e: Event)
      requires Valid() && e.process < |heap.ids| && Sound(heap.ids, heap.Items() + [e])
      modifies heap`heapSz, heap.eventHeap
      ensures Valid() && Current() == old(Current()).(events := old(Current()).events + multiset{e})
    {
      HeapIsSmall(heap.ids, heap.Items());
      heap.Insert(e);
    }

    /** `insert` where the state after it is known to be reachable up to the run flag. */
    method Push(e: Event, ghost s: Sched)
      requires Valid() && PlacesOk(s) && s.tracks == tracks && s.events == Current().events + multiset{e}
      modifies heap`heapSz, heap.eventHeap
      ensures Valid() && Current() == old(Current()).(events := s.events)
    {
      InsertionIsSound(s, heap.Items(), e);
      Insert(e);
    }

    /** Lines 195-199. */
    method MoveClock(time: int)
      requires Valid()
      modifies this`currTime, this`idleTime
      ensures Valid()
      ensures Current() == old(Current()).(now := time,
                idle := old(idleTime) + if runProc == -1 && old(currTime) < time then time - old(currTime) else 0)
    {
      var ptime := currTime;
      currTime := time;
      if runProc == -1 && ptime < currTime {
        idleTime := idleTime + (currTime - ptime);
      }
    }

    /** `min` */
    method PopEvent() returns (e: Event)
      requires Valid() && heap.heapSz > 0
      modifies heap`heapSz, heap.eventHeap
      ensures Valid() && e in old(multiset(heap.Items()))
      ensures forall f | f in old(multiset(heap.Items())) :: f.process < |heap.ids| && Le(heap.ids, e, f)
      ensures Current() == old(Current()).(events := old(Current()).events - multiset{e})
    {
      e := heap.Min();
    }

    /** Lines 194-199. */
    method TakeEvent() returns (e: Event)
      requires Valid() && heap.heapSz > 0
      modifies this`currTime, this`idleTime, heap`heapSz, heap.eventHeap
      ensures Valid() && First(old(Current()), e)
      ensures Current() == Advance(old(Current()), e)
    {
      e := PopEvent();
      MoveClock(e.time);
    }

    /** Lines 226-235: the I/O burst after the CPU burst begins. */
    method BeginIo(i: nat, ghost a: Sched)
      requires Valid() && Current() == a && i < |a.tracks|
      requires a.tracks[i].p.currBurst + 1 < |a.tracks[i].p.cpuBursts| == |a.tracks[i].p.ioBursts| + 1
      requires PlacesOk(EndBurst(a, i))
      modifies this`tracks, processes, heap`heapSz, heap.eventHeap
      ensures Valid() && Current() == EndBurst(a, i).(run := runProc)
    {
      ghost var h := EndBurst(a, i);
      var p := processes[i];
      var io := p.ioBursts[p.currBurst];
      var k := p.currBurst + 1;
      Update(i, p.(currBurst := k, remTime := p.cpuBursts[k], state := WAITING), h.tracks[i]);
      Push(Event(i, currTime + io, IO_END), h);
    }

    /** Lines 216-236. */
    method HandleBurstEnd(i: nat, ghost a: Sched)
      requires Valid() && Current() == a && i < |a.tracks|
      requires a.tracks[i].p.currBurst < |a.tracks[i].p.cpuBursts| == |a.tracks[i].p.ioBursts| + 1
      requires PlacesOk(EndBurst(a, i))
      modifies this, processes, heap`heapSz, heap.eventHeap
      ensures Valid() && Current() == EndBurst(a, i)
    {
      ghost var h := EndBurst(a, i);
      var p := processes[i];
      if p.currBurst == |p.cpuBursts| - 1 {
        Update(i, p.(state := FINISHED, tat := currTime - p.arrivalTime), h.tracks[i]);
      } else {
        BeginIo(i, a);
      }
      FreeCpu();
    }

    method FreeCpu()
      requires Valid()
      modifies this`runProc
      ensures Valid() && Current() == old(Current()).(run := -1)
    {
      runProc := -1;
    }

    /** Lines 206-213 and 239-257. */
    method HandleJoin(i: nat, timeout: bool, ghost a: Sched)
      requires Valid() && Current() == a && i < |a.tracks| && rRear < readyQueue.Length
      modifies this, processes, readyQueue
      ensures Valid()
      ensures Current() == if timeout then Join(a, i).(run := -1) else Join(a, i)
    {
      Update(i, processes[i].(state := READY), Join(a, i).tracks[i]);
      Enqueue(i);
      if timeout { FreeCpu(); }
    }

    /** Lines 204-258. */
    method HandleEvent(e: Event, ghost s: Sched)
      requires Valid() && Current() == Advance(s, e)
      requires HandleReady(s, e) && PlacesOk(Handle(s, e)) && Handle(s, e).joined <= readyQueue.Length
      modifies this, processes, readyQueue, heap`heapSz, heap.eventHeap
      ensures Valid() && Current() == Handle(s, e)
    {
      if e.kind == BURST_END {
        HandleBurstEnd(e.process, Advance(s, e));
      } else {
        HandleJoin(e.process, e.kind == TIMEOUT, Advance(s, e));
      }
    }

    /** Lines 265-283. */
    method StartSlice(q: int, ghost s: Sched)
      requires Valid() && q >= 1 && s.run == -1 && s.ready != [] && s.ready[0] < |s.tracks|
      requires Current() == s.(ready := s.ready[1..], run := s.ready[0])
      requires PlacesOk(Dispatch(s, q))
      modifies this, processes, heap`heapSz, heap.eventHeap
      ensures Valid() && Current() == Dispatch(s, q)
    {
      var nxt := processes[runProc];
      var time := Min(q, nxt.remTime);
      var kind := if time == nxt.remTime then BURST_END else TIMEOUT;
      var started := nxt.(state := RUNNING, remTime := nxt.remTime - time);
      var event := Event(runProc, currTime + time, kind);
      DispatchInParts(s, Current(), runProc, q, event);
      Update(runProc, started, StartedTrack(s.tracks[runProc], s.now, q));
      Push(event, Dispatch(s, q));
    }

    /** Lines 260-291. */
    method DispatchNext(q: int)
      requires Valid() && q >= 1
      requires Current().ready != [] ==> Current().ready[0] < |tracks|
      requires PlacesOk(Dispatch(Current(), q))
      modifies this, processes, heap`heapSz, heap.eventHeap
      ensures Valid() && Current() == Dispatch(old(Current()), q)
    {
      if runProc == -1 {
        ghost var s := Current();
        runProc := Dequeue();
        if runProc != -1 {
          StartSlice(q, s);
        }
      }
    }

    /** Lines 193-291: one iteration of the main loop.  Where the program would write past the end
        of `ready_queue`, the model stops with `fits` false. */
    method Iterate(q: int, ghost procs: seq<Process>) returns (ghost e: Event, fits: bool)
      requires Valid() && q >= 1 && heap.heapSz > 0 && Inv(Current(), procs, q)
      modifies this, processes, readyQueue, heap`heapSz, heap.eventHeap
      ensures Valid() && First(old(Current()), e) && Earliest(old(Current()), e)
      ensures fits <==> Step(old(Current()), e, q).joined <= MAXP
      ensures fits ==> Current() == Step(old(Current()), e, q)
    {
      ghost var s := Current();
      var next := TakeEvent();
      e := next;
      FirstCanBeHandled(s, e, q);
      fits := next.kind == BURST_END || rRear < readyQueue.Length;
      if fits {
        HandleEvent(next, s);
        DispatchNext(q);
      }
    }

    ghost predicate ResetUpTo(procs: seq<Process>, i: nat)
      requires ValidInput(procs)
      reads this, processes, readyQueue, heap, heap.eventHeap
    {
      Valid() && PartlyReset(Current(), procs, i)
    }

    /** Lines 178-182. */
    method ResetOne(i: nat, ghost procs: seq<Process>)
      requires ValidInput(procs) && ResetUpTo(procs, i) && i < |procs|
      modifies this`tracks, processes, heap`heapSz, heap.eventHeap
      ensures ResetUpTo(procs, i + 1)
    {
      var p := processes[i];
      Update(i, p.(currBurst := 0, remTime := p.cpuBursts[0], state := READY), Fresh(procs[i]));
      InsertArrival(i, p.arrivalTime, procs);
    }

    method InsertArrival(i: nat, time: int, ghost procs: seq<Process>)
      requires Valid() && i < |procs| == |tracks| && time == procs[i].arrivalTime
      requires Current().events == Arrivals(procs[..i])
      modifies heap`heapSz, heap.eventHeap
      ensures Valid() && Current() == old(Current()).(events := Arrivals(procs[..i + 1]))
    {
      ArrivalIsSound(heap.ids, procs, heap.Items(), i);
      Insert(Event(i, time, ARRIVAL));
    }

    /** Lines 171-177. */
    method ClearState(ghost procs: seq<Process>)
      requires Valid() && ValidInput(procs) && procs == processes[..]
      modifies `currTime, `runProc, `idleTime, `rFrnt, `rRear, heap`heapSz, heap.eventHeap
      ensures ResetUpTo(procs, 0)
    {
      currTime, runProc, idleTime := 0, -1, 0;
      rFrnt, rRear := 0, 0;
      heap.Clear();
    }

    /** Lines 171-183. */
    method Reset(ghost procs: seq<Process>)
      requires Valid() && ValidInput(procs) && procs == processes[..]
      modifies this, processes, heap`heapSz, heap.eventHeap
      ensures Valid() && Current() == Initial(procs)
    {
      ClearState(procs);
      var i := 0;
      while i < processes.Length
        invariant ResetUpTo(procs, i)
      {
        ResetOne(i, procs);
        i := i + 1;
      }
      AllReset(procs);
    }

    lemma {:induction false} AllReset(procs: seq<Process>)
      requires ValidInput(procs) && ResetUpTo(procs, |procs|)
      ensures Current() == Initial(procs)
    {
      assert procs[..|procs|] == procs;
      assert Current().tracks == Initial(procs).tracks;
    }

    /** Lines 191-292. */
    method MainLoop(q: int, ghost procs: seq<Process>) returns (fits: bool)
      requires q >= 1 && Valid() && Inv(Current(), procs, q)
      modifies this, processes, readyQueue, heap`heapSz, heap.eventHeap
      ensures Valid() && (fits <==> TotalSlices(procs, q) <= MAXP)
      ensures fits ==> Inv(Current(), procs, q) && Current().events == multiset{}
    {
      EventsNonNegative(Current().tracks, q);
      fits := true;
      while heap.heapSz > 0
        invariant Valid() && Inv(Current(), procs, q)
        invariant Sum(Current().tracks, EventsOf(q)) >= 0
        decreases Sum(Current().tracks, EventsOf(q))
      {
        ghost var s := Current();
        ghost var e;
        e, fits := Iterate(q, procs);
        StepKeepsInvariant(s, e, procs, q);
        StepCounts(s, e, q);
        JoinsNonNegative(Step(s, e, q).tracks, q);
        EventsNonNegative(Step(s, e, q).tracks, q);
        if !fits { return; }
      }
      assert heap.Items() == [];
      ReportIsExact(Current(), procs, q);
    }

    /** Lines 169-303: the whole simulation, and the numbers it reports.  The program goes through
        without leaving `ready_queue` exactly if the input has at most `MAXP` time slices. */
    method Schedule(q: int, ghost procs: seq<Process>) returns (fits: bool)
      requires Valid() && ValidInput(procs) && procs == processes[..] && q >= 1
      modifies this, processes, readyQueue, heap`heapSz, heap.eventHeap
      ensures Valid() && (fits <==> TotalSlices(procs, q) <= MAXP)
      ensures fits ==>
        && SameInput(tracks, procs)
        && (forall i | 0 <= i < processes.Length ::
              && processes[i].state == FINISHED
              && processes[i].tat == processes[i].totRuntime + tracks[i].waited
              && tracks[i].waited >= 0)
        && currTime - idleTime == TotalCpu(procs)
        && rRear == TotalSlices(procs, q)
    {
      InitialInvariant(procs, q);
      Reset(procs);
      fits := MainLoop(q, procs);
      if fits { ReportIsExact(Current(), procs, q); }
    }
  }
}
