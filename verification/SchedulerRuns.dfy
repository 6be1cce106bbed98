/** LA3 from the first event to the last: what the invariants give for the printed report. */
module SchedulerRuns {
  import opened EventOrder
  import opened SchedulerSpec
  import opened SchedulerSteps

  /** Enqueues of a whole simulation: the slices of every CPU burst. */
  function TotalSlices(procs: seq<Process>, q: int): nat
    requires q >= 1
  {
    if procs == [] then 0 else SlicesFrom(procs[0], 0, q, 0) + TotalSlices(procs[1..], q)
  }

  function TotalCpu(procs: seq<Process>): int {
    if procs == [] then 0 else CpuUpTo(procs[0], |procs[0].cpuBursts|) + TotalCpu(procs[1..])
  }

  /** Events of a whole simulation: per process one arrival, the slices, and the I/O ends. */
  function TotalEvents(procs: seq<Process>, q: int): nat
    requires q >= 1
  {
    if procs == [] then 0 else SlicesFrom(procs[0], 0, q, 1) + TotalEvents(procs[1..], q)
  }

  ghost predicate Inv(s: Sched, procs: seq<Process>, q: int)
    requires q >= 1
  {
    && PlacesOk(s) && WorkConserving(s) && BusyOk(s) && WaitOk(s, q)
    && s.joined + Sum(s.tracks, JoinsOf(q)) == TotalSlices(procs, q)
    && SameInput(s.tracks, procs)
  }

  lemma StepKeepsBusy(s: Sched, e: Event, q: int)
    requires q >= 1 && PlacesOk(s) && Earliest(s, e) && BusyOk(s)
    ensures BusyOk(Step(s, e, q))
  {
    HandleKeepsPlaces(s, e);
    HandleKeepsBusy(s, e);
    DispatchKeepsBusy(Handle(s, e), q);
  }

  lemma StepCounts(s: Sched, e: Event, q: int)
    requires q >= 1 && PlacesOk(s) && Earliest(s, e)
    ensures Step(s, e, q).joined + Sum(Step(s, e, q).tracks, JoinsOf(q)) == s.joined + Sum(s.tracks, JoinsOf(q))
    ensures Sum(Step(s, e, q).tracks, EventsOf(q)) == Sum(s.tracks, EventsOf(q)) - 1
  {
    HandleKeepsPlaces(s, e);
    HandleCounts(s, e, q);
    DispatchCounts(Handle(s, e), q);
  }

  lemma StepKeepsWaits(s: Sched, e: Event, q: int)
    requires q >= 1 && PlacesOk(s) && WorkConserving(s) && Earliest(s, e) && WaitOk(s, q)
    ensures WaitOk(Step(s, e, q), q)
  {
    HandleKeepsPlaces(s, e);
    HandleKeepsWaits(s, e, q);
    DispatchKeepsWaits(Handle(s, e), q);
  }

  ghost predicate SameInput(tracks: seq<Track>, procs: seq<Process>) {
    && |tracks| == |procs|
    && (forall i | 0 <= i < |procs| :: Like(tracks[i].p, procs[i]))
  }

  /** The fields that come from the input file. */
  ghost predicate Like(p: Process, r: Process) {
    && p.id == r.id && p.arrivalTime == r.arrivalTime && p.totRuntime == r.totRuntime
    && p.cpuBursts == r.cpuBursts && p.ioBursts == r.ioBursts
  }

  lemma HandleKeepsLike(s: Sched, e: Event, i: nat)
    requires HandleReady(s, e) && i < |s.tracks|
    ensures |Handle(s, e).tracks| == |s.tracks| && Like(Handle(s, e).tracks[i].p, s.tracks[i].p)
  {
    if i != e.process {
      assert Handle(s, e).tracks[i] == s.tracks[i];
    }
  }

  lemma DispatchKeepsLike(s: Sched, q: int, i: nat)
    requires (s.ready != [] ==> s.ready[0] < |s.tracks|) && i < |s.tracks|
    ensures |Dispatch(s, q).tracks| == |s.tracks| && Like(Dispatch(s, q).tracks[i].p, s.tracks[i].p)
  {
  }

  lemma StepKeepsInput(s: Sched, e: Event, procs: seq<Process>, q: int)
    requires q >= 1 && PlacesOk(s) && Earliest(s, e) && SameInput(s.tracks, procs)
    ensures SameInput(Step(s, e, q).tracks, procs)
  {
    StepKeepsPlaces(s, e, q);
    HandleKeepsPlaces(s, e);
    forall i: nat | i < |procs| ensures Like(Step(s, e, q).tracks[i].p, procs[i]) {
      assert Like(s.tracks[i].p, procs[i]);
      HandleKeepsLike(s, e, i);
      DispatchKeepsLike(Handle(s, e), q, i);
    }
  }

  lemma StepKeepsInvariant(s: Sched, e: Event, procs: seq<Process>, q: int)
    requires q >= 1 && Inv(s, procs, q) && Earliest(s, e)
    ensures Inv(Step(s, e, q), procs, q)
  {
    StepKeepsPlaces(s, e, q);
    StepKeepsBusy(s, e, q);
    StepCounts(s, e, q);
    StepKeepsWaits(s, e, q);
    StepKeepsInput(s, e, procs, q);
  }

  // ----- The start -----

  function Fresh(p: Process): Track
    requires |p.cpuBursts| > 0
  {
    Track(Restarted(p), Arriving, 0)
  }

  function FreshAll(procs: seq<Process>): (tracks: seq<Track>)
    requires forall p | p in procs :: |p.cpuBursts| > 0
    ensures |tracks| == |procs| && forall i | 0 <= i < |procs| :: tracks[i] == Fresh(procs[i])
  {
    seq(|procs|, i requires 0 <= i < |procs| => Fresh(procs[i]))
  }

  lemma {:induction false} FreshSums(procs: seq<Process>, q: int)
    requires q >= 1 && forall p | p in procs :: |p.cpuBursts| > 0
    ensures Sum(FreshAll(procs), Given) == 0
    ensures Sum(FreshAll(procs), JoinsOf(q)) == TotalSlices(procs, q)
    ensures Sum(FreshAll(procs), EventsOf(q)) == TotalEvents(procs, q)
  {
    if procs != [] {
      FreshSums(procs[1..], q);
      assert FreshAll(procs)[1..] == FreshAll(procs[1..]);
      var r := Restarted(procs[0]);
      SameSlices(procs[0], r, 1, q, 0);
      SameSlices(procs[0], r, 1, q, 1);
    }
  }

  lemma InitialPlaces(procs: seq<Process>)
    requires ValidInput(procs)
    ensures forall p | p in procs :: |p.cpuBursts| > 0
    ensures PlacesOk(Initial(procs)) && WorkConserving(Initial(procs))
  {
    var s := Initial(procs);
    forall i | 0 <= i < |procs| ensures TrackOk(s.tracks[i], 0) {
      FreshIsOk(procs[i]);
    }
    ArrivalsAwaited(procs);
  }

  lemma InitialInvariant(procs: seq<Process>, q: int)
    requires q >= 1 && ValidInput(procs)
    ensures forall p | p in procs :: |p.cpuBursts| > 0
    ensures Inv(Initial(procs), procs, q)
    ensures Sum(Initial(procs).tracks, EventsOf(q)) == TotalEvents(procs, q)
  {
    InitialPlaces(procs);
    assert Initial(procs).tracks == FreshAll(procs);
    FreshSums(procs, q);
  }

  lemma FreshIsOk(p: Process)
    requires WellFormed(p)
    ensures TrackOk(Fresh(p), 0)
  {
    SameBursts(p, Restarted(p), |p.cpuBursts|);
  }

  lemma ArrivalsAwaited(procs: seq<Process>)
    requires forall p | p in procs :: |p.cpuBursts| > 0
    ensures EventsMatch(Initial(procs))
  {
    var s := Initial(procs);
    forall e: Event ensures s.events[e] == (if Awaited(s.tracks, e) then 1 else 0) {
      assert IsArrival(procs, e) <==> Awaited(s.tracks, e);
    }
  }

  // ----- The end -----

  lemma {:induction false} SumWhenDone(tracks: seq<Track>, procs: seq<Process>, q: int)
    requires q >= 1 && SameInput(tracks, procs)
    requires forall i | 0 <= i < |tracks| :: tracks[i].place.Done? && TrackOk(tracks[i], tracks[i].p.tat)
    ensures Sum(tracks, Given) == TotalCpu(procs)
    ensures Sum(tracks, JoinsOf(q)) == 0 && Sum(tracks, EventsOf(q)) == 0
  {
    if tracks != [] {
      var t, rest := tracks[0], tracks[1..];
      assert TrackOk(t, t.p.tat);
      forall i | 0 <= i < |rest| ensures rest[i].place.Done? && TrackOk(rest[i], rest[i].p.tat) {
        assert rest[i] == tracks[i + 1];
      }
      SumWhenDone(rest, procs[1..], q);
      SameBursts(t.p, procs[0], |t.p.cpuBursts|);
      BurstsSplit(t.p, t.p.currBurst);
    }
  }

  /** When the heap is empty every process has exited; its turnaround time is its bursts plus
      its time in the ready queue, the busy time of the CPU is the sum of all CPU bursts, and
      the ready queue has been joined once for every slice. */
  lemma ReportIsExact(s: Sched, procs: seq<Process>, q: int)
    requires q >= 1 && Inv(s, procs, q) && s.events == multiset{}
    ensures forall i | 0 <= i < |s.tracks| ::
              && s.tracks[i].p.state == FINISHED
              && s.tracks[i].p.tat == s.tracks[i].p.totRuntime + s.tracks[i].waited
              && s.tracks[i].waited >= 0
    ensures s.now - s.idle == TotalCpu(procs)
    ensures s.joined == TotalSlices(procs, q) && Sum(s.tracks, EventsOf(q)) == 0
  {
    forall i: nat | i < |s.tracks| ensures s.tracks[i].place.Done? && TrackOk(s.tracks[i], s.tracks[i].p.tat) {
      assert TrackOk(s.tracks[i], s.now);
      NoEventNoPlace(s, i);
    }
    SumWhenDone(s.tracks, procs, q);
  }

  lemma NoEventNoPlace(s: Sched, i: nat)
    requires PlacesOk(s) && WorkConserving(s) && s.events == multiset{} && i < |s.tracks|
    ensures s.tracks[i].place.Done? && s.run == -1
  {
    forall k: nat | k < |s.tracks| ensures !HasEvent(s.tracks[k]) {
      NothingAwaited(s, k);
    }
    assert s.run >= 0 ==> HasEvent(s.tracks[s.run]);
  }

  lemma NothingAwaited(s: Sched, k: nat)
    requires EventsMatch(s) && s.events == multiset{} && k < |s.tracks|
    ensures !HasEvent(s.tracks[k])
  {
    var t := s.tracks[k];
    assert HasEvent(t) ==> Awaited(s.tracks, EventOf(k, t)) && s.events[EventOf(k, t)] == 1;
  }

  // ----- Whole runs -----

  /** `taken` are the events of the first iterations; of simultaneous events any may come first. */
  ghost predicate Run(s: Sched, taken: seq<Event>, q: int)
    requires PlacesOk(s) && q >= 1
    decreases |taken|
  {
    taken == [] ||
    (Earliest(s, taken[0]) && (StepKeepsPlaces(s, taken[0], q); Run(Step(s, taken[0], q), taken[1..], q)))
  }

  ghost function After(s: Sched, taken: seq<Event>, q: int): (r: Sched)
    requires PlacesOk(s) && q >= 1 && Run(s, taken, q)
    ensures PlacesOk(r)
    decreases |taken|
  {
    if taken == [] then s
    else
      StepKeepsPlaces(s, taken[0], q);
      After(Step(s, taken[0], q), taken[1..], q)
  }

  lemma {:induction false} RunKeepsInvariant(s: Sched, taken: seq<Event>, procs: seq<Process>, q: int)
    requires q >= 1 && Inv(s, procs, q) && Run(s, taken, q)
    ensures Inv(After(s, taken, q), procs, q)
    ensures |taken| + Sum(After(s, taken, q).tracks, EventsOf(q)) == Sum(s.tracks, EventsOf(q))
    decreases |taken|
  {
    if taken != [] {
      StepKeepsInvariant(s, taken[0], procs, q);
      StepCounts(s, taken[0], q);
      RunKeepsInvariant(Step(s, taken[0], q), taken[1..], procs, q);
    }
  }

  lemma {:induction false} JoinsNonNegative(tracks: seq<Track>, q: int)
    requires q >= 1
    ensures Sum(tracks, JoinsOf(q)) >= 0
  {
    if tracks != [] { JoinsNonNegative(tracks[1..], q); }
  }

  lemma {:induction false} EventsNonNegative(tracks: seq<Track>, q: int)
    requires q >= 1
    ensures Sum(tracks, EventsOf(q)) >= 0
  {
    if tracks != [] { EventsNonNegative(tracks[1..], q); }
  }

  /** The event that `comp` puts before all others: the one `min` returns. */
  ghost predicate First(s: Sched, e: Event) {
    && e in s.events && e.process < |s.tracks|
    && forall f | f in s.events :: f.process < |s.tracks| && Le(IdsOf(s.tracks), e, f)
  }

  lemma LeastWithOneMore(ids: seq<int>, events: multiset<Event>, e: Event, least: Event, f: Event)
    requires Orderly(ids, events) && e in events && least in events && f in events
    requires f == e || Le(ids, least, f)
    ensures Le(ids, if Comp(ids, e, least) then e else least, f)
  {
    LeIsPreorder(ids, events, e, least, f);
    LeIsPreorder(ids, events, e, e, e);
  }

  lemma OrderlyWithout(ids: seq<int>, events: multiset<Event>, e: Event)
    requires Orderly(ids, events) && e in events
    ensures var rest := events - multiset{e};
      Orderly(ids, rest) && |rest| < |events| && forall f | f in events :: f == e || f in rest
  {
    var rest := events - multiset{e};
    assert forall f | f in rest :: f in events;
  }

  lemma {:induction false} LeastEvent(ids: seq<int>, events: multiset<Event>) returns (e: Event)
    requires Orderly(ids, events) && events != multiset{}
    ensures e in events && forall f | f in events :: f.process < |ids| && Le(ids, e, f)
    decreases |events|
  {
    var one :| one in events;
    var rest := events - multiset{one};
    OrderlyWithout(ids, events, one);
    if rest == multiset{} {
      e := one;
      LeIsPreorder(ids, events, e, e, e);
    } else {
      var least := LeastEvent(ids, rest);
      e := if Comp(ids, one, least) then one else least;
      forall f | f in events ensures Le(ids, e, f) {
        LeastWithOneMore(ids, events, one, least, f);
      }
    }
  }

  lemma FirstExists(s: Sched) returns (e: Event)
    requires PlacesOk(s) && s.events != multiset{}
    ensures First(s, e) && Earliest(s, e)
  {
    EventsAreOrderly(s);
    e := LeastEvent(IdsOf(s.tracks), s.events);
    LeastIsEarliest(s, e);
  }

  /** No event is left exactly when none is left to come. */
  lemma EmptyWhenNoneLeft(s: Sched, procs: seq<Process>, q: int)
    requires q >= 1 && Inv(s, procs, q)
    ensures s.events == multiset{} <==> Sum(s.tracks, EventsOf(q)) == 0
  {
    if s.events == multiset{} {
      ReportIsExact(s, procs, q);
    } else {
      var e := FirstExists(s);
      StepCounts(s, e, q);
      EventsNonNegative(Step(s, e, q).tracks, q);
    }
  }

  /** Every run of every input comes to its end after exactly `TotalEvents` iterations, whichever
      of simultaneous events it takes first, and then the printed report is exact. */
  lemma RunsEndExactly(procs: seq<Process>, taken: seq<Event>, q: int)
    requires q >= 1 && ValidInput(procs)
    ensures forall p | p in procs :: |p.cpuBursts| > 0
    ensures PlacesOk(Initial(procs))
    ensures Run(Initial(procs), taken, q) ==>
      var end := After(Initial(procs), taken, q);
      && |taken| <= TotalEvents(procs, q)
      && (end.events == multiset{} <==> |taken| == TotalEvents(procs, q))
      && (end.events == multiset{} ==>
            && end.joined == TotalSlices(procs, q) && end.now - end.idle == TotalCpu(procs)
            && forall i | 0 <= i < |end.tracks| ::
                 end.tracks[i].p.tat == end.tracks[i].p.totRuntime + end.tracks[i].waited)
  {
    InitialInvariant(procs, q);
    if Run(Initial(procs), taken, q) {
      RunKeepsInvariant(Initial(procs), taken, procs, q);
      var end := After(Initial(procs), taken, q);
      EventsNonNegative(end.tracks, q);
      EmptyWhenNoneLeft(end, procs, q);
      if end.events == multiset{} { ReportIsExact(end, procs, q); }
    }
  }

  /** The run in which `comp` decides which event comes first. */
  ghost predicate ByComp(s: Sched, taken: seq<Event>, q: int)
    requires PlacesOk(s) && q >= 1 && Run(s, taken, q)
    decreases |taken|
  {
    taken == [] ||
    (First(s, taken[0]) && (StepKeepsPlaces(s, taken[0], q); ByComp(Step(s, taken[0], q), taken[1..], q)))
  }

  lemma {:induction false} RunExists(s: Sched, procs: seq<Process>, q: int) returns (taken: seq<Event>)
    requires q >= 1 && Inv(s, procs, q)
    ensures Run(s, taken, q) && ByComp(s, taken, q) && After(s, taken, q).events == multiset{}
    decreases Sum(s.tracks, EventsOf(q))
  {
    if s.events == multiset{} {
      taken := [];
    } else {
      var e := FirstExists(s);
      StepKeepsInvariant(s, e, procs, q);
      StepCounts(s, e, q);
      EventsNonNegative(Step(s, e, q).tracks, q);
      var rest := RunExists(Step(s, e, q), procs, q);
      taken := [e] + rest;
      assert taken[1..] == rest;
    }
  }

  // ----- The ready queue is an array that is never wrapped round -----

  const MAXP := 2000

  /** No state of any run has more than `MAXP` enqueues behind it. */
  ghost predicate QueueFits(procs: seq<Process>, q: int)
    requires q >= 1 && ValidInput(procs)
  {
    InitialInvariant(procs, q);
    forall taken | Run(Initial(procs), taken, q) :: After(Initial(procs), taken, q).joined <= MAXP
  }

  /** The enqueues of every run stay within `ready_queue` exactly for the inputs that have at most
      `MAXP` time slices; for any other, the program's own run leaves it. */
  lemma QueueFitsExactly(procs: seq<Process>, q: int)
    requires q >= 1 && ValidInput(procs)
    ensures QueueFits(procs, q) <==> TotalSlices(procs, q) <= MAXP
    ensures forall p | p in procs :: |p.cpuBursts| > 0
    ensures PlacesOk(Initial(procs))
    ensures !QueueFits(procs, q) ==>
      exists taken :: Run(Initial(procs), taken, q) && ByComp(Initial(procs), taken, q)
                   && After(Initial(procs), taken, q).joined > MAXP
  {
    InitialInvariant(procs, q);
    var s := Initial(procs);
    forall taken | Run(s, taken, q) ensures After(s, taken, q).joined <= TotalSlices(procs, q) {
      RunKeepsInvariant(s, taken, procs, q);
      JoinsNonNegative(After(s, taken, q).tracks, q);
    }
    var whole := RunExists(s, procs, q);
    RunKeepsInvariant(s, whole, procs, q);
    ReportIsExact(After(s, whole, q), procs, q);
  }

  /** One process with one long burst is enough. */
  lemma OneLongBurstOverflows()
    ensures var long := Process(1, 0, [20001], [], 0, 20001, 20001, 0, READY);
            ValidInput([long]) && TotalSlices([long], 10) == 2001 && !QueueFits([long], 10)
  {
    var long := Process(1, 0, [20001], [], 0, 20001, 20001, 0, READY);
    assert BurstsUpTo(long, 1) == BurstsUpTo(long, 0) + 20001;
    assert Slices(20001, 10) == 2001;
    assert SlicesFrom(long, 1, 10, 0) == 0;
    assert TotalSlices([long][1..], 10) == 0;
    QueueFitsExactly([long], 10);
  }
}
