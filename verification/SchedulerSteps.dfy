/** One iteration of LA3's loop keeps every structure in agreement, and what it adds to
    the sums that the final report rests on. */
module SchedulerSteps {
  import opened EventOrder
  import opened SchedulerSpec
  import opened Sequences

  // ----- The heap follows the tracks -----

  lemma EventsFollowTrack(s: Sched, i: nat, t: Track, events: multiset<Event>)
    requires EventsMatch(s) && i < |s.tracks|
    requires var without := if HasEvent(s.tracks[i]) then s.events - multiset{EventOf(i, s.tracks[i])} else s.events;
             events == if HasEvent(t) then without + multiset{EventOf(i, t)} else without
    ensures EventsMatch(s.(tracks := s.tracks[i := t], events := events))
  {
    forall e: Event ensures events[e] == (if Awaited(s.tracks[i := t], e) then 1 else 0) {
      assert s.events[e] == (if Awaited(s.tracks, e) then 1 else 0);
      if e.process == i && Awaited(s.tracks, e) { assert e == EventOf(i, s.tracks[i]); }
    }
  }

  lemma QueueAfterJoin(s: Sched, i: nat, t: Track)
    requires QueueMatches(s) && i < |s.tracks| && !s.tracks[i].place.Ready? && t.place.Ready?
    ensures QueueMatches(s.(tracks := s.tracks[i := t], ready := s.ready + [i]))
  {
    var ready := s.ready + [i];
    assert i !in s.ready;
    forall k: nat | k < |s.tracks| && s.tracks[i := t][k].place.Ready? ensures k in ready {
      if k == i { assert ready[|s.ready|] == i; } else { assert k in s.ready; }
    }
  }

  lemma QueueElsewhere(s: Sched, i: nat, t: Track)
    requires QueueMatches(s) && i < |s.tracks| && !s.tracks[i].place.Ready? && !t.place.Ready?
    ensures QueueMatches(s.(tracks := s.tracks[i := t]))
  {
  }

  // ----- The handlers -----

  lemma BurstsSplit(p: Process, k: nat)
    requires |p.cpuBursts| == |p.ioBursts| + 1 && k < |p.cpuBursts|
    ensures BurstsUpTo(p, k + 1) == BurstsUpTo(p, k) + p.cpuBursts[k] + if k < |p.ioBursts| then p.ioBursts[k] else 0
    ensures CpuUpTo(p, k + 1) == CpuUpTo(p, k) + p.cpuBursts[k]
  {
  }

  /** The sums look only at the bursts. */
  lemma {:induction false} SameBursts(p: Process, q: Process, k: nat)
    requires p.cpuBursts == q.cpuBursts && p.ioBursts == q.ioBursts
    requires k <= |p.cpuBursts| == |p.ioBursts| + 1
    ensures BurstsUpTo(p, k) == BurstsUpTo(q, k) && CpuUpTo(p, k) == CpuUpTo(q, k)
  {
    if k > 0 { SameBursts(p, q, k - 1); }
  }

  /** The process of the event exists and has a burst. */
  ghost predicate HandleReady(s: Sched, e: Event) {
    e.process < |s.tracks| && HasBurst(s.tracks[e.process].p)
  }

  /** What the process waits for is `e`. */
  predicate Fits(t: Track, e: Event) {
    HasEvent(t) && EventOf(e.process, t) == e
  }

  function HandledTrack(t: Track, e: Event): Track
    requires HasBurst(t.p)
  {
    if e.kind == BURST_END then EndedTrack(t, e.time) else JoinedTrack(t, e.time)
  }

  lemma HandleChangesOneTrack(s: Sched, e: Event)
    requires HandleReady(s, e)
    ensures Handle(s, e).tracks == s.tracks[e.process := HandledTrack(s.tracks[e.process], e)]
    ensures Handle(s, e).joined == s.joined + if e.kind == BURST_END then 0 else 1
    ensures Handle(s, e).now == e.time
  {
  }

  lemma JoinedTrackIsOk(t: Track, e: Event)
    requires TrackOk(t, e.time) && Fits(t, e) && e.kind != BURST_END
    ensures TrackOk(JoinedTrack(t, e.time), e.time)
  {
    var r := JoinedTrack(t, e.time).p;
    SameBursts(t.p, r, t.p.currBurst);
    SameBursts(t.p, r, |t.p.cpuBursts|);
  }

  /** A running process whose slice ends with its burst has had exactly the bursts so far. */
  lemma BurstEndsOnTime(t: Track, e: Event)
    requires TrackOk(t, e.time) && Fits(t, e) && e.kind == BURST_END
    ensures TrackOk(EndedTrack(t, e.time), e.time)
  {
    var p, r := t.p, EndedTrack(t, e.time).p;
    SameBursts(p, r, p.currBurst);
    SameBursts(p, r, |p.cpuBursts|);
    BurstsSplit(p, p.currBurst);
    BurstsSplit(r, p.currBurst);
  }

  lemma HandleKeepsTracks(s: Sched, e: Event)
    requires PlacesOk(s) && Earliest(s, e)
    ensures HandleReady(s, e)
    ensures forall i | 0 <= i < |s.tracks| :: TrackOk(Handle(s, e).tracks[i], e.time)
  {
    EventBelongs(s, e);
    AdvanceKeepsTracks(s, e);
    HandleChangesOneTrack(s, e);
    var t := s.tracks[e.process];
    if e.kind == BURST_END { BurstEndsOnTime(t, e); } else { JoinedTrackIsOk(t, e); }
  }

  lemma JoinKeepsStructures(s: Sched, e: Event)
    requires PlacesOk(s) && Awaited(s.tracks, e) && HandleReady(s, e) && e.kind != BURST_END
    ensures EventsMatch(Handle(s, e)) && QueueMatches(Handle(s, e))
  {
    var i, h := e.process, Handle(s, e);
    EventsFollowTrack(s, i, h.tracks[i], h.events);
    QueueAfterJoin(s, i, h.tracks[i]);
  }

  lemma JoinKeepsCpu(s: Sched, e: Event)
    requires PlacesOk(s) && Awaited(s.tracks, e) && HandleReady(s, e) && e.kind != BURST_END
    ensures CpuMatches(Handle(s, e))
  {
  }

  lemma EndKeepsEvents(s: Sched, e: Event)
    requires PlacesOk(s) && Awaited(s.tracks, e) && HandleReady(s, e) && e.kind == BURST_END
    ensures EventsMatch(Handle(s, e))
  {
    EventsFollowTrack(s, e.process, Handle(s, e).tracks[e.process], Handle(s, e).events);
  }

  lemma EndKeepsQueue(s: Sched, e: Event)
    requires PlacesOk(s) && Awaited(s.tracks, e) && HandleReady(s, e) && e.kind == BURST_END
    ensures QueueMatches(Handle(s, e))
  {
    QueueElsewhere(s, e.process, EndedTrack(s.tracks[e.process], e.time));
  }

  lemma EndFreesCpu(s: Sched, e: Event)
    requires PlacesOk(s) && Awaited(s.tracks, e) && HandleReady(s, e) && e.kind == BURST_END
    ensures CpuMatches(Handle(s, e))
  {
  }

  lemma HandleKeepsStructures(s: Sched, e: Event)
    requires PlacesOk(s) && Awaited(s.tracks, e) && HandleReady(s, e)
    ensures EventsMatch(Handle(s, e)) && QueueMatches(Handle(s, e)) && CpuMatches(Handle(s, e))
  {
    if e.kind == BURST_END {
      EndKeepsEvents(s, e);
      EndKeepsQueue(s, e);
      EndFreesCpu(s, e);
    } else {
      JoinKeepsStructures(s, e);
      JoinKeepsCpu(s, e);
    }
  }

  lemma DispatchKeepsTrack(s: Sched, q: int)
    requires PlacesOk(s) && q >= 1 && s.run == -1 && s.ready != []
    ensures s.ready[0] < |s.tracks| && TrackOk(Dispatch(s, q).tracks[s.ready[0]], s.now)
  {
    var i, h := s.ready[0], Dispatch(s, q);
    assert TrackOk(s.tracks[i], s.now);
    SameBursts(s.tracks[i].p, h.tracks[i].p, s.tracks[i].p.currBurst);
    SameBursts(s.tracks[i].p, h.tracks[i].p, |s.tracks[i].p.cpuBursts|);
  }

  lemma DispatchKeepsQueue(s: Sched, q: int)
    requires QueueMatches(s) && s.run == -1 && s.ready != [] && s.ready[0] < |s.tracks|
    ensures QueueMatches(Dispatch(s, q))
  {
    var i, h := s.ready[0], Dispatch(s, q);
    assert s.ready == [i] + h.ready;
    forall k: nat | k < |h.tracks| && h.tracks[k].place.Ready? ensures k in h.ready {
      assert k in s.ready;
    }
  }

  lemma DispatchKeepsStructures(s: Sched, q: int)
    requires PlacesOk(s) && q >= 1 && s.run == -1 && s.ready != []
    ensures s.ready[0] < |s.tracks|
    ensures EventsMatch(Dispatch(s, q)) && QueueMatches(Dispatch(s, q))
  {
    var i, h := s.ready[0], Dispatch(s, q);
    assert TrackOk(s.tracks[i], s.now);
    EventsFollowTrack(s, i, h.tracks[i], h.events);
    DispatchKeepsQueue(s, q);
  }

  lemma DispatchKeepsPlaces(s: Sched, q: int)
    requires PlacesOk(s) && q >= 1
    ensures s.ready != [] ==> s.ready[0] < |s.tracks|
    ensures PlacesOk(Dispatch(s, q)) && WorkConserving(Dispatch(s, q))
  {
    if s.run == -1 && s.ready != [] {
      DispatchKeepsTrack(s, q);
      DispatchKeepsStructures(s, q);
    }
  }

  lemma HandleKeepsIds(s: Sched, e: Event)
    requires PlacesOk(s) && HandleReady(s, e)
    ensures forall i, j | 0 <= i < j < |s.tracks| :: Handle(s, e).tracks[i].p.id != Handle(s, e).tracks[j].p.id
  {
    HandleChangesOneTrack(s, e);
  }

  lemma HandleKeepsPlaces(s: Sched, e: Event)
    requires PlacesOk(s) && Earliest(s, e)
    ensures HandleReady(s, e) && PlacesOk(Handle(s, e))
  {
    EventBelongs(s, e);
    HandleKeepsTracks(s, e);
    HandleKeepsIds(s, e);
    HandleChangesOneTrack(s, e);
    HandleKeepsStructures(s, e);
  }

  /** Lines 193-291: one iteration. */
  ghost function Step(s: Sched, e: Event, q: int): Sched
    requires PlacesOk(s) && Earliest(s, e) && q >= 1
  {
    HandleKeepsPlaces(s, e);
    DispatchKeepsPlaces(Handle(s, e), q);
    Dispatch(Handle(s, e), q)
  }

  lemma DispatchKeepsClock(s: Sched, q: int)
    requires s.ready != [] ==> s.ready[0] < |s.tracks|
    ensures var d := Dispatch(s, q); d.now == s.now && |d.tracks| == |s.tracks| && d.joined == s.joined
  {
  }

  lemma StepKeepsPlaces(s: Sched, e: Event, q: int)
    requires PlacesOk(s) && Earliest(s, e) && q >= 1
    ensures PlacesOk(Step(s, e, q)) && WorkConserving(Step(s, e, q))
    ensures s.now <= e.time == Step(s, e, q).now
    ensures |Step(s, e, q).tracks| == |s.tracks|
    ensures Step(s, e, q).joined == s.joined + if e.kind == BURST_END then 0 else 1
  {
    EventBelongs(s, e);
    HandleKeepsPlaces(s, e);
    HandleChangesOneTrack(s, e);
    DispatchKeepsPlaces(Handle(s, e), q);
    DispatchKeepsClock(Handle(s, e), q);
  }

  // ----- CPU time -----

  function Given(t: Track): int {
    CpuGiven(t.p)
  }

  /** Part of the running slice that lies in the future. */
  function Ahead(s: Sched): int {
    if 0 <= s.run < |s.tracks| && s.tracks[s.run].place.Running? then s.tracks[s.run].place.until - s.now else 0
  }

  /** Busy time so far is the CPU time handed out so far. */
  ghost predicate BusyOk(s: Sched) {
    s.now - s.idle == Sum(s.tracks, Given) - Ahead(s)
  }

  /** A handler changes no CPU time: the burst that ends was given in full. */
  lemma HandleKeepsGiven(t: Track, e: Event, now: int)
    requires TrackOk(t, now) && Fits(t, e)
    ensures Given(HandledTrack(t, e)) == Given(t)
  {
    var p, r := t.p, HandledTrack(t, e).p;
    SameBursts(p, r, p.currBurst);
    if e.kind == BURST_END && p.currBurst + 1 < |p.cpuBursts| { SameBursts(p, r, p.currBurst + 1); }
  }

  lemma HandleKeepsBusy(s: Sched, e: Event)
    requires PlacesOk(s) && Earliest(s, e) && BusyOk(s)
    ensures HandleReady(s, e) && BusyOk(Handle(s, e))
  {
    EventBelongs(s, e);
    AdvanceKeepsTracks(s, e);
    HandleChangesOneTrack(s, e);
    HandleKeepsGiven(s.tracks[e.process], e, s.now);
    SumUpdate(s.tracks, e.process, Handle(s, e).tracks[e.process], Given);
    if s.run != -1 { assert TrackOk(s.tracks[s.run], e.time); }
  }

  lemma DispatchKeepsBusy(s: Sched, q: int)
    requires PlacesOk(s) && q >= 1 && BusyOk(s)
    ensures s.ready != [] ==> s.ready[0] < |s.tracks|
    ensures BusyOk(Dispatch(s, q))
  {
    if s.run == -1 && s.ready != [] {
      var i, h := s.ready[0], Dispatch(s, q);
      SumUpdate(s.tracks, i, h.tracks[i], Given);
      SameBursts(s.tracks[i].p, h.tracks[i].p, s.tracks[i].p.currBurst);
    }
  }

  // ----- Enqueues and events still to come -----

  /** Time slices of a burst: one for an empty burst, else the burst over q, rounded up. */
  function Slices(b: int, q: int): (n: nat)
    requires q >= 1
    ensures n >= 1
    ensures b > 0 ==> (n - 1) * q < b <= n * q
    decreases b
  {
    if b <= q then 1 else 1 + Slices(b - q, q)
  }

  /** Slices of the bursts from index k on; `extra` more for each. */
  function SlicesFrom(p: Process, k: nat, q: int, extra: nat): nat
    requires q >= 1
    decreases |p.cpuBursts| - k
  {
    if k >= |p.cpuBursts| then 0 else extra + Slices(p.cpuBursts[k], q) + SlicesFrom(p, k + 1, q, extra)
  }

  /** How often the process will still join the ready queue. */
  function JoinsLeft(t: Track, q: int): nat
    requires q >= 1
  {
    var later := SlicesFrom(t.p, t.p.currBurst + 1, q, 0);
    match t.place
    case Arriving => Slices(t.p.remTime, q) + later
    case InIo(_) => Slices(t.p.remTime, q) + later
    case Ready(_) => Slices(t.p.remTime, q) - 1 + later
    case Running(_) => (if t.p.remTime == 0 then 0 else Slices(t.p.remTime, q)) + later
    case Done => 0
  }

  /** How many of its events are still to be taken from the heap. */
  function EventsLeft(t: Track, q: int): nat
    requires q >= 1
  {
    var later := SlicesFrom(t.p, t.p.currBurst + 1, q, 1);
    match t.place
    case Arriving => 1 + Slices(t.p.remTime, q) + later
    case InIo(_) => 1 + Slices(t.p.remTime, q) + later
    case Ready(_) => Slices(t.p.remTime, q) + later
    case Running(_) => 1 + (if t.p.remTime == 0 then 0 else Slices(t.p.remTime, q)) + later
    case Done => 0
  }

  function JoinsOf(q: int): Track -> int
    requires q >= 1
  {
    (t: Track) => JoinsLeft(t, q)
  }

  function EventsOf(q: int): Track -> int
    requires q >= 1
  {
    (t: Track) => EventsLeft(t, q)
  }

  lemma {:induction false} SameSlices(p: Process, r: Process, k: nat, q: int, extra: nat)
    requires q >= 1 && p.cpuBursts == r.cpuBursts
    ensures SlicesFrom(p, k, q, extra) == SlicesFrom(r, k, q, extra)
    decreases |p.cpuBursts| - k
  {
    if k < |p.cpuBursts| { SameSlices(p, r, k + 1, q, extra); }
  }

  lemma NextBurstSlices(p: Process, r: Process, q: int, extra: nat)
    requires q >= 1 && p.cpuBursts == r.cpuBursts && r.currBurst == p.currBurst + 1 < |p.cpuBursts|
    requires r.remTime == p.cpuBursts[r.currBurst]
    ensures SlicesFrom(p, p.currBurst + 1, q, extra)
         == extra + Slices(r.remTime, q) + SlicesFrom(r, r.currBurst + 1, q, extra)
  {
    SameSlices(p, r, p.currBurst + 2, q, extra);
  }

  lemma EndCounts(t: Track, e: Event, now: int, q: int)
    requires TrackOk(t, now) && Fits(t, e) && q >= 1 && e.kind == BURST_END
    ensures JoinsLeft(EndedTrack(t, e.time), q) == JoinsLeft(t, q)
    ensures EventsLeft(EndedTrack(t, e.time), q) == EventsLeft(t, q) - 1
  {
    if t.p.currBurst + 1 < |t.p.cpuBursts| {
      NextBurstSlices(t.p, EndedTrack(t, e.time).p, q, 0);
      NextBurstSlices(t.p, EndedTrack(t, e.time).p, q, 1);
    }
  }

  lemma JoinCounts(t: Track, e: Event, now: int, q: int)
    requires TrackOk(t, now) && Fits(t, e) && q >= 1 && e.kind != BURST_END
    ensures JoinsLeft(JoinedTrack(t, e.time), q) == JoinsLeft(t, q) - 1
    ensures EventsLeft(JoinedTrack(t, e.time), q) == EventsLeft(t, q) - 1
  {
    SameSlices(t.p, JoinedTrack(t, e.time).p, t.p.currBurst + 1, q, 0);
    SameSlices(t.p, JoinedTrack(t, e.time).p, t.p.currBurst + 1, q, 1);
  }

  /** Handling an event of a process leaves one event fewer to come, and one enqueue fewer if there
      was one. */
  lemma HandleTrackCounts(t: Track, e: Event, now: int, q: int)
    requires TrackOk(t, now) && Fits(t, e) && q >= 1
    ensures JoinsLeft(HandledTrack(t, e), q) == JoinsLeft(t, q) - if e.kind == BURST_END then 0 else 1
    ensures EventsLeft(HandledTrack(t, e), q) == EventsLeft(t, q) - 1
  {
    if e.kind == BURST_END { EndCounts(t, e, now, q); } else { JoinCounts(t, e, now, q); }
  }

  lemma HandleCounts(s: Sched, e: Event, q: int)
    requires PlacesOk(s) && Earliest(s, e) && q >= 1
    ensures HandleReady(s, e)
    ensures var h := Handle(s, e);
            && h.joined + Sum(h.tracks, JoinsOf(q)) == s.joined + Sum(s.tracks, JoinsOf(q))
            && Sum(h.tracks, EventsOf(q)) == Sum(s.tracks, EventsOf(q)) - 1
  {
    EventBelongs(s, e);
    HandleChangesOneTrack(s, e);
    HandleTrackCounts(s.tracks[e.process], e, s.now, q);
    SumUpdate(s.tracks, e.process, Handle(s, e).tracks[e.process], JoinsOf(q));
    SumUpdate(s.tracks, e.process, Handle(s, e).tracks[e.process], EventsOf(q));
  }

  lemma DispatchTrackCounts(s: Sched, q: int)
    requires PlacesOk(s) && q >= 1 && s.run == -1 && s.ready != []
    ensures s.ready[0] < |s.tracks|
    ensures var h, i := Dispatch(s, q), s.ready[0];
            && JoinsLeft(h.tracks[i], q) == JoinsLeft(s.tracks[i], q)
            && EventsLeft(h.tracks[i], q) == EventsLeft(s.tracks[i], q)
  {
    var i := s.ready[0];
    var p, r := s.tracks[i].p, Dispatch(s, q).tracks[i].p;
    assert TrackOk(s.tracks[i], s.now);
    SameSlices(p, r, p.currBurst + 1, q, 0);
    SameSlices(p, r, p.currBurst + 1, q, 1);
  }

  lemma DispatchCounts(s: Sched, q: int)
    requires PlacesOk(s) && q >= 1
    ensures s.ready != [] ==> s.ready[0] < |s.tracks|
    ensures var h := Dispatch(s, q);
            && h.joined + Sum(h.tracks, JoinsOf(q)) == s.joined + Sum(s.tracks, JoinsOf(q))
            && Sum(h.tracks, EventsOf(q)) == Sum(s.tracks, EventsOf(q))
  {
    if s.run == -1 && s.ready != [] {
      var i, h := s.ready[0], Dispatch(s, q);
      DispatchTrackCounts(s, q);
      SumUpdate(s.tracks, i, h.tracks[i], JoinsOf(q));
      SumUpdate(s.tracks, i, h.tracks[i], EventsOf(q));
    }
  }

  // ----- Waiting in the ready queue -----

  /** When the CPU is next free. */
  function Base(s: Sched): int {
    s.now + Ahead(s)
  }

  function SinceOf(s: Sched, i: nat): int
    requires i < |s.tracks|
  {
    if s.tracks[i].place.Ready? then s.tracks[i].place.since else 0
  }

  /** The k-th process in the queue gets the CPU after at most k more slices; counted from
      the moment it joined, that is within (n - 1) slices. */
  ghost predicate WaitOk(s: Sched, q: int) {
    && Ahead(s) <= q
    && (forall k | 0 <= k < |s.ready| :: s.ready[k] < |s.tracks|)
    && (forall k: nat | k < |s.ready| :: WaitAt(s, q, k))
  }

  ghost predicate WaitAt(s: Sched, q: int, k: nat)
    requires k < |s.ready| && s.ready[k] < |s.tracks|
  {
    Base(s) + k * q <= SinceOf(s, s.ready[k]) + (|s.tracks| - 1) * q
  }

  lemma Times(a: int, b: int, q: int)
    requires a <= b && q >= 1
    ensures a * q <= b * q
    ensures (a + 1) * q == a * q + q
  {
  }

  /** The queue, the process that joins it and the one on the CPU are all different. */
  lemma QueueIsShort(s: Sched, i: nat)
    requires QueueMatches(s) && CpuMatches(s) && i < |s.tracks|
    requires !s.tracks[i].place.Ready? && !s.tracks[i].place.Running?
    ensures |s.ready| + 1 + (if s.run == -1 then 0 else 1) <= |s.tracks|
  {
    var all := s.ready + [i] + if s.run == -1 then [] else [s.run];
    DistinctBound(all, |s.tracks|);
  }

  lemma QueueIsShortAtTimeout(s: Sched, i: nat)
    requires QueueMatches(s) && i < |s.tracks| && !s.tracks[i].place.Ready?
    ensures |s.ready| + 1 <= |s.tracks|
  {
    DistinctBound(s.ready + [i], |s.tracks|);
  }

  /** Slices that may still have to run before those in the queue when `e` has been handled. */
  function Rest(s: Sched, e: Event, q: int): int
    requires e.process < |s.tracks|
  {
    if s.run == -1 || s.tracks[e.process].place.Running? then 0 else q
  }

  lemma JoinedWaits(s: Sched, e: Event, q: int)
    requires PlacesOk(s) && WorkConserving(s) && Awaited(s.tracks, e) && HandleReady(s, e)
    requires q >= 1 && Ahead(s) <= q && s.now <= e.time
    ensures Rest(s, e, q) + |s.ready| * q <= (|s.tracks| - 1) * q
  {
    var n := |s.tracks|;
    if s.tracks[e.process].place.Running? {
      QueueIsShortAtTimeout(s, e.process);
      Times(|s.ready|, n - 1, q);
    } else if s.run == -1 {
      QueueIsShort(s, e.process);
      Times(|s.ready|, n - 1, q);
    } else {
      QueueIsShort(s, e.process);
      Times(|s.ready|, n - 2, q);
      Times(n - 2, n - 1, q);
    }
  }

  lemma AheadAfterHandle(s: Sched, e: Event, q: int)
    requires PlacesOk(s) && Earliest(s, e) && q >= 1 && Ahead(s) <= q
    ensures HandleReady(s, e) && Ahead(Handle(s, e)) <= q
    ensures Base(Handle(s, e)) <= e.time + Rest(s, e, q)
    ensures s.run != -1 ==> Base(Handle(s, e)) == Base(s)
  {
    EventBelongs(s, e);
    AdvanceKeepsTracks(s, e);
    if s.run != -1 { assert TrackOk(s.tracks[s.run], e.time); }
  }

  lemma WaitersStay(s: Sched, e: Event, k: nat)
    requires PlacesOk(s) && Earliest(s, e) && k < |s.ready| && s.ready[k] < |s.tracks|
    ensures HandleReady(s, e) && k < |Handle(s, e).ready| && Handle(s, e).ready[k] == s.ready[k]
    ensures |Handle(s, e).tracks| == |s.tracks| && SinceOf(Handle(s, e), s.ready[k]) == SinceOf(s, s.ready[k])
  {
    EventBelongs(s, e);
  }

  lemma WaitCarriesOver(s: Sched, h: Sched, q: int, k: nat)
    requires k < |s.ready| && k < |h.ready| && h.ready[k] == s.ready[k] < |s.tracks| == |h.tracks|
    requires Base(h) == Base(s) && SinceOf(h, s.ready[k]) == SinceOf(s, s.ready[k]) && WaitAt(s, q, k)
    ensures WaitAt(h, q, k)
  {
  }

  lemma OldWaiterWaits(s: Sched, e: Event, q: int, k: nat)
    requires PlacesOk(s) && WorkConserving(s) && Earliest(s, e) && q >= 1 && Ahead(s) <= q
    requires k < |s.ready| && s.ready[k] < |s.tracks| && WaitAt(s, q, k)
    ensures HandleReady(s, e) && k < |Handle(s, e).ready| && Handle(s, e).ready[k] < |s.tracks|
    ensures WaitAt(Handle(s, e), q, k)
  {
    AheadAfterHandle(s, e, q);
    WaitersStay(s, e, k);
    WaitCarriesOver(s, Handle(s, e), q, k);
  }

  lemma JoinerSince(s: Sched, e: Event)
    requires HandleReady(s, e) && e.kind != BURST_END
    ensures var h := Handle(s, e);
      h.ready == s.ready + [e.process] && |h.tracks| == |s.tracks| && SinceOf(h, e.process) == e.time
  {
  }

  lemma JoinerWaits(h: Sched, q: int, k: nat, n: nat, rest: int)
    requires n == |h.tracks| && k < |h.ready| && h.ready[k] < n
    requires Base(h) <= SinceOf(h, h.ready[k]) + rest && rest + k * q <= (n - 1) * q
    ensures WaitAt(h, q, k)
  {
  }

  lemma JoinerHasTime(s: Sched, e: Event, q: int)
    requires PlacesOk(s) && WorkConserving(s) && Earliest(s, e) && q >= 1 && Ahead(s) <= q
    ensures HandleReady(s, e) && Base(Handle(s, e)) <= e.time + Rest(s, e, q)
    ensures Rest(s, e, q) + |s.ready| * q <= (|s.tracks| - 1) * q
  {
    AheadAfterHandle(s, e, q);
    EventBelongs(s, e);
    JoinedWaits(s, e, q);
  }

  lemma NewWaiterWaits(s: Sched, e: Event, q: int, rest: int)
    requires HandleReady(s, e) && e.kind != BURST_END
    requires Base(Handle(s, e)) <= e.time + rest && rest + |s.ready| * q <= (|s.tracks| - 1) * q
    ensures Handle(s, e).ready == s.ready + [e.process]
    ensures WaitAt(Handle(s, e), q, |s.ready|)
  {
    JoinerSince(s, e);
    JoinerWaits(Handle(s, e), q, |s.ready|, |s.tracks|, rest);
  }

  lemma HandleKeepsWaits(s: Sched, e: Event, q: int)
    requires PlacesOk(s) && WorkConserving(s) && Earliest(s, e) && q >= 1 && WaitOk(s, q)
    ensures HandleReady(s, e) && WaitOk(Handle(s, e), q)
  {
    AheadAfterHandle(s, e, q);
    var h := Handle(s, e);
    if e.kind != BURST_END {
      JoinerHasTime(s, e, q);
      NewWaiterWaits(s, e, q, Rest(s, e, q));
    }
    forall k: nat | k < |h.ready| ensures h.ready[k] < |h.tracks| && WaitAt(h, q, k) {
      if k < |s.ready| { OldWaiterWaits(s, e, q, k); }
    }
  }

  lemma DispatchKeepsWaits(s: Sched, q: int)
    requires PlacesOk(s) && q >= 1 && WaitOk(s, q)
    ensures s.ready != [] ==> s.ready[0] < |s.tracks|
    ensures WaitOk(Dispatch(s, q), q)
  {
    if s.run == -1 && s.ready != [] {
      var h := Dispatch(s, q);
      forall k: nat | k < |h.ready| ensures WaitAt(h, q, k) {
        assert h.ready[k] == s.ready[k + 1] && WaitAt(s, q, k + 1);
        Times(k, k, q);
      }
    }
  }

  /** Round robin with n processes: whoever is dispatched has waited at most (n - 1) quanta. */
  lemma WaitIsBounded(s: Sched, q: int)
    requires PlacesOk(s) && q >= 1 && WaitOk(s, q) && s.run == -1 && s.ready != []
    ensures s.ready[0] < |s.tracks|
    ensures var i := s.ready[0];
            0 <= Dispatch(s, q).tracks[i].waited - s.tracks[i].waited <= (|s.tracks| - 1) * q
  {
    assert WaitAt(s, q, 0);
    assert TrackOk(s.tracks[s.ready[0]], s.now);
  }
}
