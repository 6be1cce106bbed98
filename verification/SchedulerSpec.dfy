/** The event loop of LA3 as functions on one value, with the accounting made explicit.

    `Track` adds to a process where it currently is and how long it has sat in the ready
    queue; the program does not store either, but its output depends on both. */
module SchedulerSpec {
  import opened EventOrder

  const READY := 1
  const RUNNING := 2
  const WAITING := 3
  const FINISHED := 4

  datatype Process = Process(
    id: int, arrivalTime: int,
    cpuBursts: seq<int>, ioBursts: seq<int>,   // one I/O burst between two CPU bursts
    currBurst: nat, remTime: int, totRuntime: int, tat: int, state: int
  )

  datatype Place =
    | Arriving
    | Ready(since: int)
    | Running(until: int)
    | InIo(until: int)
    | Done

  datatype Track = Track(p: Process, place: Place, waited: int)

  datatype Sched = Sched(
    tracks: seq<Track>,
    events: multiset<Event>,
    ready: seq<nat>,          // ready_queue[r_frnt..r_rear]
    joined: nat,              // r_rear: enqueues so far
    run: int,                 // run_proc, -1 when the CPU is idle
    now: int,                 // curr_time
    idle: int                 // idle_time
  )

  function Min(a: int, b: int): int {
    if a < b then a else b
  }

  /** The event a process is waiting for. */
  predicate HasEvent(t: Track) {
    t.place.Arriving? || t.place.Running? || t.place.InIo?
  }

  function EventOf(i: nat, t: Track): Event
    requires HasEvent(t)
  {
    match t.place
    case Arriving => Event(i, t.p.arrivalTime, ARRIVAL)
    case Running(u) => Event(i, u, if t.p.remTime == 0 then BURST_END else TIMEOUT)
    case InIo(u) => Event(i, u, IO_END)
  }

  // ----- The steps -----

  function SetTrack(s: Sched, i: nat, t: Track): Sched
    requires i < |s.tracks|
  {
    s.(tracks := s.tracks[i := t])
  }

  /** Lines 195-199. */
  function Advance(s: Sched, e: Event): Sched {
    s.(events := s.events - multiset{e}, now := e.time,
       idle := s.idle + if s.run == -1 && s.now < e.time then e.time - s.now else 0)
  }

  function JoinedTrack(t: Track, now: int): Track {
    t.(p := t.p.(state := READY), place := Ready(now))
  }

  /** `enqueue`, with the state the event handlers set. */
  function Join(s: Sched, i: nat): Sched
    requires i < |s.tracks|
  {
    SetTrack(s, i, JoinedTrack(s.tracks[i], s.now)).(ready := s.ready + [i], joined := s.joined + 1)
  }

  predicate HasBurst(p: Process) {
    p.currBurst < |p.cpuBursts| == |p.ioBursts| + 1
  }

  function EndedTrack(t: Track, now: int): Track
    requires HasBurst(t.p)
  {
    if t.p.currBurst == |t.p.cpuBursts| - 1 then
      t.(p := t.p.(state := FINISHED, tat := now - t.p.arrivalTime), place := Done)
    else
      var k := t.p.currBurst + 1;
      t.(p := t.p.(currBurst := k, remTime := t.p.cpuBursts[k], state := WAITING),
         place := InIo(now + t.p.ioBursts[k - 1]))
  }

  /** Lines 216-236. */
  function EndBurst(s: Sched, i: nat): Sched
    requires i < |s.tracks| && HasBurst(s.tracks[i].p)
  {
    var t := EndedTrack(s.tracks[i], s.now);
    var r := SetTrack(s, i, t).(run := -1);
    if t.place.InIo? then r.(events := r.events + multiset{Event(i, t.place.until, IO_END)}) else r
  }

  /** Lines 195-258. */
  function Handle(s: Sched, e: Event): Sched
    requires e.process < |s.tracks| && HasBurst(s.tracks[e.process].p)
  {
    var a := Advance(s, e);
    if e.kind == BURST_END then EndBurst(a, e.process)
    else if e.kind == TIMEOUT then Join(a, e.process).(run := -1)
    else Join(a, e.process)
  }

  /** The slice that a process is given. */
  function StartedTrack(t: Track, now: int, q: int): Track {
    var time := Min(q, t.p.remTime);
    Track(t.p.(state := RUNNING, remTime := t.p.remTime - time), Running(now + time),
          t.waited + if t.place.Ready? then now - t.place.since else 0)
  }

  /** Lines 260-291. */
  function Dispatch(s: Sched, q: int): Sched
    requires s.ready != [] ==> s.ready[0] < |s.tracks|
  {
    if s.run == -1 && s.ready != [] then
      var i := s.ready[0];
      var p := s.tracks[i].p;
      var time := Min(q, p.remTime);
      var kind := if time == p.remTime then BURST_END else TIMEOUT;
      SetTrack(s, i, StartedTrack(s.tracks[i], s.now, q))
      .(ready := s.ready[1..], run := i, events := s.events + multiset{Event(i, s.now + time, kind)})
    else s
  }

  function Restarted(p: Process): Process
    requires |p.cpuBursts| > 0
  {
    p.(currBurst := 0, remTime := p.cpuBursts[0], state := READY)
  }

  predicate IsArrival(procs: seq<Process>, e: Event) {
    e.process < |procs| && e == Event(e.process, procs[e.process].arrivalTime, ARRIVAL)
  }

  function Arrivals(procs: seq<Process>): (events: multiset<Event>)
    ensures forall e: Event :: events[e] == (if IsArrival(procs, e) then 1 else 0)
  {
    if procs == [] then multiset{}
    else
      var k := |procs| - 1;
      Arrivals(procs[..k]) + multiset{Event(k, procs[k].arrivalTime, ARRIVAL)}
  }

  /** Lines 171-183. */
  function Initial(procs: seq<Process>): Sched
    requires forall p | p in procs :: |p.cpuBursts| > 0
  {
    Sched(seq(|procs|, i requires 0 <= i < |procs| => Track(Restarted(procs[i]), Arriving, 0)),
          Arrivals(procs), [], 0, -1, 0, 0)
  }

  // ----- Sums over the processes -----

  function Sum<T>(s: seq<T>, f: T -> int): int {
    if s == [] then 0 else f(s[0]) + Sum(s[1..], f)
  }

  lemma {:induction false} SumUpdate<T>(s: seq<T>, i: nat, x: T, f: T -> int)
    requires i < |s|
    ensures Sum(s[i := x], f) == Sum(s, f) - f(s[i]) + f(x)
  {
    if i == 0 {
      assert s[0 := x][1..] == s[1..];
    } else {
      assert s[i := x][1..] == s[1..][i - 1 := x];
      SumUpdate(s[1..], i - 1, x, f);
    }
  }

  // ----- Input -----

  function BurstsUpTo(p: Process, k: nat): int
    requires k <= |p.cpuBursts| == |p.ioBursts| + 1
  {
    if k == 0 then 0
    else BurstsUpTo(p, k - 1) + p.cpuBursts[k - 1] + if k - 1 < |p.ioBursts| then p.ioBursts[k - 1] else 0
  }

  function CpuUpTo(p: Process, k: nat): int
    requires k <= |p.cpuBursts|
  {
    if k == 0 then 0 else CpuUpTo(p, k - 1) + p.cpuBursts[k - 1]
  }

  ghost predicate WellFormed(p: Process) {
    && |p.cpuBursts| == |p.ioBursts| + 1
    && p.arrivalTime >= 0
    && (forall k | 0 <= k < |p.cpuBursts| :: p.cpuBursts[k] >= 0)
    && (forall k | 0 <= k < |p.ioBursts| :: p.ioBursts[k] >= 0)
    && p.totRuntime == BurstsUpTo(p, |p.cpuBursts|)
  }

  ghost predicate ValidInput(procs: seq<Process>) {
    && (forall i | 0 <= i < |procs| :: WellFormed(procs[i]))
    && (forall i, j | 0 <= i < j < |procs| :: procs[i].id != procs[j].id)
  }

  // ----- Invariants -----

  /** Burst time, CPU and I/O, that the process has been given (a running slice counts in full). */
  function Progress(p: Process): int
    requires HasBurst(p)
  {
    BurstsUpTo(p, p.currBurst) + p.cpuBursts[p.currBurst] - p.remTime
  }

  function CpuGiven(p: Process): int {
    if p.currBurst < |p.cpuBursts| then CpuUpTo(p, p.currBurst) + p.cpuBursts[p.currBurst] - p.remTime else 0
  }

  /** Where a process is fits its fields, and every moment since its arrival is accounted for. */
  ghost predicate TrackOk(t: Track, now: int) {
    var p := t.p;
    && WellFormed(p) && p.currBurst < |p.cpuBursts| && 0 <= p.remTime <= p.cpuBursts[p.currBurst]
    && t.waited >= 0
    && match t.place
       case Arriving =>
         now <= p.arrivalTime && p.state == READY && p.currBurst == 0 && p.remTime == p.cpuBursts[0] && t.waited == 0
       case Ready(since) =>
         since <= now && p.state == READY && since == p.arrivalTime + Progress(p) + t.waited
       case Running(until) =>
         now <= until && p.state == RUNNING && until == p.arrivalTime + Progress(p) + t.waited
       case InIo(until) =>
         now <= until && p.state == WAITING && p.remTime == p.cpuBursts[p.currBurst]
         && until == p.arrivalTime + Progress(p) + t.waited
       case Done =>
         p.state == FINISHED && p.currBurst == |p.cpuBursts| - 1 && p.remTime == 0
         && p.tat == p.totRuntime + t.waited
  }

  predicate Awaited(tracks: seq<Track>, e: Event) {
    e.process < |tracks| && HasEvent(tracks[e.process]) && EventOf(e.process, tracks[e.process]) == e
  }

  /** The heap holds exactly the events the processes wait for, each once. */
  ghost predicate EventsMatch(s: Sched) {
    forall e: Event :: s.events[e] == (if Awaited(s.tracks, e) then 1 else 0)
  }

  ghost predicate QueueMatches(s: Sched) {
    && (forall k | 0 <= k < |s.ready| :: s.ready[k] < |s.tracks| && s.tracks[s.ready[k]].place.Ready?)
    && (forall i: nat | i < |s.tracks| && s.tracks[i].place.Ready? :: i in s.ready)
    && (forall j, k | 0 <= j < k < |s.ready| :: s.ready[j] != s.ready[k])
  }

  ghost predicate CpuMatches(s: Sched) {
    && -1 <= s.run < |s.tracks|
    && (forall i | 0 <= i < |s.tracks| :: s.tracks[i].place.Running? <==> i == s.run)
  }

  /** Each unfinished process is in exactly one place, and the structures agree with it. */
  ghost predicate PlacesOk(s: Sched) {
    && (forall i | 0 <= i < |s.tracks| :: TrackOk(s.tracks[i], s.now))
    && (forall i, j | 0 <= i < j < |s.tracks| :: s.tracks[i].p.id != s.tracks[j].p.id)
    && EventsMatch(s) && QueueMatches(s) && CpuMatches(s)
  }

  /** When the CPU is free after a step, nobody is ready. */
  ghost predicate WorkConserving(s: Sched) {
    s.run == -1 ==> s.ready == []
  }

  // ----- Facts every handler needs -----

  function IdsOf(tracks: seq<Track>): (ids: seq<int>)
    ensures |ids| == |tracks| && forall i | 0 <= i < |ids| :: ids[i] == tracks[i].p.id
  {
    seq(|tracks|, i requires 0 <= i < |tracks| => tracks[i].p.id)
  }

  lemma EventBelongs(s: Sched, e: Event)
    requires PlacesOk(s) && e in s.events
    ensures Awaited(s.tracks, e)
    ensures TrackOk(s.tracks[e.process], s.now) && s.now <= e.time && s.events[e] == 1
  {
    assert s.events[e] > 0;
  }

  lemma OneEventOfTheCpu(s: Sched, e: Event, f: Event)
    requires PlacesOk(s) && e in s.events && f in s.events
    ensures e.process == f.process ==> e == f
    ensures OnCpu(e) && OnCpu(f) ==> e == f
  {
    EventBelongs(s, e);
    EventBelongs(s, f);
  }

  /** The heap of a reachable state has one event per process and at most one of the CPU,
      so `comp` is a total order on it. */
  lemma EventsAreOrderly(s: Sched)
    requires PlacesOk(s)
    ensures Orderly(IdsOf(s.tracks), s.events)
    ensures forall e | e in s.events :: s.events[e] == 1 && s.now <= e.time
  {
    forall e | e in s.events ensures e.process < |s.tracks| && Known(e) && s.events[e] == 1 && s.now <= e.time {
      EventBelongs(s, e);
    }
    forall e, f | e in s.events && f in s.events
      ensures (e.process == f.process ==> e == f) && (OnCpu(e) && OnCpu(f) ==> e == f)
    {
      OneEventOfTheCpu(s, e, f);
    }
  }

  /** No event of the heap comes before the one `min` returns, so no time is skipped. */
  ghost predicate Earliest(s: Sched, e: Event) {
    && e in s.events
    && forall f | f in s.events :: e.time <= f.time
  }

  lemma LeastIsEarliest(s: Sched, e: Event)
    requires PlacesOk(s) && e in s.events && e.process < |s.tracks|
    requires forall f | f in s.events :: f.process < |s.tracks| && Le(IdsOf(s.tracks), e, f)
    ensures Earliest(s, e)
  {
  }

  /** Time only advances, and never past a running slice. */
  lemma AdvanceKeepsTracks(s: Sched, e: Event)
    requires PlacesOk(s) && Earliest(s, e)
    ensures s.now <= e.time
    ensures forall i | 0 <= i < |s.tracks| :: TrackOk(s.tracks[i], e.time)
  {
    EventBelongs(s, e);
    forall i: nat | i < |s.tracks| ensures TrackOk(s.tracks[i], e.time) {
      assert TrackOk(s.tracks[i], s.now);
      if HasEvent(s.tracks[i]) {
        var f := EventOf(i, s.tracks[i]);
        assert s.events[f] == 1;
        assert f in s.events && e.time <= f.time;
      }
    }
  }
}
