/** The boats and visitors of LA7, step by step.

    Every step is one critical section (under `bmtx` or a semaphore's mutex) or one
    arrival at a barrier, so the steps of all threads interleave freely.  Threads and
    boat slots are numbered from 0; the original numbers them from 1. */
module Boating {
  import opened Counting

  datatype BoatPc =
    | Born            // about to initialise its barrier (lines 68-70)
    | AtPBoat         // about to call P(&boat)
    | SleepsOnBoat    // blocked in pthread_cond_wait inside P(&boat)
    | Preparing       // about to set BA and BC (lines 76-79)
    | Announcing      // about to call V(&rider)
    | AtBarrier       // about to wait at its own barrier
    | InBarrier       // first to arrive there
    | Boarding        // past the barrier, about to read BC and BT (lines 85-89)
    | Riding          // about to count the finished ride (lines 96-104)
    | AtEnd           // waiting at EOS

  /** `available`, `carrying` and `time` are the boat's entries of BA, BC and BT. */
  datatype Boat = Boat(pc: BoatPc, available: int, carrying: int, time: int)

  datatype Rider =
    | Sightseeing             // about to call V(&boat)
    | AtPRider                // about to call P(&rider)
    | SleepsOnRider           // blocked inside P(&rider)
    | Scanning(slot: nat)     // about to look at this slot of BA and BC
    | AtBoat(boat: int)       // about to wait at the barrier of the boat it found
    | InBoat(boat: int)       // first to arrive there
    | Left(boat: int)         // past the barrier of this boat

  /** The hand-made semaphore: a counter and the threads asleep on its condition. */
  datatype Semaphore = Semaphore(value: int, sleeping: set<nat>)

  /** Who has arrived at a two-party barrier. */
  datatype Party = NoOne | BoatParty(boat: nat) | RiderParty(rider: nat)

  /** What the boat announces when a ride starts (line 91). */
  datatype Ride = Ride(boat: nat, rider: int, time: int)

  datatype Harbour = Harbour(
    boats: seq<Boat>,
    riders: seq<Rider>,
    rider: Semaphore,
    boat: Semaphore,
    barriers: seq<Party>,
    remaining: int,           // remaining_visitors
    log: seq<Ride>            // rides announced so far
  )

  datatype Action =
    | BoatInit(b: nat)
    | BoatP(b: nat)
    | BoatPrepare(b: nat)
    | BoatAnnounce(b: nat, woken: nat)
    | BoatArrive(b: nat)
    | BoatBoard(b: nat)
    | BoatCount(b: nat)
    | RiderSignal(r: nat, woken: nat)
    | RiderP(r: nat)
    | RiderScan(r: nat)
    | RiderArrive(r: nat)

  // ----- The semaphore -----

  /** V has somebody to wake. */
  predicate MustWake(s: Semaphore) {
    s.value + 1 <= 0 && s.sleeping != {}
  }

  predicate WakesProperly(s: Semaphore, woken: nat) {
    MustWake(s) ==> woken in s.sleeping
  }

  function AfterV(s: Semaphore, woken: nat): Semaphore {
    if MustWake(s) then Semaphore(s.value + 1, s.sleeping - {woken}) else s.(value := s.value + 1)
  }

  predicate Blocks(s: Semaphore) {
    s.value - 1 < 0
  }

  function AfterP(s: Semaphore, t: nat): Semaphore {
    if Blocks(s) then Semaphore(s.value - 1, s.sleeping + {t}) else s.(value := s.value - 1)
  }

  // ----- The steps -----

  predicate BoatAt(s: Harbour, b: nat, pc: BoatPc) {
    b < |s.boats| && s.boats[b].pc == pc
  }

  predicate RiderAt(s: Harbour, r: nat, pc: Rider) {
    r < |s.riders| && s.riders[r] == pc
  }

  predicate Enabled(s: Harbour, a: Action) {
    match a
    case BoatInit(b) => BoatAt(s, b, Born)
    case BoatP(b) => BoatAt(s, b, AtPBoat)
    case BoatPrepare(b) => BoatAt(s, b, Preparing)
    case BoatAnnounce(b, woken) => BoatAt(s, b, Announcing) && WakesProperly(s.rider, woken)
    case BoatArrive(b) => BoatAt(s, b, AtBarrier)
    case BoatBoard(b) => BoatAt(s, b, Boarding)
    case BoatCount(b) => BoatAt(s, b, Riding)
    case RiderSignal(r, woken) => RiderAt(s, r, Sightseeing) && WakesProperly(s.boat, woken)
    case RiderP(r) => RiderAt(s, r, AtPRider)
    case RiderScan(r) => r < |s.riders| && s.riders[r].Scanning?
    case RiderArrive(r) => r < |s.riders| && s.riders[r].AtBoat?
  }

  function SetBoat(s: Harbour, b: nat, x: Boat): Harbour
    requires b < |s.boats|
  {
    s.(boats := s.boats[b := x])
  }

  function SetPc(s: Harbour, b: nat, pc: BoatPc): Harbour
    requires b < |s.boats|
  {
    SetBoat(s, b, s.boats[b].(pc := pc))
  }

  function SetRider(s: Harbour, r: nat, x: Rider): Harbour
    requires r < |s.riders|
  {
    s.(riders := s.riders[r := x])
  }

  /** Whoever waited at barrier i passes it. */
  function Release(s: Harbour, i: nat, party: Party): Harbour {
    match party
    case NoOne => s
    case BoatParty(b) => if b < |s.boats| then SetPc(s, b, Boarding) else s
    case RiderParty(r) => if r < |s.riders| then SetRider(s, r, Left(i)) else s
  }

  predicate Free(x: Boat) {
    x.available == 1 && x.carrying == -1
  }

  /** `rideTimes[r]` is the ride time that visitor r draws. */
  function Step(s: Harbour, a: Action, rideTimes: seq<int>): Harbour
    requires Enabled(s, a) && |s.barriers| == |s.boats| && |rideTimes| == |s.riders|
  {
    match a
    case BoatInit(b) => SetPc(s, b, AtPBoat).(barriers := s.barriers[b := NoOne])
    case BoatP(b) =>
      SetPc(s, b, if Blocks(s.boat) then SleepsOnBoat else Preparing).(boat := AfterP(s.boat, b))
    case BoatPrepare(b) =>
      SetBoat(s, b, s.boats[b].(pc := Announcing, available := 1, carrying := -1))
    case BoatAnnounce(b, w) =>
      var t := SetPc(s, b, AtBarrier).(rider := AfterV(s.rider, w));
      if MustWake(s.rider) && w < |s.riders| then SetRider(t, w, Scanning(0)) else t
    case BoatArrive(b) =>
      if s.barriers[b] == NoOne then SetPc(s, b, InBarrier).(barriers := s.barriers[b := BoatParty(b)])
      else Release(SetPc(s, b, Boarding), b, s.barriers[b]).(barriers := s.barriers[b := NoOne])
    case BoatBoard(b) =>
      var x := s.boats[b];
      SetBoat(s, b, x.(pc := Riding, available := 0)).(log := s.log + [Ride(b, x.carrying, x.time)])
    case BoatCount(b) =>
      SetPc(s, b, if s.remaining - 1 == 0 then AtEnd else AtPBoat).(remaining := s.remaining - 1)
    case RiderSignal(r, w) =>
      var t := SetRider(s, r, AtPRider).(boat := AfterV(s.boat, w));
      if MustWake(s.boat) && w < |s.boats| then SetPc(t, w, Preparing) else t
    case RiderP(r) =>
      SetRider(s, r, if Blocks(s.rider) then SleepsOnRider else Scanning(0)).(rider := AfterP(s.rider, r))
    case RiderScan(r) =>
      var i := s.riders[r].slot;
      if i >= |s.boats| then SetRider(s, r, AtBoat(-1))      // the loop ended without a boat
      else if Free(s.boats[i]) then
        SetBoat(SetRider(s, r, AtBoat(i)), i, s.boats[i].(carrying := r, time := rideTimes[r]))
      else SetRider(s, r, Scanning(i + 1))
    case RiderArrive(r) =>
      var i := s.riders[r].boat;
      if 0 <= i < |s.barriers| then
        if s.barriers[i] == NoOne then SetRider(s, r, InBoat(i)).(barriers := s.barriers[i := RiderParty(r)])
        else Release(SetRider(s, r, Left(i)), i, s.barriers[i]).(barriers := s.barriers[i := NoOne])
      else s                                                 // BB[-1]: undefined in the original
  }

  function Start(m: nat, n: nat): Harbour {
    Harbour(seq(m, i => Boat(Born, 0, -1, 0)), seq(n, i => Sightseeing),
            Semaphore(0, {}), Semaphore(0, {}), seq(m, i => NoOne), n, [])
  }

  // ----- Local invariants: who is where -----

  ghost predicate Shape(s: Harbour, rideTimes: seq<int>) {
    |s.barriers| == |s.boats| && |rideTimes| == |s.riders|
  }

  /** The boat's visitor, if it has one, is on its way to this boat's barrier or already there. */
  ghost predicate Claimed(s: Harbour, rideTimes: seq<int>, b: nat)
    requires Shape(s, rideTimes) && b < |s.boats|
  {
    var c := s.boats[b].carrying;
    c != -1 ==>
      && 0 <= c < |s.riders|
      && (if s.barriers[b] == RiderParty(c) then s.riders[c] == InBoat(b) else s.riders[c] == AtBoat(b))
      && s.boats[b].time == rideTimes[c]
  }

  ghost predicate BoatOk(s: Harbour, rideTimes: seq<int>, b: nat)
    requires Shape(s, rideTimes) && b < |s.boats|
  {
    var x := s.boats[b];
    match x.pc
    case Announcing | AtBarrier =>
      && x.available == 1 && Claimed(s, rideTimes, b)
      && (s.barriers[b] == NoOne || (s.barriers[b].RiderParty? && s.barriers[b].rider == x.carrying))
    case InBarrier =>
      x.available == 1 && Claimed(s, rideTimes, b) && s.barriers[b] == BoatParty(b)
    case Boarding =>
      && x.available == 1 && s.barriers[b] == NoOne
      && 0 <= x.carrying < |s.riders| && s.riders[x.carrying] == Left(b)
      && x.time == rideTimes[x.carrying]
    case _ => x.available == 0 && s.barriers[b] == NoOne
  }

  ghost predicate RiderOk(s: Harbour, rideTimes: seq<int>, r: nat)
    requires Shape(s, rideTimes) && r < |s.riders|
  {
    match s.riders[r]
    case Scanning(slot) => slot < |s.boats|
    case AtBoat(b) =>
      && 0 <= b < |s.boats| && s.boats[b].carrying == r
      && s.boats[b].pc in {Announcing, AtBarrier, InBarrier}
    case InBoat(b) =>
      && 0 <= b < |s.boats| && s.boats[b].carrying == r
      && s.boats[b].pc in {Announcing, AtBarrier} && s.barriers[b] == RiderParty(r)
    case _ => true
  }

  ghost predicate LocalInv(s: Harbour, rideTimes: seq<int>) {
    && Shape(s, rideTimes)
    && (forall b: nat | b < |s.boats| :: BoatOk(s, rideTimes, b))
    && (forall r: nat | r < |s.riders| :: RiderOk(s, rideTimes, r))
  }

  // ----- Counting invariants -----

  predicate IsFree(x: Boat) { Free(x) }
  predicate IsAnnouncing(x: Boat) { x.pc == Announcing }
  predicate InCycle(x: Boat) {
    x.pc in {Preparing, Announcing, AtBarrier, InBarrier, Boarding, Riding}
  }
  predicate IsBoarding(x: Boat) { x.pc == Boarding }
  predicate PastBarrier(x: Boat) { x.pc in {Boarding, Riding} }
  predicate IsAtEnd(x: Boat) { x.pc == AtEnd }
  predicate IsScanning(x: Rider) { x.Scanning? }
  predicate IsSightseeing(x: Rider) { x == Sightseeing }
  predicate HasLeft(x: Rider) { x.Left? }

  function Beyond(k: nat): Rider -> bool {
    (x: Rider) => x.Scanning? && x.slot >= k
  }

  function Positive(v: int): nat {
    if v > 0 then v else 0
  }

  ghost predicate SemaphoresOk(s: Harbour) {
    && (forall r: nat :: r in s.rider.sleeping <==> RiderAt(s, r, SleepsOnRider))
    && (forall b: nat :: b in s.boat.sleeping <==> BoatAt(s, b, SleepsOnBoat))
    && |s.rider.sleeping| == Positive(-s.rider.value)
    && |s.boat.sleeping| == Positive(-s.boat.value)
  }

  ghost predicate CountsOk(s: Harbour) {
    && Count(s.boats, IsFree) == Count(s.riders, IsScanning) + Positive(s.rider.value) + Count(s.boats, IsAnnouncing)
    && s.remaining == Count(s.riders, IsSightseeing) + Count(s.boats, InCycle) + Positive(s.boat.value)
    && Count(s.riders, HasLeft) == |s.riders| - s.remaining + Count(s.boats, PastBarrier)
    && |s.log| == Count(s.riders, HasLeft) - Count(s.boats, IsBoarding)
    && Count(s.boats, IsAtEnd) == if s.remaining == 0 then 1 else 0
  }

  /** At least as many boats are free at slots from k on as there are visitors who have already
      passed the first k slots. */
  ghost predicate PrefixAt(s: Harbour, k: nat)
    requires k <= |s.boats|
  {
    Count(s.boats[k..], IsFree) >= Count(s.riders, Beyond(k))
  }

  ghost predicate PrefixOk(s: Harbour) {
    forall k: nat | k <= |s.boats| :: PrefixAt(s, k)
  }

  /** An announced visitor has left by the barrier of the boat that announced it, and the
      announcement names its ride time. */
  ghost predicate EntryOk(s: Harbour, rideTimes: seq<int>, i: nat)
    requires Shape(s, rideTimes) && i < |s.log|
  {
    && 0 <= s.log[i].rider < |s.riders| && s.log[i].boat < |s.boats|
    && s.riders[s.log[i].rider] == Left(s.log[i].boat)
    && s.log[i].time == rideTimes[s.log[i].rider]
  }

  /** No visitor is announced twice, each with its own ride time, and only after leaving. */
  ghost predicate LogOk(s: Harbour, rideTimes: seq<int>) {
    && Shape(s, rideTimes)
    && (forall i: nat | i < |s.log| :: EntryOk(s, rideTimes, i))
    && (forall i, j | 0 <= i < j < |s.log| :: s.log[i].rider != s.log[j].rider)
    && (forall i, b | 0 <= i < |s.log| && 0 <= b < |s.boats| && s.boats[b].pc == Boarding ::
          s.log[i].rider != s.boats[b].carrying)
    && (forall b, c | 0 <= b < c < |s.boats| && s.boats[b].pc == Boarding && s.boats[c].pc == Boarding ::
          s.boats[b].carrying != s.boats[c].carrying)
  }

  ghost predicate Inv(s: Harbour, rideTimes: seq<int>) {
    LocalInv(s, rideTimes) && SemaphoresOk(s) && CountsOk(s) && PrefixOk(s) && LogOk(s, rideTimes)
  }
}
