/** LA7 over whole runs: every interleaving pairs boats and visitors correctly, never stops
    early, and ends with every visitor having had exactly one ride. */
module BoatingRuns {
  import opened Sequences
  import opened Counting
  import opened Boating
  import opened BoatingSteps

  // ----- What the invariant says about single states -----

  /** The scan of lines 128-140 always ends at a boat: `boat_index` is never -1. */
  lemma ScanFindsBoat(s: Harbour, rideTimes: seq<int>, r: nat)
    requires Inv(s, rideTimes) && r < |s.riders|
    ensures s.riders[r].Scanning? ==> s.riders[r].slot < |s.boats|
    ensures s.riders[r].AtBoat? ==> 0 <= s.riders[r].boat < |s.boats| && s.boats[s.riders[r].boat].carrying == r
  {
    assert RiderOk(s, rideTimes, r);
  }

  /** Only boat b and the visitor it carries ever meet at barrier b. */
  lemma BarrierPairsBoatWithItsVisitor(s: Harbour, rideTimes: seq<int>, b: nat)
    requires Inv(s, rideTimes) && b < |s.boats|
    ensures Enabled(s, BoatArrive(b)) && s.barriers[b] != NoOne ==>
              s.barriers[b].RiderParty? && s.boats[b].carrying == s.barriers[b].rider
    ensures forall r: nat | Enabled(s, RiderArrive(r)) && s.riders[r].boat == b ::
              s.boats[b].carrying == r && s.barriers[b] in {NoOne, BoatParty(b)}
  {
    assert BoatOk(s, rideTimes, b);
    forall r: nat | Enabled(s, RiderArrive(r)) && s.riders[r].boat == b
      ensures s.boats[b].carrying == r && s.barriers[b] in {NoOne, BoatParty(b)}
    {
      assert RiderOk(s, rideTimes, r);
    }
  }

  ghost predicate CanStep(s: Harbour) {
    exists a: Action :: Enabled(s, a)
  }

  lemma SomeoneToWake(q: Semaphore) returns (w: nat)
    ensures WakesProperly(q, w)
  {
    if q.sleeping != {} { w :| w in q.sleeping; } else { w := 0; }
  }

  lemma BoatsThatCannotMove(s: Harbour, b: nat)
    requires !CanStep(s) && b < |s.boats|
    ensures s.boats[b].pc in {SleepsOnBoat, InBarrier, AtEnd}
  {
    var w := SomeoneToWake(s.rider);
    assert !Enabled(s, BoatInit(b)) && !Enabled(s, BoatP(b)) && !Enabled(s, BoatPrepare(b));
    assert !Enabled(s, BoatAnnounce(b, w)) && !Enabled(s, BoatArrive(b));
    assert !Enabled(s, BoatBoard(b)) && !Enabled(s, BoatCount(b));
  }

  lemma BoatsThatCannotStep(s: Harbour, rideTimes: seq<int>, b: nat)
    requires Inv(s, rideTimes) && !CanStep(s) && b < |s.boats|
    ensures s.boats[b].pc in {SleepsOnBoat, InBarrier, AtEnd}
    ensures s.boats[b].pc == InBarrier ==> Free(s.boats[b])
  {
    BoatsThatCannotMove(s, b);
    assert BoatOk(s, rideTimes, b);
    forall r: nat | r < |s.riders| ensures !s.riders[r].AtBoat? {
      assert !Enabled(s, RiderArrive(r));
    }
  }

  lemma RidersThatCannotStep(s: Harbour, rideTimes: seq<int>, r: nat)
    requires Inv(s, rideTimes) && !CanStep(s) && r < |s.riders|
    ensures s.riders[r] == SleepsOnRider || s.riders[r].Left?
  {
    var w := SomeoneToWake(s.boat);
    assert !Enabled(s, RiderSignal(r, w)) && !Enabled(s, RiderP(r));
    assert !Enabled(s, RiderScan(r)) && !Enabled(s, RiderArrive(r));
    assert RiderOk(s, rideTimes, r);
    if s.riders[r].InBoat? { BoatsThatCannotStep(s, rideTimes, s.riders[r].boat); }
  }

  /** A state in which nobody can step has no visitor left to serve. */
  lemma StuckMeansServed(s: Harbour, rideTimes: seq<int>)
    requires Inv(s, rideTimes) && !CanStep(s) && |s.boats| >= 1
    ensures s.remaining == 0
  {
    forall b: nat | b < |s.boats|
      ensures s.boats[b].pc in {SleepsOnBoat, InBarrier, AtEnd} && (s.boats[b].pc == InBarrier ==> Free(s.boats[b]))
    {
      BoatsThatCannotStep(s, rideTimes, b);
    }
    forall r: nat | r < |s.riders| ensures s.riders[r] == SleepsOnRider || s.riders[r].Left? {
      RidersThatCannotStep(s, rideTimes, r);
    }
    CountZero(s.riders, IsSightseeing);
    CountZero(s.riders, IsScanning);
    CountZero(s.boats, PastBarrier);
    CountZero(s.boats, IsAnnouncing);
    if b: nat :| b < |s.boats| && s.boats[b].pc == InBarrier {
      CountPositive(s.boats, IsFree, b);
      assert s.rider.value > 0 && s.rider.sleeping == {};
      forall r: nat | r < |s.riders| ensures HasLeft(s.riders[r]) {
        assert !RiderAt(s, r, SleepsOnRider);
      }
      CountEvery(s.riders, HasLeft);
    } else if s.remaining != 0 {
      assert BoatAt(s, 0, SleepsOnBoat) && 0 in s.boat.sleeping;
      CountZero(s.boats, InCycle);
    }
  }

  /** Until the last ride is counted, some thread can always step. */
  lemma ProgressUntilServed(s: Harbour, rideTimes: seq<int>)
    requires Inv(s, rideTimes) && |s.boats| >= 1 && s.remaining != 0
    ensures s.remaining > 0 && CanStep(s)
  {
    if !CanStep(s) { StuckMeansServed(s, rideTimes); }
  }

  // ----- Every run is finite -----

  function RiderRank(x: Rider, m: nat): nat {
    match x
    case Sightseeing => m + 6
    case AtPRider => m + 5
    case SleepsOnRider => m + 4
    case Scanning(k) => 3 + if k <= m then m - k else 0
    case AtBoat(_) => 2
    case InBoat(_) => 1
    case Left(_) => 0
  }

  function BoatRank(x: Boat): nat {
    match x.pc
    case Born => 9
    case AtPBoat => 8
    case SleepsOnBoat => 7
    case Preparing => 6
    case Announcing => 5
    case AtBarrier => 4
    case InBarrier => 3
    case Boarding => 2
    case Riding => 1
    case AtEnd => 0
  }

  function RiderRanks(riders: seq<Rider>, m: nat): nat {
    if riders == [] then 0 else RiderRank(riders[0], m) + RiderRanks(riders[1..], m)
  }

  function BoatRanks(boats: seq<Boat>): nat {
    if boats == [] then 0 else BoatRank(boats[0]) + BoatRanks(boats[1..])
  }

  lemma {:induction false} RiderRanksUpdate(riders: seq<Rider>, r: nat, x: Rider, m: nat)
    requires r < |riders|
    ensures RiderRanks(riders[r := x], m) == RiderRanks(riders, m) - RiderRank(riders[r], m) + RiderRank(x, m)
  {
    if r == 0 {
      assert riders[0 := x][1..] == riders[1..];
    } else {
      assert riders[r := x][1..] == riders[1..][r - 1 := x];
      RiderRanksUpdate(riders[1..], r - 1, x, m);
    }
  }

  lemma {:induction false} BoatRanksUpdate(boats: seq<Boat>, b: nat, x: Boat)
    requires b < |boats|
    ensures BoatRanks(boats[b := x]) == BoatRanks(boats) - BoatRank(boats[b]) + BoatRank(x)
  {
    if b == 0 {
      assert boats[0 := x][1..] == boats[1..];
    } else {
      assert boats[b := x][1..] == boats[1..][b - 1 := x];
      BoatRanksUpdate(boats[1..], b - 1, x);
    }
  }

  function Rank(s: Harbour): int {
    RiderRanks(s.riders, |s.boats|) + BoatRanks(s.boats) + 8 * s.remaining
  }

  lemma BoatArriveLowersRank(s: Harbour, b: nat, rideTimes: seq<int>)
    requires Shape(s, rideTimes) && Enabled(s, BoatArrive(b)) && BoatOk(s, rideTimes, b)
    ensures Rank(Step(s, BoatArrive(b), rideTimes)) < Rank(s)
  {
    BoatRanksUpdate(s.boats, b, Step(s, BoatArrive(b), rideTimes).boats[b]);
    if s.barriers[b].RiderParty? { RiderRanksUpdate(s.riders, s.barriers[b].rider, Left(b), |s.boats|); }
  }

  lemma BoatAnnounceLowersRank(s: Harbour, b: nat, w: nat, rideTimes: seq<int>)
    requires Shape(s, rideTimes) && Enabled(s, BoatAnnounce(b, w))
    requires MustWake(s.rider) ==> RiderAt(s, w, SleepsOnRider)
    ensures Rank(Step(s, BoatAnnounce(b, w), rideTimes)) < Rank(s)
  {
    BoatRanksUpdate(s.boats, b, s.boats[b].(pc := AtBarrier));
    if MustWake(s.rider) { RiderRanksUpdate(s.riders, w, Scanning(0), |s.boats|); }
  }

  lemma BoatAloneLowersRank(s: Harbour, a: Action, rideTimes: seq<int>)
    requires Shape(s, rideTimes) && Enabled(s, a) && BoatAction(a) && !a.BoatArrive? && !a.BoatAnnounce?
    ensures Rank(Step(s, a, rideTimes)) < Rank(s)
  {
    BoatRanksUpdate(s.boats, a.b, Step(s, a, rideTimes).boats[a.b]);
  }

  lemma RiderSignalLowersRank(s: Harbour, r: nat, w: nat, rideTimes: seq<int>)
    requires Shape(s, rideTimes) && Enabled(s, RiderSignal(r, w))
    requires MustWake(s.boat) ==> BoatAt(s, w, SleepsOnBoat)
    ensures Rank(Step(s, RiderSignal(r, w), rideTimes)) < Rank(s)
  {
    RiderRanksUpdate(s.riders, r, AtPRider, |s.boats|);
    if MustWake(s.boat) { BoatRanksUpdate(s.boats, w, s.boats[w].(pc := Preparing)); }
  }

  lemma RiderPLowersRank(s: Harbour, r: nat, rideTimes: seq<int>)
    requires Shape(s, rideTimes) && Enabled(s, RiderP(r))
    ensures Rank(Step(s, RiderP(r), rideTimes)) < Rank(s)
  {
    RiderRanksUpdate(s.riders, r, Step(s, RiderP(r), rideTimes).riders[r], |s.boats|);
  }

  lemma RiderScanLowersRank(s: Harbour, r: nat, rideTimes: seq<int>)
    requires Shape(s, rideTimes) && Enabled(s, RiderScan(r)) && RiderOk(s, rideTimes, r)
    ensures Rank(Step(s, RiderScan(r), rideTimes)) < Rank(s)
  {
    var i := s.riders[r].slot;
    if Free(s.boats[i]) {
      RiderRanksUpdate(s.riders, r, AtBoat(i), |s.boats|);
      BoatRanksUpdate(s.boats, i, s.boats[i].(carrying := r, time := rideTimes[r]));
      assert RiderRank(AtBoat(i), |s.boats|) < RiderRank(s.riders[r], |s.boats|);
    } else {
      RiderRanksUpdate(s.riders, r, Scanning(i + 1), |s.boats|);
    }
  }

  lemma RiderArriveLowersRank(s: Harbour, r: nat, rideTimes: seq<int>)
    requires Shape(s, rideTimes) && Enabled(s, RiderArrive(r))
    requires RiderOk(s, rideTimes, r) && BoatOk(s, rideTimes, s.riders[r].boat)
    ensures Rank(Step(s, RiderArrive(r), rideTimes)) < Rank(s)
  {
    var i := s.riders[r].boat;
    RiderRanksUpdate(s.riders, r, Step(s, RiderArrive(r), rideTimes).riders[r], |s.boats|);
    if s.barriers[i].BoatParty? { BoatRanksUpdate(s.boats, i, s.boats[i].(pc := Boarding)); }
  }

  lemma StepLowersRank(s: Harbour, a: Action, rideTimes: seq<int>)
    requires Inv(s, rideTimes) && Enabled(s, a)
    ensures Rank(Step(s, a, rideTimes)) < Rank(s)
  {
    if BoatAction(a) { assert BoatOk(s, rideTimes, a.b); } else { assert RiderOk(s, rideTimes, a.r); }
    WokenSleeps(s, a);
    match a {
      case BoatArrive(b) => BoatArriveLowersRank(s, b, rideTimes);
      case BoatAnnounce(b, w) => BoatAnnounceLowersRank(s, b, w, rideTimes);
      case RiderSignal(r, w) => RiderSignalLowersRank(s, r, w, rideTimes);
      case RiderP(r) => RiderPLowersRank(s, r, rideTimes);
      case RiderScan(r) => RiderScanLowersRank(s, r, rideTimes);
      case RiderArrive(r) => RiderArriveLowersRank(s, r, rideTimes);
      case _ => BoatAloneLowersRank(s, a, rideTimes);
    }
  }

  // ----- Runs -----

  ghost predicate ValidRun(s: Harbour, actions: seq<Action>, rideTimes: seq<int>)
    requires Inv(s, rideTimes) && |s.boats| >= 1
    decreases |actions|
  {
    actions == [] ||
    (Enabled(s, actions[0]) &&
     (StepKeepsInvariant(s, actions[0], rideTimes);
      ValidRun(Step(s, actions[0], rideTimes), actions[1..], rideTimes)))
  }

  ghost function After(s: Harbour, actions: seq<Action>, rideTimes: seq<int>): (end: Harbour)
    requires Inv(s, rideTimes) && |s.boats| >= 1 && ValidRun(s, actions, rideTimes)
    ensures Inv(end, rideTimes) && |end.boats| == |s.boats|
    decreases |actions|
  {
    if actions == [] then s
    else
      StepKeepsInvariant(s, actions[0], rideTimes);
      After(Step(s, actions[0], rideTimes), actions[1..], rideTimes)
  }

  lemma {:induction false} RunsAreBounded(s: Harbour, actions: seq<Action>, rideTimes: seq<int>)
    requires Inv(s, rideTimes) && |s.boats| >= 1 && ValidRun(s, actions, rideTimes)
    ensures |actions| + Rank(After(s, actions, rideTimes)) <= Rank(s)
    decreases |actions|
  {
    if actions != [] {
      StepKeepsInvariant(s, actions[0], rideTimes);
      StepLowersRank(s, actions[0], rideTimes);
      RunsAreBounded(Step(s, actions[0], rideTimes), actions[1..], rideTimes);
    }
  }

  ghost function Begin(m: nat, rideTimes: seq<int>): (s: Harbour)
    requires m >= 1 && |rideTimes| >= 1
    ensures Inv(s, rideTimes) && |s.boats| == m
  {
    StartInvariant(m, rideTimes);
    Start(m, |rideTimes|)
  }

  lemma {:induction false} StartRanks(m: nat, k: nat)
    ensures RiderRanks(seq(k, i => Sightseeing), m) == k * (m + 6)
    ensures BoatRanks(seq(k, i => Boat(Born, 0, -1, 0))) == 9 * k
  {
    if k > 0 {
      assert seq(k, i => Sightseeing)[1..] == seq(k - 1, i => Sightseeing);
      assert seq(k, i => Boat(Born, 0, -1, 0))[1..] == seq(k - 1, i => Boat(Born, 0, -1, 0));
      StartRanks(m, k - 1);
    }
  }

  ghost predicate Announced(log: seq<Ride>, r: int) {
    exists i :: 0 <= i < |log| && log[i].rider == r
  }

  /** Distinct announced visitors, as many as there are visitors, are all of them. */
  lemma LogCoversAll(log: seq<Ride>, n: nat, r: nat)
    requires |log| == n && r < n
    requires forall i | 0 <= i < n :: 0 <= log[i].rider < n
    requires forall i, j | 0 <= i < j < n :: log[i].rider != log[j].rider
    ensures Announced(log, r)
  {
    if !Announced(log, r) {
      var riders: seq<nat> := seq(n + 1, i requires 0 <= i <= n => if i == n then r else log[i].rider);
      DistinctBound(riders, n);
    }
  }

  /** The visitor left by the barrier of the boat that announced it, with its own ride time. */
  ghost predicate RodeAsAnnounced(s: Harbour, rideTimes: seq<int>, ride: Ride)
    requires |s.riders| == |rideTimes|
  {
    && 0 <= ride.rider < |rideTimes| && ride.time == rideTimes[ride.rider]
    && ride.boat < |s.boats| && s.riders[ride.rider] == Left(ride.boat)
  }

  ghost predicate EveryVisitorRodeOnce(s: Harbour, rideTimes: seq<int>) {
    && |s.log| == |rideTimes|
    && (forall r | 0 <= r < |rideTimes| :: Announced(s.log, r))
    && (forall i, j | 0 <= i < j < |s.log| :: s.log[i].rider != s.log[j].rider)
    && |s.riders| == |rideTimes|
    && (forall i | 0 <= i < |s.log| :: RodeAsAnnounced(s, rideTimes, s.log[i]))
  }

  /** When the counter reaches zero every visitor has had exactly one ride, of its own length,
      and exactly one boat goes on to `EOS`. */
  lemma ServedMeansAllRode(s: Harbour, rideTimes: seq<int>)
    requires Inv(s, rideTimes) && s.remaining == 0
    ensures EveryVisitorRodeOnce(s, rideTimes)
    ensures forall r | 0 <= r < |s.riders| :: s.riders[r].Left?
    ensures Count(s.boats, IsAtEnd) == 1
  {
    forall i: nat | i < |s.log|
      ensures RodeAsAnnounced(s, rideTimes, s.log[i])
    {
      assert EntryOk(s, rideTimes, i);
    }
    assert Count(s.boats, InCycle) == 0;
    CountImplies(s.boats, PastBarrier, InCycle);
    CountImplies(s.boats, IsBoarding, InCycle);
    CountAll(s.riders, HasLeft);
    forall r | 0 <= r < |rideTimes| ensures Announced(s.log, r) {
      LogCoversAll(s.log, |rideTimes|, r);
    }
  }

  lemma BeginRank(m: nat, rideTimes: seq<int>)
    requires m >= 1 && |rideTimes| >= 1
    ensures Rank(Begin(m, rideTimes)) == |rideTimes| * (m + 14) + 9 * m
  {
    var n := |rideTimes|;
    StartRanks(m, n);
    StartRanks(m, m);
    assert Start(m, n).riders == seq(n, i => Sightseeing);
    assert Start(m, n).boats == seq(m, i => Boat(Born, 0, -1, 0));
    assert n * (m + 6) + 8 * n == n * (m + 14);
  }

  /** Any run from the start is bounded, and one that can go no further has served everybody. */
  lemma EveryRunServesEveryone(m: nat, rideTimes: seq<int>, actions: seq<Action>)
    requires m >= 1 && |rideTimes| >= 1
    requires ValidRun(Begin(m, rideTimes), actions, rideTimes)
    ensures |actions| <= |rideTimes| * (m + 14) + 9 * m
    ensures var end := After(Begin(m, rideTimes), actions, rideTimes);
            && (end.remaining != 0 ==> CanStep(end))
            && (!CanStep(end) ==> EveryVisitorRodeOnce(end, rideTimes) && Count(end.boats, IsAtEnd) == 1)
  {
    var s := Begin(m, rideTimes);
    BeginRank(m, rideTimes);
    RunsAreBounded(s, actions, rideTimes);
    var end := After(s, actions, rideTimes);
    assert end.remaining >= 0;
    if end.remaining != 0 { ProgressUntilServed(end, rideTimes); }
    if !CanStep(end) {
      StuckMeansServed(end, rideTimes);
      ServedMeansAllRode(end, rideTimes);
    }
  }
}
