/** Every step of LA7 keeps the invariant. */
module BoatingSteps {
  import opened Counting
  import opened Boating

  /** A visitor that has looked at slot k in vain still has a free boat ahead. */
  lemma ScannerHasBoatAhead(s: Harbour, rideTimes: seq<int>, r: nat)
    requires LocalInv(s, rideTimes) && PrefixOk(s) && r < |s.riders| && s.riders[r].Scanning?
    requires s.riders[r].slot < |s.boats| && !Free(s.boats[s.riders[r].slot])
    ensures var k := s.riders[r].slot;
            Count(s.boats[k + 1..], IsFree) >= Count(s.riders, Beyond(k + 1)) + 1
    ensures s.riders[r].slot + 1 < |s.boats|
  {
    var k := s.riders[r].slot;
    CountImpliesStrictly(s.riders, Beyond(k + 1), Beyond(k), r);
    assert s.boats[k..][1..] == s.boats[k + 1..];
    assert PrefixAt(s, k);
    assert Count([], IsFree) == 0;
  }

  // ----- Local invariants -----

  ghost predicate BoatAction(a: Action) {
    a.BoatInit? || a.BoatP? || a.BoatPrepare? || a.BoatAnnounce? || a.BoatArrive? || a.BoatBoard? || a.BoatCount?
  }

  /** V wakes a thread that really sleeps, and finds nobody only when nobody sleeps. */
  lemma WokenSleeps(s: Harbour, a: Action)
    requires SemaphoresOk(s) && Enabled(s, a)
    ensures a.BoatAnnounce? ==>
              if MustWake(s.rider) then RiderAt(s, a.woken, SleepsOnRider) else s.rider.value >= 0
    ensures a.RiderSignal? ==>
              if MustWake(s.boat) then BoatAt(s, a.woken, SleepsOnBoat) else s.boat.value >= 0
  {
    if a.BoatAnnounce? && MustWake(s.rider) { assert RiderAt(s, a.woken, SleepsOnRider); }
    if a.RiderSignal? && MustWake(s.boat) { assert BoatAt(s, a.woken, SleepsOnBoat); }
  }

  lemma BoatArriveBoat(s: Harbour, x: nat, rideTimes: seq<int>, b: nat)
    requires LocalInv(s, rideTimes) && Enabled(s, BoatArrive(x)) && b < |s.boats|
    ensures BoatOk(Step(s, BoatArrive(x), rideTimes), rideTimes, b)
  {
    assert BoatOk(s, rideTimes, b) && BoatOk(s, rideTimes, x);
    if s.barriers[x].RiderParty? { assert RiderOk(s, rideTimes, s.barriers[x].rider); }
  }

  lemma BoatAnnounceBoat(s: Harbour, x: nat, w: nat, rideTimes: seq<int>, b: nat)
    requires Shape(s, rideTimes) && Enabled(s, BoatAnnounce(x, w)) && b < |s.boats| && BoatOk(s, rideTimes, b)
    requires MustWake(s.rider) ==> RiderAt(s, w, SleepsOnRider)
    ensures BoatOk(Step(s, BoatAnnounce(x, w), rideTimes), rideTimes, b)
  {
  }

  lemma BoatAloneBoat(s: Harbour, a: Action, rideTimes: seq<int>, b: nat)
    requires Shape(s, rideTimes) && Enabled(s, a) && BoatAction(a) && !a.BoatArrive? && !a.BoatAnnounce?
    requires b < |s.boats| && BoatOk(s, rideTimes, b)
    ensures BoatOk(Step(s, a, rideTimes), rideTimes, b)
  {
  }

  lemma BoatStepBoat(s: Harbour, a: Action, rideTimes: seq<int>, b: nat)
    requires LocalInv(s, rideTimes) && SemaphoresOk(s) && Enabled(s, a) && BoatAction(a) && b < |s.boats|
    ensures BoatOk(Step(s, a, rideTimes), rideTimes, b)
  {
    assert BoatOk(s, rideTimes, b);
    WokenSleeps(s, a);
    match a {
      case BoatArrive(x) => BoatArriveBoat(s, x, rideTimes, b);
      case BoatAnnounce(x, w) => BoatAnnounceBoat(s, x, w, rideTimes, b);
      case _ => BoatAloneBoat(s, a, rideTimes, b);
    }
  }

  lemma BoatActsOnRider(s: Harbour, a: Action, rideTimes: seq<int>, r: nat)
    requires Shape(s, rideTimes) && Enabled(s, a) && BoatAction(a) && BoatOk(s, rideTimes, a.b)
    requires r < |s.riders| && RiderOk(s, rideTimes, r) && |s.boats| >= 1
    requires a.BoatAnnounce? && MustWake(s.rider) ==> RiderAt(s, a.woken, SleepsOnRider)
    ensures RiderOk(Step(s, a, rideTimes), rideTimes, r)
  {
  }

  lemma BoatStepRider(s: Harbour, a: Action, rideTimes: seq<int>, r: nat)
    requires LocalInv(s, rideTimes) && SemaphoresOk(s) && Enabled(s, a) && BoatAction(a) && r < |s.riders|
    ensures RiderOk(Step(s, a, rideTimes), rideTimes, r)
  {
    assert RiderOk(s, rideTimes, r) && BoatOk(s, rideTimes, a.b);
    WokenSleeps(s, a);
    BoatActsOnRider(s, a, rideTimes, r);
  }

  lemma RiderArriveBoat(s: Harbour, r: nat, rideTimes: seq<int>, b: nat)
    requires Shape(s, rideTimes) && Enabled(s, RiderArrive(r)) && RiderOk(s, rideTimes, r)
    requires b < |s.boats| && BoatOk(s, rideTimes, b) && BoatOk(s, rideTimes, s.riders[r].boat)
    ensures BoatOk(Step(s, RiderArrive(r), rideTimes), rideTimes, b)
  {
  }

  lemma RiderSignalBoat(s: Harbour, r: nat, w: nat, rideTimes: seq<int>, b: nat)
    requires Shape(s, rideTimes) && Enabled(s, RiderSignal(r, w)) && b < |s.boats| && BoatOk(s, rideTimes, b)
    requires MustWake(s.boat) ==> BoatAt(s, w, SleepsOnBoat)
    ensures BoatOk(Step(s, RiderSignal(r, w), rideTimes), rideTimes, b)
  {
  }

  lemma RiderAloneBoat(s: Harbour, a: Action, rideTimes: seq<int>, b: nat)
    requires Shape(s, rideTimes) && Enabled(s, a) && (a.RiderP? || a.RiderScan?) && RiderOk(s, rideTimes, a.r)
    requires b < |s.boats| && BoatOk(s, rideTimes, b)
    ensures BoatOk(Step(s, a, rideTimes), rideTimes, b)
  {
  }

  lemma RiderStepBoat(s: Harbour, a: Action, rideTimes: seq<int>, b: nat)
    requires LocalInv(s, rideTimes) && SemaphoresOk(s) && Enabled(s, a) && !BoatAction(a) && b < |s.boats|
    ensures BoatOk(Step(s, a, rideTimes), rideTimes, b)
  {
    assert BoatOk(s, rideTimes, b) && RiderOk(s, rideTimes, a.r);
    WokenSleeps(s, a);
    match a {
      case RiderArrive(r) => RiderArriveBoat(s, r, rideTimes, b);
      case RiderSignal(r, w) => RiderSignalBoat(s, r, w, rideTimes, b);
      case _ => RiderAloneBoat(s, a, rideTimes, b);
    }
  }

  lemma RiderScanRider(s: Harbour, x: nat, rideTimes: seq<int>, r: nat)
    requires LocalInv(s, rideTimes) && PrefixOk(s) && Enabled(s, RiderScan(x)) && r < |s.riders|
    ensures RiderOk(Step(s, RiderScan(x), rideTimes), rideTimes, r)
  {
    assert RiderOk(s, rideTimes, r) && RiderOk(s, rideTimes, x);
    assert BoatOk(s, rideTimes, s.riders[x].slot);
    if !Free(s.boats[s.riders[x].slot]) { ScannerHasBoatAhead(s, rideTimes, x); }
  }

  lemma RiderStepRider(s: Harbour, a: Action, rideTimes: seq<int>, r: nat)
    requires LocalInv(s, rideTimes) && SemaphoresOk(s) && PrefixOk(s) && Enabled(s, a) && !BoatAction(a)
    requires r < |s.riders| && |s.boats| >= 1
    ensures RiderOk(Step(s, a, rideTimes), rideTimes, r)
  {
    if a.RiderScan? {
      RiderScanRider(s, a.r, rideTimes, r);
    } else {
      assert RiderOk(s, rideTimes, r) && RiderOk(s, rideTimes, a.r);
      WokenSleeps(s, a);
      if a.RiderArrive? { assert BoatOk(s, rideTimes, s.riders[a.r].boat); }
    }
  }

  lemma StepKeepsShape(s: Harbour, a: Action, rideTimes: seq<int>)
    requires Shape(s, rideTimes) && Enabled(s, a)
    ensures Shape(Step(s, a, rideTimes), rideTimes) && |Step(s, a, rideTimes).boats| == |s.boats|
  {
  }

  lemma StepKeepsLocal(s: Harbour, a: Action, rideTimes: seq<int>)
    requires LocalInv(s, rideTimes) && SemaphoresOk(s) && PrefixOk(s) && Enabled(s, a) && |s.boats| >= 1
    ensures LocalInv(Step(s, a, rideTimes), rideTimes)
  {
    var t := Step(s, a, rideTimes);
    StepKeepsShape(s, a, rideTimes);
    forall b: nat | b < |t.boats| ensures BoatOk(t, rideTimes, b) {
      if BoatAction(a) { BoatStepBoat(s, a, rideTimes, b); } else { RiderStepBoat(s, a, rideTimes, b); }
    }
    forall r: nat | r < |t.riders| ensures RiderOk(t, rideTimes, r) {
      if BoatAction(a) { BoatStepRider(s, a, rideTimes, r); } else { RiderStepRider(s, a, rideTimes, r); }
    }
  }

  // ----- Semaphores -----

  /** Nobody who waits at a barrier sleeps at a semaphore. */
  ghost predicate ArrivalOk(s: Harbour, a: Action, rideTimes: seq<int>)
    requires Shape(s, rideTimes) && Enabled(s, a)
  {
    && (a.BoatArrive? ==> BoatOk(s, rideTimes, a.b))
    && (a.RiderArrive? ==> RiderOk(s, rideTimes, a.r) && BoatOk(s, rideTimes, s.riders[a.r].boat))
  }

  lemma ArrivalIsOk(s: Harbour, a: Action, rideTimes: seq<int>)
    requires LocalInv(s, rideTimes) && Enabled(s, a)
    ensures ArrivalOk(s, a, rideTimes)
  {
    if a.RiderArrive? { assert RiderOk(s, rideTimes, a.r); }
  }

  lemma StepKeepsRiderSleeper(s: Harbour, a: Action, rideTimes: seq<int>, r: nat)
    requires Shape(s, rideTimes) && Enabled(s, a) && ArrivalOk(s, a, rideTimes)
    requires r in s.rider.sleeping <==> RiderAt(s, r, SleepsOnRider)
    requires a.BoatAnnounce? && MustWake(s.rider) ==> RiderAt(s, a.woken, SleepsOnRider)
    ensures r in Step(s, a, rideTimes).rider.sleeping <==> RiderAt(Step(s, a, rideTimes), r, SleepsOnRider)
  {
  }

  lemma StepKeepsBoatSleeper(s: Harbour, a: Action, rideTimes: seq<int>, b: nat)
    requires Shape(s, rideTimes) && Enabled(s, a) && ArrivalOk(s, a, rideTimes)
    requires b in s.boat.sleeping <==> BoatAt(s, b, SleepsOnBoat)
    requires a.RiderSignal? && MustWake(s.boat) ==> BoatAt(s, a.woken, SleepsOnBoat)
    ensures b in Step(s, a, rideTimes).boat.sleeping <==> BoatAt(Step(s, a, rideTimes), b, SleepsOnBoat)
  {
  }

  lemma SleepersCounted(q: Semaphore, t: nat)
    requires |q.sleeping| == Positive(-q.value)
    ensures t !in q.sleeping ==> |AfterP(q, t).sleeping| == Positive(-AfterP(q, t).value)
    ensures WakesProperly(q, t) ==> |AfterV(q, t).sleeping| == Positive(-AfterV(q, t).value)
    ensures q.value < 0 ==> MustWake(q)
  {
  }

  lemma StepKeepsRiderSleepers(s: Harbour, a: Action, rideTimes: seq<int>)
    requires Shape(s, rideTimes) && Enabled(s, a)
    requires |s.rider.sleeping| == Positive(-s.rider.value) && (a.RiderP? ==> a.r !in s.rider.sleeping)
    ensures var q := Step(s, a, rideTimes).rider; |q.sleeping| == Positive(-q.value)
  {
    match a {
      case RiderP(r) => SleepersCounted(s.rider, r);
      case BoatAnnounce(_, w) => SleepersCounted(s.rider, w);
      case _ =>
    }
  }

  lemma StepKeepsBoatSleepers(s: Harbour, a: Action, rideTimes: seq<int>)
    requires Shape(s, rideTimes) && Enabled(s, a)
    requires |s.boat.sleeping| == Positive(-s.boat.value) && (a.BoatP? ==> a.b !in s.boat.sleeping)
    ensures var q := Step(s, a, rideTimes).boat; |q.sleeping| == Positive(-q.value)
  {
    match a {
      case BoatP(b) => SleepersCounted(s.boat, b);
      case RiderSignal(_, w) => SleepersCounted(s.boat, w);
      case _ =>
    }
  }

  lemma StepKeepsSemaphores(s: Harbour, a: Action, rideTimes: seq<int>)
    requires LocalInv(s, rideTimes) && SemaphoresOk(s) && Enabled(s, a)
    ensures SemaphoresOk(Step(s, a, rideTimes))
  {
    var t := Step(s, a, rideTimes);
    WokenSleeps(s, a);
    ArrivalIsOk(s, a, rideTimes);
    forall r: nat ensures r in t.rider.sleeping <==> RiderAt(t, r, SleepsOnRider) {
      StepKeepsRiderSleeper(s, a, rideTimes, r);
    }
    forall b: nat ensures b in t.boat.sleeping <==> BoatAt(t, b, SleepsOnBoat) {
      StepKeepsBoatSleeper(s, a, rideTimes, b);
    }
    StepKeepsRiderSleepers(s, a, rideTimes);
    StepKeepsBoatSleepers(s, a, rideTimes);
  }

  // ----- Counts -----

  function One(p: bool): nat { if p then 1 else 0 }

  lemma BoatCounts(boats: seq<Boat>, b: nat, x: Boat)
    requires b < |boats|
    ensures var after, y := boats[b := x], boats[b];
      && Count(after, IsFree) == Count(boats, IsFree) - One(IsFree(y)) + One(IsFree(x))
      && Count(after, IsAnnouncing) == Count(boats, IsAnnouncing) - One(IsAnnouncing(y)) + One(IsAnnouncing(x))
      && Count(after, InCycle) == Count(boats, InCycle) - One(InCycle(y)) + One(InCycle(x))
      && Count(after, IsBoarding) == Count(boats, IsBoarding) - One(IsBoarding(y)) + One(IsBoarding(x))
      && Count(after, PastBarrier) == Count(boats, PastBarrier) - One(PastBarrier(y)) + One(PastBarrier(x))
      && Count(after, IsAtEnd) == Count(boats, IsAtEnd) - One(IsAtEnd(y)) + One(IsAtEnd(x))
  {
    CountUpdate(boats, b, x, IsFree);
    CountUpdate(boats, b, x, IsAnnouncing);
    CountUpdate(boats, b, x, InCycle);
    CountUpdate(boats, b, x, IsBoarding);
    CountUpdate(boats, b, x, PastBarrier);
    CountUpdate(boats, b, x, IsAtEnd);
  }

  lemma RiderCounts(riders: seq<Rider>, r: nat, x: Rider)
    requires r < |riders|
    ensures var after, y := riders[r := x], riders[r];
      && Count(after, IsScanning) == Count(riders, IsScanning) - One(IsScanning(y)) + One(IsScanning(x))
      && Count(after, IsSightseeing) == Count(riders, IsSightseeing) - One(IsSightseeing(y)) + One(IsSightseeing(x))
      && Count(after, HasLeft) == Count(riders, HasLeft) - One(HasLeft(y)) + One(HasLeft(x))
  {
    CountUpdate(riders, r, x, IsScanning);
    CountUpdate(riders, r, x, IsSightseeing);
    CountUpdate(riders, r, x, HasLeft);
  }

  lemma BoatReadyKeepsCounts(s: Harbour, a: Action, rideTimes: seq<int>)
    requires Shape(s, rideTimes) && CountsOk(s) && Enabled(s, a)
    requires (a.BoatInit? || a.BoatP? || a.BoatPrepare?) && BoatOk(s, rideTimes, a.b)
    ensures CountsOk(Step(s, a, rideTimes))
  {
    BoatCounts(s.boats, a.b, Step(s, a, rideTimes).boats[a.b]);
  }

  lemma BoatBoardKeepsCounts(s: Harbour, b: nat, rideTimes: seq<int>)
    requires Shape(s, rideTimes) && CountsOk(s) && Enabled(s, BoatBoard(b)) && BoatOk(s, rideTimes, b)
    ensures CountsOk(Step(s, BoatBoard(b), rideTimes))
  {
    BoatCounts(s.boats, b, s.boats[b].(pc := Riding, available := 0));
  }

  lemma BoatCountKeepsCounts(s: Harbour, b: nat, rideTimes: seq<int>)
    requires Shape(s, rideTimes) && CountsOk(s) && Enabled(s, BoatCount(b)) && BoatOk(s, rideTimes, b)
    ensures CountsOk(Step(s, BoatCount(b), rideTimes))
  {
    BoatCounts(s.boats, b, Step(s, BoatCount(b), rideTimes).boats[b]);
    CountPositive(s.boats, InCycle, b);
  }

  lemma BoatArriveKeepsCounts(s: Harbour, b: nat, rideTimes: seq<int>)
    requires Shape(s, rideTimes) && CountsOk(s) && Enabled(s, BoatArrive(b)) && BoatOk(s, rideTimes, b)
    ensures CountsOk(Step(s, BoatArrive(b), rideTimes))
  {
    BoatCounts(s.boats, b, Step(s, BoatArrive(b), rideTimes).boats[b]);
    if s.barriers[b].RiderParty? {
      RiderCounts(s.riders, s.barriers[b].rider, Left(b));
    }
  }

  lemma RiderArriveKeepsCounts(s: Harbour, r: nat, rideTimes: seq<int>)
    requires Shape(s, rideTimes) && CountsOk(s) && Enabled(s, RiderArrive(r))
    requires RiderOk(s, rideTimes, r) && BoatOk(s, rideTimes, s.riders[r].boat)
    ensures CountsOk(Step(s, RiderArrive(r), rideTimes))
  {
    var i := s.riders[r].boat;
    RiderCounts(s.riders, r, Step(s, RiderArrive(r), rideTimes).riders[r]);
    if s.barriers[i].BoatParty? {
      BoatCounts(s.boats, i, s.boats[i].(pc := Boarding));
    }
  }

  lemma BoatAnnounceKeepsCounts(s: Harbour, b: nat, w: nat, rideTimes: seq<int>)
    requires Shape(s, rideTimes) && CountsOk(s) && Enabled(s, BoatAnnounce(b, w))
    requires if MustWake(s.rider) then RiderAt(s, w, SleepsOnRider) else s.rider.value >= 0
    ensures CountsOk(Step(s, BoatAnnounce(b, w), rideTimes))
  {
    BoatCounts(s.boats, b, s.boats[b].(pc := AtBarrier));
    if MustWake(s.rider) { RiderCounts(s.riders, w, Scanning(0)); }
  }

  lemma RiderSignalKeepsCounts(s: Harbour, r: nat, w: nat, rideTimes: seq<int>)
    requires Shape(s, rideTimes) && CountsOk(s) && Enabled(s, RiderSignal(r, w))
    requires if MustWake(s.boat) then BoatAt(s, w, SleepsOnBoat) && BoatOk(s, rideTimes, w) else s.boat.value >= 0
    ensures CountsOk(Step(s, RiderSignal(r, w), rideTimes))
  {
    RiderCounts(s.riders, r, AtPRider);
    if MustWake(s.boat) {
      BoatCounts(s.boats, w, s.boats[w].(pc := Preparing));
      assert Step(s, RiderSignal(r, w), rideTimes).boats == s.boats[w := s.boats[w].(pc := Preparing)];
    }
  }

  lemma RiderPKeepsCounts(s: Harbour, r: nat, rideTimes: seq<int>)
    requires Shape(s, rideTimes) && CountsOk(s) && Enabled(s, RiderP(r))
    ensures CountsOk(Step(s, RiderP(r), rideTimes))
  {
    RiderCounts(s.riders, r, Step(s, RiderP(r), rideTimes).riders[r]);
  }

  lemma RiderScanKeepsCounts(s: Harbour, r: nat, rideTimes: seq<int>)
    requires Shape(s, rideTimes) && CountsOk(s) && Enabled(s, RiderScan(r)) && RiderOk(s, rideTimes, r)
    ensures CountsOk(Step(s, RiderScan(r), rideTimes))
  {
    var t, i := Step(s, RiderScan(r), rideTimes), s.riders[r].slot;
    RiderCounts(s.riders, r, t.riders[r]);
    BoatCounts(s.boats, i, t.boats[i]);
  }

  lemma StepKeepsCounts(s: Harbour, a: Action, rideTimes: seq<int>)
    requires LocalInv(s, rideTimes) && SemaphoresOk(s) && CountsOk(s) && Enabled(s, a)
    ensures CountsOk(Step(s, a, rideTimes))
  {
    if BoatAction(a) { assert BoatOk(s, rideTimes, a.b); } else { assert RiderOk(s, rideTimes, a.r); }
    WokenSleeps(s, a);
    match a {
      case BoatArrive(b) => BoatArriveKeepsCounts(s, b, rideTimes);
      case RiderArrive(r) => RiderArriveKeepsCounts(s, r, rideTimes);
      case BoatAnnounce(b, w) => BoatAnnounceKeepsCounts(s, b, w, rideTimes);
      case RiderSignal(r, w) => RiderSignalKeepsCounts(s, r, w, rideTimes);
      case RiderP(r) => RiderPKeepsCounts(s, r, rideTimes);
      case RiderScan(r) => RiderScanKeepsCounts(s, r, rideTimes);
      case BoatBoard(b) => BoatBoardKeepsCounts(s, b, rideTimes);
      case BoatCount(b) => BoatCountKeepsCounts(s, b, rideTimes);
      case _ => BoatReadyKeepsCounts(s, a, rideTimes);
    }
  }

  // ----- The prefix counts -----

  lemma SuffixUpdate(boats: seq<Boat>, b: nat, x: Boat, k: nat)
    requires b < |boats| && k <= |boats|
    ensures Count(boats[b := x][k..], IsFree)
         == Count(boats[k..], IsFree) + if b >= k then One(IsFree(x)) - One(IsFree(boats[b])) else 0
  {
    if b >= k {
      assert boats[b := x][k..] == boats[k..][b - k := x];
      CountUpdate(boats[k..], b - k, x, IsFree);
    } else {
      assert boats[b := x][k..] == boats[k..];
    }
  }

  /** A visitor that has just passed P(&rider) stands before slot 0, where the totals speak. */
  lemma FirstSlotCounts(s: Harbour)
    requires CountsOk(s)
    ensures Count(s.boats[0..], IsFree) >= Count(s.riders, Beyond(0))
  {
    assert s.boats[0..] == s.boats;
    CountImplies(s.riders, Beyond(0), IsScanning);
  }

  lemma BoatArriveKeepsPrefixAt(s: Harbour, b: nat, rideTimes: seq<int>, k: nat)
    requires LocalInv(s, rideTimes) && Enabled(s, BoatArrive(b)) && k <= |s.boats| && PrefixAt(s, k)
    ensures PrefixAt(Step(s, BoatArrive(b), rideTimes), k)
  {
    var t := Step(s, BoatArrive(b), rideTimes);
    assert BoatOk(s, rideTimes, b);
    SuffixUpdate(s.boats, b, t.boats[b], k);
    if s.barriers[b].RiderParty? { CountUpdate(s.riders, s.barriers[b].rider, Left(b), Beyond(k)); }
  }

  lemma RiderArriveKeepsPrefixAt(s: Harbour, r: nat, rideTimes: seq<int>, k: nat)
    requires LocalInv(s, rideTimes) && Enabled(s, RiderArrive(r)) && k <= |s.boats| && PrefixAt(s, k)
    ensures PrefixAt(Step(s, RiderArrive(r), rideTimes), k)
  {
    var t, i := Step(s, RiderArrive(r), rideTimes), s.riders[r].boat;
    assert RiderOk(s, rideTimes, r) && BoatOk(s, rideTimes, i);
    CountUpdate(s.riders, r, t.riders[r], Beyond(k));
    if s.barriers[i].BoatParty? { SuffixUpdate(s.boats, i, s.boats[i].(pc := Boarding), k); }
  }

  lemma BoatAnnounceKeepsPrefixAt(s: Harbour, b: nat, w: nat, rideTimes: seq<int>, k: nat)
    requires LocalInv(s, rideTimes) && SemaphoresOk(s) && Enabled(s, BoatAnnounce(b, w))
    requires 0 < k <= |s.boats| && PrefixAt(s, k)
    ensures PrefixAt(Step(s, BoatAnnounce(b, w), rideTimes), k)
  {
    SuffixUpdate(s.boats, b, s.boats[b].(pc := AtBarrier), k);
    if MustWake(s.rider) {
      assert RiderAt(s, w, SleepsOnRider);
      CountUpdate(s.riders, w, Scanning(0), Beyond(k));
    }
  }

  lemma RiderSignalKeepsPrefixAt(s: Harbour, r: nat, w: nat, rideTimes: seq<int>, k: nat)
    requires LocalInv(s, rideTimes) && SemaphoresOk(s) && Enabled(s, RiderSignal(r, w))
    requires k <= |s.boats| && PrefixAt(s, k)
    ensures PrefixAt(Step(s, RiderSignal(r, w), rideTimes), k)
  {
    CountUpdate(s.riders, r, AtPRider, Beyond(k));
    if MustWake(s.boat) {
      assert BoatAt(s, w, SleepsOnBoat);
      SuffixUpdate(s.boats, w, s.boats[w].(pc := Preparing), k);
    }
  }

  lemma BoatAloneKeepsPrefixAt(s: Harbour, a: Action, rideTimes: seq<int>, k: nat)
    requires LocalInv(s, rideTimes) && Enabled(s, a) && BoatAction(a) && !a.BoatArrive? && !a.BoatAnnounce?
    requires k <= |s.boats| && PrefixAt(s, k)
    ensures PrefixAt(Step(s, a, rideTimes), k)
  {
    assert BoatOk(s, rideTimes, a.b);
    SuffixUpdate(s.boats, a.b, Step(s, a, rideTimes).boats[a.b], k);
  }

  lemma RiderPKeepsPrefixAt(s: Harbour, r: nat, rideTimes: seq<int>, k: nat)
    requires LocalInv(s, rideTimes) && Enabled(s, RiderP(r)) && 0 < k <= |s.boats| && PrefixAt(s, k)
    ensures PrefixAt(Step(s, RiderP(r), rideTimes), k)
  {
    CountUpdate(s.riders, r, Step(s, RiderP(r), rideTimes).riders[r], Beyond(k));
  }

  lemma StepKeepsPrefixAt(s: Harbour, a: Action, rideTimes: seq<int>, k: nat)
    requires LocalInv(s, rideTimes) && SemaphoresOk(s) && PrefixOk(s) && Enabled(s, a)
    requires 0 < k <= |s.boats|
    ensures |Step(s, a, rideTimes).boats| == |s.boats| && PrefixAt(Step(s, a, rideTimes), k)
  {
    assert PrefixAt(s, k);
    StepKeepsShape(s, a, rideTimes);
    match a {
      case BoatArrive(b) => BoatArriveKeepsPrefixAt(s, b, rideTimes, k);
      case RiderArrive(r) => RiderArriveKeepsPrefixAt(s, r, rideTimes, k);
      case BoatAnnounce(b, w) => BoatAnnounceKeepsPrefixAt(s, b, w, rideTimes, k);
      case RiderSignal(r, w) => RiderSignalKeepsPrefixAt(s, r, w, rideTimes, k);
      case RiderP(r) => RiderPKeepsPrefixAt(s, r, rideTimes, k);
      case RiderScan(r) => ScanKeepsPrefixAt(s, r, rideTimes, k);
      case _ => BoatAloneKeepsPrefixAt(s, a, rideTimes, k);
    }
  }

  lemma ScanKeepsPrefixAt(s: Harbour, r: nat, rideTimes: seq<int>, k: nat)
    requires LocalInv(s, rideTimes) && PrefixOk(s) && Enabled(s, RiderScan(r)) && k <= |s.boats|
    ensures PrefixAt(Step(s, RiderScan(r), rideTimes), k)
  {
    var t := Step(s, RiderScan(r), rideTimes);
    var i := s.riders[r].slot;
    assert RiderOk(s, rideTimes, r);
    assert PrefixAt(s, k);
    CountUpdate(s.riders, r, t.riders[r], Beyond(k));
    if Free(s.boats[i]) {
      SuffixUpdate(s.boats, i, t.boats[i], k);
    } else {
      ScannerHasBoatAhead(s, rideTimes, r);
    }
  }

  lemma StepKeepsFirstPrefix(s: Harbour, a: Action, rideTimes: seq<int>)
    requires LocalInv(s, rideTimes) && SemaphoresOk(s) && CountsOk(s) && Enabled(s, a)
    ensures PrefixAt(Step(s, a, rideTimes), 0)
  {
    StepKeepsCounts(s, a, rideTimes);
    FirstSlotCounts(Step(s, a, rideTimes));
  }

  lemma StepKeepsPrefix(s: Harbour, a: Action, rideTimes: seq<int>)
    requires LocalInv(s, rideTimes) && SemaphoresOk(s) && CountsOk(s) && PrefixOk(s) && Enabled(s, a)
    ensures PrefixOk(Step(s, a, rideTimes))
  {
    var t := Step(s, a, rideTimes);
    StepKeepsFirstPrefix(s, a, rideTimes);
    forall k: nat | k <= |t.boats| ensures PrefixAt(t, k) {
      if k > 0 { StepKeepsPrefixAt(s, a, rideTimes, k); }
    }
  }

  // ----- The log -----

  /** Only a boat that is boarding announces a ride: its own, with the visitor it carries, who has
      left by its barrier, and with that visitor's time. */
  lemma BoatAnnouncesItsOwnRide(s: Harbour, a: Action, rideTimes: seq<int>)
    requires LocalInv(s, rideTimes) && Enabled(s, a)
    ensures Step(s, a, rideTimes).log != s.log ==> a.BoatBoard? && s.boats[a.b].pc == Boarding
    ensures a.BoatBoard? ==>
      var log, now, c := s.log, Step(s, a, rideTimes).log, s.boats[a.b].carrying;
      && |now| == |log| + 1 && now[..|log|] == log
      && now[|log|].boat == a.b && now[|log|].rider == c
      && 0 <= c < |s.riders| && now[|log|].time == rideTimes[c] && s.riders[c] == Left(a.b)
  {
    if a.BoatBoard? { assert BoatOk(s, rideTimes, a.b); }
  }

  /** A visitor leaves by the barrier of the boat that it has found, and that boat carries it. */
  lemma VisitorLeavesByItsBoat(s: Harbour, a: Action, rideTimes: seq<int>, r: nat)
    requires LocalInv(s, rideTimes) && SemaphoresOk(s) && Enabled(s, a) && r < |s.riders|
    requires !s.riders[r].Left? && Step(s, a, rideTimes).riders[r].Left?
    ensures var b := Step(s, a, rideTimes).riders[r].boat;
      && 0 <= b < |s.boats| && s.riders[r] in {AtBoat(b), InBoat(b)} && s.boats[b].carrying == r
  {
    ArrivalIsOk(s, a, rideTimes);
    WokenSleeps(s, a);
    assert RiderOk(s, rideTimes, r);
    if a.BoatArrive? && s.barriers[a.b].RiderParty? { assert RiderOk(s, rideTimes, s.barriers[a.b].rider); }
  }

  /** A visitor that has left is out of the protocol for good. */
  lemma LeftStaysLeft(s: Harbour, a: Action, rideTimes: seq<int>, r: nat, b: int)
    requires Shape(s, rideTimes) && Enabled(s, a) && RiderAt(s, r, Left(b)) && ArrivalOk(s, a, rideTimes)
    requires a.BoatAnnounce? && MustWake(s.rider) ==> RiderAt(s, a.woken, SleepsOnRider)
    ensures RiderAt(Step(s, a, rideTimes), r, Left(b))
  {
  }

  /** A boat that newly boards carries the visitor that has just left with it. */
  lemma NewBoardingIsNew(s: Harbour, a: Action, rideTimes: seq<int>, b: nat)
    requires Shape(s, rideTimes) && Enabled(s, a) && b < |s.boats|
    requires BoatOk(s, rideTimes, b) && ArrivalOk(s, a, rideTimes)
    requires Step(s, a, rideTimes).boats[b].pc == Boarding && s.boats[b].pc != Boarding
    ensures var c := Step(s, a, rideTimes).boats[b].carrying;
            0 <= c < |s.riders| && !s.riders[c].Left?
    ensures forall x: nat | x < |s.boats| && x != b :: Step(s, a, rideTimes).boats[x] == s.boats[x]
  {
  }

  /** A boat that goes on boarding keeps its visitor. */
  lemma BoardingKeepsVisitor(s: Harbour, a: Action, rideTimes: seq<int>, b: nat)
    requires Shape(s, rideTimes) && Enabled(s, a) && b < |s.boats| && s.boats[b].pc == Boarding
    requires BoatOk(s, rideTimes, b) && ArrivalOk(s, a, rideTimes)
    ensures Step(s, a, rideTimes).boats[b].carrying == s.boats[b].carrying
  {
  }

  lemma StepKeepsBoarding(s: Harbour, a: Action, rideTimes: seq<int>, b: nat)
    requires LocalInv(s, rideTimes) && LogOk(s, rideTimes) && Enabled(s, a) && !a.BoatBoard?
    requires b < |s.boats| && Step(s, a, rideTimes).boats[b].pc == Boarding
    ensures forall i | 0 <= i < |s.log| :: s.log[i].rider != Step(s, a, rideTimes).boats[b].carrying
  {
    ArrivalIsOk(s, a, rideTimes);
    assert BoatOk(s, rideTimes, b);
    if s.boats[b].pc != Boarding {
      NewBoardingIsNew(s, a, rideTimes, b);
      forall i: nat | i < |s.log| ensures s.log[i].rider != Step(s, a, rideTimes).boats[b].carrying {
        assert EntryOk(s, rideTimes, i);
      }
    } else {
      BoardingKeepsVisitor(s, a, rideTimes, b);
    }
  }

  lemma StepKeepsBoardingApart(s: Harbour, a: Action, rideTimes: seq<int>, b: nat, c: nat)
    requires LocalInv(s, rideTimes) && LogOk(s, rideTimes) && Enabled(s, a)
    requires b < c < |s.boats|
    requires Step(s, a, rideTimes).boats[b].pc == Boarding && Step(s, a, rideTimes).boats[c].pc == Boarding
    ensures Step(s, a, rideTimes).boats[b].carrying != Step(s, a, rideTimes).boats[c].carrying
  {
    ArrivalIsOk(s, a, rideTimes);
    assert BoatOk(s, rideTimes, b) && BoatOk(s, rideTimes, c);
    if s.boats[b].pc != Boarding {
      NewBoardingIsNew(s, a, rideTimes, b);
    } else if s.boats[c].pc != Boarding {
      NewBoardingIsNew(s, a, rideTimes, c);
    } else {
      BoardingKeepsVisitor(s, a, rideTimes, b);
      BoardingKeepsVisitor(s, a, rideTimes, c);
    }
  }

  lemma StepKeepsLogEntry(s: Harbour, a: Action, rideTimes: seq<int>, i: nat)
    requires LocalInv(s, rideTimes) && SemaphoresOk(s) && LogOk(s, rideTimes) && Enabled(s, a)
    requires i < |Step(s, a, rideTimes).log|
    ensures Shape(Step(s, a, rideTimes), rideTimes) && EntryOk(Step(s, a, rideTimes), rideTimes, i)
  {
    StepKeepsShape(s, a, rideTimes);
    if i < |s.log| {
      assert EntryOk(s, rideTimes, i);
      WokenSleeps(s, a);
      ArrivalIsOk(s, a, rideTimes);
      LeftStaysLeft(s, a, rideTimes, s.log[i].rider, s.log[i].boat);
    } else {
      assert BoatOk(s, rideTimes, a.b);
    }
  }

  lemma StepKeepsLogDistinct(s: Harbour, a: Action, rideTimes: seq<int>, i: nat, j: nat)
    requires LocalInv(s, rideTimes) && LogOk(s, rideTimes) && Enabled(s, a)
    requires i < j < |Step(s, a, rideTimes).log|
    ensures Step(s, a, rideTimes).log[i].rider != Step(s, a, rideTimes).log[j].rider
  {
    if a.BoatBoard? { assert BoatOk(s, rideTimes, a.b); }
  }

  lemma StepKeepsBoardingOut(s: Harbour, a: Action, rideTimes: seq<int>, i: nat, b: nat)
    requires LocalInv(s, rideTimes) && LogOk(s, rideTimes) && Enabled(s, a) && b < |s.boats|
    requires i < |Step(s, a, rideTimes).log| && Step(s, a, rideTimes).boats[b].pc == Boarding
    ensures Step(s, a, rideTimes).log[i].rider != Step(s, a, rideTimes).boats[b].carrying
  {
    if a.BoatBoard? { assert BoatOk(s, rideTimes, a.b); } else { StepKeepsBoarding(s, a, rideTimes, b); }
  }

  lemma StepKeepsLog(s: Harbour, a: Action, rideTimes: seq<int>)
    requires LocalInv(s, rideTimes) && SemaphoresOk(s) && LogOk(s, rideTimes) && Enabled(s, a)
    ensures LogOk(Step(s, a, rideTimes), rideTimes)
  {
    var t := Step(s, a, rideTimes);
    StepKeepsShape(s, a, rideTimes);
    forall i: nat | i < |t.log| ensures EntryOk(t, rideTimes, i) {
      StepKeepsLogEntry(s, a, rideTimes, i);
    }
    forall i: nat, j: nat | i < j < |t.log| ensures t.log[i].rider != t.log[j].rider {
      StepKeepsLogDistinct(s, a, rideTimes, i, j);
    }
    forall i: nat, b: nat | i < |t.log| && b < |t.boats| && t.boats[b].pc == Boarding
      ensures t.log[i].rider != t.boats[b].carrying
    {
      StepKeepsBoardingOut(s, a, rideTimes, i, b);
    }
    forall b: nat, c: nat | b < c < |t.boats| && t.boats[b].pc == Boarding && t.boats[c].pc == Boarding
      ensures t.boats[b].carrying != t.boats[c].carrying
    {
      StepKeepsBoardingApart(s, a, rideTimes, b, c);
    }
  }

  lemma StepKeepsInvariant(s: Harbour, a: Action, rideTimes: seq<int>)
    requires Inv(s, rideTimes) && Enabled(s, a) && |s.boats| >= 1
    ensures Inv(Step(s, a, rideTimes), rideTimes)
    ensures |Step(s, a, rideTimes).boats| == |s.boats|
  {
    StepKeepsLocal(s, a, rideTimes);
    StepKeepsSemaphores(s, a, rideTimes);
    StepKeepsCounts(s, a, rideTimes);
    StepKeepsPrefix(s, a, rideTimes);
    StepKeepsLog(s, a, rideTimes);
  }

  lemma StartInvariant(m: nat, rideTimes: seq<int>)
    requires m >= 1 && |rideTimes| >= 1
    ensures Inv(Start(m, |rideTimes|), rideTimes)
  {
    var s := Start(m, |rideTimes|);
    CountZero(s.boats, IsFree);
    CountZero(s.boats, IsAnnouncing);
    CountZero(s.boats, InCycle);
    CountZero(s.boats, IsBoarding);
    CountZero(s.boats, PastBarrier);
    CountZero(s.boats, IsAtEnd);
    CountZero(s.riders, IsScanning);
    CountZero(s.riders, HasLeft);
    CountEvery(s.riders, IsSightseeing);
    forall k: nat | k <= m ensures Count(s.boats[k..], IsFree) >= Count(s.riders, Beyond(k)) {
      CountZero(s.riders, Beyond(k));
    }
  }
}
