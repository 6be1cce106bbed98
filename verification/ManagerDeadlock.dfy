/** Without avoidance LA8 can deadlock: for which totals and declared maxima some threads following
    valid scripts can end up waiting for each other. */
module ManagerDeadlock {
  import opened Banker
  import opened GrantPass
  import opened ManagerProtocol
  import opened ManagerRuns

  ghost predicate DeadlocksAfter(sys: System, actions: seq<Action>, total: seq<int>)
    requires SystemInv(sys, total, false)
  {
    && ValidRun(sys, actions, total, false)
    && SomeoneThere(After(sys, actions, total, false))
    && !CanStep(After(sys, actions, total, false))
  }

  /** Some threads with these maxima, each following a valid script, can deadlock. */
  ghost predicate CanDeadlock(total: seq<int>, maxima: seq<seq<int>>)
    requires ValidSystem(total, maxima)
  {
    exists scripts, actions ::
      ValidScripts(maxima, scripts) && DeadlocksAfter(Start(total, maxima, scripts, false), actions, total)
  }

  // ----- When the maxima are large enough -----

  /** `wants[t]` is the resource that thread t will wait for, or -1 if t takes no part. */
  datatype Plan = Plan(total: seq<int>, maxima: seq<seq<int>>, wants: seq<int>)

  ghost predicate PlanOk(p: Plan) {
    && ValidSystem(p.total, p.maxima) && |p.wants| == |p.maxima|
    && forall t | 0 <= t < |p.wants| ::
         p.wants[t] == -1 || (0 <= p.wants[t] < |p.total| && p.maxima[t][p.wants[t]] >= 1)
  }

  /** What thread t can hold of resource j and still wait for the resource it wants. */
  ghost function Cap(p: Plan, t: nat, j: nat): (c: int)
    requires PlanOk(p) && t < |p.wants| && j < |p.total|
    ensures 0 <= c <= p.maxima[t][j]
  {
    assert 0 <= p.maxima[t][j] <= p.total[j];
    if p.wants[t] == -1 then 0
    else if p.wants[t] == j then p.maxima[t][j] - 1
    else p.maxima[t][j]
  }

  /** The same for the first n threads together. */
  ghost function Room(p: Plan, n: nat, j: nat): (r: int)
    requires PlanOk(p) && n <= |p.wants| && j < |p.total|
    ensures r >= 0
  {
    if n == 0 then 0 else Room(p, n - 1, j) + Cap(p, n - 1, j)
  }

  ghost predicate Wanted(p: Plan, n: nat, j: nat)
    requires n <= |p.wants|
  {
    exists t :: 0 <= t < n && p.wants[t] == j
  }

  /** Somebody takes part, and those who do can hold between them all units of every resource
      that one of them wants. */
  ghost predicate Crossing(p: Plan) {
    && PlanOk(p)
    && (exists t :: 0 <= t < |p.wants| && p.wants[t] != -1)
    && forall j: nat | j < |p.total| && Wanted(p, |p.wants|, j) :: Room(p, |p.wants|, j) >= p.total[j]
  }

  // ----- A deadlock is a crossing -----

  lemma {:induction false} RunKeepsMaxima(sys: System, actions: seq<Action>, total: seq<int>, avoid: bool)
    requires SystemInv(sys, total, avoid) && ValidRun(sys, actions, total, avoid)
    ensures After(sys, actions, total, avoid).master.tables.max == sys.master.tables.max
    decreases |actions|
  {
    if actions != [] {
      StepKeepsInvariant(sys, actions[0], total, avoid);
      StepKeepsMaxima(sys, actions[0], total, avoid);
      RunKeepsMaxima(Step(sys, actions[0], total, avoid), actions[1..], total, avoid);
    }
  }

  /** Thread t has a queued request for more of resource j than is free. */
  ghost predicate BlockedBy(sys: System, t: nat, j: nat) {
    exists i :: 0 <= i < |sys.master.queue| && BlocksAt(sys, i, t, j)
  }

  ghost predicate BlocksAt(sys: System, i: nat, t: nat, j: nat)
    requires i < |sys.master.queue|
  {
    var r := sys.master.queue[i];
    r.thread == t && j < |r.amount| == |sys.master.tables.avail| && r.amount[j] > sys.master.tables.avail[j]
  }

  lemma StuckWaits(sys: System, t: nat)
    requires !CanStep(sys) && t < |sys.procs| == |sys.master.tables.live| == |sys.master.ready|
    requires PhaseOk(sys, t) && sys.procs[t].phase != Gone
    ensures Waits(sys.master.queue, t)
  {
    assert !Enabled(sys, Send(t)) && !Enabled(sys, Wake(t));
  }

  lemma RefusedIsBlocked(sys: System, i: nat)
    requires Shape(sys.master.tables) && WellFormedQueue(sys.master.tables, sys.master.queue)
    requires i < |sys.master.queue| && !Grantable(sys.master.tables, sys.master.queue[i], false)
    ensures exists j :: BlockedBy(sys, sys.master.queue[i].thread, j)
  {
    var r := sys.master.queue[i];
    var j: nat :| j < |r.amount| && r.amount[j] > sys.master.tables.avail[j];
    assert BlocksAt(sys, i, r.thread, j);
    assert BlockedBy(sys, r.thread, j);
  }

  lemma StuckIsBlocked(sys: System, total: seq<int>, t: nat)
    requires SystemInv(sys, total, false) && !CanStep(sys)
    requires t < |sys.procs| && sys.procs[t].phase != Gone
    ensures exists j :: BlockedBy(sys, t, j)
  {
    assert PhaseOk(sys, t);
    StuckWaits(sys, t);
    var i :| 0 <= i < |sys.master.queue| && sys.master.queue[i].thread == t;
    RefusedIsBlocked(sys, i);
  }

  lemma BlockedLeavesRoom(sys: System, total: seq<int>, t: nat, j: nat)
    requires SystemInv(sys, total, false) && BlockedBy(sys, t, j)
    ensures var s := sys.master.tables;
            t < |s.live| && j < |s.avail| && s.alloc[t][j] + s.avail[j] + 1 <= s.max[t][j]
  {
    var i :| 0 <= i < |sys.master.queue| && BlocksAt(sys, i, t, j);
    assert WithinMaximum(sys.master.tables, sys.master.queue[i]);
  }

  ghost function Blocker(sys: System, t: nat): (j: nat)
    requires exists j :: BlockedBy(sys, t, j)
    ensures BlockedBy(sys, t, j)
  {
    var j :| BlockedBy(sys, t, j); j
  }

  /** Who waits for what in a stuck state. */
  ghost function PlanOf(sys: System, total: seq<int>): (p: Plan)
    requires forall t: nat | t < |sys.procs| && sys.procs[t].phase != Gone :: exists j :: BlockedBy(sys, t, j)
    ensures p.total == total && p.maxima == sys.master.tables.max && |p.wants| == |sys.procs|
    ensures forall t: nat | t < |sys.procs| ::
      if sys.procs[t].phase == Gone then p.wants[t] == -1 else p.wants[t] >= 0 && BlockedBy(sys, t, p.wants[t])
  {
    Plan(total, sys.master.tables.max,
         seq(|sys.procs|, t requires 0 <= t < |sys.procs| =>
               if sys.procs[t].phase == Gone then -1 else Blocker(sys, t)))
  }

  ghost predicate Follows(sys: System, total: seq<int>, p: Plan) {
    && SystemInv(sys, total, false) && PlanOk(p)
    && p.total == total && p.maxima == sys.master.tables.max && |p.wants| == |sys.procs|
    && forall t: nat | t < |sys.procs| ::
         if sys.procs[t].phase == Gone then p.wants[t] == -1 else p.wants[t] >= 0 && BlockedBy(sys, t, p.wants[t])
  }

  /** A waiting thread leaves out one unit more than is free of what it waits for. */
  lemma HeldIsBelowCap(sys: System, total: seq<int>, p: Plan, t: nat, j: nat)
    requires Follows(sys, total, p) && t < |p.wants| && j < |total|
    ensures sys.master.tables.alloc[t][j] <= Cap(p, t, j) - if p.wants[t] == j then sys.master.tables.avail[j] else 0
  {
    assert PhaseOk(sys, t);
    if sys.procs[t].phase != Gone { BlockedLeavesRoom(sys, total, t, p.wants[t]); }
  }

  /** Where `free` units are left. */
  lemma {:induction false} HeldIsBelowRoom(p: Plan, alloc: seq<seq<int>>, free: int, n: nat, j: nat)
    requires PlanOk(p) && n <= |p.wants| == |alloc| && j < |p.total| && free >= 0
    requires forall t | 0 <= t < |alloc| :: j < |alloc[t]|
    requires forall t: nat | t < |alloc| :: alloc[t][j] <= Cap(p, t, j) - if p.wants[t] == j then free else 0
    ensures Held(alloc, Below(|alloc|), n, j) <= Room(p, n, j) - if Wanted(p, n, j) then free else 0
  {
    if n > 0 {
      HeldIsBelowRoom(p, alloc, free, n - 1, j);
      assert alloc[n - 1][j] <= Cap(p, n - 1, j) - if p.wants[n - 1] == j then free else 0;
      if Wanted(p, n, j) && p.wants[n - 1] != j { assert Wanted(p, n - 1, j); }
    }
  }

  lemma WantedHasRoom(sys: System, total: seq<int>, p: Plan, j: nat)
    requires Follows(sys, total, p) && j < |total| && Wanted(p, |p.wants|, j)
    ensures Room(p, |p.wants|, j) >= total[j]
  {
    var s := sys.master.tables;
    forall t: nat | t < |s.alloc|
      ensures s.alloc[t][j] <= Cap(p, t, j) - if p.wants[t] == j then s.avail[j] else 0
    {
      HeldIsBelowCap(sys, total, p, t, j);
    }
    HeldIsBelowRoom(p, s.alloc, s.avail[j], |p.wants|, j);
    assert Total(s, j) == total[j];
  }

  lemma StuckFollowsPlan(sys: System, total: seq<int>) returns (p: Plan)
    requires SystemInv(sys, total, false) && !CanStep(sys) && ValidSystem(total, sys.master.tables.max)
    ensures Follows(sys, total, p)
  {
    forall t: nat | t < |sys.procs| && sys.procs[t].phase != Gone ensures exists j :: BlockedBy(sys, t, j) {
      StuckIsBlocked(sys, total, t);
    }
    p := PlanOf(sys, total);
    forall t: nat | t < |sys.procs| && p.wants[t] != -1
      ensures p.wants[t] < |total| && p.maxima[t][p.wants[t]] >= 1
    {
      BlockedLeavesRoom(sys, total, t, p.wants[t]);
    }
  }

  lemma FollowedIsCrossing(sys: System, total: seq<int>, p: Plan)
    requires Follows(sys, total, p) && SomeoneThere(sys)
    ensures Crossing(p)
  {
    forall j: nat | j < |total| && Wanted(p, |p.wants|, j) ensures Room(p, |p.wants|, j) >= total[j] {
      WantedHasRoom(sys, total, p, j);
    }
    var t: nat :| t < |sys.procs| && sys.procs[t].phase != Gone;
    assert p.wants[t] != -1;
  }

  /** Whoever waits in a deadlock stands in a crossing. */
  lemma DeadlockIsCrossing(sys: System, total: seq<int>)
    requires SystemInv(sys, total, false) && SomeoneThere(sys) && !CanStep(sys)
    requires ValidSystem(total, sys.master.tables.max)
    ensures exists p :: Crossing(p) && p.total == total && p.maxima == sys.master.tables.max
  {
    var p := StuckFollowsPlan(sys, total);
    FollowedIsCrossing(sys, total, p);
  }
}
