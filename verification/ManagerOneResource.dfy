/** The condition of ManagerCrossing for a single kind of resource. */
module ManagerOneResource {
  import opened ManagerProtocol
  import opened ManagerDeadlock
  import opened ManagerCrossing

  /** What the first n threads can hold between them while each that can want anything still wants
      one unit more. */
  function Spare(maxima: seq<seq<int>>, n: nat): int
    requires n <= |maxima| && forall t | 0 <= t < |maxima| :: |maxima[t]| == 1
  {
    if n == 0 then 0 else Spare(maxima, n - 1) + if maxima[n - 1][0] >= 1 then maxima[n - 1][0] - 1 else 0
  }

  lemma CapIsSpare(p: Plan, t: nat)
    requires PlanOk(p) && |p.total| == 1 && t < |p.wants|
    ensures Cap(p, t, 0) <= if p.maxima[t][0] >= 1 then p.maxima[t][0] - 1 else 0
    ensures p.wants[t] == (if p.maxima[t][0] >= 1 then 0 else -1) ==>
              Cap(p, t, 0) == if p.maxima[t][0] >= 1 then p.maxima[t][0] - 1 else 0
  {
  }

  lemma {:induction false} RoomIsSpare(p: Plan, n: nat)
    requires PlanOk(p) && |p.total| == 1 && n <= |p.wants|
    ensures Room(p, n, 0) <= Spare(p.maxima, n)
    ensures (forall t | 0 <= t < n :: p.wants[t] == if p.maxima[t][0] >= 1 then 0 else -1) ==>
              Room(p, n, 0) == Spare(p.maxima, n)
  {
    if n > 0 {
      RoomIsSpare(p, n - 1);
      CapIsSpare(p, n - 1);
    }
  }

  function Everybody(total: seq<int>, maxima: seq<seq<int>>): (p: Plan)
    requires forall t | 0 <= t < |maxima| :: |maxima[t]| == 1
    ensures p.total == total && p.maxima == maxima && |p.wants| == |maxima|
    ensures forall t | 0 <= t < |maxima| :: p.wants[t] == if maxima[t][0] >= 1 then 0 else -1
  {
    Plan(total, maxima, seq(|maxima|, t requires 0 <= t < |maxima| => if maxima[t][0] >= 1 then 0 else -1))
  }

  lemma CrossingNeedsSpare(p: Plan)
    requires Crossing(p) && |p.total| == 1
    ensures Spare(p.maxima, |p.maxima|) >= p.total[0]
    ensures exists t :: 0 <= t < |p.maxima| && p.maxima[t][0] >= 1
  {
    var t :| 0 <= t < |p.wants| && p.wants[t] != -1;
    assert Wanted(p, |p.wants|, 0) && p.maxima[t][0] >= 1;
    RoomIsSpare(p, |p.wants|);
  }

  lemma EverybodyIsPlan(total: seq<int>, maxima: seq<seq<int>>)
    requires ValidSystem(total, maxima) && |total| == 1
    ensures PlanOk(Everybody(total, maxima))
  {
  }

  lemma SpareIsRoom(p: Plan)
    requires PlanOk(p) && |p.total| == 1 && p == Everybody(p.total, p.maxima)
    ensures Room(p, |p.wants|, 0) == Spare(p.maxima, |p.maxima|)
  {
    RoomIsSpare(p, |p.wants|);
  }

  lemma EnoughRoom(p: Plan)
    requires PlanOk(p) && |p.total| == 1 && Room(p, |p.wants|, 0) >= p.total[0]
    requires exists t :: 0 <= t < |p.wants| && p.wants[t] != -1
    ensures Crossing(p)
  {
  }

  lemma SpareIsCrossing(total: seq<int>, maxima: seq<seq<int>>)
    requires ValidSystem(total, maxima) && |total| == 1 && Spare(maxima, |maxima|) >= total[0]
    requires exists t :: 0 <= t < |maxima| && maxima[t][0] >= 1
    ensures Crossing(Everybody(total, maxima))
  {
    var p := Everybody(total, maxima);
    EverybodyIsPlan(total, maxima);
    SpareIsRoom(p);
    var t :| 0 <= t < |maxima| && maxima[t][0] >= 1;
    assert p.wants[t] != -1;
    EnoughRoom(p);
  }

  /** The classical bound: one kind of resource is deadlock free exactly if there are fewer units to
      ask for, over one for each thread that asks for any, than there are units. */
  lemma OneResource(total: seq<int>, maxima: seq<seq<int>>)
    requires ValidSystem(total, maxima) && |total| == 1
    ensures CanDeadlock(total, maxima) <==>
      Spare(maxima, |maxima|) >= total[0] && exists t :: 0 <= t < |maxima| && maxima[t][0] >= 1
  {
    DeadlockExactlyWhen(total, maxima);
    if p :| Crossing(p) && p.total == total && p.maxima == maxima { CrossingNeedsSpare(p); }
    if Spare(maxima, |maxima|) >= total[0] && exists t :: 0 <= t < |maxima| && maxima[t][0] >= 1 {
      SpareIsCrossing(total, maxima);
    }
  }

  lemma TwoThreads()
    ensures ValidSystem([2], [[2], [2]]) && Spare([[2], [2]], 2) == 2
  {
    assert Spare([[2], [2]], 0) == 0 && Spare([[2], [2]], 1) == 1;
  }

  lemma OneThread()
    ensures ValidSystem([2], [[2]]) && Spare([[2]], 1) == 1
  {
    assert Spare([[2]], 0) == 0;
  }

  /** Two threads that may each hold both of two units can deadlock ... */
  lemma AllowModeCanDeadlock()
    ensures ValidSystem([2], [[2], [2]]) && CanDeadlock([2], [[2], [2]])
  {
    TwoThreads();
    var maxima := [[2], [2]];
    assert maxima[0][0] >= 1;
    OneResource([2], maxima);
  }

  /** ... and one thread alone cannot. */
  lemma OneThreadCannot()
    ensures ValidSystem([2], [[2]]) && !CanDeadlock([2], [[2]])
  {
    OneThread();
    OneResource([2], [[2]]);
  }
}
