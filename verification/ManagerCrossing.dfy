/** Every crossing of ManagerDeadlock is reached: the threads that take no part exit, the others
    take in turn what they can hold, until nothing is left of the resources that they want, and
    then each asks for one unit more. */
module ManagerCrossing {
  import opened Banker
  import opened GrantPass
  import opened ManagerProtocol
  import opened ManagerRuns
  import opened ManagerDeadlock

  // ----- The four messages that occur -----

  lemma NobodySignalled(ready: seq<bool>)
    ensures SetReady(ready, []) == ready
  {
  }

  /** Everything asked for is free and nobody waits: the request is granted at once. */
  lemma AskServed(ms: MasterState, t: nat, v: seq<int>)
    requires Legitimate(ms, Additional(t, v)) && ms.queue == [] && |ms.ready| == |ms.tables.live|
    requires NonNegative(v) && Fits(ms.tables, Request(t, v))
    ensures OnMessage(ms, Additional(t, v), false)
         == MasterState(Grant(ms.tables, Request(t, v)), [], ms.ready[t := true])
  {
    var r := Request(t, v);
    NothingGivenBack(ms, t, v);
    assert ms.queue + [r] == [r];
    PassGrantsOne(ms.tables, r);
    SignalledOne(ms.ready, r);
  }

  lemma PassGrantsOne(s: State, r: Request)
    requires Shape(s) && WellFormedRequest(s, r) && NonNegative(r.amount) && Fits(s, r)
    ensures WellFormedQueue(s, [r]) && Pass(s, [r], false) == Outcome(Grant(s, r), [], [r])
  {
    assert [r][1..] == [];
  }

  lemma SignalledOne(ready: seq<bool>, r: Request)
    requires r.thread < |ready|
    ensures SetReady(ready, [r]) == ready[r.thread := true]
  {
    assert [r][0].thread == r.thread;
  }

  /** A request without negative components goes to the queue as it is. */
  lemma NothingGivenBack(ms: MasterState, t: nat, v: seq<int>)
    requires Legitimate(ms, Additional(t, v)) && NonNegative(v)
    ensures Update(ms, Additional(t, v)) == ms.(queue := ms.queue + [Request(t, v)])
    ensures SomeoneLive(ms.tables)
  {
    assert Positive(v) == v;
    GrantNothing(ms.tables, Request(t, Negative(v)));
  }

  lemma GrantNothing(s: State, r: Request)
    requires Shape(s) && WellFormedRequest(s, r) && forall j | 0 <= j < |r.amount| :: r.amount[j] == 0
    ensures Grant(s, r) == s
  {
    assert Minus(s.avail, r.amount) == s.avail;
    assert Plus(s.alloc[r.thread], r.amount) == s.alloc[r.thread];
    assert s.alloc[r.thread := s.alloc[r.thread]] == s.alloc;
  }

  /** Too little is free: the request joins the others that cannot be granted. */
  lemma AskQueued(ms: MasterState, t: nat, v: seq<int>)
    requires Legitimate(ms, Additional(t, v)) && NonNegative(v) && !Fits(ms.tables, Request(t, v))
    requires WellFormedQueue(ms.tables, ms.queue) && AllRefused(ms.tables, ms.queue, false)
    ensures OnMessage(ms, Additional(t, v), false) == ms.(queue := ms.queue + [Request(t, v)])
  {
    NothingGivenBack(ms, t, v);
    PassOverRefused(ms.tables, ms.queue + [Request(t, v)], false);
    NobodySignalled(ms.ready);
  }

  /** Giving back nothing changes nothing. */
  lemma NothingReleased(ms: MasterState, t: nat, v: seq<int>)
    requires Legitimate(ms, Release(t, v)) && ms.queue == [] && forall j | 0 <= j < |v| :: v[j] == 0
    ensures OnMessage(ms, Release(t, v), false) == ms
  {
    GrantNothing(ms.tables, Request(t, v));
    NobodySignalled(ms.ready);
  }

  lemma NothingReturned(ms: MasterState, t: nat)
    requires Legitimate(ms, Exit(t)) && ms.queue == []
    requires forall j | 0 <= j < |ms.tables.avail| :: ms.tables.alloc[t][j] == 0
    ensures OnMessage(ms, Exit(t), false) == ms.(tables := ms.tables.(live := ms.tables.live[t := false]))
  {
    var s := ms.tables;
    assert Plus(s.avail, s.alloc[t]) == s.avail;
    assert seq(|s.avail|, j => 0) == s.alloc[t];
    assert s.alloc[t := s.alloc[t]] == s.alloc;
    NobodySignalled(ms.ready);
  }

  // ----- Who holds what -----

  /** Units of resource j that the first n threads hold when each has taken what it can. */
  ghost function Taken(p: Plan, n: nat, j: nat): (k: int)
    requires PlanOk(p) && n <= |p.wants| && j < |p.total|
    ensures 0 <= k <= p.total[j]
  {
    assert p.total[j] >= 0;
    if !Wanted(p, |p.wants|, j) then 0
    else if Room(p, n, j) < p.total[j] then Room(p, n, j)
    else p.total[j]
  }

  ghost function Share(p: Plan, t: nat, j: nat): (k: int)
    requires PlanOk(p) && t < |p.wants| && j < |p.total|
    ensures 0 <= k <= Cap(p, t, j)
  {
    Taken(p, t + 1, j) - Taken(p, t, j)
  }

  ghost function Shares(p: Plan, t: nat): (v: seq<int>)
    requires PlanOk(p) && t < |p.wants|
    ensures |v| == |p.total| && forall j: nat | j < |v| :: v[j] == Share(p, t, j)
  {
    seq(|p.total|, j requires 0 <= j < |p.total| => Share(p, t, j))
  }

  ghost function Unit(p: Plan, t: nat): (v: seq<int>)
    requires PlanOk(p) && t < |p.wants|
    ensures |v| == |p.total| && forall j: nat | j < |v| :: v[j] == if p.wants[t] == j then 1 else 0
  {
    seq(|p.total|, j requires 0 <= j => if p.wants[t] == j then 1 else 0)
  }

  ghost function Script(p: Plan, t: nat): seq<seq<int>>
    requires PlanOk(p) && t < |p.wants|
  {
    if p.wants[t] == -1 then [] else [Shares(p, t), Unit(p, t)]
  }

  lemma ScriptIsValid(p: Plan, t: nat)
    requires PlanOk(p) && t < |p.wants|
    ensures ValidScript(Script(p, t), p.maxima[t])
  {
    var script := Script(p, t);
    forall k: nat, j: nat | k <= |script| && j < |p.total| ensures 0 <= Balance(script, k, j) <= p.maxima[t][j] {
      assert 0 <= p.maxima[t][j] <= p.total[j];
      if k == 1 {
        assert Balance(script, 0, j) == 0 && Balance(script, 1, j) == Share(p, t, j);
      } else if k == 2 {
        assert Balance(script, 0, j) == 0 && Balance(script, 1, j) == Share(p, t, j);
        assert Balance(script, 2, j) == Share(p, t, j) + Unit(p, t)[j];
      }
    }
  }

  ghost function Scripts(p: Plan): (scripts: seq<seq<seq<int>>>)
    requires PlanOk(p)
    ensures |scripts| == |p.wants| && forall t: nat | t < |scripts| :: scripts[t] == Script(p, t)
  {
    seq(|p.wants|, t requires 0 <= t < |p.wants| => Script(p, t))
  }

  lemma ScriptsAreValid(p: Plan)
    requires PlanOk(p)
    ensures ValidScripts(p.maxima, Scripts(p))
  {
    forall t | 0 <= t < |p.wants| ensures ValidScript(Scripts(p)[t], p.maxima[t]) {
      ScriptIsValid(p, t);
    }
  }

  // ----- The states on the way -----

  /** The first `gone` threads without a part have exited, the first `served` hold their shares, and
      the first `asked` wait for their unit. */
  datatype Mark = Mark(gone: nat, served: nat, asked: nat)

  /** What is free once `served` threads have taken their shares. */
  ghost predicate FreeAt(p: Plan, served: nat, avail: seq<int>)
    requires PlanOk(p) && served <= |p.wants|
  {
    |avail| == |p.total| && forall j: nat | j < |avail| :: avail[j] == p.total[j] - Taken(p, served, j)
  }

  ghost function ProcAt(p: Plan, m: Mark, t: nat): Proc
    requires PlanOk(p) && t < |p.wants|
  {
    if p.wants[t] == -1 then Proc(Script(p, t), 0, if t < m.gone then Gone else Computing)
    else if t < m.asked then Proc(Script(p, t), 2, Waiting)
    else Proc(Script(p, t), if t < m.served then 1 else 0, Computing)
  }

  ghost predicate ProcsAt(p: Plan, m: Mark, sys: System)
    requires PlanOk(p)
  {
    && |sys.procs| == |sys.master.ready| == |p.wants|
    && (forall t: nat | t < |p.wants| :: sys.procs[t] == ProcAt(p, m, t) && !sys.master.ready[t])
    && (m.asked == 0 ==> sys.master.queue == [])
  }

  ghost predicate Reached(p: Plan, m: Mark, sys: System) {
    && PlanOk(p) && m.served <= |p.wants| && SystemInv(sys, p.total, false)
    && FreeAt(p, m.served, sys.master.tables.avail) && ProcsAt(p, m, sys)
  }

  lemma BeginsAt(p: Plan)
    requires PlanOk(p)
    ensures ValidScripts(p.maxima, Scripts(p))
    ensures Reached(p, Mark(0, 0, 0), Start(p.total, p.maxima, Scripts(p), false))
  {
    ScriptsAreValid(p);
  }

  ghost predicate Deadlocks(p: Plan, sys: System) {
    SystemInv(sys, p.total, false) && exists actions :: DeadlocksAfter(sys, actions, p.total)
  }

  lemma StepsBack(p: Plan, sys: System, a: Action)
    requires SystemInv(sys, p.total, false) && Enabled(sys, a)
    ensures SystemInv(Step(sys, a, p.total, false), p.total, false)
    ensures Deadlocks(p, Step(sys, a, p.total, false)) ==> Deadlocks(p, sys)
  {
    StepKeepsInvariant(sys, a, p.total, false);
    var next := Step(sys, a, p.total, false);
    if Deadlocks(p, next) {
      var actions :| DeadlocksAfter(next, actions, p.total);
      assert ([a] + actions)[1..] == actions;
      assert DeadlocksAfter(sys, [a] + actions, p.total);
    }
  }

  // ----- Those without a part leave -----

  /** A thread at the start of its script holds nothing. */
  lemma NothingHeld(sys: System, total: seq<int>, n: nat)
    requires SystemInv(sys, total, false) && n < |sys.procs|
    requires sys.procs[n].phase == Computing && sys.procs[n].pos == 0
    ensures forall j | 0 <= j < |sys.master.tables.avail| :: sys.master.tables.alloc[n][j] == 0
  {
    assert PhaseOk(sys, n) && OnSchedule(sys, n);
    forall j: nat | j < |sys.master.tables.avail| ensures sys.master.tables.alloc[n][j] == 0 {
      PendingNone(sys.master.queue, n, j);
    }
  }

  lemma ExitedStep(sys: System, total: seq<int>, n: nat)
    requires SystemInv(sys, total, false) && Enabled(sys, Send(n)) && sys.master.queue == []
    requires sys.procs[n].script == [] && sys.procs[n].pos == 0
    ensures var next := Step(sys, Send(n), total, false);
      && next.master.queue == [] && next.master.ready == sys.master.ready
      && next.master.tables.avail == sys.master.tables.avail
      && next.procs == sys.procs[n := sys.procs[n].(phase := Gone)]
  {
    SendIsLegitimate(sys, n, total, false);
    NothingHeld(sys, total, n);
    NothingReturned(sys.master, n);
  }

  lemma GoneProcs(p: Plan, n: nat, sys: System, next: System)
    requires PlanOk(p) && n < |p.wants| && p.wants[n] == -1 && ProcsAt(p, Mark(n, 0, 0), sys)
    requires next.master.queue == [] && next.master.ready == sys.master.ready
    requires next.procs == sys.procs[n := Proc([], 0, Gone)]
    ensures ProcsAt(p, Mark(n + 1, 0, 0), next)
  {
    forall t: nat | t < |p.wants| ensures next.procs[t] == ProcAt(p, Mark(n + 1, 0, 0), t) {
      assert sys.procs[t] == ProcAt(p, Mark(n, 0, 0), t);
    }
  }

  lemma ExitStep(p: Plan, n: nat, sys: System) returns (next: System)
    requires n < |p.wants| && Reached(p, Mark(n, 0, 0), sys) && p.wants[n] == -1
    ensures Reached(p, Mark(n + 1, 0, 0), next) && (Deadlocks(p, next) ==> Deadlocks(p, sys))
  {
    assert sys.procs[n] == ProcAt(p, Mark(n, 0, 0), n);
    ExitedStep(sys, p.total, n);
    StepsBack(p, sys, Send(n));
    next := Step(sys, Send(n), p.total, false);
    GoneProcs(p, n, sys, next);
  }

  lemma Remains(p: Plan, n: nat, sys: System)
    requires PlanOk(p) && n < |p.wants| && p.wants[n] != -1 && ProcsAt(p, Mark(n, 0, 0), sys)
    ensures ProcsAt(p, Mark(n + 1, 0, 0), sys)
  {
    forall t: nat | t < |p.wants| ensures ProcAt(p, Mark(n + 1, 0, 0), t) == ProcAt(p, Mark(n, 0, 0), t) {
    }
  }

  lemma {:induction false} AllLeave(p: Plan, n: nat, sys: System) returns (last: System)
    requires PlanOk(p) && n <= |p.wants| && Reached(p, Mark(n, 0, 0), sys)
    ensures Reached(p, Serving(p, 0), last) && (Deadlocks(p, last) ==> Deadlocks(p, sys))
    decreases |p.wants| - n
  {
    if n == |p.wants| {
      last := sys;
    } else if p.wants[n] == -1 {
      var next := ExitStep(p, n, sys);
      last := AllLeave(p, n + 1, next);
    } else {
      Remains(p, n, sys);
      last := AllLeave(p, n + 1, sys);
    }
  }

  // ----- The others take their shares -----

  function Serving(p: Plan, n: nat): Mark {
    Mark(|p.wants|, n, 0)
  }

  lemma ShareGranted(p: Plan, n: nat, avail: seq<int>)
    requires PlanOk(p) && n < |p.wants| && FreeAt(p, n, avail)
    ensures FreeAt(p, n + 1, Minus(avail, Shares(p, n)))
  {
    forall j: nat | j < |p.total| ensures Shares(p, n)[j] == Taken(p, n + 1, j) - Taken(p, n, j) {
    }
  }

  lemma FirstLine(p: Plan, n: nat)
    requires PlanOk(p) && n < |p.wants| && p.wants[n] != -1
    ensures var q, some := ProcAt(p, Serving(p, n), n), SomePositive(Shares(p, n));
      && NextMessage(n, q) == (if some then Additional(n, Shares(p, n)) else Release(n, Shares(p, n)))
      && Sent(q) == Proc(Script(p, n), 1, if some then Waiting else Computing)
  {
  }

  lemma ShareFits(p: Plan, n: nat, s: State)
    requires PlanOk(p) && n < |p.wants| && FreeAt(p, n, s.avail)
    ensures NonNegative(Shares(p, n)) && Fits(s, Request(n, Shares(p, n)))
  {
    forall j: nat | j < |p.total| ensures 0 <= Shares(p, n)[j] <= s.avail[j] {
      assert Taken(p, n + 1, j) <= p.total[j];
    }
  }

  lemma AskServedStep(sys: System, total: seq<int>, n: nat, v: seq<int>)
    requires SystemInv(sys, total, false) && Enabled(sys, Send(n)) && NextMessage(n, sys.procs[n]) == Additional(n, v)
    requires NonNegative(v) && |v| == |sys.master.tables.avail| && Fits(sys.master.tables, Request(n, v))
    requires sys.master.queue == []
    ensures var next := Step(sys, Send(n), total, false);
      && next.master == MasterState(Grant(sys.master.tables, Request(n, v)), [], sys.master.ready[n := true])
      && next.procs == sys.procs[n := Sent(sys.procs[n])]
  {
    SendIsLegitimate(sys, n, total, false);
    AskServed(sys.master, n, v);
  }

  lemma ReleasedStep(sys: System, total: seq<int>, n: nat, v: seq<int>)
    requires SystemInv(sys, total, false) && Enabled(sys, Send(n)) && NextMessage(n, sys.procs[n]) == Release(n, v)
    requires |v| == |sys.master.tables.avail| && (forall j | 0 <= j < |v| :: v[j] == 0) && sys.master.queue == []
    ensures var next := Step(sys, Send(n), total, false);
      next.master == sys.master && next.procs == sys.procs[n := Sent(sys.procs[n])]
  {
    SendIsLegitimate(sys, n, total, false);
    NothingReleased(sys.master, n, v);
  }

  /** Thread n goes on to its next line, the others stay where they are. */
  lemma ServedProcs(p: Plan, n: nat, sys: System, next: System)
    requires PlanOk(p) && n < |p.wants| && p.wants[n] != -1 && ProcsAt(p, Serving(p, n), sys)
    requires next.master.queue == [] && next.master.ready == sys.master.ready
    requires next.procs == sys.procs[n := Proc(Script(p, n), 1, Computing)]
    ensures ProcsAt(p, Serving(p, n + 1), next)
  {
    forall t: nat | t < |p.wants| ensures next.procs[t] == ProcAt(p, Serving(p, n + 1), t) {
      assert sys.procs[t] == ProcAt(p, Serving(p, n), t);
    }
  }

  /** Served and woken, thread n goes on to its next line. */
  lemma WokenProcs(p: Plan, n: nat, sys: System, mid: System)
    requires PlanOk(p) && n < |p.wants| && p.wants[n] != -1 && ProcsAt(p, Serving(p, n), sys)
    requires mid.master.queue == [] && mid.master.ready == sys.master.ready[n := true]
    requires mid.procs == sys.procs[n := Proc(Script(p, n), 1, Waiting)]
    ensures ProcsAt(p, Serving(p, n + 1),
                    System(mid.master.(ready := mid.master.ready[n := false]),
                           mid.procs[n := mid.procs[n].(phase := Computing)]))
  {
    var next := System(mid.master.(ready := mid.master.ready[n := false]),
                       mid.procs[n := mid.procs[n].(phase := Computing)]);
    assert next.master.ready == sys.master.ready;
    ServedProcs(p, n, sys, next);
  }

  /** The next thread asks for its share, gets it and goes on. */
  lemma ShareStep(p: Plan, n: nat, sys: System) returns (next: System)
    requires n < |p.wants| && Reached(p, Serving(p, n), sys) && p.wants[n] != -1 && SomePositive(Shares(p, n))
    ensures Reached(p, Serving(p, n + 1), next) && (Deadlocks(p, next) ==> Deadlocks(p, sys))
  {
    assert sys.procs[n] == ProcAt(p, Serving(p, n), n);
    FirstLine(p, n);
    ShareFits(p, n, sys.master.tables);
    AskServedStep(sys, p.total, n, Shares(p, n));
    ShareGranted(p, n, sys.master.tables.avail);
    StepsBack(p, sys, Send(n));
    var mid := Step(sys, Send(n), p.total, false);
    WokenProcs(p, n, sys, mid);
    next := WakeStep(p, n, mid);
  }

  lemma WakeStep(p: Plan, n: nat, mid: System) returns (next: System)
    requires PlanOk(p) && n < |p.wants| && SystemInv(mid, p.total, false) && Enabled(mid, Wake(n))
    requires FreeAt(p, n + 1, mid.master.tables.avail)
    requires ProcsAt(p, Serving(p, n + 1),
                     System(mid.master.(ready := mid.master.ready[n := false]),
                            mid.procs[n := mid.procs[n].(phase := Computing)]))
    ensures Reached(p, Serving(p, n + 1), next) && (Deadlocks(p, next) ==> Deadlocks(p, mid))
  {
    StepsBack(p, mid, Wake(n));
    next := Step(mid, Wake(n), p.total, false);
  }

  lemma EmptyShare(p: Plan, n: nat)
    requires PlanOk(p) && n < |p.wants| && !SomePositive(Shares(p, n))
    ensures forall j: nat | j < |p.total| :: Shares(p, n)[j] == 0
  {
    forall j: nat | j < |p.total| ensures Shares(p, n)[j] == 0 {
      assert !(Shares(p, n)[j] > 0);
    }
  }

  lemma NothingTaken(p: Plan, n: nat, avail: seq<int>)
    requires PlanOk(p) && n < |p.wants| && FreeAt(p, n, avail)
    requires forall j: nat | j < |p.total| :: Shares(p, n)[j] == 0
    ensures FreeAt(p, n + 1, avail)
  {
    ShareGranted(p, n, avail);
    assert Minus(avail, Shares(p, n)) == avail;
  }

  /** A thread whose share is empty says so and goes on. */
  lemma EmptyShareStep(p: Plan, n: nat, sys: System) returns (next: System)
    requires n < |p.wants| && Reached(p, Serving(p, n), sys) && p.wants[n] != -1 && !SomePositive(Shares(p, n))
    ensures Reached(p, Serving(p, n + 1), next) && (Deadlocks(p, next) ==> Deadlocks(p, sys))
  {
    assert sys.procs[n] == ProcAt(p, Serving(p, n), n);
    FirstLine(p, n);
    EmptyShare(p, n);
    ReleasedStep(sys, p.total, n, Shares(p, n));
    NothingTaken(p, n, sys.master.tables.avail);
    StepsBack(p, sys, Send(n));
    next := Step(sys, Send(n), p.total, false);
    ServedProcs(p, n, sys, next);
  }

  lemma NoShare(p: Plan, n: nat)
    requires PlanOk(p) && n < |p.wants| && p.wants[n] == -1
    ensures forall j: nat | j < |p.total| :: Shares(p, n)[j] == 0
  {
    forall j: nat | j < |p.total| ensures Shares(p, n)[j] == 0 {
      assert Cap(p, n, j) == 0;
    }
  }

  lemma PassedBy(p: Plan, n: nat, sys: System)
    requires PlanOk(p) && n < |p.wants| && p.wants[n] == -1 && ProcsAt(p, Serving(p, n), sys)
    ensures ProcsAt(p, Serving(p, n + 1), sys)
  {
    forall t: nat | t < |p.wants| ensures ProcAt(p, Serving(p, n + 1), t) == ProcAt(p, Serving(p, n), t) {
    }
  }

  lemma TakeStep(p: Plan, n: nat, sys: System) returns (next: System)
    requires n < |p.wants| && Reached(p, Serving(p, n), sys)
    ensures Reached(p, Serving(p, n + 1), next) && (Deadlocks(p, next) ==> Deadlocks(p, sys))
  {
    if p.wants[n] == -1 {
      NoShare(p, n);
      NothingTaken(p, n, sys.master.tables.avail);
      PassedBy(p, n, sys);
      next := sys;
    } else if SomePositive(Shares(p, n)) {
      next := ShareStep(p, n, sys);
    } else {
      next := EmptyShareStep(p, n, sys);
    }
  }

  lemma {:induction false} AllTake(p: Plan, n: nat, sys: System) returns (last: System)
    requires n <= |p.wants| && Reached(p, Serving(p, n), sys)
    ensures Reached(p, Asking(p, 0), last) && (Deadlocks(p, last) ==> Deadlocks(p, sys))
    decreases |p.wants| - n
  {
    if n == |p.wants| {
      last := sys;
    } else {
      var next := TakeStep(p, n, sys);
      last := AllTake(p, n + 1, next);
    }
  }

  // ----- Each asks for one unit more -----

  function Asking(p: Plan, n: nat): Mark {
    Mark(|p.wants|, |p.wants|, n)
  }

  /** Nothing is left of what anybody wants. */
  lemma WantedIsGone(p: Plan, t: nat, s: State)
    requires Crossing(p) && t < |p.wants| && p.wants[t] != -1 && FreeAt(p, |p.wants|, s.avail)
    ensures !Fits(s, Request(t, Unit(p, t)))
  {
    var j: nat := p.wants[t];
    assert Wanted(p, |p.wants|, j);
    assert Taken(p, |p.wants|, j) == p.total[j];
    assert !(Unit(p, t)[j] <= s.avail[j]);
  }

  lemma LastLine(p: Plan, n: nat)
    requires PlanOk(p) && n < |p.wants| && p.wants[n] != -1
    ensures var q := ProcAt(p, Asking(p, n), n);
      NextMessage(n, q) == Additional(n, Unit(p, n)) && Sent(q) == Proc(Script(p, n), 2, Waiting)
  {
    assert Unit(p, n)[p.wants[n]] > 0;
  }

  lemma QueueIsRefused(sys: System, total: seq<int>)
    requires SystemInv(sys, total, false)
    ensures WellFormedQueue(sys.master.tables, sys.master.queue)
    ensures AllRefused(sys.master.tables, sys.master.queue, false)
  {
  }

  lemma AskQueuedStep(sys: System, total: seq<int>, n: nat, v: seq<int>)
    requires SystemInv(sys, total, false) && Enabled(sys, Send(n)) && NextMessage(n, sys.procs[n]) == Additional(n, v)
    requires NonNegative(v) && |v| == |sys.master.tables.avail| && !Fits(sys.master.tables, Request(n, v))
    ensures var next := Step(sys, Send(n), total, false);
      && next.master.tables == sys.master.tables && next.master.ready == sys.master.ready
      && next.procs == sys.procs[n := Sent(sys.procs[n])]
  {
    SendIsLegitimate(sys, n, total, false);
    QueueIsRefused(sys, total);
    AskQueued(sys.master, n, v);
  }

  lemma AskedProcs(p: Plan, n: nat, sys: System, next: System)
    requires PlanOk(p) && n < |p.wants| && p.wants[n] != -1 && ProcsAt(p, Asking(p, n), sys)
    requires next.master.ready == sys.master.ready && next.procs == sys.procs[n := Proc(Script(p, n), 2, Waiting)]
    ensures ProcsAt(p, Asking(p, n + 1), next)
  {
    forall t: nat | t < |p.wants| ensures next.procs[t] == ProcAt(p, Asking(p, n + 1), t) {
      assert sys.procs[t] == ProcAt(p, Asking(p, n), t);
    }
  }

  /** The next thread asks for a unit that is not there. */
  lemma QuestionStep(p: Plan, n: nat, sys: System) returns (next: System)
    requires n < |p.wants| && Reached(p, Asking(p, n), sys) && p.wants[n] != -1
    requires !Fits(sys.master.tables, Request(n, Unit(p, n)))
    ensures Reached(p, Asking(p, n + 1), next) && (Deadlocks(p, next) ==> Deadlocks(p, sys))
  {
    assert sys.procs[n] == ProcAt(p, Asking(p, n), n);
    LastLine(p, n);
    AskQueuedStep(sys, p.total, n, Unit(p, n));
    StepsBack(p, sys, Send(n));
    next := Step(sys, Send(n), p.total, false);
    AskedProcs(p, n, sys, next);
  }

  lemma NotAsking(p: Plan, n: nat, sys: System)
    requires PlanOk(p) && n < |p.wants| && p.wants[n] == -1 && ProcsAt(p, Asking(p, n), sys)
    ensures ProcsAt(p, Asking(p, n + 1), sys)
  {
    forall t: nat | t < |p.wants| ensures ProcAt(p, Asking(p, n + 1), t) == ProcAt(p, Asking(p, n), t) {
    }
  }

  lemma AskStep(p: Plan, n: nat, sys: System) returns (next: System)
    requires Crossing(p) && n < |p.wants| && Reached(p, Asking(p, n), sys)
    ensures Reached(p, Asking(p, n + 1), next) && (Deadlocks(p, next) ==> Deadlocks(p, sys))
  {
    if p.wants[n] == -1 {
      NotAsking(p, n, sys);
      next := sys;
    } else {
      WantedIsGone(p, n, sys.master.tables);
      next := QuestionStep(p, n, sys);
    }
  }

  lemma NobodyMoves(p: Plan, sys: System)
    requires Crossing(p) && ProcsAt(p, Asking(p, |p.wants|), sys)
    ensures SomeoneThere(sys) && !CanStep(sys)
  {
    var t :| 0 <= t < |p.wants| && p.wants[t] != -1;
    assert sys.procs[t] == ProcAt(p, Asking(p, |p.wants|), t);
    assert sys.procs[t].phase != Gone;
    forall a: Action ensures !Enabled(sys, a) {
      if a.t < |p.wants| { assert sys.procs[a.t] == ProcAt(p, Asking(p, |p.wants|), a.t); }
    }
  }

  lemma EndOfRun(sys: System, total: seq<int>)
    requires SystemInv(sys, total, false) && SomeoneThere(sys) && !CanStep(sys)
    ensures DeadlocksAfter(sys, [], total)
  {
  }

  lemma {:induction false} AllAsk(p: Plan, n: nat, sys: System)
    requires Crossing(p) && n <= |p.wants| && Reached(p, Asking(p, n), sys)
    ensures Deadlocks(p, sys)
    decreases |p.wants| - n
  {
    if n == |p.wants| {
      NobodyMoves(p, sys);
      EndOfRun(sys, p.total);
    } else {
      var next := AskStep(p, n, sys);
      AllAsk(p, n + 1, next);
    }
  }

  lemma CrossingDeadlocks(p: Plan)
    requires Crossing(p)
    ensures CanDeadlock(p.total, p.maxima)
  {
    BeginsAt(p);
    var sys := AllLeave(p, 0, Start(p.total, p.maxima, Scripts(p), false));
    sys := AllTake(p, 0, sys);
    AllAsk(p, 0, sys);
  }

  // ----- The theorem -----

  lemma DeadlockedRunIsCrossing(total: seq<int>, maxima: seq<seq<int>>, scripts: seq<seq<seq<int>>>,
                                actions: seq<Action>)
    requires ValidSystem(total, maxima) && ValidScripts(maxima, scripts)
    requires DeadlocksAfter(Start(total, maxima, scripts, false), actions, total)
    ensures exists p :: Crossing(p) && p.total == total && p.maxima == maxima
  {
    var sys := Start(total, maxima, scripts, false);
    RunKeepsMaxima(sys, actions, total, false);
    DeadlockIsCrossing(After(sys, actions, total, false), total);
  }

  /** Without avoidance threads with these maxima can deadlock, under some valid scripts and some
      interleaving, exactly if there are threads each of which can be made to wait for a resource
      of which these threads can hold all units between them and still want one more. */
  lemma DeadlockExactlyWhen(total: seq<int>, maxima: seq<seq<int>>)
    requires ValidSystem(total, maxima)
    ensures CanDeadlock(total, maxima) <==> exists p :: Crossing(p) && p.total == total && p.maxima == maxima
  {
    if CanDeadlock(total, maxima) {
      var scripts, actions :|
        ValidScripts(maxima, scripts) && DeadlocksAfter(Start(total, maxima, scripts, false), actions, total);
      DeadlockedRunIsCrossing(total, maxima, scripts, actions);
    }
    if p :| Crossing(p) && p.total == total && p.maxima == maxima { CrossingDeadlocks(p); }
  }
}
