/** LA8 as a whole: the threads with their scripts, the master, and every interleaving.

    One step is one message (the `rmtx`/`REQB`/`ACK` handshake admits one sender at a time
    and the master finishes its pass before it comes back to `REQB`), or one waiting thread
    noticing that its request was granted. */
module ManagerRuns {
  import opened Banker
  import opened GrantPass
  import opened ManagerProtocol

  datatype Phase = Computing | Waiting | Gone

  /** `pos` lines of the script have been sent. */
  datatype Proc = Proc(script: seq<seq<int>>, pos: nat, phase: Phase)

  datatype System = System(master: MasterState, procs: seq<Proc>)

  datatype Action = Send(t: nat) | Wake(t: nat)

  predicate SomePositive(v: seq<int>) {
    exists j :: 0 <= j < |v| && v[j] > 0
  }

  /** Lines 609-660: what thread t sends next. */
  function NextMessage(t: nat, p: Proc): Message {
    if p.pos >= |p.script| then Exit(t)
    else if SomePositive(p.script[p.pos]) then Additional(t, p.script[p.pos])
    else Release(t, p.script[p.pos])
  }

  function Sent(p: Proc): Proc {
    if p.pos >= |p.script| then p.(phase := Gone)
    else p.(pos := p.pos + 1, phase := if SomePositive(p.script[p.pos]) then Waiting else Computing)
  }

  /** A line with a positive entry goes out as a request, any other as a release; both go out as
      they are written.  Only a request makes its thread wait. */
  lemma LineIsSentAsWritten(t: nat, p: Proc)
    requires p.pos < |p.script|
    ensures var v, msg := p.script[p.pos], NextMessage(t, p);
      && (msg.Release? <==> forall j | 0 <= j < |v| :: v[j] <= 0)
      && (msg.Additional? <==> exists j :: 0 <= j < |v| && v[j] > 0)
      && msg.thread == t && !msg.Exit? && msg.amount == v
    ensures var v, q := p.script[p.pos], Sent(p);
      && q.script == p.script && q.pos == p.pos + 1
      && (q.phase == Waiting <==> exists j :: 0 <= j < |v| && v[j] > 0)
      && (q.phase == Computing <==> forall j | 0 <= j < |v| :: v[j] <= 0)
  {
  }

  /** The end of the script goes out as an exit. */
  lemma EndIsSentAsExit(t: nat, p: Proc)
    ensures NextMessage(t, p).Exit? <==> p.pos >= |p.script|
    ensures Sent(p).phase == Gone <==> p.pos >= |p.script|
    ensures NextMessage(t, p).thread == t
  {
  }

  /** Lines 618-626: reading a line of the script. */
  method Classify(line: seq<int>) returns (additional: bool)
    ensures additional <==> exists j :: 0 <= j < |line| && line[j] > 0
    ensures additional == SomePositive(line)
  {
    additional := false;
    for i := 0 to |line|
      invariant additional <==> exists j :: 0 <= j < i && line[j] > 0
    {
      if line[i] > 0 { additional := true; }
    }
  }

  predicate Enabled(sys: System, a: Action) {
    && a.t < |sys.procs| && a.t < |sys.master.ready|
    && match a
       case Send(t) => sys.procs[t].phase == Computing
       case Wake(t) => sys.procs[t].phase == Waiting && sys.master.ready[t]
  }

  ghost function Step(sys: System, a: Action, total: seq<int>, avoid: bool): System
    requires SystemInv(sys, total, avoid) && Enabled(sys, a)
  {
    match a
    case Send(t) =>
      SendIsLegitimate(sys, t, total, avoid);
      System(OnMessage(sys.master, NextMessage(t, sys.procs[t]), avoid),
             sys.procs[t := Sent(sys.procs[t])])
    case Wake(t) =>
      System(sys.master.(ready := sys.master.ready[t := false]),
             sys.procs[t := sys.procs[t].(phase := Computing)])
  }

  // ----- Scripts -----

  /** What a thread holds after its first k lines, once they have all been granted. */
  function Balance(script: seq<seq<int>>, k: nat, j: nat): int
    requires k <= |script| && forall i | 0 <= i < |script| :: j < |script[i]|
  {
    if k == 0 then 0 else Balance(script, k - 1, j) + script[k - 1][j]
  }

  /** A script never goes below zero or above the thread's declared maximum. */
  ghost predicate ValidScript(script: seq<seq<int>>, maximum: seq<int>) {
    && (forall k | 0 <= k < |script| :: |script[k]| == |maximum|)
    && (forall k: nat, j: nat | k <= |script| && j < |maximum| :: 0 <= Balance(script, k, j) <= maximum[j])
  }

  /** Units of resource j that thread t has asked for and not received. */
  function Pending(queue: seq<Request>, t: nat, j: nat): int
    requires forall i | 0 <= i < |queue| :: j < |queue[i].amount|
  {
    if queue == [] then 0
    else Pending(queue[1..], t, j) + if queue[0].thread == t then queue[0].amount[j] else 0
  }

  lemma {:induction false} PendingAppend(queue: seq<Request>, r: Request, t: nat, j: nat)
    requires forall i | 0 <= i < |queue| :: j < |queue[i].amount|
    requires j < |r.amount|
    ensures Pending(queue + [r], t, j) == Pending(queue, t, j) + if r.thread == t then r.amount[j] else 0
  {
    if queue == [] {
      assert (queue + [r])[1..] == [];
    } else {
      assert (queue + [r])[1..] == queue[1..] + [r];
      PendingAppend(queue[1..], r, t, j);
    }
  }

  lemma {:induction false} PendingNone(queue: seq<Request>, t: nat, j: nat)
    requires forall i | 0 <= i < |queue| :: j < |queue[i].amount|
    requires !Waits(queue, t)
    ensures Pending(queue, t, j) == 0
  {
    if queue != [] {
      assert queue[0].thread != t;
      forall i | 0 <= i < |queue[1..]| ensures queue[1..][i].thread != t {
        assert queue[1..][i] == queue[i + 1];
      }
      PendingNone(queue[1..], t, j);
    }
  }

  /** A pass turns pending units into held ones and nothing else. */
  lemma {:induction false} PassKeepsEntitlement(s: State, queue: seq<Request>, avoid: bool, t: nat, j: nat)
    requires Shape(s) && WellFormedQueue(s, queue) && t < |s.live| && j < |s.avail|
    ensures var o := Pass(s, queue, avoid);
            o.state.alloc[t][j] + Pending(o.waiting, t, j) == s.alloc[t][j] + Pending(queue, t, j)
    decreases |queue|
  {
    if queue != [] {
      if Grantable(s, queue[0], avoid) {
        PassKeepsEntitlement(Grant(s, queue[0]), queue[1..], avoid, t, j);
      } else {
        PassKeepsEntitlement(s, queue[1..], avoid, t, j);
      }
    }
  }

  // ----- The system invariant -----

  /** Thread t holds what its script has asked for so far, less what it still waits for. */
  ghost predicate Keeps(s: State, queue: seq<Request>, p: Proc, t: nat)
    requires Shape(s) && QueueOk(s, queue) && t < |s.live|
  {
    && p.pos <= |p.script|
    && ValidScript(p.script, s.max[t])
    && forall j: nat | j < |s.avail| :: s.alloc[t][j] + Pending(queue, t, j) == Balance(p.script, p.pos, j)
  }

  ghost predicate OnSchedule(sys: System, t: nat)
    requires Shape(sys.master.tables) && QueueOk(sys.master.tables, sys.master.queue)
    requires t < |sys.procs| == |sys.master.tables.live|
  {
    Keeps(sys.master.tables, sys.master.queue, sys.procs[t], t)
  }

  ghost predicate PhaseOk(sys: System, t: nat)
    requires t < |sys.procs| == |sys.master.tables.live| == |sys.master.ready|
  {
    match sys.procs[t].phase
    case Computing => sys.master.tables.live[t] && !Waits(sys.master.queue, t) && !sys.master.ready[t]
    case Waiting => sys.master.tables.live[t] && (Waits(sys.master.queue, t) <==> !sys.master.ready[t])
    case Gone => !sys.master.tables.live[t] && !sys.master.ready[t]
  }

  ghost predicate SystemInv(sys: System, total: seq<int>, avoid: bool) {
    && MasterInv(sys.master, total, avoid)
    && |sys.procs| == |sys.master.tables.live|
    && (forall t: nat | t < |sys.procs| :: PhaseOk(sys, t))
    && (forall t: nat | t < |sys.procs| && sys.master.tables.live[t] :: OnSchedule(sys, t))
  }

  /** A thread that follows its script only sends what the master relies on. */
  lemma SendIsLegitimate(sys: System, t: nat, total: seq<int>, avoid: bool)
    requires SystemInv(sys, total, avoid) && Enabled(sys, Send(t))
    ensures Legitimate(sys.master, NextMessage(t, sys.procs[t]))
  {
    var p := sys.procs[t];
    assert PhaseOk(sys, t) && OnSchedule(sys, t);
    if p.pos < |p.script| {
      forall j: nat | j < |sys.master.tables.avail|
        ensures 0 <= sys.master.tables.alloc[t][j] + p.script[p.pos][j] <= sys.master.tables.max[t][j]
      {
        PendingNone(sys.master.queue, t, j);
        assert Balance(p.script, p.pos + 1, j) == Balance(p.script, p.pos, j) + p.script[p.pos][j];
      }
    }
  }

  lemma UpdateEntitlement(ms: MasterState, msg: Message, t: nat, j: nat)
    requires Legitimate(ms, msg) && QueueOk(ms.tables, ms.queue)
    requires t < |ms.tables.live| && j < |ms.tables.avail|
    requires msg.Exit? ==> t != msg.thread
    ensures var u := Update(ms, msg);
            && (forall i | 0 <= i < |u.queue| :: |u.queue[i].amount| == |ms.tables.avail|)
            && u.tables.alloc[t][j] + Pending(u.queue, t, j)
            == ms.tables.alloc[t][j] + Pending(ms.queue, t, j)
               + if msg.thread == t then msg.amount[j] else 0
  {
    if msg.Additional? {
      PendingAppend(ms.queue, Request(msg.thread, Positive(msg.amount)), t, j);
    }
  }

  /** What thread u holds and waits for grows by its message's amount and nothing else. */
  lemma MessageEntitlement(ms: MasterState, msg: Message, total: seq<int>, avoid: bool, u: nat, j: nat)
    requires MasterInv(ms, total, avoid) && Legitimate(ms, msg)
    requires u < |ms.tables.live| && j < |ms.tables.avail| && (msg.Exit? ==> u != msg.thread)
    ensures var next := OnMessage(ms, msg, avoid);
      && Shape(next.tables) && |next.tables.avail| == |ms.tables.avail| && |next.tables.live| == |ms.tables.live|
      && QueueOk(next.tables, next.queue)
      && next.tables.alloc[u][j] + Pending(next.queue, u, j)
         == ms.tables.alloc[u][j] + Pending(ms.queue, u, j) + if msg.thread == u then msg.amount[j] else 0
  {
    UpdateKeepsTables(ms, msg, total, avoid);
    MessageKeepsInvariant(ms, msg, total, avoid);
    UpdateEntitlement(ms, msg, u, j);
    var up := Update(ms, msg);
    if SomeoneLive(up.tables) { PassKeepsEntitlement(up.tables, up.queue, avoid, u, j); }
  }

  lemma MessageKeepsSizes(ms: MasterState, msg: Message, total: seq<int>, avoid: bool)
    requires MasterInv(ms, total, avoid) && Legitimate(ms, msg)
    ensures var next := OnMessage(ms, msg, avoid);
      && Shape(next.tables) && QueueOk(next.tables, next.queue)
      && |next.tables.avail| == |ms.tables.avail| && |next.tables.live| == |ms.tables.live|
      && next.tables.max == ms.tables.max
  {
    MessageKeepsInvariant(ms, msg, total, avoid);
    var up := Update(ms, msg);
    UpdateKeepsTables(ms, msg, total, avoid);
  }

  lemma MessageKeepsSchedule(ms: MasterState, msg: Message, total: seq<int>, avoid: bool, p: Proc, q: Proc, u: nat)
    requires MasterInv(ms, total, avoid) && Legitimate(ms, msg) && u < |ms.tables.live|
    requires Keeps(ms.tables, ms.queue, p, u) && (msg.Exit? ==> u != msg.thread)
    requires q.script == p.script && q.pos <= |q.script|
    requires forall j: nat | j < |ms.tables.avail| ::
      Balance(q.script, q.pos, j) == Balance(p.script, p.pos, j) + if msg.thread == u then msg.amount[j] else 0
    ensures var next := OnMessage(ms, msg, avoid);
      && Shape(next.tables) && QueueOk(next.tables, next.queue) && u < |next.tables.live|
      && Keeps(next.tables, next.queue, q, u)
  {
    MessageKeepsSizes(ms, msg, total, avoid);
    var next := OnMessage(ms, msg, avoid);
    forall j: nat | j < |ms.tables.avail|
      ensures next.tables.alloc[u][j] + Pending(next.queue, u, j) == Balance(q.script, q.pos, j)
    {
      MessageEntitlement(ms, msg, total, avoid, u, j);
    }
  }

  /** The sender moves on to its next line ... */
  lemma SenderKeepsSchedule(ms: MasterState, t: nat, p: Proc, total: seq<int>, avoid: bool)
    requires MasterInv(ms, total, avoid) && Legitimate(ms, NextMessage(t, p)) && t < |ms.tables.live|
    requires Keeps(ms.tables, ms.queue, p, t) && p.pos < |p.script|
    ensures var next := OnMessage(ms, NextMessage(t, p), avoid);
      && Shape(next.tables) && QueueOk(next.tables, next.queue) && t < |next.tables.live|
      && Keeps(next.tables, next.queue, Sent(p), t)
  {
    MessageKeepsSchedule(ms, NextMessage(t, p), total, avoid, p, Sent(p), t);
  }

  /** ... or exits, and every other thread stays where it is. */
  lemma SendKeepsSchedules(sys: System, t: nat, total: seq<int>, avoid: bool, u: nat)
    requires SystemInv(sys, total, avoid) && Enabled(sys, Send(t))
    requires SystemShape(sys, t, total, avoid)
    requires u < |sys.procs| && Step(sys, Send(t), total, avoid).master.tables.live[u]
    ensures OnSchedule(Step(sys, Send(t), total, avoid), u)
  {
    SendIsLegitimate(sys, t, total, avoid);
    var msg, p := NextMessage(t, sys.procs[t]), sys.procs[u];
    MessageKeepsLives(sys.master, msg, total, avoid, u);
    assert OnSchedule(sys, u);
    if u == t {
      SenderKeepsSchedule(sys.master, t, p, total, avoid);
    } else {
      MessageKeepsSchedule(sys.master, msg, total, avoid, p, p, u);
    }
  }

  /** What Step leaves to be compared: the shapes. */
  ghost predicate SystemShape(sys: System, t: nat, total: seq<int>, avoid: bool)
    requires SystemInv(sys, total, avoid) && Enabled(sys, Send(t))
  {
    var next := Step(sys, Send(t), total, avoid);
    && MasterInv(next.master, total, avoid)
    && |next.procs| == |next.master.tables.live| == |sys.procs|
  }

  lemma SendKeepsShape(sys: System, t: nat, total: seq<int>, avoid: bool)
    requires SystemInv(sys, total, avoid) && Enabled(sys, Send(t))
    ensures SystemShape(sys, t, total, avoid)
  {
    SendIsLegitimate(sys, t, total, avoid);
    MessageKeepsInvariant(sys.master, NextMessage(t, sys.procs[t]), total, avoid);
  }

  /** Thread u has a request before the master, perhaps the one just sent. */
  ghost predicate Asks(ms: MasterState, msg: Message, u: nat) {
    Waits(ms.queue, u) || (msg.Additional? && msg.thread == u)
  }

  lemma UpdateKeepsAsking(ms: MasterState, msg: Message, u: nat)
    requires Legitimate(ms, msg)
    ensures Waits(Update(ms, msg).queue, u) <==> Asks(ms, msg, u)
  {
    if msg.Additional? { WaitsSnoc(ms.queue, Request(msg.thread, Positive(msg.amount))); }
  }

  /** Whoever asks is queued or signalled, never both; nobody else is touched. */
  lemma MessageSortsAskers(ms: MasterState, msg: Message, total: seq<int>, avoid: bool, u: nat)
    requires MasterInv(ms, total, avoid) && Legitimate(ms, msg) && u < |ms.ready|
    ensures var next := OnMessage(ms, msg, avoid);
      && |next.ready| == |ms.ready|
      && (!Asks(ms, msg, u) ==> !Waits(next.queue, u) && next.ready[u] == ms.ready[u])
      && (Asks(ms, msg, u) && !ms.ready[u] ==> (Waits(next.queue, u) <==> !next.ready[u]))
  {
    var up := Update(ms, msg);
    UpdateKeepsTables(ms, msg, total, avoid);
    UpdateKeepsAsking(ms, msg, u);
    if SomeoneLive(up.tables) { PassKeepsTables(up.tables, up.queue, total, avoid); }
  }

  /** Only an exit ends a thread's life. */
  lemma MessageKeepsLives(ms: MasterState, msg: Message, total: seq<int>, avoid: bool, u: nat)
    requires MasterInv(ms, total, avoid) && Legitimate(ms, msg) && u < |ms.ready|
    ensures var next := OnMessage(ms, msg, avoid);
      && |next.tables.live| == |ms.tables.live|
      && next.tables.live[u] == (ms.tables.live[u] && !(msg.Exit? && msg.thread == u))
  {
    MessageKeepsInvariant(ms, msg, total, avoid);
  }

  lemma SendKeepsPhases(sys: System, t: nat, total: seq<int>, avoid: bool, u: nat)
    requires SystemInv(sys, total, avoid) && Enabled(sys, Send(t))
    requires SystemShape(sys, t, total, avoid) && u < |sys.procs|
    ensures PhaseOk(Step(sys, Send(t), total, avoid), u)
  {
    assert PhaseOk(sys, u) && PhaseOk(sys, t);
    SendIsLegitimate(sys, t, total, avoid);
    MessageSortsAskers(sys.master, NextMessage(t, sys.procs[t]), total, avoid, u);
    MessageKeepsLives(sys.master, NextMessage(t, sys.procs[t]), total, avoid, u);
  }

  lemma WaitsSnoc(queue: seq<Request>, r: Request)
    ensures forall t: nat :: Waits(queue + [r], t) <==> t == r.thread || Waits(queue, t)
  {
    assert (queue + [r])[|queue|] == r;
    forall t: nat | Waits(queue, t) ensures Waits(queue + [r], t) {
      var i :| 0 <= i < |queue| && queue[i].thread == t;
      assert (queue + [r])[i] == queue[i];
    }
  }

  lemma StepKeepsInvariant(sys: System, a: Action, total: seq<int>, avoid: bool)
    requires SystemInv(sys, total, avoid) && Enabled(sys, a)
    ensures SystemInv(Step(sys, a, total, avoid), total, avoid)
  {
    var next := Step(sys, a, total, avoid);
    match a
    case Send(t) =>
      SendKeepsShape(sys, t, total, avoid);
      forall u: nat | u < |sys.procs| ensures PhaseOk(next, u) {
        SendKeepsPhases(sys, t, total, avoid, u);
      }
      forall u: nat | u < |sys.procs| && next.master.tables.live[u] ensures OnSchedule(next, u) {
        SendKeepsSchedules(sys, t, total, avoid, u);
      }
    case Wake(t) =>
      forall u: nat | u < |sys.procs| ensures PhaseOk(next, u) {
        assert PhaseOk(sys, u);
      }
      forall u: nat | u < |sys.procs| && next.master.tables.live[u] ensures OnSchedule(next, u) {
        assert OnSchedule(sys, u);
      }
  }

  lemma StepKeepsMaxima(sys: System, a: Action, total: seq<int>, avoid: bool)
    requires SystemInv(sys, total, avoid) && Enabled(sys, a)
    ensures Step(sys, a, total, avoid).master.tables.max == sys.master.tables.max
    ensures |Step(sys, a, total, avoid).procs| == |sys.procs|
  {
    if a.Send? {
      SendIsLegitimate(sys, a.t, total, avoid);
      MessageKeepsSizes(sys.master, NextMessage(a.t, sys.procs[a.t]), total, avoid);
    }
  }

  // ----- Whole runs -----

  ghost predicate ValidRun(sys: System, actions: seq<Action>, total: seq<int>, avoid: bool)
    requires SystemInv(sys, total, avoid)
    decreases |actions|
  {
    actions == [] ||
    (Enabled(sys, actions[0]) &&
     (StepKeepsInvariant(sys, actions[0], total, avoid);
      ValidRun(Step(sys, actions[0], total, avoid), actions[1..], total, avoid)))
  }

  ghost function After(sys: System, actions: seq<Action>, total: seq<int>, avoid: bool): (end: System)
    requires SystemInv(sys, total, avoid) && ValidRun(sys, actions, total, avoid)
    ensures SystemInv(end, total, avoid)
    decreases |actions|
  {
    if actions == [] then sys
    else
      StepKeepsInvariant(sys, actions[0], total, avoid);
      After(Step(sys, actions[0], total, avoid), actions[1..], total, avoid)
  }

  ghost predicate ValidScripts(maxima: seq<seq<int>>, scripts: seq<seq<seq<int>>>) {
    |scripts| == |maxima| && forall t | 0 <= t < |scripts| :: ValidScript(scripts[t], maxima[t])
  }

  /** Before the first message: nothing held, nothing sent. */
  ghost function Start(total: seq<int>, maxima: seq<seq<int>>, scripts: seq<seq<seq<int>>>, avoid: bool): (sys: System)
    requires ValidSystem(total, maxima) && ValidScripts(maxima, scripts)
    ensures SystemInv(sys, total, avoid)
  {
    var sys := System(InitialMaster(total, maxima),
                      seq(|scripts|, t requires 0 <= t < |scripts| => Proc(scripts[t], 0, Computing)));
    InitialInvariant(total, maxima, avoid);
    assert forall t: nat | t < |scripts| :: PhaseOk(sys, t);
    assert forall t: nat | t < |scripts| :: OnSchedule(sys, t) by {
      forall t: nat | t < |scripts| ensures OnSchedule(sys, t) {
        assert ValidScript(scripts[t], maxima[t]);
      }
    }
    sys
  }

  ghost predicate SomeoneThere(sys: System) {
    exists t: nat :: t < |sys.procs| && sys.procs[t].phase != Gone
  }

  ghost predicate CanStep(sys: System) {
    exists a: Action :: Enabled(sys, a)
  }

  /** With deadlock avoidance no reachable state is stuck before every thread has gone. */
  lemma NoDeadlock(sys: System, total: seq<int>)
    requires SystemInv(sys, total, true) && SomeoneThere(sys)
    ensures CanStep(sys)
  {
    var s: nat :| s < |sys.procs| && sys.procs[s].phase != Gone;
    assert PhaseOk(sys, s);
    assert SomeoneLive(sys.master.tables);
    NotAllWaiting(sys.master, total);
    var t: nat :| t < |sys.procs| && sys.master.tables.live[t] && !Waits(sys.master.queue, t);
    assert PhaseOk(sys, t);
    if sys.procs[t].phase == Computing {
      assert Enabled(sys, Send(t));
    } else {
      assert Enabled(sys, Wake(t));
    }
  }

  /** Steps thread p can still take: two per line, one for the exit. */
  function Fuel(p: Proc): nat {
    if p.phase == Gone || p.pos > |p.script| then 0
    else 2 * (|p.script| - p.pos) + 1 + if p.phase == Waiting then 1 else 0
  }

  function TotalFuel(procs: seq<Proc>): nat {
    if procs == [] then 0 else Fuel(procs[0]) + TotalFuel(procs[1..])
  }

  lemma {:induction false} TotalFuelUpdate(procs: seq<Proc>, t: nat, p: Proc)
    requires t < |procs|
    ensures TotalFuel(procs[t := p]) == TotalFuel(procs) - Fuel(procs[t]) + Fuel(p)
  {
    if t == 0 {
      assert procs[0 := p][1..] == procs[1..];
    } else {
      assert procs[t := p][1..] == procs[1..][t - 1 := p];
      TotalFuelUpdate(procs[1..], t - 1, p);
    }
  }

  lemma StepBurnsFuel(sys: System, a: Action, total: seq<int>, avoid: bool)
    requires SystemInv(sys, total, avoid) && Enabled(sys, a)
    ensures TotalFuel(Step(sys, a, total, avoid).procs) < TotalFuel(sys.procs)
  {
    assert PhaseOk(sys, a.t) && OnSchedule(sys, a.t);
    TotalFuelUpdate(sys.procs, a.t, Step(sys, a, total, avoid).procs[a.t]);
  }

  /** No run is longer than the scripts allow. */
  lemma {:induction false} RunsAreBounded(sys: System, actions: seq<Action>, total: seq<int>, avoid: bool)
    requires SystemInv(sys, total, avoid) && ValidRun(sys, actions, total, avoid)
    ensures |actions| + TotalFuel(After(sys, actions, total, avoid).procs) <= TotalFuel(sys.procs)
    decreases |actions|
  {
    if actions != [] {
      StepKeepsInvariant(sys, actions[0], total, avoid);
      StepBurnsFuel(sys, actions[0], total, avoid);
      RunsAreBounded(Step(sys, actions[0], total, avoid), actions[1..], total, avoid);
    }
  }

  /** Once every thread has gone, all units are free again. */
  lemma AllGoneMeansAllFree(sys: System, total: seq<int>, avoid: bool)
    requires SystemInv(sys, total, avoid) && !SomeoneThere(sys)
    ensures sys.master.tables.avail == total
  {
    var s := sys.master.tables;
    forall j: nat | j < |total| ensures s.avail[j] == total[j] {
      forall t: nat | t < |s.live| ensures s.alloc[t][j] == 0 {
        assert PhaseOk(sys, t);
      }
      HeldNone(s.alloc, Threads(s), |s.alloc|, j);
      assert Total(s, j) == total[j];
    }
  }

  /** The avoiding manager finishes: every run from the start is at most as long as the scripts
      allow, and a run that can go no further has let every thread exit and got everything back. */
  lemma AvoidanceAlwaysFinishes(total: seq<int>, maxima: seq<seq<int>>, scripts: seq<seq<seq<int>>>,
                                actions: seq<Action>)
    requires ValidSystem(total, maxima) && ValidScripts(maxima, scripts)
    requires ValidRun(Start(total, maxima, scripts, true), actions, total, true)
    ensures |actions| <= TotalFuel(Start(total, maxima, scripts, true).procs)
    ensures var end := After(Start(total, maxima, scripts, true), actions, total, true);
            !CanStep(end) ==> end.master.tables.avail == total
                              && forall t: nat | t < |end.procs| :: end.procs[t].phase == Gone
  {
    var sys := Start(total, maxima, scripts, true);
    RunsAreBounded(sys, actions, total, true);
    var end := After(sys, actions, total, true);
    if !CanStep(end) {
      if SomeoneThere(end) { NoDeadlock(end, total); }
      AllGoneMeansAllFree(end, total, true);
    }
  }
}
