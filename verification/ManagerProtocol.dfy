/** What the LA8 master does with one message, as a function of its state, and the
    invariants that every message keeps. */
module ManagerProtocol {
  import opened Banker
  import opened GrantPass
  import opened Sequences

  /** A thread's message: what the type field of the shared request says. */
  datatype Message =
    | Additional(thread: nat, amount: seq<int>)   // some component positive
    | Release(thread: nat, amount: seq<int>)      // no component positive
    | Exit(thread: nat)

  datatype MasterState = MasterState(
    tables: State,
    queue: seq<Request>,
    ready: seq<bool>          // ready[t]: t's request was granted and t has not noticed yet
  )

  function Positive(v: seq<int>): (w: seq<int>)
    ensures |w| == |v|
    ensures forall j | 0 <= j < |v| :: w[j] == if v[j] > 0 then v[j] else 0
  {
    seq(|v|, j requires 0 <= j < |v| => if v[j] > 0 then v[j] else 0)
  }

  function Negative(v: seq<int>): (w: seq<int>)
    ensures |w| == |v|
    ensures forall j | 0 <= j < |v| :: w[j] == if v[j] < 0 then v[j] else 0
  {
    seq(|v|, j requires 0 <= j < |v| => if v[j] < 0 then v[j] else 0)
  }

  ghost predicate Waits(queue: seq<Request>, t: nat) {
    exists i :: 0 <= i < |queue| && queue[i].thread == t
  }

  /** The flags after the granted threads have been signalled. */
  ghost function SetReady(ready: seq<bool>, granted: seq<Request>): (r: seq<bool>)
    ensures |r| == |ready|
    ensures forall t: nat | t < |r| :: r[t] <==> ready[t] || Waits(granted, t)
  {
    seq(|ready|, t requires 0 <= t < |ready| => ready[t] || Waits(granted, t))
  }

  // ----- Invariants of the tables and the queue -----

  ghost function Below(n: nat): (all: set<nat>)
    ensures forall t: nat :: t in all <==> t < n
  {
    if n == 0 then {} else Below(n - 1) + {n - 1}
  }

  ghost function Threads(s: State): set<nat> {
    Below(|s.live|)
  }

  /** Units of resource j, free or held. */
  ghost function Total(s: State, j: nat): int
    requires Shape(s) && j < |s.avail|
  {
    Work(s, Threads(s), j)
  }

  ghost predicate Conserves(s: State, total: seq<int>)
    requires Shape(s)
  {
    |total| == |s.avail| && forall j: nat | j < |total| :: Total(s, j) == total[j]
  }

  ghost predicate WithinBounds(s: State)
    requires Shape(s)
  {
    && NonNegative(s.avail)
    && (forall t | 0 <= t < |s.live| :: NonNegative(s.alloc[t]))
    && (forall t, j | 0 <= t < |s.live| && 0 <= j < |s.avail| :: s.alloc[t][j] <= s.max[t][j])
    && (forall t, j | 0 <= t < |s.live| && !s.live[t] && 0 <= j < |s.avail| :: s.alloc[t][j] == 0)
  }

  ghost predicate QueueOk(s: State, queue: seq<Request>)
    requires Shape(s)
  {
    && WellFormedQueue(s, queue)
    && OnePerThread(queue)
    && (forall i | 0 <= i < |queue| :: s.live[queue[i].thread] && WithinMaximum(s, queue[i]))
  }

  /** What holds between two messages. */
  ghost predicate MasterInv(ms: MasterState, total: seq<int>, avoid: bool) {
    && Shape(ms.tables)
    && |ms.ready| == |ms.tables.live|
    && Conserves(ms.tables, total)
    && WithinBounds(ms.tables)
    && QueueOk(ms.tables, ms.queue)
    && (avoid ==> Safe(ms.tables))
    && AllRefused(ms.tables, ms.queue, avoid)
  }

  lemma WithinBoundsAlloc(s: State)
    requires Shape(s) && WithinBounds(s)
    ensures AllocNonNegative(s)
  {
  }

  // ----- The three table updates -----

  /** What the master relies on: the sender is live, is not waiting, gives back no more
      than it holds and asks for no more than its declared maximum. */
  ghost predicate Legitimate(ms: MasterState, msg: Message) {
    && Shape(ms.tables)
    && msg.thread < |ms.tables.live| && ms.tables.live[msg.thread]
    && !Waits(ms.queue, msg.thread)
    && (msg.Exit? ||
        (&& |msg.amount| == |ms.tables.avail|
         && (forall j | 0 <= j < |msg.amount| ::
               0 <= ms.tables.alloc[msg.thread][j] + msg.amount[j] <= ms.tables.max[msg.thread][j])
         && (msg.Release? ==> forall j | 0 <= j < |msg.amount| :: msg.amount[j] <= 0)))
  }

  /** Lines 433-467. */
  function Update(ms: MasterState, msg: Message): MasterState
    requires msg.thread < |ms.tables.alloc| == |ms.tables.live|
    requires |ms.tables.alloc[msg.thread]| == |ms.tables.avail|
    requires !msg.Exit? ==> |msg.amount| == |ms.tables.avail|
  {
    match msg
    case Exit(t) => ms.(tables := Retire(ms.tables, t))
    case Release(t, v) => ms.(tables := Grant(ms.tables, Request(t, v)))
    case Additional(t, v) =>
      ms.(tables := Grant(ms.tables, Request(t, Negative(v))),
          queue := ms.queue + [Request(t, Positive(v))])
  }

  ghost predicate SomeoneLive(s: State) {
    exists t: nat :: t < |s.live| && s.live[t]
  }

  /** Lines 433-548: the updates, then one pass unless the last thread has gone. */
  ghost function OnMessage(ms: MasterState, msg: Message, avoid: bool): (next: MasterState)
    requires Legitimate(ms, msg) && WellFormedQueue(ms.tables, ms.queue)
  {
    var u := Update(ms, msg);
    if !SomeoneLive(u.tables) then u
    else
      var o := Pass(u.tables, u.queue, avoid);
      MasterState(o.state, o.waiting, SetReady(ms.ready, o.granted))
  }

  // ----- Each step keeps the invariants -----

  lemma GrantKeepsTotal(s: State, r: Request, j: nat)
    requires Shape(s) && WellFormedRequest(s, r) && j < |s.avail|
    ensures Total(Grant(s, r), j) == Total(s, j)
  {
    WorkAfterGrant(s, r, Threads(s), j);
  }

  lemma RetireKeepsTotal(s: State, t: nat, j: nat)
    requires Shape(s) && t < |s.live| && j < |s.avail|
    ensures Shape(Retire(s, t)) && Total(Retire(s, t), j) == Total(s, j)
  {
    HeldUpdate(s.alloc, t, Retire(s, t).alloc[t], Threads(s), |s.live|, j);
  }

  lemma GrantKeepsConserved(s: State, r: Request, total: seq<int>)
    requires Shape(s) && Conserves(s, total) && WellFormedRequest(s, r)
    ensures Conserves(Grant(s, r), total)
  {
    forall j: nat | j < |total| ensures Total(Grant(s, r), j) == total[j] {
      GrantKeepsTotal(s, r, j);
    }
  }

  lemma GrantKeepsBounds(s: State, r: Request)
    requires Shape(s) && WithinBounds(s)
    requires WellFormedRequest(s, r) && s.live[r.thread] && Fits(s, r)
    requires forall j | 0 <= j < |r.amount| ::
               0 <= s.alloc[r.thread][j] + r.amount[j] <= s.max[r.thread][j]
    ensures WithinBounds(Grant(s, r))
  {
  }

  /** A grant to another thread leaves a queued request within its maximum. */
  lemma GrantKeepsQueue(s: State, r: Request, queue: seq<Request>)
    requires Shape(s) && QueueOk(s, queue) && WellFormedRequest(s, r)
    requires !Waits(queue, r.thread)
    ensures QueueOk(Grant(s, r), queue)
  {
    forall i | 0 <= i < |queue| ensures WithinMaximum(Grant(s, r), queue[i]) {
      assert queue[i].thread != r.thread;
    }
  }

  lemma QueueTail(s: State, queue: seq<Request>)
    requires Shape(s) && QueueOk(s, queue) && queue != []
    ensures QueueOk(s, queue[1..]) && !Waits(queue[1..], queue[0].thread)
  {
  }

  lemma {:induction false} PassKeepsTables(s: State, queue: seq<Request>, total: seq<int>, avoid: bool)
    requires Shape(s) && Conserves(s, total) && WithinBounds(s) && QueueOk(s, queue)
    ensures var o := Pass(s, queue, avoid);
            && Conserves(o.state, total) && WithinBounds(o.state) && QueueOk(o.state, o.waiting)
    ensures var o := Pass(s, queue, avoid);
            && (forall t: nat :: Waits(o.waiting, t) ==> Waits(queue, t))
            && (forall t: nat :: Waits(queue, t) ==> Waits(o.waiting, t) || Waits(o.granted, t))
            && (forall t: nat :: Waits(o.granted, t) ==> Waits(queue, t) && !Waits(o.waiting, t))
    decreases |queue|
  {
    if queue != [] {
      var r := queue[0];
      QueueTail(s, queue);
      assert queue == [r] + queue[1..];
      if Grantable(s, r, avoid) {
        assert WithinMaximum(s, r);
        GrantKeepsConserved(s, r, total);
        GrantKeepsBounds(s, r);
        GrantKeepsQueue(s, r, queue[1..]);
        PassKeepsTables(Grant(s, r), queue[1..], total, avoid);
        var rest := Pass(Grant(s, r), queue[1..], avoid);
        WaitsCons(r, queue[1..]);
        WaitsCons(r, rest.granted);
      } else {
        PassKeepsTables(s, queue[1..], total, avoid);
        var rest := Pass(s, queue[1..], avoid);
        WaitsCons(r, queue[1..]);
        WaitsCons(r, rest.waiting);
        PassLeavesHead(s, r, queue[1..], avoid);
      }
    }
  }

  lemma WaitsCons(r: Request, queue: seq<Request>)
    ensures forall t: nat :: Waits([r] + queue, t) <==> t == r.thread || Waits(queue, t)
  {
    assert ([r] + queue)[0] == r;
    forall t: nat | Waits(queue, t) ensures Waits([r] + queue, t) {
      var i :| 0 <= i < |queue| && queue[i].thread == t;
      assert ([r] + queue)[i + 1] == queue[i];
    }
    forall t: nat | Waits([r] + queue, t) ensures t == r.thread || Waits(queue, t) {
      var i :| 0 <= i < |[r] + queue| && ([r] + queue)[i].thread == t;
      if i > 0 { assert queue[i - 1].thread == t; }
    }
  }

  /** A request that stays at the head keeps its thread's row while the rest is served. */
  lemma {:induction false} PassLeavesHead(s: State, r: Request, queue: seq<Request>, avoid: bool)
    requires Shape(s) && WellFormedQueue(s, queue) && WellFormedRequest(s, r) && !Waits(queue, r.thread)
    ensures Pass(s, queue, avoid).state.alloc[r.thread] == s.alloc[r.thread]
    decreases |queue|
  {
    if queue != [] {
      assert queue == [queue[0]] + queue[1..];
      WaitsCons(queue[0], queue[1..]);
      if Grantable(s, queue[0], avoid) {
        PassLeavesHead(Grant(s, queue[0]), r, queue[1..], avoid);
      } else {
        PassLeavesHead(s, r, queue[1..], avoid);
      }
    }
  }

  /** Giving units back is granting a non-positive amount. */
  lemma ReturnKeepsTables(ms: MasterState, r: Request, total: seq<int>, avoid: bool)
    requires MasterInv(ms, total, avoid)
    requires WellFormedRequest(ms.tables, r) && ms.tables.live[r.thread] && !Waits(ms.queue, r.thread)
    requires forall j | 0 <= j < |r.amount| :: r.amount[j] <= 0 <= ms.tables.alloc[r.thread][j] + r.amount[j]
    ensures var s := Grant(ms.tables, r);
            Conserves(s, total) && WithinBounds(s) && QueueOk(s, ms.queue) && (avoid ==> Safe(s))
  {
    var s := Grant(ms.tables, r);
    forall j | 0 <= j < |r.amount|
      ensures 0 <= ms.tables.alloc[r.thread][j] + r.amount[j] <= ms.tables.max[r.thread][j]
    {
      assert ms.tables.alloc[r.thread][j] <= ms.tables.max[r.thread][j];
    }
    GrantKeepsConserved(ms.tables, r, total);
    GrantKeepsBounds(ms.tables, r);
    GrantKeepsQueue(ms.tables, r, ms.queue);
    if avoid {
      var back := Request(r.thread, seq(|r.amount|, j requires 0 <= j < |r.amount| => -r.amount[j]));
      var again := Grant(s, back);
      assert again.avail == ms.tables.avail;
      assert again.alloc[r.thread] == ms.tables.alloc[r.thread];
      assert again.alloc == ms.tables.alloc;
      assert again == ms.tables;
      SafeBeforeGrant(s, back);
    }
  }

  lemma ExitKeepsTables(ms: MasterState, t: nat, total: seq<int>, avoid: bool)
    requires MasterInv(ms, total, avoid) && Legitimate(ms, Exit(t))
    ensures var s := Retire(ms.tables, t);
            && Shape(s) && Conserves(s, total) && WithinBounds(s)
            && QueueOk(s, ms.queue) && (avoid ==> Safe(s))
  {
    WithinBoundsAlloc(ms.tables);
    if avoid { SafeAfterRetire(ms.tables, t); }
    forall j: nat | j < |total| ensures Total(Retire(ms.tables, t), j) == total[j] {
      RetireKeepsTotal(ms.tables, t, j);
    }
    forall i | 0 <= i < |ms.queue| ensures ms.queue[i].thread != t {
      assert !Waits(ms.queue, t);
    }
  }

  lemma EnqueueKeepsQueue(s: State, queue: seq<Request>, r: Request)
    requires Shape(s) && QueueOk(s, queue) && !Waits(queue, r.thread)
    requires WellFormedRequest(s, r) && s.live[r.thread] && WithinMaximum(s, r)
    requires NonNegative(r.amount)
    ensures QueueOk(s, queue + [r])
  {
    forall i | 0 <= i < |queue| ensures queue[i].thread != r.thread {
      assert !Waits(queue, r.thread);
    }
  }

  /** Lines 433-467 keep everything but the refusals, which the next pass restores. */
  lemma UpdateKeepsTables(ms: MasterState, msg: Message, total: seq<int>, avoid: bool)
    requires MasterInv(ms, total, avoid) && Legitimate(ms, msg)
    ensures var u := Update(ms, msg);
            && Shape(u.tables) && Conserves(u.tables, total) && WithinBounds(u.tables)
            && QueueOk(u.tables, u.queue) && (avoid ==> Safe(u.tables))
  {
    match msg
    case Exit(t) =>
      ExitKeepsTables(ms, t, total, avoid);
    case Release(t, v) =>
      ReturnKeepsTables(ms, Request(t, v), total, avoid);
    case Additional(t, v) =>
      ReturnKeepsTables(ms, Request(t, Negative(v)), total, avoid);
      EnqueueKeepsQueue(Grant(ms.tables, Request(t, Negative(v))), ms.queue, Request(t, Positive(v)));
  }

  /** Every message keeps the invariant: totals are conserved, nothing goes negative or past a
      declared maximum, the state stays safe, and what is left in the queue cannot be granted. */
  lemma MessageKeepsInvariant(ms: MasterState, msg: Message, total: seq<int>, avoid: bool)
    requires MasterInv(ms, total, avoid) && Legitimate(ms, msg)
    ensures MasterInv(OnMessage(ms, msg, avoid), total, avoid)
    ensures OnMessage(ms, msg, avoid).tables.live == Update(ms, msg).tables.live
  {
    UpdateKeepsTables(ms, msg, total, avoid);
    var u := Update(ms, msg);
    if u.queue != [] {
      assert u.tables.live[u.queue[0].thread];
      assert SomeoneLive(u.tables);
    }
    if SomeoneLive(u.tables) {
      PassKeepsTables(u.tables, u.queue, total, avoid);
      PassLeavesOnlyRefused(u.tables, u.queue, avoid);
      if avoid { PassKeepsSafe(u.tables, u.queue); }
    }
  }

  /** In avoid mode the live threads are never all waiting. */
  lemma NotAllWaiting(ms: MasterState, total: seq<int>)
    requires MasterInv(ms, total, true) && SomeoneLive(ms.tables)
    ensures exists t: nat :: t < |ms.tables.live| && ms.tables.live[t] && !Waits(ms.queue, t)
  {
    if forall t: nat | t < |ms.tables.live| && ms.tables.live[t] :: Waits(ms.queue, t) {
      WithinBoundsAlloc(ms.tables);
      SafeStateServesSomeone(ms.tables, ms.queue);
    }
  }

  // ----- The pass as a walk along the queue -----

  lemma SetReadyAppend(ready: seq<bool>, granted: seq<Request>, r: Request)
    requires r.thread < |ready|
    ensures SetReady(ready, granted + [r]) == SetReady(ready, granted)[r.thread := true]
  {
    assert (granted + [r])[|granted|] == r;
    forall t: nat ensures Waits(granted + [r], t) <==> Waits(granted, t) || t == r.thread {
      if Waits(granted, t) {
        var i :| 0 <= i < |granted| && granted[i].thread == t;
        assert (granted + [r])[i].thread == t;
      }
    }
  }

  /** Where the pass ends when the first i requests were kept and `granted` granted. */
  ghost function EndOfPass(s: State, queue: seq<Request>, i: nat, granted: seq<Request>, avoid: bool): Outcome
    requires Shape(s) && WellFormedQueue(s, queue) && i <= |queue|
  {
    var rest := Pass(s, queue[i..], avoid);
    Outcome(rest.state, queue[..i] + rest.waiting, granted + rest.granted)
  }

  /** Having kept the first i requests and granted `granted`, the pass still has `queue[i..]` to look at. */
  ghost predicate Walked(s0: State, queue0: seq<Request>, avoid: bool,
                         s: State, queue: seq<Request>, i: nat, granted: seq<Request>)
  {
    && Shape(s0) && WellFormedQueue(s0, queue0)
    && Shape(s) && QueueOk(s, queue) && WithinBounds(s) && i <= |queue|
    && Pass(s0, queue0, avoid) == EndOfPass(s, queue, i, granted, avoid)
  }

  lemma WalkStarts(s: State, queue: seq<Request>, avoid: bool)
    requires Shape(s) && QueueOk(s, queue) && WithinBounds(s)
    ensures Walked(s, queue, avoid, s, queue, 0, [])
  {
    assert queue[0..] == queue;
  }

  lemma RefusedKeepsEnd(s: State, queue: seq<Request>, i: nat, granted: seq<Request>, avoid: bool)
    requires Shape(s) && WellFormedQueue(s, queue) && i < |queue| && !Grantable(s, queue[i], avoid)
    ensures EndOfPass(s, queue, i + 1, granted, avoid) == EndOfPass(s, queue, i, granted, avoid)
  {
    assert queue[i..][1..] == queue[i + 1..];
    assert queue[..i] + [queue[i]] == queue[..i + 1];
  }

  lemma GrantedKeepsEnd(s: State, queue: seq<Request>, i: nat, granted: seq<Request>, avoid: bool)
    requires Shape(s) && WellFormedQueue(s, queue) && i < |queue| && Grantable(s, queue[i], avoid)
    requires WellFormedQueue(Grant(s, queue[i]), Without(queue, i))
    ensures EndOfPass(Grant(s, queue[i]), Without(queue, i), i, granted + [queue[i]], avoid)
         == EndOfPass(s, queue, i, granted, avoid)
  {
    assert queue[i..][1..] == queue[i + 1..] == Without(queue, i)[i..];
    assert Without(queue, i)[..i] == queue[..i];
  }

  /** A granted request leaves tables and queue in order. */
  lemma GrantedKeepsTables(s: State, queue: seq<Request>, i: nat, avoid: bool)
    requires Shape(s) && QueueOk(s, queue) && WithinBounds(s) && i < |queue| && Grantable(s, queue[i], avoid)
    ensures QueueOk(Grant(s, queue[i]), Without(queue, i)) && WithinBounds(Grant(s, queue[i]))
  {
    var shorter := Without(queue, i);
    assert WithinMaximum(s, queue[i]);
    GrantKeepsBounds(s, queue[i]);
    forall k | 0 <= k < |shorter| ensures shorter[k].thread != queue[i].thread {
      assert shorter[k] == queue[if k < i then k else k + 1];
    }
    GrantKeepsQueue(s, queue[i], shorter);
  }

  lemma WalkPastRefused(s0: State, queue0: seq<Request>, avoid: bool,
                        s: State, queue: seq<Request>, i: nat, granted: seq<Request>)
    requires Walked(s0, queue0, avoid, s, queue, i, granted) && i < |queue|
    requires !Grantable(s, queue[i], avoid)
    ensures Walked(s0, queue0, avoid, s, queue, i + 1, granted)
  {
    RefusedKeepsEnd(s, queue, i, granted, avoid);
  }

  lemma WalkPastGranted(s0: State, queue0: seq<Request>, avoid: bool,
                        s: State, queue: seq<Request>, i: nat, granted: seq<Request>)
    requires Walked(s0, queue0, avoid, s, queue, i, granted) && i < |queue|
    requires Grantable(s, queue[i], avoid)
    ensures Walked(s0, queue0, avoid, Grant(s, queue[i]), Without(queue, i), i, granted + [queue[i]])
  {
    GrantedKeepsTables(s, queue, i, avoid);
    GrantedKeepsEnd(s, queue, i, granted, avoid);
  }

  lemma WalkEnds(s0: State, queue0: seq<Request>, avoid: bool,
                 s: State, queue: seq<Request>, granted: seq<Request>)
    requires Walked(s0, queue0, avoid, s, queue, |queue|, granted)
    ensures Pass(s0, queue0, avoid) == Outcome(s, queue, granted)
  {
  }

  // ----- Counting the live threads -----

  function LiveCount(live: seq<bool>): nat {
    if live == [] then 0 else LiveCount(live[1..]) + if live[0] then 1 else 0
  }

  lemma {:induction false} LiveCountZero(live: seq<bool>)
    ensures LiveCount(live) == 0 <==> forall t | 0 <= t < |live| :: !live[t]
  {
    if live != [] {
      LiveCountZero(live[1..]);
      assert forall t | 0 < t < |live| :: live[t] == live[1..][t - 1];
    }
  }

  lemma {:induction false} LiveCountRetire(live: seq<bool>, t: nat)
    requires t < |live| && live[t]
    ensures LiveCount(live[t := false]) == LiveCount(live) - 1
  {
    if t == 0 {
      assert live[0 := false][1..] == live[1..];
    } else {
      LiveCountRetire(live[1..], t - 1);
      assert live[t := false][1..] == live[1..][t - 1 := false];
    }
  }

  // ----- The state the master starts in -----

  /** No declared maximum exceeds what the system has. */
  ghost predicate ValidSystem(total: seq<int>, maxima: seq<seq<int>>) {
    && |total| >= 1
    && (forall t | 0 <= t < |maxima| :: |maxima[t]| == |total|)
    && (forall t, j | 0 <= t < |maxima| && 0 <= j < |total| :: 0 <= maxima[t][j] <= total[j])
    && NonNegative(total)
  }

  function InitialTables(total: seq<int>, maxima: seq<seq<int>>): (s: State)
    ensures |s.alloc| == |s.live| == |maxima|
    ensures forall t | 0 <= t < |maxima| :: |s.alloc[t]| == |total| && s.live[t]
    ensures forall t, j | 0 <= t < |maxima| && 0 <= j < |total| :: s.alloc[t][j] == 0
  {
    State(total, maxima, seq(|maxima|, t => seq(|total|, j => 0)), seq(|maxima|, t => true))
  }

  function InitialMaster(total: seq<int>, maxima: seq<seq<int>>): MasterState {
    MasterState(InitialTables(total, maxima), [], seq(|maxima|, t => false))
  }

  function Ascending(n: nat): (order: seq<nat>)
    ensures |order| == n && forall k | 0 <= k < n :: order[k] == k
  {
    seq(n, k requires 0 <= k < n => k)
  }

  lemma InitialInvariant(total: seq<int>, maxima: seq<seq<int>>, avoid: bool)
    requires ValidSystem(total, maxima)
    ensures MasterInv(InitialMaster(total, maxima), total, avoid)
  {
    var s := InitialTables(total, maxima);
    forall d: set<nat>, j: nat | j < |total| ensures Work(s, d, j) == total[j] {
      HeldNone(s.alloc, d, |s.alloc|, j);
    }
    var order := Ascending(|maxima|);
    assert FinishesInTurn(s, order);
    forall t: nat | t < |s.live| ensures t in order {
      assert order[t] == t;
    }
    assert CoversLive(s, order);
  }
}
