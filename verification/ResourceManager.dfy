/** The LA8 master: its tables, the banker's check and the handling of one message. */
module ResourceManager {
  import opened Banker
  import opened GrantPass
  import opened ManagerProtocol
  import opened RequestQueue
  import opened Sequences

  ghost function Row(a: array2<int>, i: nat): (row: seq<int>)
    requires i < a.Length0
    reads a
    ensures |row| == a.Length1
    ensures forall j | 0 <= j < |row| :: row[j] == a[i, j]
  {
    seq(a.Length1, j requires 0 <= j < a.Length1 reads a => a[i, j])
  }

  ghost function Table(a: array2<int>): (rows: seq<seq<int>>)
    reads a
    ensures |rows| == a.Length0
    ensures forall i | 0 <= i < |rows| :: rows[i] == Row(a, i)
  {
    seq(a.Length0, i requires 0 <= i < a.Length0 reads a => Row(a, i))
  }

  /** `finish` and `work` hold what the threads of `order`, finishing in turn, leave behind. */
  ghost predicate Tracks(g: State, order: seq<nat>, finish: seq<bool>, work: seq<int>)
    requires Shape(g)
  {
    && |finish| == |g.live| && |work| == |g.avail|
    && FinishesInTurn(g, order)
    && (forall i: nat | i < |finish| :: finish[i] <==> (!g.live[i] || i in order))
    && (forall j: nat | j < |work| :: work[j] == Work(g, Elems(order), j))
  }

  ghost predicate Stuck(g: State, order: seq<nat>)
    requires Shape(g)
  {
    forall i: nat | i < |g.live| && g.live[i] && i !in order :: !CanFinish(g, Elems(order), i)
  }

  lemma TracksNothing(g: State, finish: seq<bool>, work: seq<int>)
    requires Shape(g) && work == g.avail && |finish| == |g.live|
    requires forall i | 0 <= i < |finish| :: finish[i] == !g.live[i]
    ensures Tracks(g, [], finish, work)
  {
    forall j: nat | j < |work| ensures work[j] == Work(g, Elems([]), j) {
      HeldNone(g.alloc, Elems([]), |g.alloc|, j);
    }
  }

  lemma TracksOneMore(g: State, order: seq<nat>, finish: seq<bool>, work: seq<int>, i: nat, work': seq<int>)
    requires Shape(g) && Tracks(g, order, finish, work)
    requires i < |finish| && !finish[i] && CanFinish(g, Elems(order), i)
    requires |work'| == |work| && forall j | 0 <= j < |work| :: work'[j] == work[j] + g.alloc[i][j]
    ensures Tracks(g, order + [i], finish[i := true], work')
  {
    FinishOneMore(g, order, i);
  }

  ghost predicate NoneUnfinished(finish: seq<bool>, live: seq<bool>) {
    |finish| == |live| && forall i | 0 <= i < |finish| :: finish[i] || !live[i]
  }

  lemma StuckDecidesSafety(g: State, order: seq<nat>, finish: seq<bool>, work: seq<int>)
    requires Shape(g) && AllocNonNegative(g) && Tracks(g, order, finish, work) && Stuck(g, order)
    ensures Safe(g) <==> NoneUnfinished(finish, g.live)
  {
    if NoneUnfinished(finish, g.live) {
      assert CoversLive(g, order);
    } else if Safe(g) {
      var safe :| FinishesInTurn(g, safe) && CoversLive(g, safe);
      StuckMeansUnsafe(g, Elems(order), safe);
    }
  }

  /** Lines 261-324: can every live thread of g finish, in some order? */
  method GreedyFinish(ghost g: State, tempAvail: array<int>, tempAlloc: array2<int>,
                      need: array2<int>, live: array<bool>)
    returns (all: bool)
    requires Simulates(g, tempAvail, tempAlloc, need) && AllocNonNegative(g) && g.live == live[..]
    ensures all <==> Safe(g)
  {
    var n, m := live.Length, tempAvail.Length;
    var finish := new bool[n](i requires 0 <= i < n reads live => !live[i]);
    var work := new int[m](j requires 0 <= j < m reads tempAvail => tempAvail[j]);
    ghost var order: seq<nat> := [];
    assert work[..] == g.avail;
    TracksNothing(g, finish[..], work[..]);
    var p := true;
    while p
      invariant Tracks(g, order, finish[..], work[..])
      invariant !p ==> Stuck(g, order)
      invariant |order| <= n
      decreases n - |order|, p
    {
      p, order := Sweep(g, tempAlloc, need, work, finish, order);
      DistinctBound(order, n);
    }
    StuckDecidesSafety(g, order, finish[..], work[..]);
    all := AllFinished(finish, live);
  }

  /** Lines 314-321: no live thread was left unfinished. */
  method AllFinished(finish: array<bool>, live: array<bool>) returns (all: bool)
    requires finish.Length == live.Length
    ensures all <==> NoneUnfinished(finish[..], live[..])
  {
    var i := 0;
    while i < finish.Length
      invariant 0 <= i <= finish.Length
      invariant forall k | 0 <= k < i :: finish[..][k] || !live[..][k]
    {
      if !finish[i] && live[i] {
        assert !finish[..][i] && live[..][i];
        return false;
      }
      i := i + 1;
    }
    return true;
  }

  /** The arrays of the simulation hold the state g. */
  ghost predicate Simulates(g: State, tempAvail: array<int>, tempAlloc: array2<int>, need: array2<int>)
    reads tempAvail, tempAlloc, need
  {
    && Shape(g)
    && g.avail == tempAvail[..]
    && tempAlloc.Length0 == need.Length0 == |g.live|
    && tempAlloc.Length1 == need.Length1 == |g.avail|
    && (forall i, j | 0 <= i < |g.live| && 0 <= j < |g.avail| ::
          tempAlloc[i, j] == g.alloc[i][j] && need[i, j] == g.max[i][j] - g.alloc[i][j])
  }

  /** Lines 283-312: one sweep over the threads in index order. */
  method Sweep(ghost g: State, tempAlloc: array2<int>, need: array2<int>,
               work: array<int>, finish: array<bool>, ghost order: seq<nat>)
    returns (p: bool, ghost order': seq<nat>)
    requires Shape(g) && Tracks(g, order, finish[..], work[..])
    requires tempAlloc.Length0 == need.Length0 == |g.live|
    requires tempAlloc.Length1 == need.Length1 == |g.avail|
    requires forall i, j | 0 <= i < |g.live| && 0 <= j < |g.avail| ::
               tempAlloc[i, j] == g.alloc[i][j] && need[i, j] == g.max[i][j] - g.alloc[i][j]
    modifies work, finish
    ensures Tracks(g, order', finish[..], work[..])
    ensures if p then |order'| > |order| else order' == order && Stuck(g, order)
  {
    p, order' := false, order;
    var i := 0;
    while i < finish.Length
      invariant 0 <= i <= finish.Length
      invariant Tracks(g, order', finish[..], work[..])
      invariant if p then |order'| > |order| else order' == order
      invariant !p ==> forall k: nat | k < i && g.live[k] && k !in order :: !CanFinish(g, Elems(order), k)
    {
      if !finish[i] {
        var possible := Possible(g, Elems(order'), need, work, i);
        if possible {
          ghost var oldWork := work[..];
          ghost var oldFinish := finish[..];
          AddRow(work, tempAlloc, i);
          finish[i] := true;
          assert finish[..] == oldFinish[i := true];
          TracksOneMore(g, order', oldFinish, oldWork, i, work[..]);
          order' := order' + [i];
          p := true;
        }
      }
      i := i + 1;
    }
  }

  /** Lines 288-298. */
  method Possible(ghost g: State, ghost done: set<nat>, need: array2<int>, work: array<int>, i: nat)
    returns (possible: bool)
    requires Shape(g) && i < |g.live| == need.Length0 && |g.avail| == need.Length1 == work.Length
    requires forall j | 0 <= j < need.Length1 :: need[i, j] == g.max[i][j] - g.alloc[i][j]
    requires forall j: nat | j < work.Length :: work[j] == Work(g, done, j)
    ensures possible <==> CanFinish(g, done, i)
  {
    var j := 0;
    while j < work.Length
      invariant 0 <= j <= work.Length
      invariant forall k: nat | k < j :: need[i, k] <= Work(g, done, k)
    {
      if need[i, j] > work[j] {
        assert !(g.max[i][j] - g.alloc[i][j] <= Work(g, done, j));
        return false;
      }
      j := j + 1;
    }
    return true;
  }

  /** Lines 302-307. */
  method AddRow(work: array<int>, tempAlloc: array2<int>, i: nat)
    requires i < tempAlloc.Length0 && work.Length == tempAlloc.Length1
    modifies work
    ensures forall j | 0 <= j < work.Length :: work[j] == old(work[j]) + tempAlloc[i, j]
  {
    var j := 0;
    while j < work.Length
      invariant 0 <= j <= work.Length
      invariant forall k | 0 <= k < work.Length ::
                  work[k] == old(work[k]) + if k < j then tempAlloc[i, k] else 0
    {
      work[j] := work[j] + tempAlloc[i, j];
      j := j + 1;
    }
  }

  /** What the pass needs of the state it is given. */
  ghost predicate Updated(up: MasterState) {
    Shape(up.tables) && WithinBounds(up.tables) && QueueOk(up.tables, up.queue)
  }

  /** The state after the pass. */
  ghost function Passed(up: MasterState, avoid: bool): MasterState
    requires Updated(up)
  {
    var o := Pass(up.tables, up.queue, avoid);
    MasterState(o.state, o.waiting, SetReady(up.ready, o.granted))
  }

  lemma QueuedIsWellFormed(s: State, requests: seq<Request>, i: nat)
    requires Shape(s) && WithinBounds(s) && QueueOk(s, requests) && i < |requests|
    ensures AllocNonNegative(s) && WellFormedRequest(s, requests[i]) && NonNegative(requests[i].amount)
  {
    WithinBoundsAlloc(s);
  }

  class Master {
    const avoid: bool                 // compiled with _DLAVOID
    const avail: array<int>
    const maxNeed: array2<int>
    const alloc: array2<int>
    const live: array<bool>
    const readyReqs: array<bool>
    const queue: Queue
    var threadCnt: int

    ghost function Tables(): (s: State)
      reads avail, maxNeed, alloc, live
    {
      State(avail[..], Table(maxNeed), Table(alloc), live[..])
    }

    ghost function Current(): MasterState
      reads avail, maxNeed, alloc, live, readyReqs, queue
    {
      MasterState(Tables(), queue.Contents(), readyReqs[..])
    }

    ghost predicate Valid()
      reads avail, maxNeed, alloc, live, readyReqs, queue, queue.repr
    {
      && live != readyReqs && maxNeed != alloc
      && maxNeed.Length0 == alloc.Length0 == live.Length == readyReqs.Length
      && maxNeed.Length1 == alloc.Length1 == avail.Length
      && avail.Length >= 1
      && queue.Valid()
    }

    /** Lines 341-412; the files of the original are the two arguments. */
    constructor (avoid: bool, total: seq<int>, maxima: seq<seq<int>>)
      requires ValidSystem(total, maxima)
      ensures Valid() && this.avoid == avoid && threadCnt == |maxima|
      ensures Current() == InitialMaster(total, maxima)
      ensures fresh(avail) && fresh(maxNeed) && fresh(alloc) && fresh(live) && fresh(readyReqs)
      ensures fresh(queue) && fresh(queue.repr)
    {
      var m, n := |total|, |maxima|;
      this.avoid := avoid;
      avail := new int[m](j requires 0 <= j < m => total[j]);
      maxNeed := new int[n, m]((i, j) requires 0 <= i < n && 0 <= j < m => maxima[i][j]);
      alloc := new int[n, m]((i, j) => 0);
      live := new bool[n](i => true);
      readyReqs := new bool[n](i => false);
      queue := new Queue();
      threadCnt := n;
      new;
      HoldsInitialTables(total, maxima);
      assert readyReqs[..] == InitialMaster(total, maxima).ready;
    }

    lemma HoldsInitialTables(total: seq<int>, maxima: seq<seq<int>>)
      requires Valid() && ValidSystem(total, maxima)
      requires avail.Length == |total| && live.Length == |maxima|
      requires forall j | 0 <= j < |total| :: avail[j] == total[j]
      requires forall i, j | 0 <= i < |maxima| && 0 <= j < |total| :: maxNeed[i, j] == maxima[i][j] && alloc[i, j] == 0
      requires forall i | 0 <= i < |maxima| :: live[i]
      ensures Tables() == InitialTables(total, maxima)
    {
      var s := InitialTables(total, maxima);
      forall i | 0 <= i < |maxima| ensures Row(maxNeed, i) == maxima[i] && Row(alloc, i) == s.alloc[i] {
      }
      assert Table(maxNeed) == maxima && Table(alloc) == s.alloc && live[..] == s.live;
    }

    /** Lines 208-337: -1 when the request does not fit, 0 when granting it would leave no
        order in which the live threads can finish, 1 when it may be granted. */
    method Bankers(r: Request) returns (verdict: int)
      requires Valid() && Shape(Tables()) && AllocNonNegative(Tables())
      requires WellFormedRequest(Tables(), r) && NonNegative(r.amount)
      ensures verdict in {-1, 0, 1}
      ensures verdict == -1 <==> !Fits(Tables(), r)
      ensures verdict == 1 <==> Grantable(Tables(), r, avoid)
    {
      var i := 0;
      while i < avail.Length
        invariant 0 <= i <= avail.Length
        invariant forall j | 0 <= j < i :: r.amount[j] <= avail[j]
      {
        if r.amount[i] > avail[i] {
          assert !(r.amount[i] <= Tables().avail[i]);
          return -1;
        }
        i := i + 1;
      }
      assert Fits(Tables(), r);
      if !avoid {
        return 1;
      }
      var tempAvail, tempAlloc, need := Simulate(r);
      var all := GreedyFinish(Grant(Tables(), r), tempAvail, tempAlloc, need, live);
      return if all then 1 else 0;
    }

    /** Lines 220-259: the state after the grant, in arrays of its own. */
    method Simulate(r: Request) returns (tempAvail: array<int>, tempAlloc: array2<int>, need: array2<int>)
      requires Valid() && WellFormedRequest(Tables(), r)
      ensures fresh(tempAvail) && fresh(tempAlloc) && fresh(need)
      ensures Shape(Tables()) && Simulates(Grant(Tables(), r), tempAvail, tempAlloc, need)
    {
      var n, m := live.Length, avail.Length;
      tempAvail, tempAlloc, need := new int[m], new int[n, m], new int[n, m];
      CopyTables(tempAlloc, need);
      CopyAvailable(tempAvail);
      SimulateGrant(r, tempAvail, tempAlloc, need);
    }

    /** Lines 247-250. */
    method CopyAvailable(tempAvail: array<int>)
      requires tempAvail.Length == avail.Length && tempAvail != avail
      modifies tempAvail
      ensures tempAvail[..] == avail[..]
    {
      var i := 0;
      while i < avail.Length
        invariant 0 <= i <= avail.Length
        invariant tempAvail[..i] == avail[..i]
      {
        tempAvail[i] := avail[i];
        i := i + 1;
      }
    }

    /** Rows below i of the two tables are copied; so are the first j entries of row i. */
    ghost predicate Copied(tempAlloc: array2<int>, need: array2<int>, i: nat, j: nat)
      requires Valid() && i <= live.Length && j <= avail.Length
      requires tempAlloc.Length0 == need.Length0 == live.Length
      requires tempAlloc.Length1 == need.Length1 == avail.Length
      reads avail, maxNeed, alloc, live, readyReqs, queue, queue.repr, tempAlloc, need
    {
      forall k, l | 0 <= k < live.Length && 0 <= l < avail.Length && (k < i || (k == i && l < j)) ::
        tempAlloc[k, l] == alloc[k, l] && need[k, l] == maxNeed[k, l] - alloc[k, l]
    }

    /** Lines 231-245. */
    method CopyTables(tempAlloc: array2<int>, need: array2<int>)
      requires Valid() && tempAlloc != need
      requires tempAlloc != alloc && tempAlloc != maxNeed && need != alloc && need != maxNeed
      requires tempAlloc.Length0 == need.Length0 == live.Length
      requires tempAlloc.Length1 == need.Length1 == avail.Length
      modifies tempAlloc, need
      ensures Copied(tempAlloc, need, live.Length, 0)
    {
      var i := 0;
      while i < live.Length
        invariant 0 <= i <= live.Length
        invariant Copied(tempAlloc, need, i, 0)
      {
        var j := 0;
        while j < avail.Length
          invariant 0 <= j <= avail.Length
          invariant Copied(tempAlloc, need, i, j)
        {
          tempAlloc[i, j] := alloc[i, j];
          need[i, j] := maxNeed[i, j] - alloc[i, j];
          j := j + 1;
        }
        i := i + 1;
      }
    }

    /** Lines 253-259. */
    method SimulateGrant(r: Request, tempAvail: array<int>, tempAlloc: array2<int>, need: array2<int>)
      requires Valid() && WellFormedRequest(Tables(), r)
      requires tempAvail.Length == avail.Length && tempAvail[..] == avail[..]
      requires tempAlloc.Length0 == need.Length0 == live.Length
      requires tempAlloc.Length1 == need.Length1 == avail.Length
      requires tempAlloc != need && tempAvail != avail
      requires tempAlloc != alloc && tempAlloc != maxNeed && need != alloc && need != maxNeed
      requires Copied(tempAlloc, need, live.Length, 0)
      modifies tempAvail, tempAlloc, need
      ensures Shape(Tables()) && Simulates(Grant(Tables(), r), tempAvail, tempAlloc, need)
    {
      var i, t := 0, r.thread;
      while i < avail.Length
        invariant 0 <= i <= avail.Length
        invariant forall j | 0 <= j < avail.Length ::
                    tempAvail[j] == avail[j] - if j < i then r.amount[j] else 0
        invariant forall k, j | 0 <= k < live.Length && 0 <= j < avail.Length ::
                    && tempAlloc[k, j] == alloc[k, j] + (if k == t && j < i then r.amount[j] else 0)
                    && need[k, j] == maxNeed[k, j] - alloc[k, j] - (if k == t && j < i then r.amount[j] else 0)
      {
        tempAvail[i] := tempAvail[i] - r.amount[i];
        tempAlloc[t, i] := tempAlloc[t, i] + r.amount[i];
        need[t, i] := need[t, i] - r.amount[i];
        i := i + 1;
      }
      SimulatesAfterGrant(r, tempAvail, tempAlloc, need);
    }

    lemma SimulatesAfterGrant(r: Request, tempAvail: array<int>, tempAlloc: array2<int>, need: array2<int>)
      requires Valid() && WellFormedRequest(Tables(), r) && tempAvail.Length == avail.Length
      requires tempAlloc.Length0 == need.Length0 == live.Length
      requires tempAlloc.Length1 == need.Length1 == avail.Length
      requires forall j | 0 <= j < avail.Length :: tempAvail[j] == avail[j] - r.amount[j]
      requires forall k, j | 0 <= k < live.Length && 0 <= j < avail.Length ::
                 var given := if k == r.thread then r.amount[j] else 0;
                 tempAlloc[k, j] == alloc[k, j] + given && need[k, j] == maxNeed[k, j] - alloc[k, j] - given
      ensures Shape(Tables()) && Simulates(Grant(Tables(), r), tempAvail, tempAlloc, need)
    {
      assert Grant(Tables(), r).avail == tempAvail[..];
    }

    /** Lines 528-534, and 446-452 with a non-positive amount. */
    method MoveUnits(t: nat, amount: seq<int>)
      requires Valid() && t < live.Length && |amount| == avail.Length
      modifies avail, alloc
      ensures Valid() && Shape(old(Tables()))
      ensures Tables() == Grant(old(Tables()), Request(t, amount))
    {
      var j := 0;
      while j < avail.Length
        invariant 0 <= j <= avail.Length
        invariant forall l | 0 <= l < avail.Length ::
                    avail[l] == old(avail[l]) - if l < j then amount[l] else 0
        invariant forall k, l | 0 <= k < live.Length && 0 <= l < avail.Length ::
                    alloc[k, l] == old(alloc[k, l]) + if k == t && l < j then amount[l] else 0
      {
        avail[j] := avail[j] - amount[j];
        alloc[t, j] := alloc[t, j] + amount[j];
        j := j + 1;
      }
      TablesAfterMove(old(Tables()), t, amount);
    }

    lemma TablesAfterMove(before: State, t: nat, amount: seq<int>)
      requires Valid() && Shape(before) && WellFormedRequest(before, Request(t, amount))
      requires |before.live| == live.Length && |before.avail| == avail.Length
      requires before.live == live[..] && before.max == Table(maxNeed)
      requires forall l | 0 <= l < avail.Length :: avail[l] == before.avail[l] - amount[l]
      requires forall k, l | 0 <= k < live.Length && 0 <= l < avail.Length ::
                 alloc[k, l] == before.alloc[k][l] + if k == t then amount[l] else 0
      ensures Tables() == Grant(before, Request(t, amount))
    {
      var g := Grant(before, Request(t, amount));
      assert g.avail == avail[..];
      forall k | 0 <= k < live.Length ensures g.alloc[k] == Row(alloc, k) {
      }
      assert g.alloc == Table(alloc);
    }

    /** Lines 528-546: move the units, unlink the request, wake its thread. */
    method GrantRequest(r: Request, ghost i: nat)
      requires Valid() && Shape(Tables()) && QueueOk(Tables(), queue.Contents())
      requires i < |queue.nodes| && queue.nodes[i].request == r
      modifies avail, alloc, readyReqs, queue, queue.repr
      ensures Valid() && Tables() == Grant(old(Tables()), r)
      ensures queue.nodes == Without(old(queue.nodes), i) && queue.repr == old(queue.repr)
      ensures readyReqs[..] == old(readyReqs[..])[r.thread := true]
    {
      OnlyRequestIsFirst(queue.Contents(), i);
      MoveUnits(r.thread, r.amount);
      WakeRequester(r.thread, i);
    }

    /** Lines 541-544: the request leaves the queue and its thread may go on. */
    method WakeRequester(t: nat, ghost i: nat)
      requires Valid() && t < readyReqs.Length && i < |queue.nodes| && FirstIndex(queue.Contents(), t) == i
      modifies readyReqs, queue, queue.repr
      ensures Valid() && Tables() == old(Tables())
      ensures queue.nodes == Without(old(queue.nodes), i) && queue.repr == old(queue.repr)
      ensures readyReqs[..] == old(readyReqs[..])[t := true]
    {
      queue.RemoveRequest(t);
      readyReqs[t] := true;
    }

    /** Between two visits: `curr` is the i-th node still queued, and the pass that started
        in s0 with queue0 has so far granted `granted`. */
    ghost predicate Walking(s0: State, queue0: seq<Request>, ready0: seq<bool>,
                            curr: ReqNode?, i: nat, granted: seq<Request>)
      reads avail, maxNeed, alloc, live, readyReqs, queue, queue.repr
    {
      && Valid() && i <= |queue.nodes|
      && curr == (if i < |queue.nodes| then queue.nodes[i] else null)
      && Walked(s0, queue0, avoid, Tables(), queue.Contents(), i, granted)
      && readyReqs[..] == SetReady(ready0, granted)
    }

    /** Lines 526-546: the request at i is granted; the next node takes its place. */
    method GrantVisited(ghost s0: State, ghost queue0: seq<Request>, ghost ready0: seq<bool>,
                        curr: ReqNode, ghost i: nat, ghost granted: seq<Request>)
      returns (next: ReqNode?)
      requires Walking(s0, queue0, ready0, curr, i, granted)
      requires Grantable(Tables(), curr.request, avoid)
      modifies avail, alloc, readyReqs, queue, queue.repr
      ensures Walking(s0, queue0, ready0, next, i, granted + [curr.request])
      ensures queue.repr == old(queue.repr) && |queue.nodes| == |old(queue.nodes)| - 1
    {
      assert curr.request == queue.Contents()[i];
      RequestsWithout(queue.nodes, i);
      WalkPastGranted(s0, queue0, avoid, Tables(), queue.Contents(), i, granted);
      SetReadyAppend(ready0, granted, curr.request);
      next := curr.next;
      GrantRequest(curr.request, i);
    }

    /** Lines 509-547: decide about one request. */
    method VisitRequest(ghost s0: State, ghost queue0: seq<Request>, ghost ready0: seq<bool>,
                        curr: ReqNode, ghost i: nat, ghost granted: seq<Request>)
      returns (next: ReqNode?, ghost i': nat, ghost granted': seq<Request>)
      requires Walking(s0, queue0, ready0, curr, i, granted)
      modifies avail, alloc, readyReqs, queue, queue.repr
      ensures Walking(s0, queue0, ready0, next, i', granted')
      ensures queue.repr == old(queue.repr) && |queue.nodes| - i' < |old(queue.nodes)| - i
    {
      var r := curr.request;
      assert r == queue.Contents()[i];
      QueuedIsWellFormed(Tables(), queue.Contents(), i);
      var proceed := Bankers(r);
      if proceed == 1 {
        next := GrantVisited(s0, queue0, ready0, curr, i, granted);
        i', granted' := i, granted + [r];
      } else {
        WalkPastRefused(s0, queue0, avoid, Tables(), queue.Contents(), i, granted);
        next, i', granted' := curr.next, i + 1, granted;
      }
    }

    /** Lines 504-548: one pass along the list, unlinking what it grants. */
    method GrantPending()
      requires Valid() && Updated(Current())
      modifies avail, alloc, readyReqs, queue, queue.repr
      ensures Valid() && queue.repr == old(queue.repr)
      ensures Current() == Passed(old(Current()), avoid)
    {
      ghost var up := Current();
      ghost var granted: seq<Request>, i := [], 0;
      var curr := queue.front;
      WalkingStarts();
      while curr != null
        invariant Walking(up.tables, up.queue, up.ready, curr, i, granted)
        invariant queue.repr == old(queue.repr)
        decreases |queue.nodes| - i
      {
        curr, i, granted := VisitRequest(up.tables, up.queue, up.ready, curr, i, granted);
      }
      WalkingEnds(up, i, granted);
    }

    lemma WalkingStarts()
      requires Valid() && Updated(Current())
      ensures Walking(Tables(), queue.Contents(), readyReqs[..], queue.front, 0, [])
    {
      WalkStarts(Tables(), queue.Contents(), avoid);
    }

    lemma WalkingEnds(up: MasterState, i: nat, granted: seq<Request>)
      requires Updated(up) && Walking(up.tables, up.queue, up.ready, null, i, granted)
      ensures Current() == Passed(up, avoid)
    {
      WalkEnds(up.tables, up.queue, avoid, Tables(), queue.Contents(), granted);
    }

    /** Lines 438-442. */
    method ReturnRow(t: nat)
      requires Valid() && t < live.Length
      modifies avail, alloc
      ensures forall l | 0 <= l < avail.Length :: avail[l] == old(avail[l]) + old(alloc[t, l])
      ensures forall k, l | 0 <= k < live.Length && 0 <= l < avail.Length ::
                alloc[k, l] == if k == t then 0 else old(alloc[k, l])
    {
      var i := 0;
      while i < avail.Length
        invariant 0 <= i <= avail.Length
        invariant forall l | 0 <= l < avail.Length ::
                    avail[l] == old(avail[l]) + if l < i then old(alloc[t, l]) else 0
        invariant forall k, l | 0 <= k < live.Length && 0 <= l < avail.Length ::
                    alloc[k, l] == if k == t && l < i then 0 else old(alloc[k, l])
      {
        avail[i] := avail[i] + alloc[t, i];
        alloc[t, i] := 0;
        i := i + 1;
      }
    }

    /** Lines 434-443. */
    method RetireThread(t: nat)
      requires Valid() && t < live.Length && live[t]
      requires threadCnt == LiveCount(live[..])
      modifies avail, alloc, live, this`threadCnt
      ensures Valid() && Shape(old(Tables())) && Tables() == Retire(old(Tables()), t)
      ensures threadCnt == LiveCount(live[..])
    {
      ghost var s := Tables();
      ReturnRow(t);
      LiveCountRetire(s.live, t);
      live[t] := false;
      threadCnt := threadCnt - 1;
      assert live[..] == s.live[t := false];
      TablesAfterRetire(s, t);
    }

    lemma TablesAfterRetire(before: State, t: nat)
      requires Valid() && Shape(before) && t < |before.live|
      requires |before.live| == live.Length && |before.avail| == avail.Length
      requires live[..] == before.live[t := false] && before.max == Table(maxNeed)
      requires forall l | 0 <= l < avail.Length :: avail[l] == before.avail[l] + before.alloc[t][l]
      requires forall k, l | 0 <= k < live.Length && 0 <= l < avail.Length ::
                 alloc[k, l] == if k == t then 0 else before.alloc[k][l]
      ensures Tables() == Retire(before, t)
    {
      var g := Retire(before, t);
      assert g.avail == avail[..];
      forall k | 0 <= k < live.Length ensures g.alloc[k] == Row(alloc, k) {
      }
      assert g.alloc == Table(alloc);
    }

    /** Lines 456-465: what a request gives back is taken at once and struck from it. */
    method ReturnNegatives(t: nat, rest: array<int>)
      requires Valid() && t < live.Length && rest.Length == avail.Length && rest != avail
      modifies avail, alloc, rest
      ensures Valid() && Tables() == Grant(old(Tables()), Request(t, Negative(old(rest[..]))))
      ensures rest[..] == Positive(old(rest[..]))
    {
      ghost var s, amount := Tables(), rest[..];
      var i := 0;
      while i < avail.Length
        invariant 0 <= i <= avail.Length
        invariant forall l | 0 <= l < avail.Length ::
                    rest[l] == if l < i && amount[l] < 0 then 0 else amount[l]
        invariant forall l | 0 <= l < avail.Length ::
                    avail[l] == old(avail[l]) - if l < i then Negative(amount)[l] else 0
        invariant forall k, l | 0 <= k < live.Length && 0 <= l < avail.Length ::
                    alloc[k, l] == old(alloc[k, l]) + if k == t && l < i then Negative(amount)[l] else 0
        modifies avail, alloc, rest
      {
        if rest[i] < 0 {
          var back := -rest[i];
          avail[i] := avail[i] + back;
          alloc[t, i] := alloc[t, i] - back;
          rest[i] := 0;
        }
        i := i + 1;
      }
      TablesAfterMove(s, t, Negative(amount));
      assert rest[..] == Positive(amount);
    }

    /** Lines 457-466: give the negative part back at once and queue the rest. */
    method AcceptRequest(t: nat, amount: seq<int>)
      requires Valid() && t < live.Length && |amount| == avail.Length
      modifies avail, alloc, queue, queue.repr
      ensures Valid() && fresh(queue.repr - old(queue.repr))
      ensures Tables() == Grant(old(Tables()), Request(t, Negative(amount)))
      ensures queue.Contents() == old(queue.Contents()) + [Request(t, Positive(amount))]
    {
      var rest := new int[avail.Length](j requires 0 <= j < avail.Length => amount[j]);
      assert rest[..] == amount;
      ReturnNegatives(t, rest);
      assert rest[..] == Positive(amount);
      queue.Enqueue(Request(t, rest[..]));
    }

    /** Lines 433-467. */
    method ApplyMessage(msg: Message)
      requires Valid() && threadCnt == LiveCount(live[..])
      requires Legitimate(Current(), msg)
      modifies this`threadCnt, avail, alloc, live, queue, queue.repr
      ensures Valid() && threadCnt == LiveCount(live[..]) && fresh(queue.repr - old(queue.repr))
      ensures Current() == Update(old(Current()), msg)
    {
      match msg {
        case Exit(t) => RetireThread(t);
        case Release(t, amount) => MoveUnits(t, amount);
        case Additional(t, amount) => AcceptRequest(t, amount);
      }
    }

    /** Lines 494-548: the pass over the queue, unless the last thread has just left. */
    method Serve(exit: bool, ghost before: MasterState, ghost msg: Message)
      requires Valid() && threadCnt == LiveCount(live[..]) && exit == msg.Exit?
      requires Legitimate(before, msg) && WellFormedQueue(before.tables, before.queue)
      requires Updated(Update(before, msg)) && Current() == Update(before, msg)
      modifies avail, alloc, readyReqs, queue, queue.repr
      ensures Valid() && queue.repr == old(queue.repr) && threadCnt == LiveCount(live[..])
      ensures Current() == OnMessage(before, msg, avoid)
    {
      LiveCountZero(live[..]);
      if exit && threadCnt == 0 { return; }
      assert SomeoneLive(Tables()) by {
        if !exit { assert live[..][msg.thread]; }
      }
      GrantPending();
    }

    /** Lines 416-548: one message, then one pass. */
    method Receive(msg: Message, ghost total: seq<int>)
      requires Valid() && threadCnt == LiveCount(live[..])
      requires MasterInv(Current(), total, avoid) && Legitimate(Current(), msg)
      modifies this`threadCnt, avail, alloc, live, readyReqs, queue, queue.repr
      ensures Valid() && threadCnt == LiveCount(live[..]) && fresh(queue.repr - old(queue.repr))
      ensures Current() == OnMessage(old(Current()), msg, avoid)
    {
      ghost var before := Current();
      UpdateKeepsTables(before, msg, total, avoid);
      ApplyMessage(msg);
      Serve(msg.Exit?, before, msg);
    }
  }
}
