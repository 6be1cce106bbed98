/** One left-to-right pass of the LA8 master over its queue of pending requests. */
module GrantPass {
  import opened Banker
  import opened Sequences

  datatype Outcome = Outcome(
    state: State,             // after all grants of the pass
    waiting: seq<Request>,    // still queued, in FIFO order
    granted: seq<Request>     // in the order they were granted
  )

  ghost predicate WellFormedQueue(s: State, queue: seq<Request>) {
    forall i | 0 <= i < |queue| :: WellFormedRequest(s, queue[i]) && NonNegative(queue[i].amount)
  }

  /** No two requests of one thread: a thread waits for its last request. */
  ghost predicate OnePerThread(queue: seq<Request>) {
    forall i, k | 0 <= i < k < |queue| :: queue[i].thread != queue[k].thread
  }

  ghost function Pass(s: State, queue: seq<Request>, avoid: bool): (o: Outcome)
    requires Shape(s) && WellFormedQueue(s, queue)
    ensures Shape(o.state) && WellFormedQueue(o.state, o.waiting)
    ensures |o.state.avail| == |s.avail| && o.state.live == s.live && o.state.max == s.max
    decreases |queue|
  {
    if queue == [] then Outcome(s, [], [])
    else if Grantable(s, queue[0], avoid) then
      var rest := Pass(Grant(s, queue[0]), queue[1..], avoid);
      rest.(granted := [queue[0]] + rest.granted)
    else
      var rest := Pass(s, queue[1..], avoid);
      rest.(waiting := [queue[0]] + rest.waiting)
  }

  ghost predicate AllRefused(s: State, queue: seq<Request>, avoid: bool)
    requires Shape(s) && WellFormedQueue(s, queue)
  {
    forall i | 0 <= i < |queue| :: !Grantable(s, queue[i], avoid)
  }

  lemma {:induction false} RefusedThroughout(s: State, queue: seq<Request>, avoid: bool, r: Request)
    requires Shape(s) && WellFormedQueue(s, queue)
    requires WellFormedRequest(s, r) && NonNegative(r.amount) && !Grantable(s, r, avoid)
    ensures !Grantable(Pass(s, queue, avoid).state, r, avoid)
    decreases |queue|
  {
    if queue == [] {
    } else if Grantable(s, queue[0], avoid) {
      RefusalIsMonotone(s, r, queue[0], avoid);
      RefusedThroughout(Grant(s, queue[0]), queue[1..], avoid, r);
    } else {
      RefusedThroughout(s, queue[1..], avoid, r);
    }
  }

  /** A single pass is enough: whatever it leaves in the queue would be refused again. */
  lemma {:induction false} PassLeavesOnlyRefused(s: State, queue: seq<Request>, avoid: bool)
    requires Shape(s) && WellFormedQueue(s, queue)
    ensures AllRefused(Pass(s, queue, avoid).state, Pass(s, queue, avoid).waiting, avoid)
    decreases |queue|
  {
    if queue == [] {
    } else if Grantable(s, queue[0], avoid) {
      PassLeavesOnlyRefused(Grant(s, queue[0]), queue[1..], avoid);
    } else {
      PassLeavesOnlyRefused(s, queue[1..], avoid);
      RefusedThroughout(s, queue[1..], avoid, queue[0]);
    }
  }

  lemma {:induction false} PassOverRefused(s: State, queue: seq<Request>, avoid: bool)
    requires Shape(s) && WellFormedQueue(s, queue) && AllRefused(s, queue, avoid)
    ensures Pass(s, queue, avoid) == Outcome(s, queue, [])
  {
    if queue != [] {
      forall i | 0 <= i < |queue[1..]| ensures !Grantable(s, queue[1..][i], avoid) {
        assert queue[1..][i] == queue[i + 1];
      }
      PassOverRefused(s, queue[1..], avoid);
      assert !Grantable(s, queue[0], avoid);
      assert [queue[0]] + queue[1..] == queue;
    }
  }

  /** Repeating the pass on its own result changes nothing. */
  lemma PassIsFixpoint(s: State, queue: seq<Request>, avoid: bool)
    requires Shape(s) && WellFormedQueue(s, queue)
    ensures var o := Pass(s, queue, avoid);
            Pass(o.state, o.waiting, avoid) == Outcome(o.state, o.waiting, [])
  {
    PassLeavesOnlyRefused(s, queue, avoid);
    var o := Pass(s, queue, avoid);
    PassOverRefused(o.state, o.waiting, avoid);
  }

  /** Every request is either granted or still waiting, none twice, none invented. */
  lemma {:induction false} PassPartitionsQueue(s: State, queue: seq<Request>, avoid: bool)
    requires Shape(s) && WellFormedQueue(s, queue)
    ensures var o := Pass(s, queue, avoid);
            multiset(o.waiting) + multiset(o.granted) == multiset(queue)
    decreases |queue|
  {
    if queue != [] {
      assert queue == [queue[0]] + queue[1..];
      if Grantable(s, queue[0], avoid) {
        PassPartitionsQueue(Grant(s, queue[0]), queue[1..], avoid);
      } else {
        PassPartitionsQueue(s, queue[1..], avoid);
      }
    }
  }

  /** Waiting threads keep their places: the queue afterwards is the queue before with the
      granted requests taken out, and the grants themselves happen in queue order. */
  lemma {:induction false} PassKeepsOrder(s: State, queue: seq<Request>, avoid: bool)
    requires Shape(s) && WellFormedQueue(s, queue)
    ensures Subsequence(Pass(s, queue, avoid).waiting, queue)
    ensures Subsequence(Pass(s, queue, avoid).granted, queue)
    decreases |queue|
  {
    if queue != [] {
      assert queue == [queue[0]] + queue[1..];
      if Grantable(s, queue[0], avoid) {
        PassKeepsOrder(Grant(s, queue[0]), queue[1..], avoid);
      } else {
        PassKeepsOrder(s, queue[1..], avoid);
      }
    }
  }

  /** In avoid mode a safe state stays safe over the whole pass. */
  lemma {:induction false} PassKeepsSafe(s: State, queue: seq<Request>)
    requires Shape(s) && WellFormedQueue(s, queue) && Safe(s)
    ensures Safe(Pass(s, queue, true).state)
    decreases |queue|
  {
    if queue != [] {
      if Grantable(s, queue[0], true) {
        PassKeepsSafe(Grant(s, queue[0]), queue[1..]);
      } else {
        PassKeepsSafe(s, queue[1..]);
      }
    }
  }

  ghost predicate WithinMaximum(s: State, r: Request)
    requires Shape(s) && WellFormedRequest(s, r)
  {
    forall j | 0 <= j < |r.amount| :: 0 <= r.amount[j] <= s.max[r.thread][j] - s.alloc[r.thread][j]
  }

  /** A safe state in which every live thread waits, and some thread is live, is not
      refused everywhere: the first thread of any safe order can be served. */
  lemma SafeStateServesSomeone(s: State, queue: seq<Request>)
    requires Shape(s) && AllocNonNegative(s) && WellFormedQueue(s, queue) && Safe(s)
    requires forall i | 0 <= i < |queue| :: WithinMaximum(s, queue[i])
    requires exists t: nat :: t < |s.live| && s.live[t]
    requires forall t: nat | t < |s.live| && s.live[t] :: exists i :: 0 <= i < |queue| && queue[i].thread == t
    ensures exists i :: 0 <= i < |queue| && Grantable(s, queue[i], true)
  {
    var order :| FinishesInTurn(s, order) && CoversLive(s, order);
    var someone: nat :| someone < |s.live| && s.live[someone];
    assert someone in order;
    var i :| 0 <= i < |queue| && queue[i].thread == order[0];
    FirstInOrderIsGrantable(s, order, queue[i]);
  }

  /** ... so the pass grants at least one request. */
  lemma PassMakesProgress(s: State, queue: seq<Request>)
    requires Shape(s) && AllocNonNegative(s) && WellFormedQueue(s, queue) && Safe(s)
    requires forall i | 0 <= i < |queue| :: WithinMaximum(s, queue[i])
    requires exists t: nat :: t < |s.live| && s.live[t]
    requires forall t: nat | t < |s.live| && s.live[t] :: exists i :: 0 <= i < |queue| && queue[i].thread == t
    ensures |Pass(s, queue, true).granted| > 0
  {
    SafeStateServesSomeone(s, queue);
    NothingGrantedMeansRefused(s, queue, true);
  }

  lemma {:induction false} NothingGrantedMeansRefused(s: State, queue: seq<Request>, avoid: bool)
    requires Shape(s) && WellFormedQueue(s, queue)
    ensures Pass(s, queue, avoid).granted == [] ==> AllRefused(s, queue, avoid)
  {
    if queue != [] && !Grantable(s, queue[0], avoid) {
      NothingGrantedMeansRefused(s, queue[1..], avoid);
      if Pass(s, queue, avoid).granted == [] {
        forall i | 0 <= i < |queue| ensures !Grantable(s, queue[i], avoid) {
          if i > 0 { assert queue[1..][i - 1] == queue[i]; }
        }
      }
    }
  }
}
