/** The resource state of LA8 and what it means for it to be safe.

    The program keeps three tables (`max_need`, `alloc`, `live`) and a vector
    `avail`.  Here they are one value, so that the safety of a state can be
    stated without mentioning any algorithm: some order of the live threads
    lets each of them reach its declared maximum in turn. */
module Banker {
  import opened Sequences

  datatype State = State(
    avail: seq<int>,          // one entry per resource type
    max: seq<seq<int>>,       // max[t][j]: declared maximum of thread t
    alloc: seq<seq<int>>,     // alloc[t][j]: what thread t holds
    live: seq<bool>           // threads that have not exited
  )

  datatype Request = Request(thread: nat, amount: seq<int>)

  ghost predicate Shape(s: State) {
    && |s.avail| >= 1
    && |s.max| == |s.alloc| == |s.live|
    && (forall t | 0 <= t < |s.max| :: |s.max[t]| == |s.avail|)
    && (forall t | 0 <= t < |s.alloc| :: |s.alloc[t]| == |s.avail|)
  }

  ghost predicate NonNegative(v: seq<int>) {
    forall j | 0 <= j < |v| :: v[j] >= 0
  }

  ghost predicate AllocNonNegative(s: State) {
    forall t | 0 <= t < |s.alloc| :: NonNegative(s.alloc[t])
  }

  ghost predicate WellFormedRequest(s: State, r: Request) {
    r.thread < |s.live| && |r.amount| == |s.avail|
  }

  function Plus(u: seq<int>, v: seq<int>): (w: seq<int>)
    requires |u| == |v|
    ensures |w| == |u|
    ensures forall j | 0 <= j < |u| :: w[j] == u[j] + v[j]
  {
    seq(|u|, j requires 0 <= j < |u| => u[j] + v[j])
  }

  function Minus(u: seq<int>, v: seq<int>): (w: seq<int>)
    requires |u| == |v|
    ensures |w| == |u|
    ensures forall j | 0 <= j < |u| :: w[j] == u[j] - v[j]
  {
    seq(|u|, j requires 0 <= j < |u| => u[j] - v[j])
  }

  // ----- Safety -----

  /** Units of resource j held by the threads below t that are in `done`. */
  ghost function Held(alloc: seq<seq<int>>, done: set<nat>, t: nat, j: nat): int
    requires t <= |alloc|
    requires forall i | 0 <= i < |alloc| :: j < |alloc[i]|
  {
    if t == 0 then 0
    else Held(alloc, done, t - 1, j) + if t - 1 in done then alloc[t - 1][j] else 0
  }

  /** What is free once every thread of `done` has finished and returned its units. */
  ghost function Work(s: State, done: set<nat>, j: nat): int
    requires Shape(s) && j < |s.avail|
  {
    s.avail[j] + Held(s.alloc, done, |s.alloc|, j)
  }

  ghost predicate CanFinish(s: State, done: set<nat>, t: nat)
    requires Shape(s) && t < |s.live|
  {
    forall j: nat | j < |s.avail| :: s.max[t][j] - s.alloc[t][j] <= Work(s, done, j)
  }

  ghost function Elems(order: seq<nat>): (e: set<nat>)
    ensures forall t: nat :: t in e <==> t in order
  {
    set t | t in order
  }

  /** The threads of `order` are live and can finish one after the other. */
  ghost predicate FinishesInTurn(s: State, order: seq<nat>)
    requires Shape(s)
  {
    && Distinct(order)
    && (forall k | 0 <= k < |order| :: order[k] < |s.live| && s.live[order[k]])
    && (forall k | 0 <= k < |order| :: CanFinish(s, Elems(order[..k]), order[k]))
  }

  ghost predicate CoversLive(s: State, order: seq<nat>) {
    forall t: nat | t < |s.live| && s.live[t] :: t in order
  }

  ghost predicate Safe(s: State)
    requires Shape(s)
  {
    exists order :: FinishesInTurn(s, order) && CoversLive(s, order)
  }

  // ----- Facts about Held -----

  lemma {:induction false} HeldMonotone(alloc: seq<seq<int>>, d: set<nat>, e: set<nat>, t: nat, j: nat)
    requires t <= |alloc|
    requires forall i | 0 <= i < |alloc| :: j < |alloc[i]| && NonNegative(alloc[i])
    requires d <= e
    ensures Held(alloc, d, t, j) <= Held(alloc, e, t, j)
  {
    if t > 0 { HeldMonotone(alloc, d, e, t - 1, j); }
  }

  lemma {:induction false} HeldAdd(alloc: seq<seq<int>>, d: set<nat>, x: nat, t: nat, j: nat)
    requires t <= |alloc|
    requires forall i | 0 <= i < |alloc| :: j < |alloc[i]|
    requires x !in d
    ensures Held(alloc, d + {x}, t, j) == Held(alloc, d, t, j) + if x < t then alloc[x][j] else 0
  {
    if t > 0 { HeldAdd(alloc, d, x, t - 1, j); }
  }

  /** Changing one row changes the sum by the difference, if the row is counted. */
  lemma {:induction false} HeldUpdate(alloc: seq<seq<int>>, x: nat, row: seq<int>, d: set<nat>, t: nat, j: nat)
    requires t <= |alloc| && x < |alloc| && j < |row|
    requires forall i | 0 <= i < |alloc| :: j < |alloc[i]|
    ensures Held(alloc[x := row], d, t, j)
         == Held(alloc, d, t, j) + if x < t && x in d then row[j] - alloc[x][j] else 0
  {
    if t > 0 { HeldUpdate(alloc, x, row, d, t - 1, j); }
  }

  lemma {:induction false} HeldNone(alloc: seq<seq<int>>, d: set<nat>, t: nat, j: nat)
    requires t <= |alloc|
    requires forall i | 0 <= i < |alloc| :: j < |alloc[i]| && (i in d ==> alloc[i][j] == 0)
    ensures Held(alloc, d, t, j) == 0
  {
    if t > 0 { HeldNone(alloc, d, t - 1, j); }
  }

  // ----- The greedy search finds an order exactly when there is one -----

  /** A finished set that no live thread can extend is everything, if the state is safe:
      the first thread of a safe order that is missing could have been added. */
  lemma StuckMeansUnsafe(s: State, done: set<nat>, order: seq<nat>)
    requires Shape(s) && AllocNonNegative(s)
    requires FinishesInTurn(s, order) && CoversLive(s, order)
    requires forall t: nat | t < |s.live| && s.live[t] && t !in done :: !CanFinish(s, done, t)
    ensures forall t: nat | t < |s.live| && s.live[t] :: t in done
  {
    var k := 0;
    while k < |order|
      invariant 0 <= k <= |order|
      invariant forall i | 0 <= i < k :: order[i] in done
    {
      if order[k] !in done {
        assert Elems(order[..k]) <= done;
        forall j: nat | j < |s.avail|
          ensures Work(s, Elems(order[..k]), j) <= Work(s, done, j)
        {
          HeldMonotone(s.alloc, Elems(order[..k]), done, |s.alloc|, j);
        }
        assert CanFinish(s, Elems(order[..k]), order[k]);
        assert CanFinish(s, done, order[k]);
        assert false;
      }
      k := k + 1;
    }
  }

  lemma FinishOneMore(s: State, order: seq<nat>, t: nat)
    requires Shape(s) && FinishesInTurn(s, order)
    requires t < |s.live| && s.live[t] && t !in order && CanFinish(s, Elems(order), t)
    ensures FinishesInTurn(s, order + [t])
    ensures Elems(order + [t]) == Elems(order) + {t}
    ensures forall j: nat | j < |s.avail| ::
              Work(s, Elems(order + [t]), j) == Work(s, Elems(order), j) + s.alloc[t][j]
  {
    var longer := order + [t];
    forall k | 0 <= k < |longer|
      ensures CanFinish(s, Elems(longer[..k]), longer[k])
    {
      assert longer[..k] == order[..k];
      assert order[..|order|] == order;
    }
    forall j: nat | j < |s.avail|
      ensures Work(s, Elems(longer), j) == Work(s, Elems(order), j) + s.alloc[t][j]
    {
      assert Elems(longer) == Elems(order) + {t};
      HeldAdd(s.alloc, Elems(order), t, |s.alloc|, j);
    }
  }

  // ----- Granting, and why less granted is safer -----

  function Grant(s: State, r: Request): State
    requires r.thread < |s.alloc| && |r.amount| == |s.avail| == |s.alloc[r.thread]|
  {
    s.(avail := Minus(s.avail, r.amount),
       alloc := s.alloc[r.thread := Plus(s.alloc[r.thread], r.amount)])
  }

  predicate Fits(s: State, r: Request)
    requires |r.amount| == |s.avail|
  {
    forall j | 0 <= j < |r.amount| :: r.amount[j] <= s.avail[j]
  }

  /** What the resource manager grants: with deadlock avoidance the state after must be safe. */
  ghost predicate Grantable(s: State, r: Request, avoid: bool)
    requires Shape(s) && WellFormedRequest(s, r)
  {
    Fits(s, r) && (avoid ==> Safe(Grant(s, r)))
  }

  lemma WorkAfterGrant(s: State, r: Request, done: set<nat>, j: nat)
    requires Shape(s) && WellFormedRequest(s, r) && j < |s.avail|
    ensures Work(Grant(s, r), done, j) == Work(s, done, j) - if r.thread in done then 0 else r.amount[j]
  {
    HeldUpdate(s.alloc, r.thread, Plus(s.alloc[r.thread], r.amount), done, |s.alloc|, j);
  }

  /** Taking a grant back keeps a safe order: the thread needs that much more, but
      exactly that much more is free for it and for everyone before it. */
  lemma OrderSurvivesReturn(s: State, r: Request, order: seq<nat>)
    requires Shape(s) && WellFormedRequest(s, r) && NonNegative(r.amount)
    requires FinishesInTurn(Grant(s, r), order)
    ensures FinishesInTurn(s, order)
  {
    var g := Grant(s, r);
    forall k | 0 <= k < |order|
      ensures CanFinish(s, Elems(order[..k]), order[k])
    {
      var done := Elems(order[..k]);
      assert CanFinish(g, done, order[k]);
      forall j: nat | j < |s.avail|
        ensures s.max[order[k]][j] - s.alloc[order[k]][j] <= Work(s, done, j)
      {
        WorkAfterGrant(s, r, done, j);
        assert g.max[order[k]][j] - g.alloc[order[k]][j] <= Work(g, done, j);
      }
    }
  }

  lemma SafeBeforeGrant(s: State, r: Request)
    requires Shape(s) && WellFormedRequest(s, r) && NonNegative(r.amount)
    requires Safe(Grant(s, r))
    ensures Safe(s)
  {
    var order :| FinishesInTurn(Grant(s, r), order) && CoversLive(Grant(s, r), order);
    OrderSurvivesReturn(s, r, order);
  }

  lemma GrantsCommute(s: State, a: Request, b: Request)
    requires Shape(s) && WellFormedRequest(s, a) && WellFormedRequest(s, b)
    ensures Grant(Grant(s, a), b) == Grant(Grant(s, b), a)
  {
    var ab, ba := Grant(Grant(s, a), b), Grant(Grant(s, b), a);
    assert ab.avail == ba.avail;
    forall t | 0 <= t < |s.alloc| ensures ab.alloc[t] == ba.alloc[t] {
    }
    assert ab.alloc == ba.alloc;
  }

  /** A refused request stays refused after any other grant. */
  lemma RefusalIsMonotone(s: State, refused: Request, other: Request, avoid: bool)
    requires Shape(s) && WellFormedRequest(s, refused) && WellFormedRequest(s, other)
    requires NonNegative(refused.amount) && NonNegative(other.amount)
    requires !Grantable(s, refused, avoid)
    ensures !Grantable(Grant(s, other), refused, avoid)
  {
    var g := Grant(s, other);
    if Grantable(g, refused, avoid) {
      forall j | 0 <= j < |refused.amount| ensures refused.amount[j] <= s.avail[j] {
        assert g.avail[j] == s.avail[j] - other.amount[j];
        assert refused.amount[j] <= g.avail[j];
      }
      if avoid {
        GrantsCommute(s, refused, other);
        SafeBeforeGrant(Grant(s, refused), other);
      }
    }
  }

  /** The first thread of a safe order can be given any request within its maximum. */
  lemma FirstInOrderIsGrantable(s: State, order: seq<nat>, r: Request)
    requires Shape(s) && WellFormedRequest(s, r)
    requires FinishesInTurn(s, order) && CoversLive(s, order)
    requires |order| > 0 && order[0] == r.thread
    requires NonNegative(s.alloc[r.thread])
    requires forall j | 0 <= j < |r.amount| :: 0 <= r.amount[j] <= s.max[r.thread][j] - s.alloc[r.thread][j]
    ensures Grantable(s, r, true)
  {
    var g := Grant(s, r);
    assert CanFinish(s, Elems(order[..0]), order[0]);
    forall j: nat | j < |s.avail|
      ensures Held(s.alloc, Elems(order[..0]), |s.alloc|, j) == 0
    {
      HeldNone(s.alloc, Elems(order[..0]), |s.alloc|, j);
    }
    forall j: nat | j < |s.avail|
      ensures r.amount[j] <= s.avail[j]
    {
      assert s.max[r.thread][j] - s.alloc[r.thread][j] <= Work(s, Elems(order[..0]), j);
    }
    forall k | 0 <= k < |order|
      ensures CanFinish(g, Elems(order[..k]), order[k])
    {
      var done := Elems(order[..k]);
      assert CanFinish(s, done, order[k]);
      if k > 0 { assert order[..k][0] == r.thread; }
      forall j: nat | j < |s.avail|
        ensures g.max[order[k]][j] - g.alloc[order[k]][j] <= Work(g, done, j)
      {
        assert s.max[order[k]][j] - s.alloc[order[k]][j] <= Work(s, done, j);
        WorkAfterGrant(s, r, done, j);
      }
    }
    assert FinishesInTurn(g, order) && CoversLive(g, order);
  }

  // ----- Exit and release -----

  function Retire(s: State, t: nat): State
    requires t < |s.alloc| == |s.live| && |s.alloc[t]| == |s.avail|
  {
    s.(avail := Plus(s.avail, s.alloc[t]),
       alloc := s.alloc[t := seq(|s.avail|, j => 0)],
       live := s.live[t := false])
  }

  /** Without t among the finished, the others still have what they had before:
      t has given its units back for good. */
  lemma RetireKeepsFinisher(s: State, t: nat, before: set<nat>, after: set<nat>, x: nat)
    requires Shape(s) && AllocNonNegative(s) && t < |s.live|
    requires Shape(Retire(s, t))
    requires x < |s.live| && x != t && t !in after && before <= after + {t}
    requires CanFinish(s, before, x)
    ensures CanFinish(Retire(s, t), after, x)
  {
    var g := Retire(s, t);
    forall j: nat | j < |s.avail|
      ensures g.max[x][j] - g.alloc[x][j] <= Work(g, after, j)
    {
      assert s.max[x][j] - s.alloc[x][j] <= Work(s, before, j);
      HeldMonotone(s.alloc, before, after + {t}, |s.alloc|, j);
      HeldAdd(s.alloc, after, t, |s.alloc|, j);
      HeldUpdate(s.alloc, t, g.alloc[t], after, |s.alloc|, j);
    }
  }

  lemma PrefixWithout(order: seq<nat>, p: nat, k: nat)
    requires p < |order| && k < |order| - 1 && Distinct(order)
    ensures order[p] !in Elems(Without(order, p)[..k])
    ensures Elems(order[..if k < p then k else k + 1]) <= Elems(Without(order, p)[..k]) + {order[p]}
  {
    var rest := Without(order, p);
    var q := if k < p then k else k + 1;
    forall x | x in Elems(order[..q]) ensures x in Elems(rest[..k]) + {order[p]} {
      var i :| 0 <= i < q && order[i] == x;
      if i < p { assert rest[..k][i] == x; } else if i > p { assert rest[..k][i - 1] == x; }
    }
    forall i | 0 <= i < k ensures rest[..k][i] != order[p] {
      assert rest[i] == order[if i < p then i else i + 1];
    }
  }

  lemma OrderWithoutRetired(s: State, order: seq<nat>, p: nat)
    requires Shape(s) && AllocNonNegative(s) && FinishesInTurn(s, order) && p < |order|
    requires Shape(Retire(s, order[p]))
    ensures FinishesInTurn(Retire(s, order[p]), Without(order, p))
  {
    var rest := Without(order, p);
    forall k | 0 <= k < |rest|
      ensures CanFinish(Retire(s, order[p]), Elems(rest[..k]), rest[k])
    {
      var q := if k < p then k else k + 1;
      assert rest[k] == order[q];
      PrefixWithout(order, p, k);
      RetireKeepsFinisher(s, order[p], Elems(order[..q]), Elems(rest[..k]), rest[k]);
    }
  }

  /** A thread that exits leaves the rest of every safe order in place. */
  lemma SafeAfterRetire(s: State, t: nat)
    requires Shape(s) && AllocNonNegative(s) && t < |s.live| && s.live[t]
    requires Safe(s)
    ensures Shape(Retire(s, t)) && Safe(Retire(s, t))
  {
    var order :| FinishesInTurn(s, order) && CoversLive(s, order);
    var p :| 0 <= p < |order| && order[p] == t;
    OrderWithoutRetired(s, order, p);
    var rest := Without(order, p);
    forall x: nat | x < |s.live| && Retire(s, t).live[x] ensures x in rest {
      var i :| 0 <= i < |order| && order[i] == x;
      assert rest[if i < p then i else i - 1] == x;
    }
    assert CoversLive(Retire(s, t), rest);
  }
}
