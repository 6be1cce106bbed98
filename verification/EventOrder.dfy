/** The event order of LA3 and when it is an order at all. */
module EventOrder {

  const ARRIVAL := 1
  const BURST_END := 2
  const IO_END := 3
  const TIMEOUT := 4

  datatype Event = Event(process: nat, time: int, kind: int)

  /** Lines 61-70; `ids[p]` is the id of process p in the input file. */
  predicate Comp(ids: seq<int>, a: Event, b: Event)
    requires a.process < |ids| && b.process < |ids|
  {
    if a.time != b.time then a.time < b.time
    else if (a.kind == ARRIVAL || a.kind == IO_END) && b.kind == TIMEOUT then true
    else if a.kind == TIMEOUT && (b.kind == ARRIVAL || b.kind == IO_END) then false
    else ids[a.process] < ids[b.process]
  }

  predicate OnCpu(e: Event) {
    e.kind == BURST_END || e.kind == TIMEOUT
  }

  /** `comp` runs in a circle over an arrival, a timeout and a burst end at the same time. */
  lemma CompIsNotTransitive()
    ensures var ids, a, b, c := [5, 1, 3], Event(0, 7, ARRIVAL), Event(1, 7, TIMEOUT), Event(2, 7, BURST_END);
            Comp(ids, a, b) && Comp(ids, b, c) && Comp(ids, c, a)
  {
  }

  ghost predicate Known(e: Event) {
    e.kind in {ARRIVAL, BURST_END, IO_END, TIMEOUT}
  }

  /** A process joins the queue, another times out, a third ends its burst, all at once, and
      the ids ascend from the timeout over the burst end to the joining process. */
  ghost predicate Circle(ids: seq<int>, joins: Event, timeout: Event, end: Event)
    requires joins.process < |ids| && timeout.process < |ids| && end.process < |ids|
  {
    && joins.time == timeout.time == end.time
    && (joins.kind == ARRIVAL || joins.kind == IO_END) && timeout.kind == TIMEOUT && end.kind == BURST_END
    && ids[timeout.process] < ids[end.process] < ids[joins.process]
  }

  /** These are the only circles. */
  lemma CirclesAreExactly(ids: seq<int>, a: Event, b: Event, c: Event)
    requires a.process < |ids| && b.process < |ids| && c.process < |ids|
    requires Known(a) && Known(b) && Known(c)
    ensures Comp(ids, a, b) && Comp(ids, b, c) && Comp(ids, c, a)
       <==> Circle(ids, a, b, c) || Circle(ids, b, c, a) || Circle(ids, c, a, b)
  {
  }

  ghost predicate DistinctIds(ids: seq<int>) {
    forall p, q | 0 <= p < q < |ids| :: ids[p] != ids[q]
  }

  /** What every reachable heap satisfies: one event per process, one event of the CPU. */
  ghost predicate Orderly(ids: seq<int>, events: multiset<Event>) {
    && DistinctIds(ids)
    && (forall e | e in events :: e.process < |ids| && Known(e))
    && (forall e, f | e in events && f in events && e.process == f.process :: e == f)
    && (forall e, f | e in events && f in events && OnCpu(e) && OnCpu(f) :: e == f)
  }

  /** The circle needs two CPU events; without them `comp` is a strict total order. */
  lemma CompIsOrderWhenOrderly(ids: seq<int>, events: multiset<Event>, a: Event, b: Event, c: Event)
    requires Orderly(ids, events) && a in events && b in events && c in events
    ensures !Comp(ids, a, a)
    ensures a != b ==> (Comp(ids, a, b) <==> !Comp(ids, b, a))
    ensures Comp(ids, a, b) && Comp(ids, b, c) ==> Comp(ids, a, c)
  {
  }

  /** Not after: what the heap keeps between a parent and its children. */
  predicate Le(ids: seq<int>, a: Event, b: Event)
    requires a.process < |ids| && b.process < |ids|
  {
    !Comp(ids, b, a)
  }

  lemma LeIsPreorder(ids: seq<int>, events: multiset<Event>, a: Event, b: Event, c: Event)
    requires Orderly(ids, events) && a in events && b in events && c in events
    ensures Le(ids, a, a) && (Le(ids, a, b) || Le(ids, b, a))
    ensures Comp(ids, a, b) ==> Le(ids, a, b)
    ensures Le(ids, a, b) && Le(ids, b, c) ==> Le(ids, a, c)
  {
    CompIsOrderWhenOrderly(ids, events, a, b, a);
    CompIsOrderWhenOrderly(ids, events, b, c, b);
    CompIsOrderWhenOrderly(ids, events, c, b, a);
    CompIsOrderWhenOrderly(ids, events, a, c, a);
  }
}
