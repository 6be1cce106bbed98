/** The binary heap of LA3: `heapify`, `insert` and `min` on one array. */
module EventHeap {
  import opened EventOrder

  function Parent(i: nat): nat
    requires i > 0
  {
    (i - 1) / 2
  }

  ghost predicate Indexed(ids: seq<int>, h: seq<Event>) {
    forall i | 0 <= i < |h| :: h[i].process < |ids|
  }

  /** No child comes before its parent, except possibly below `hole`; what is below `hole`
      is in order with what is above it. */
  ghost predicate HeapBelow(ids: seq<int>, h: seq<Event>, hole: nat)
    requires Indexed(ids, h)
  {
    && (forall i: nat | 0 < i < |h| && Parent(i) != hole :: Le(ids, h[Parent(i)], h[i]))
    && (hole > 0 ==> forall i: nat | 0 < i < |h| && Parent(i) == hole :: Le(ids, h[Parent(hole)], h[i]))
  }

  /** The same with the trouble between `hole` and its parent. */
  ghost predicate HeapAbove(ids: seq<int>, h: seq<Event>, hole: nat)
    requires Indexed(ids, h)
  {
    && (forall i: nat | 0 < i < |h| && i != hole :: Le(ids, h[Parent(i)], h[i]))
    && (hole > 0 ==> forall i: nat | 0 < i < |h| && Parent(i) == hole :: Le(ids, h[Parent(hole)], h[i]))
  }

  ghost predicate IsHeap(ids: seq<int>, h: seq<Event>)
    requires Indexed(ids, h)
  {
    forall i: nat | 0 < i < |h| :: Le(ids, h[Parent(i)], h[i])
  }

  function Swap(h: seq<Event>, i: nat, j: nat): (s: seq<Event>)
    requires i < |h| && j < |h|
    ensures |s| == |h|
  {
    h[i := h[j]][j := h[i]]
  }

  /** The sequence form of Orderly. */
  ghost predicate Sound(ids: seq<int>, h: seq<Event>) {
    && DistinctIds(ids)
    && (forall i | 0 <= i < |h| :: h[i].process < |ids| && Known(h[i]))
    && (forall i, j | 0 <= i < j < |h| :: h[i].process != h[j].process)
    && (forall i, j | 0 <= i < j < |h| :: !OnCpu(h[i]) || !OnCpu(h[j]))
  }

  lemma OrderAt(ids: seq<int>, h: seq<Event>, i: nat, j: nat, k: nat)
    requires Sound(ids, h) && i < |h| && j < |h| && k < |h|
    ensures Le(ids, h[i], h[i])
    ensures Comp(ids, h[i], h[j]) ==> Le(ids, h[i], h[j])
    ensures Le(ids, h[i], h[j]) && Le(ids, h[j], h[k]) ==> Le(ids, h[i], h[k])
  {
    var events := multiset{h[i], h[j], h[k]};
    LeIsPreorder(ids, events, h[i], h[j], h[k]);
  }

  lemma SoundFromOrderly(ids: seq<int>, h: seq<Event>)
    requires Orderly(ids, multiset(h))
    requires forall e | e in multiset(h) :: multiset(h)[e] == 1
    ensures Sound(ids, h)
  {
    forall i, j | 0 <= i < j < |h| ensures h[i] != h[j] {
      OccursTwice(h, i, j);
    }
  }

  lemma OccursTwice(h: seq<Event>, i: nat, j: nat)
    requires i < j < |h|
    ensures h[i] == h[j] ==> multiset(h)[h[i]] >= 2
  {
    assert h == h[..j] + [h[j]] + h[j + 1..];
    assert h[i] in multiset(h[..j]) by { assert h[..j][i] == h[i]; }
  }

  lemma SwapIsSound(ids: seq<int>, h: seq<Event>, i: nat, j: nat)
    requires Sound(ids, h) && i < |h| && j < |h|
    ensures Sound(ids, Swap(h, i, j))
  {
  }

  /** Moving the least child up repairs its place and leaves the trouble below it. */
  lemma SiftDownStep(ids: seq<int>, h: seq<Event>, hole: nat, sm: nat)
    requires Sound(ids, h) && HeapBelow(ids, h, hole)
    requires 0 < sm < |h| && Parent(sm) == hole && Comp(ids, h[sm], h[hole])
    requires forall i: nat | 0 < i < |h| && Parent(i) == hole :: Le(ids, h[sm], h[i])
    ensures Sound(ids, Swap(h, hole, sm)) && HeapBelow(ids, Swap(h, hole, sm), sm)
  {
    var s := Swap(h, hole, sm);
    SwapIsSound(ids, h, hole, sm);
    forall i: nat | 0 < i < |s| && Parent(i) != sm
      ensures Le(ids, s[Parent(i)], s[i])
    {
      OrderAt(ids, h, sm, hole, hole);
    }
  }

  lemma SiftUpStep(ids: seq<int>, h: seq<Event>, hole: nat)
    requires Sound(ids, h) && HeapAbove(ids, h, hole) && 0 < hole < |h|
    requires Comp(ids, h[hole], h[Parent(hole)])
    ensures Sound(ids, Swap(h, hole, Parent(hole))) && HeapAbove(ids, Swap(h, hole, Parent(hole)), Parent(hole))
  {
    var p := Parent(hole);
    var s := Swap(h, hole, p);
    SwapIsSound(ids, h, hole, p);
    forall i: nat | 0 < i < |s| && i != p
      ensures Le(ids, s[Parent(i)], s[i])
    {
      OrderAt(ids, h, hole, p, i);
    }
    if p > 0 {
      forall i: nat | 0 < i < |s| && Parent(i) == p
        ensures Le(ids, s[Parent(p)], s[i])
      {
        OrderAt(ids, h, Parent(p), p, i);
      }
    }
  }

  /** The root of a heap comes before everything else in it. */
  lemma {:induction false} RootIsLeast(ids: seq<int>, h: seq<Event>, i: nat)
    requires Sound(ids, h) && IsHeap(ids, h) && i < |h|
    ensures Le(ids, h[0], h[i])
  {
    if i > 0 {
      RootIsLeast(ids, h, Parent(i));
      OrderAt(ids, h, 0, Parent(i), i);
    } else {
      OrderAt(ids, h, 0, 0, 0);
    }
  }

  /** Lines 75-79: the position of the least of h[i] and its children. */
  function Least(ids: seq<int>, h: seq<Event>, i: nat): (sm: nat)
    requires Indexed(ids, h) && i < |h|
    ensures sm == i || (0 < sm < |h| && Parent(sm) == i)
  {
    var l, r := 2 * i + 1, 2 * i + 2;
    var s := if l < |h| && Comp(ids, h[l], h[i]) then l else i;
    if r < |h| && Comp(ids, h[r], h[s]) then r else s
  }

  lemma LeastIsLeast(ids: seq<int>, h: seq<Event>, idx: nat)
    requires Sound(ids, h) && idx < |h|
    ensures var sm := Least(ids, h, idx);
      && (sm != idx ==> Comp(ids, h[sm], h[idx]))
      && (forall i: nat | 0 < i < |h| && Parent(i) == idx :: Le(ids, h[sm], h[i]))
  {
    var sm, l, r := Least(ids, h, idx), 2 * idx + 1, 2 * idx + 2;
    forall i: nat | 0 < i < |h| && Parent(i) == idx ensures Le(ids, h[sm], h[i]) {
      assert i == l || i == r;
      OrderAt(ids, h, sm, sm, sm);
      if sm == r && l < |h| { OrderAt(ids, h, r, idx, l); OrderAt(ids, h, r, l, l); }
    }
    if sm == r && l < |h| && Comp(ids, h[l], h[idx]) {
      CompIsOrderWhenOrderly(ids, multiset{h[r], h[l], h[idx]}, h[r], h[l], h[idx]);
    }
  }

  function SiftDown(ids: seq<int>, h: seq<Event>, i: nat): (s: seq<Event>)
    requires Indexed(ids, h) && i < |h|
    ensures |s| == |h| && Indexed(ids, s)
    decreases |h| - i
  {
    var sm := Least(ids, h, i);
    if sm == i then h else SiftDown(ids, Swap(h, i, sm), sm)
  }

  function SiftUp(ids: seq<int>, h: seq<Event>, i: nat): (s: seq<Event>)
    requires Indexed(ids, h) && i < |h|
    ensures |s| == |h| && Indexed(ids, s)
    decreases i
  {
    if i > 0 && Comp(ids, h[i], h[Parent(i)]) then SiftUp(ids, Swap(h, i, Parent(i)), Parent(i)) else h
  }

  lemma SwapPermutes(h: seq<Event>, i: nat, j: nat)
    requires i < |h| && j < |h|
    ensures multiset(Swap(h, i, j)) == multiset(h)
  {
  }

  lemma {:induction false} SiftDownPermutes(ids: seq<int>, h: seq<Event>, i: nat)
    requires Indexed(ids, h) && i < |h|
    ensures multiset(SiftDown(ids, h, i)) == multiset(h)
    decreases |h| - i
  {
    var sm := Least(ids, h, i);
    if sm != i {
      SwapPermutes(h, i, sm);
      SiftDownPermutes(ids, Swap(h, i, sm), sm);
    }
  }

  lemma {:induction false} SiftUpPermutes(ids: seq<int>, h: seq<Event>, i: nat)
    requires Indexed(ids, h) && i < |h|
    ensures multiset(SiftUp(ids, h, i)) == multiset(h)
    decreases i
  {
    if i > 0 && Comp(ids, h[i], h[Parent(i)]) {
      SwapPermutes(h, i, Parent(i));
      SiftUpPermutes(ids, Swap(h, i, Parent(i)), Parent(i));
    }
  }

  lemma {:induction false} SiftDownRestores(ids: seq<int>, h: seq<Event>, i: nat)
    requires Sound(ids, h) && i < |h| && HeapBelow(ids, h, i)
    ensures Sound(ids, SiftDown(ids, h, i)) && IsHeap(ids, SiftDown(ids, h, i))
    decreases |h| - i
  {
    LeastIsLeast(ids, h, i);
    var sm := Least(ids, h, i);
    if sm != i {
      SiftDownStep(ids, h, i, sm);
      SiftDownRestores(ids, Swap(h, i, sm), sm);
    }
  }

  lemma {:induction false} SiftUpRestores(ids: seq<int>, h: seq<Event>, i: nat)
    requires Sound(ids, h) && i < |h| && HeapAbove(ids, h, i)
    ensures Sound(ids, SiftUp(ids, h, i)) && IsHeap(ids, SiftUp(ids, h, i))
    decreases i
  {
    if i > 0 {
      if Comp(ids, h[i], h[Parent(i)]) {
        SiftUpStep(ids, h, i);
        SiftUpRestores(ids, Swap(h, i, Parent(i)), Parent(i));
      } else {
        assert Le(ids, h[Parent(i)], h[i]);
      }
    }
  }

  /** What `insert` leaves in the array, and `min` after taking h[0]. */
  function Inserted(ids: seq<int>, h: seq<Event>, e: Event): seq<Event>
    requires Indexed(ids, h) && e.process < |ids|
  {
    SiftUp(ids, h + [e], |h|)
  }

  function Removed(ids: seq<int>, h: seq<Event>): seq<Event>
    requires Indexed(ids, h) && |h| > 0
  {
    if |h| == 1 then [] else SiftDown(ids, h[..|h| - 1][0 := h[|h| - 1]], 0)
  }

  lemma InsertedIsHeap(ids: seq<int>, h: seq<Event>, e: Event)
    requires Sound(ids, h) && IsHeap(ids, h) && e.process < |ids| && Sound(ids, h + [e])
    ensures Sound(ids, Inserted(ids, h, e)) && IsHeap(ids, Inserted(ids, h, e))
    ensures multiset(Inserted(ids, h, e)) == multiset(h) + multiset{e}
  {
    forall i: nat | 0 < i < |h + [e]| && i != |h| ensures Le(ids, (h + [e])[Parent(i)], (h + [e])[i]) {
    }
    SiftUpRestores(ids, h + [e], |h|);
    SiftUpPermutes(ids, h + [e], |h|);
  }

  lemma RemovedIsHeap(ids: seq<int>, h: seq<Event>)
    requires Sound(ids, h) && IsHeap(ids, h) && |h| > 0
    ensures Sound(ids, Removed(ids, h)) && IsHeap(ids, Removed(ids, h))
    ensures multiset(Removed(ids, h)) == multiset(h) - multiset{h[0]}
  {
    var last := |h| - 1;
    if last > 0 {
      var t := h[..last][0 := h[last]];
      forall i: nat | 0 < i < |t| && Parent(i) != 0 ensures Le(ids, t[Parent(i)], t[i]) {
        assert t[i] == h[i] && t[Parent(i)] == h[Parent(i)];
      }
      SiftDownRestores(ids, t, 0);
      SiftDownPermutes(ids, t, 0);
    }
    LastForFirst(h);
  }

  lemma LastForFirst(h: seq<Event>)
    requires |h| > 0
    ensures |h| == 1 ==> multiset(h) - multiset{h[0]} == multiset{}
    ensures |h| > 1 ==> multiset(h[..|h| - 1][0 := h[|h| - 1]]) == multiset(h) - multiset{h[0]}
  {
    var last := |h| - 1;
    if last > 0 {
      assert h == h[..last] + [h[last]];
      assert multiset(h) == multiset(h[..last]) + multiset{h[last]};
    } else {
      assert h == [h[0]];
    }
  }

  lemma HeapMinimum(ids: seq<int>, h: seq<Event>)
    requires Sound(ids, h) && IsHeap(ids, h) && |h| > 0
    ensures h[0] in multiset(h)
    ensures forall e | e in multiset(h) :: e.process < |ids| && Le(ids, h[0], e)
  {
    forall e | e in multiset(h) ensures e.process < |ids| && Le(ids, h[0], e) {
      var i :| 0 <= i < |h| && h[i] == e;
      RootIsLeast(ids, h, i);
    }
  }

  class Heap {
    const ids: seq<int>
    const eventHeap: array<Event>
    var heapSz: nat

    ghost function Items(): (h: seq<Event>)
      requires heapSz <= eventHeap.Length
      reads this, eventHeap
      ensures |h| == heapSz
    {
      eventHeap[..heapSz]
    }

    ghost predicate Valid()
      reads this, eventHeap
    {
      && heapSz <= eventHeap.Length
      && Sound(ids, Items())
      && IsHeap(ids, Items())
    }

    constructor (ids: seq<int>, capacity: nat)
      requires DistinctIds(ids)
      ensures Valid() && heapSz == 0 && this.ids == ids && fresh(eventHeap)
      ensures eventHeap.Length == capacity
    {
      this.ids := ids;
      eventHeap := new Event[capacity](i => Event(0, 0, ARRIVAL));
      heapSz := 0;
    }

    /** Line 173. */
    method Clear()
      requires Valid()
      modifies this`heapSz
      ensures Valid() && heapSz == 0
    {
      heapSz := 0;
    }

    /** Lines 44-49. */
    method SwapAt(i: nat, j: nat)
      requires i < heapSz <= eventHeap.Length && j < heapSz
      modifies eventHeap
      ensures Items() == Swap(old(Items()), i, j)
    {
      eventHeap[i], eventHeap[j] := eventHeap[j], eventHeap[i];
    }

    /** Lines 73-85. */
    method Heapify(idx: nat)
      requires heapSz <= eventHeap.Length && idx < heapSz && Indexed(ids, Items())
      modifies eventHeap
      ensures Items() == SiftDown(ids, old(Items()), idx)
      decreases heapSz - idx
    {
      var sm, l, r := idx, 2 * idx + 1, 2 * idx + 2;
      if l < heapSz && Comp(ids, eventHeap[l], eventHeap[sm]) {
        sm := l;
      }
      if r < heapSz && Comp(ids, eventHeap[r], eventHeap[sm]) {
        sm := r;
      }
      assert sm == Least(ids, Items(), idx);
      if sm != idx {
        SwapAt(sm, idx);
        assert Items() == Swap(old(Items()), idx, sm);
        Heapify(sm);
      }
    }

    /** Lines 89-102. */
    method PushUp(eve: Event)
      requires heapSz < eventHeap.Length && Indexed(ids, Items()) && eve.process < |ids|
      modifies this`heapSz, eventHeap
      ensures heapSz == old(heapSz) + 1 <= eventHeap.Length
      ensures Items() == Inserted(ids, old(Items()), eve)
    {
      ghost var target := Inserted(ids, Items(), eve);
      var idx := heapSz;
      heapSz := heapSz + 1;
      eventHeap[idx] := eve;
      assert Items() == old(Items()) + [eve];
      while idx > 0
        invariant idx < heapSz <= eventHeap.Length
        invariant Indexed(ids, Items())
        invariant SiftUp(ids, Items(), idx) == target
        modifies eventHeap
      {
        var par := (idx - 1) / 2;
        if Comp(ids, eventHeap[idx], eventHeap[par]) {
          SwapAt(idx, par);
          idx := par;
        } else {
          break;
        }
      }
    }

    /** Lines 87-103. */
    method Insert(eve: Event)
      requires Valid() && heapSz < eventHeap.Length
      requires eve.process < |ids| && Sound(ids, Items() + [eve])
      modifies this`heapSz, eventHeap
      ensures Valid() && heapSz == old(heapSz) + 1
      ensures multiset(Items()) == old(multiset(Items())) + multiset{eve}
    {
      InsertedIsHeap(ids, Items(), eve);
      PushUp(eve);
    }

    /** Lines 108-109. */
    method RemoveRoot()
      requires 0 < heapSz <= eventHeap.Length && Indexed(ids, Items())
      modifies this`heapSz, eventHeap
      ensures heapSz == old(heapSz) - 1
      ensures Items() == Removed(ids, old(Items()))
    {
      heapSz := heapSz - 1;
      eventHeap[0] := eventHeap[heapSz];
      if heapSz > 0 {
        assert Items() == old(Items())[..heapSz][0 := old(Items())[heapSz]];
        Heapify(0);
      }
    }

    /** Lines 105-111: takes out the event that comes before every other. */
    method Min() returns (minEve: Event)
      requires Valid() && heapSz > 0
      modifies this`heapSz, eventHeap
      ensures Valid() && heapSz == old(heapSz) - 1
      ensures minEve in old(multiset(Items()))
      ensures multiset(Items()) == old(multiset(Items())) - multiset{minEve}
      ensures forall e | e in old(multiset(Items())) :: e.process < |ids| && Le(ids, minEve, e)
    {
      HeapMinimum(ids, Items());
      RemovedIsHeap(ids, Items());
      minEve := eventHeap[0];
      RemoveRoot();
    }
  }
}
