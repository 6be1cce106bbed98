/** LA5: what becomes of the numbers drawn.  Every draw of the leader and of the followers enters
    exactly one round's sum, and no sum holds anything else. */
module TurnDraws {
  import opened SumTable
  import opened TurnRing

  /** The number that action `a` takes from `rand`. */
  ghost function Used(s: Ring, n: nat, a: Action): int
    requires Shape(s, n) && Enabled(s, n, a)
  {
    match a
    case Join => 0
    case Lead(draw) => if s.leader == Drawing then draw else 0
    case Follow(id, draw) => if s.followers[id - 1] == Writing then draw else 0
  }

  /** What the slots written in this round add up to. */
  function Recorded(slots: seq<int>, written: seq<nat>): int
    requires |slots| == |written|
  {
    if slots == [] then 0
    else
      var last := |slots| - 1;
      Recorded(slots[..last], written[..last]) + if written[last] > 0 then slots[last] else 0
  }

  lemma {:induction false} NothingRecorded(slots: seq<int>, written: seq<nat>)
    requires |slots| == |written| && forall i | 0 <= i < |written| :: written[i] == 0
    ensures Recorded(slots, written) == 0
  {
    if slots != [] { NothingRecorded(slots[..|slots| - 1], written[..|slots| - 1]); }
  }

  lemma {:induction false} AllRecorded(slots: seq<int>, written: seq<nat>)
    requires |slots| == |written| && forall i | 0 <= i < |written| :: written[i] > 0
    ensures Recorded(slots, written) == Total(slots)
  {
    if slots != [] { AllRecorded(slots[..|slots| - 1], written[..|slots| - 1]); }
  }

  lemma {:induction false} OneMoreRecorded(slots: seq<int>, written: seq<nat>, i: nat, draw: int)
    requires |slots| == |written| && i < |slots| && written[i] == 0
    ensures Recorded(slots[i := draw], written[i := 1]) == Recorded(slots, written) + draw
  {
    var last := |slots| - 1;
    if i == last {
      assert slots[i := draw][..last] == slots[..last] && written[i := 1][..last] == written[..last];
    } else {
      assert slots[i := draw][..last] == slots[..last][i := draw];
      assert written[i := 1][..last] == written[..last][i := 1];
      OneMoreRecorded(slots[..last], written[..last], i, draw);
    }
  }

  /** What this round's draws add up to so far, if its sum is not in the log yet. */
  ghost function Pending(s: Ring): int
    requires |s.slots| == |s.written|
  {
    match s.leader
    case Waiting => Recorded(s.slots, s.written)
    case Drawing => Recorded(s.slots, s.written)
    case Summing(_, _) => s.drawn + Recorded(s.slots, s.written)
    case _ => 0
  }

  ghost function Accounted(s: Ring): int
    requires |s.slots| == |s.written|
  {
    Total(s.log) + s.duplicate + Pending(s)
  }

  lemma LeaderAccounts(s: Ring, n: nat, draw: int)
    requires Inv(s, n) && Enabled(s, n, Lead(draw))
    ensures Accounted(Step(s, n, Lead(draw))) == Accounted(s) + Used(s, n, Lead(draw))
  {
    if s.leader == Opening { NothingRecorded(s.slots, Unwritten(n)); }
    if s.leader.Summing? && s.leader.i == n + 1 {
      forall i | 0 <= i < n ensures s.written[i] > 0 { assert SlotOk(s, i); }
      AllRecorded(s.slots, s.written);
      assert s.slots[..n] == s.slots;
      StopsExactlyOnDuplicate(s, n, draw);
    }
  }

  lemma FollowerAccounts(s: Ring, n: nat, id: nat, draw: int)
    requires Inv(s, n) && Enabled(s, n, Follow(id, draw))
    ensures Accounted(Step(s, n, Follow(id, draw))) == Accounted(s) + Used(s, n, Follow(id, draw))
  {
    assert FollowerOk(s, n, id - 1);
    if s.followers[id - 1] == Writing {
      assert SlotOk(s, id - 1);
      OneMoreRecorded(s.slots, s.written, id - 1, draw);
    }
  }

  ghost function UsedIn(s: Ring, n: nat, run: seq<Action>): int
    requires Shape(s, n) && ValidRun(s, n, run)
    decreases |run|
  {
    if run == [] then 0 else Used(s, n, run[0]) + UsedIn(Step(s, n, run[0]), n, run[1..])
  }

  lemma {:induction false} RunAccounts(s: Ring, n: nat, run: seq<Action>)
    requires Inv(s, n) && ValidRun(s, n, run)
    ensures Inv(End(s, n, run), n) && Accounted(End(s, n, run)) == Accounted(s) + UsedIn(s, n, run)
    decreases |run|
  {
    if run != [] {
      var a := run[0];
      StepKeepsInvariant(s, n, a);
      if a.Lead? { LeaderAccounts(s, n, a.draw); } else if a.Follow? { FollowerAccounts(s, n, a.id, a.draw); }
      RunAccounts(Step(s, n, a), n, run[1..]);
    }
  }

  /** When the leader is gone, the sums of all rounds, the last and repeated one included, add up to
      exactly the numbers drawn in the run: none is lost, counted twice or made up. */
  lemma EveryDrawIsCountedOnce(n: nat, run: seq<Action>)
    requires Fits(n) && ValidRun(Start(n), n, run)
    ensures var e := End(Start(n), n, run);
      e.leader == Gone ==> UsedIn(Start(n), n, run) == Total(e.log) + e.duplicate
  {
    StartInvariant(n);
    RunAccounts(Start(n), n, run);
  }

  /** Any number from 1 to 99 can be the leader's draw, and any from 1 to 9 a follower's; no other. */
  lemma DrawsAreThose(s: Ring, n: nat, id: nat, draw: int)
    requires Shape(s, n) && 1 <= id <= n
    ensures s.leader == Drawing ==> (Enabled(s, n, Lead(draw)) <==> 1 <= draw <= 99)
    ensures s.followers[id - 1] == Writing ==> (Enabled(s, n, Follow(id, draw)) <==> 1 <= draw <= 9)
  {
  }
}
