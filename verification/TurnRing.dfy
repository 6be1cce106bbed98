/** LA5: the leader and its n followers, one action at a time.  Followers are numbered from 1 as in
    the program; follower i is element i - 1 of the sequences.

    An action is one access to the shared memory, except that `Polling` takes the up to three reads
    of `M[2]` with which a follower finds out that it has the turn (lines 17-19 of the follower) as
    one.  That loses no behaviour: a read that does not find the follower's number changes nothing,
    and once one does, nobody but that follower writes `M[2]` (`OnlyTheHolderWritesTheTurn`). */
module TurnRing {
  import opened SumTable
  import opened Sequences

  datatype LeaderPc = Joining | Opening | Waiting | Drawing | Summing(i: nat, sum: int) | Stopping | Draining | Gone

  datatype FollowerPc = Absent | Polling | Writing | Passing | Leaving | Left

  datatype Ring = Ring(
    joined: nat,                      // M[1]
    turn: int,                        // M[2]
    drawn: int,                       // M[3]
    slots: seq<int>,                  // M[4..]
    leader: LeaderPc,
    followers: seq<FollowerPc>,
    hash: seq<int>,
    log: seq<int>,                    // the sums put into the hash table, in order
    written: seq<nat>,                // how often each slot has been written in this round
    duplicate: int,                   // the sum that stopped the leader, 0 before
    rounds: nat                       // how often the leader has handed out the turn for a round
  )

  /** One step of the leader, of a joining follower, or of follower `id`; `draw` is what `rand`
      yields, reduced to the range the program reduces it to. */
  datatype Action = Join | Lead(draw: int) | Follow(id: nat, draw: int)

  predicate Fits(n: nat) {
    1 <= n <= 100
  }

  function Wait(n: nat): seq<FollowerPc> {
    seq(n, i => Absent)
  }

  function Zeros(n: nat): (z: seq<int>)
    ensures |z| == n && forall i | 0 <= i < n :: z[i] == 0
  {
    seq(n, i => 0)
  }

  function Unwritten(n: nat): (z: seq<nat>)
    ensures |z| == n && forall i | 0 <= i < n :: z[i] == 0
  {
    seq(n, i => 0)
  }

  function After(id: int, n: nat): int {
    if id == n then 0 else id + 1
  }

  predicate Enabled(s: Ring, n: nat, a: Action) {
    match a
    case Join => s.joined < n && |s.followers| == n
    case Lead(draw) =>
      match s.leader {
        case Joining => s.joined >= n
        case Waiting => s.turn == 0
        case Drawing => 1 <= draw <= 99
        case Draining => s.turn == 0
        case Gone => false
        case _ => true
      }
    case Follow(id, draw) =>
      1 <= id <= n == |s.followers| &&
      match s.followers[id - 1] {
        case Polling => s.turn == id || s.turn + id == 0
        case Writing => 1 <= draw <= 9
        case Passing => true
        case Leaving => true
        case _ => false
      }
  }

  predicate Shape(s: Ring, n: nat) {
    |s.slots| == |s.followers| == |s.written| == n && s.joined <= n
    && |s.hash| == TABLE && s.hash[0] == 0
    && (s.leader.Summing? ==> 1 <= s.leader.i <= n + 1)
  }

  /** Lines 68-108 of the leader. */
  function LeaderStep(s: Ring, n: nat, draw: int): Ring
    requires Shape(s, n)
  {
    match s.leader
    case Joining => s.(leader := Opening)
    case Opening => s.(turn := 1, leader := Waiting, written := Unwritten(n), rounds := s.rounds + 1)
    case Waiting => s.(leader := Drawing)
    case Drawing => s.(drawn := draw, leader := Summing(1, draw))
    case Summing(i, sum) =>
      if i <= n then s.(leader := Summing(i + 1, sum + s.slots[i - 1]))
      else
        var at := Find(s.hash, sum % TABLE, sum, 0);
        if s.hash[at] == sum then s.(leader := Stopping, duplicate := sum)
        else s.(leader := Opening, hash := s.hash[at := sum], log := s.log + [sum])
    case Stopping => s.(turn := -1, leader := Draining)
    case Draining => s.(leader := Gone)
    case Gone => s
  }

  /** Lines 15-41 of a follower. */
  function FollowerStep(s: Ring, n: nat, id: nat, draw: int): Ring
    requires Shape(s, n) && 1 <= id <= n
  {
    match s.followers[id - 1]
    case Polling => s.(followers := s.followers[id - 1 := if s.turn == id then Writing else Leaving])
    case Writing =>
      s.(slots := s.slots[id - 1 := draw], written := s.written[id - 1 := s.written[id - 1] + 1],
         followers := s.followers[id - 1 := Passing])
    case Passing => s.(turn := After(id, n), followers := s.followers[id - 1 := Polling])
    case Leaving => s.(turn := -After(id, n), followers := s.followers[id - 1 := Left])
    case _ => s
  }

  function Step(s: Ring, n: nat, a: Action): Ring
    requires Shape(s, n) && Enabled(s, n, a)
  {
    match a
    case Join => s.(joined := s.joined + 1, followers := s.followers[s.joined := Polling])
    case Lead(draw) => LeaderStep(s, n, draw)
    case Follow(id, draw) => FollowerStep(s, n, id, draw)
  }

  // ----- Who has the turn -----

  ghost predicate TurnOk(s: Ring, n: nat) {
    && Shape(s, n)
    && (s.leader != Waiting && s.leader != Draining ==> s.turn == 0)
    && (s.leader == Waiting ==> 0 <= s.turn <= n)
    && (s.leader == Draining ==> 0 <= s.turn + n <= n)
    && (s.leader != Joining ==> s.joined == n)
  }

  /** Where follower i + 1 can be. */
  ghost predicate FollowerOk(s: Ring, n: nat, i: nat)
    requires i < |s.followers|
  {
    var id := i + 1;
    match s.followers[i]
    case Absent => s.joined < id && s.leader == Joining
    case Polling => id <= s.joined && s.leader != Gone && (s.leader == Draining ==> s.turn != 0 && s.turn + id >= 0)
    case Writing => s.leader == Waiting && s.turn == id
    case Passing => s.leader == Waiting && s.turn == id
    case Leaving => s.leader == Draining && s.turn + id == 0
    case Left => s.leader == Gone || (s.leader == Draining && (s.turn == 0 || id + s.turn < 0))
  }

  ghost predicate FollowersOk(s: Ring, n: nat)
    requires |s.followers| == n
  {
    forall i | 0 <= i < n :: FollowerOk(s, n, i)
  }

  // ----- What the slots hold -----

  /** Follower i + 1 has written its slot in this round. */
  ghost predicate Wrote(s: Ring, i: nat)
    requires i < |s.followers|
  {
    s.leader == Waiting ==> s.turn == 0 || i + 1 < s.turn || (i + 1 == s.turn && s.followers[i] == Passing)
  }

  /** From the second half of a round on, every slot has been written exactly once in it. */
  ghost predicate SlotOk(s: Ring, i: nat)
    requires i < |s.followers| == |s.slots| == |s.written|
  {
    s.leader == Waiting || s.leader == Drawing || s.leader.Summing? ==>
      s.written[i] == (if Wrote(s, i) then 1 else 0) && (Wrote(s, i) ==> 1 <= s.slots[i] <= 9)
  }

  ghost predicate SlotsOk(s: Ring, n: nat)
    requires |s.followers| == |s.slots| == |s.written| == n
  {
    forall i | 0 <= i < n :: SlotOk(s, i)
  }

  ghost predicate SumOk(s: Ring, n: nat)
    requires Shape(s, n)
  {
    s.leader.Summing? ==> 1 <= s.drawn <= 99 && s.leader.sum == s.drawn + Total(s.slots[..s.leader.i - 1])
  }

  predicate Ending(s: Ring) {
    s.leader == Stopping || s.leader == Draining || s.leader == Gone
  }

  /** The sums so far are different, within their range, and exactly those in the hash table. */
  ghost predicate LogOk(s: Ring, n: nat) {
    && Holds(s.hash, s.log) && Distinct(s.log)
    && (forall i | 0 <= i < |s.log| :: n < s.log[i] <= 9 * n + 99)
    && (if Ending(s) then s.duplicate in s.log else s.duplicate == 0)
    && s.rounds == |s.log| + if s.leader == Joining || s.leader == Opening then 0 else 1
  }

  ghost predicate Inv(s: Ring, n: nat) {
    Fits(n) && TurnOk(s, n) && FollowersOk(s, n) && SlotsOk(s, n) && SumOk(s, n) && LogOk(s, n)
  }

  function Start(n: nat): Ring {
    Ring(0, 0, 0, Zeros(n), Joining, Wait(n), Zeros(TABLE), [], Unwritten(n), 0, 0)
  }

  lemma StartInvariant(n: nat)
    requires Fits(n)
    ensures Inv(Start(n), n)
  {
  }

  // ----- Every step keeps the invariant -----

  lemma StepKeepsFollower(s: Ring, n: nat, a: Action, i: nat)
    requires Inv(s, n) && Enabled(s, n, a) && i < n
    ensures FollowerOk(Step(s, n, a), n, i)
  {
    assert FollowerOk(s, n, i);
    if a.Follow? { assert FollowerOk(s, n, a.id - 1); }
  }

  lemma StepKeepsSlot(s: Ring, n: nat, a: Action, i: nat)
    requires Inv(s, n) && Enabled(s, n, a) && i < n
    ensures SlotOk(Step(s, n, a), i)
  {
    assert FollowerOk(s, n, i) && SlotOk(s, i);
    if a.Follow? { assert FollowerOk(s, n, a.id - 1) && SlotOk(s, a.id - 1); }
  }

  /** The sum of a full round: all n slots are fresh, so it lies in its range. */
  lemma RoundSumInRange(s: Ring, n: nat)
    requires Inv(s, n) && s.leader.Summing? && s.leader.i == n + 1
    ensures s.leader.sum == s.drawn + Total(s.slots)
    ensures n < s.leader.sum <= 9 * n + 99 < TABLE
    ensures forall i | 0 <= i < n :: s.written[i] == 1
  {
    assert s.slots[..n] == s.slots;
    forall i | 0 <= i < n ensures 1 <= s.slots[i] <= 9 && s.written[i] == 1 {
      assert SlotOk(s, i);
    }
    TotalInRange(s.slots, 1, 9);
  }

  /** The leader looks the finished sum up, and records it or stops. */
  lemma LookUpKeepsLog(s: Ring, n: nat, draw: int)
    requires Inv(s, n) && Enabled(s, n, Lead(draw)) && s.leader.Summing? && s.leader.i == n + 1
    ensures LogOk(Step(s, n, Lead(draw)), n)
  {
    RoundSumInRange(s, n);
    FoundMeansSeen(s.hash, s.log, s.leader.sum);
  }

  lemma OthersLeaveLog(s: Ring, n: nat, a: Action)
    requires TurnOk(s, n) && Shape(s, n) && Enabled(s, n, a)
    requires !(a.Lead? && s.leader.Summing? && s.leader.i == n + 1)
    ensures var t := Step(s, n, a);
      && t.log == s.log && t.hash == s.hash && t.duplicate == s.duplicate && Ending(t) == Ending(s)
      && t.rounds - (if t.leader == Joining || t.leader == Opening then 0 else 1)
         == s.rounds - if s.leader == Joining || s.leader == Opening then 0 else 1
  {
  }

  lemma OthersKeepLog(s: Ring, n: nat, a: Action)
    requires LogOk(s, n) && TurnOk(s, n) && Shape(s, n) && Enabled(s, n, a)
    requires !(a.Lead? && s.leader.Summing? && s.leader.i == n + 1)
    ensures LogOk(Step(s, n, a), n)
  {
    OthersLeaveLog(s, n, a);
  }

  lemma StepKeepsLog(s: Ring, n: nat, a: Action)
    requires Inv(s, n) && Enabled(s, n, a)
    ensures LogOk(Step(s, n, a), n)
  {
    if a.Lead? && s.leader.Summing? && s.leader.i == n + 1 {
      LookUpKeepsLog(s, n, a.draw);
    } else {
      OthersKeepLog(s, n, a);
    }
  }

  lemma StepKeepsTurn(s: Ring, n: nat, a: Action)
    requires Inv(s, n) && Enabled(s, n, a)
    ensures TurnOk(Step(s, n, a), n)
  {
    StepKeepsLog(s, n, a);
    if a.Follow? { assert FollowerOk(s, n, a.id - 1); }
  }

  lemma StepKeepsSum(s: Ring, n: nat, a: Action)
    requires Inv(s, n) && Enabled(s, n, a)
    ensures Shape(Step(s, n, a), n) && SumOk(Step(s, n, a), n)
  {
    StepKeepsTurn(s, n, a);
    if a.Lead? && s.leader.Summing? && s.leader.i <= n {
      var i := s.leader.i;
      assert s.slots[..i][..i - 1] == s.slots[..i - 1];
    }
    if a.Follow? { assert FollowerOk(s, n, a.id - 1); }
  }

  lemma StepKeepsInvariant(s: Ring, n: nat, a: Action)
    requires Inv(s, n) && Enabled(s, n, a)
    ensures Inv(Step(s, n, a), n)
  {
    StepKeepsTurn(s, n, a);
    StepKeepsSum(s, n, a);
    StepKeepsLog(s, n, a);
    forall i | 0 <= i < n ensures FollowerOk(Step(s, n, a), n, i) && SlotOk(Step(s, n, a), i) {
      StepKeepsFollower(s, n, a, i);
      StepKeepsSlot(s, n, a, i);
    }
  }

  // ----- Only the holder of the turn writes it -----

  /** 0 stands for the leader. */
  function Holder(s: Ring): nat {
    if s.turn < 0 then -s.turn else s.turn
  }

  lemma OnlyTheHolderWritesTheTurn(s: Ring, n: nat, a: Action)
    requires Inv(s, n) && Enabled(s, n, a) && Step(s, n, a).turn != s.turn
    ensures if a.Follow? then Holder(s) == a.id else a.Lead? && Holder(s) == 0
  {
    if a.Follow? { assert FollowerOk(s, n, a.id - 1); }
  }

  /** A follower writes its own slot and no other, and only when it holds the turn. */
  lemma OnlyTheHolderWritesItsSlot(s: Ring, n: nat, a: Action, i: nat)
    requires Inv(s, n) && Enabled(s, n, a) && i < n && Step(s, n, a).slots[i] != s.slots[i]
    ensures a.Follow? && a.id == i + 1 == Holder(s)
  {
    if a.Follow? { assert FollowerOk(s, n, a.id - 1); }
  }

  /** When the leader has a round's sum it stops exactly if that sum has occurred before. */
  lemma StopsExactlyOnDuplicate(s: Ring, n: nat, draw: int)
    requires Inv(s, n) && s.leader.Summing? && s.leader.i == n + 1
    ensures var sum, t := s.drawn + Total(s.slots), Step(s, n, Lead(draw));
      if sum in s.log then t == s.(leader := Stopping, duplicate := sum)
      else t.leader == Opening && t.log == s.log + [sum]
  {
    RoundSumInRange(s, n);
    FoundMeansSeen(s.hash, s.log, s.leader.sum);
  }

  // ----- Progress and termination -----

  /** Until the leader is gone somebody can move; when it is, every follower has left and the sum
      that stopped it had occurred before. */
  lemma SomebodyCanMove(s: Ring, n: nat) returns (a: Action)
    requires Inv(s, n) && s.leader != Gone
    ensures Enabled(s, n, a)
  {
    a := Lead(1);
    if s.leader == Joining {
      if s.joined < n { a := Join; }
    } else if s.leader == Waiting && s.turn != 0 {
      assert FollowerOk(s, n, s.turn - 1);
      a := Follow(s.turn, 1);
    } else if s.leader == Draining && s.turn != 0 {
      assert FollowerOk(s, n, -s.turn - 1);
      a := Follow(-s.turn, 1);
    }
  }

  ghost predicate AllLeft(s: Ring, n: nat) {
    |s.followers| == n && forall i | 0 <= i < n :: s.followers[i] == Left
  }

  lemma GoneMeansAllLeft(s: Ring, n: nat)
    requires Inv(s, n) && s.leader == Gone
    ensures AllLeft(s, n)
    ensures s.duplicate in s.log
    ensures forall a :: !Enabled(s, n, a)
  {
    forall i | 0 <= i < n ensures s.followers[i] == Left {
      assert FollowerOk(s, n, i);
    }
  }

  /** The sums of the log are distinct and from a range of 8n + 99; one more round must repeat. */
  lemma RoundsAreBounded(s: Ring, n: nat)
    requires Inv(s, n)
    ensures |s.log| <= 8 * n + 99 && s.rounds <= 8 * n + 100
  {
    var shifted: seq<nat> := seq(|s.log|, i requires 0 <= i < |s.log| => s.log[i] - n - 1);
    assert Distinct(shifted) by {
      forall a, b | 0 <= a < b < |shifted| ensures shifted[a] != shifted[b] { assert s.log[a] != s.log[b]; }
    }
    DistinctBound(shifted, 8 * n + 99);
  }

  /** Steps to the end of the followers' part of a round. */
  function RoundWork(s: Ring, n: nat): int
    requires Shape(s, n) && 0 <= s.turn <= n
  {
    if s.turn == 0 then 0
    else 3 * (n - s.turn) + match s.followers[s.turn - 1] case Polling => 3 case Writing => 2 case _ => 1
  }

  /** Steps until the last follower has left. */
  function EndWork(s: Ring, n: nat): int
    requires Shape(s, n) && 0 <= s.turn + n <= n
  {
    if s.turn == 0 then 0
    else 2 * (n + s.turn) + match s.followers[-s.turn - 1] case Polling => 2 case _ => 1
  }

  /** Steps to the end of the leader's round, or of everything once it has found a duplicate. */
  function Phase(s: Ring, n: nat): int
    requires TurnShape(s, n)
  {
    match s.leader
    case Joining => n - s.joined + 1 + 4 * n + 4
    case Opening => 4 * n + 4
    case Waiting => RoundWork(s, n) + n + 3
    case Drawing => n + 2
    case Summing(i, _) => n + 2 - i
    case Stopping => 2 * n + 2
    case Draining => EndWork(s, n) + 1
    case Gone => 0
  }

  predicate TurnShape(s: Ring, n: nat) {
    Shape(s, n) && (s.leader == Waiting ==> 0 <= s.turn <= n) && (s.leader == Draining ==> 0 <= s.turn + n <= n)
  }

  function RoundsLeft(s: Ring, n: nat): int {
    if Ending(s) then 0 else 8 * n + 99 - |s.log|
  }

  function Rank(s: Ring, n: nat): int
    requires TurnShape(s, n)
  {
    RoundsLeft(s, n) * (4 * n + 5) + Phase(s, n) + if Ending(s) then 0 else 2 * n + 3
  }

  lemma PhaseIsPositive(s: Ring, n: nat)
    requires Inv(s, n)
    ensures TurnShape(s, n) && Rank(s, n) >= 0 && RoundsLeft(s, n) >= 0
  {
    RoundsAreBounded(s, n);
    assert RoundsLeft(s, n) * (4 * n + 5) >= 0;
  }

  /** Every step but the leader's last of a round brings the end of the round nearer. */
  lemma PhaseFalls(s: Ring, n: nat, a: Action)
    requires Inv(s, n) && Enabled(s, n, a)
    requires !(a.Lead? && s.leader.Summing? && s.leader.i == n + 1)
    ensures TurnShape(s, n) && TurnShape(Step(s, n, a), n)
    ensures Phase(Step(s, n, a), n) < Phase(s, n)
  {
    StepKeepsTurn(s, n, a);
    if a.Follow? {
      assert FollowerOk(s, n, a.id - 1);
      if a.id < n { NextIsPolling(s, n, a.id); }
    } else if s.leader == Opening || s.leader == Stopping {
      assert FollowerOk(s, n, 0);
    }
  }

  lemma NextIsPolling(s: Ring, n: nat, id: nat)
    requires Inv(s, n) && 1 <= id < n && (s.turn == id || s.turn + id == 0)
    ensures s.leader == Waiting || s.leader == Draining ==> s.followers[id] == Polling
  {
    assert FollowerOk(s, n, id);
  }

  lemma OneRoundLess(left: nat, k: nat)
    ensures left * k >= 0 && (left - 1) * k == left * k - k && 0 * k == 0
  {
  }

  lemma RoundEndLowersRank(s: Ring, n: nat, draw: int)
    requires Inv(s, n) && s.leader.Summing? && s.leader.i == n + 1
    ensures TurnShape(s, n) && TurnShape(Step(s, n, Lead(draw)), n)
    ensures Rank(Step(s, n, Lead(draw)), n) < Rank(s, n)
  {
    StepKeepsTurn(s, n, Lead(draw));
    var t, left, k := Step(s, n, Lead(draw)), RoundsLeft(s, n), 4 * n + 5;
    assert left >= 0 by { PhaseIsPositive(s, n); }
    OneRoundLess(left, k);
    assert Rank(s, n) == left * k + 1 + 2 * n + 3;
    if t.leader == Opening {
      assert Rank(t, n) == (left - 1) * k + 4 * n + 4 + 2 * n + 3;
    } else {
      assert Rank(t, n) == 0 * k + 2 * n + 2;
    }
  }

  lemma RankFalls(s: Ring, n: nat, a: Action)
    requires Inv(s, n) && Enabled(s, n, a)
    ensures TurnShape(s, n) && TurnShape(Step(s, n, a), n) && Rank(Step(s, n, a), n) < Rank(s, n)
  {
    if a.Lead? && s.leader.Summing? && s.leader.i == n + 1 {
      RoundEndLowersRank(s, n, a.draw);
    } else {
      PhaseFalls(s, n, a);
      OthersLeaveLog(s, n, a);
      assert RoundsLeft(Step(s, n, a), n) == RoundsLeft(s, n);
    }
  }

  // ----- Runs -----

  ghost predicate ValidRun(s: Ring, n: nat, run: seq<Action>)
    requires Shape(s, n)
    decreases |run|
  {
    run == [] || (Enabled(s, n, run[0]) && Shape(Step(s, n, run[0]), n) && ValidRun(Step(s, n, run[0]), n, run[1..]))
  }

  ghost function End(s: Ring, n: nat, run: seq<Action>): Ring
    requires Shape(s, n) && ValidRun(s, n, run)
    decreases |run|
  {
    if run == [] then s else End(Step(s, n, run[0]), n, run[1..])
  }

  lemma {:induction false} RunsKeepInvariantAndEnd(s: Ring, n: nat, run: seq<Action>)
    requires Inv(s, n) && ValidRun(s, n, run)
    ensures Inv(End(s, n, run), n)
    ensures TurnShape(s, n) && |run| <= Rank(s, n)
    decreases |run|
  {
    PhaseIsPositive(s, n);
    if run != [] {
      StepKeepsInvariant(s, n, run[0]);
      RankFalls(s, n, run[0]);
      RunsKeepInvariantAndEnd(Step(s, n, run[0]), n, run[1..]);
    }
  }

  lemma StartRank(n: nat)
    requires Fits(n)
    ensures TurnShape(Start(n), n) && Rank(Start(n), n) == (8 * n + 99) * (4 * n + 5) + 7 * n + 8
  {
  }

  /** However the leader and the followers are scheduled, and whatever `rand` yields: the run is
      finite, and when nobody can move any more every follower has left, on a sum that had really
      occurred before, after at most 8n + 100 rounds. */
  lemma EveryRunStopsOnDuplicate(n: nat, run: seq<Action>)
    requires Fits(n) && ValidRun(Start(n), n, run)
    ensures |run| <= (8 * n + 99) * (4 * n + 5) + 7 * n + 8
    ensures var e := End(Start(n), n, run);
      && e.rounds <= 8 * n + 100
      && ((forall a :: !Enabled(e, n, a)) ==>
          e.leader == Gone && e.duplicate in e.log && AllLeft(e, n))
  {
    StartInvariant(n);
    RunsKeepInvariantAndEnd(Start(n), n, run);
    StartRank(n);
    var e := End(Start(n), n, run);
    RoundsAreBounded(e, n);
    if e.leader == Gone {
      GoneMeansAllLeft(e, n);
    } else {
      var a := SomebodyCanMove(e, n);
    }
  }
}
