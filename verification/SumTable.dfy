/** LA5: the leader's sum of a round and the hash table in which it looks for that sum. */
module SumTable {

  const TABLE: nat := 1000

  function Total(slots: seq<int>): int {
    if slots == [] then 0 else Total(slots[..|slots| - 1]) + slots[|slots| - 1]
  }

  lemma {:induction false} TotalInRange(slots: seq<int>, lo: int, hi: int)
    requires forall i | 0 <= i < |slots| :: lo <= slots[i] <= hi
    ensures lo * |slots| <= Total(slots) <= hi * |slots|
  {
    if slots != [] { TotalInRange(slots[..|slots| - 1], lo, hi); }
  }

  /** How many slots further, cyclically, `e` is than `idx`. */
  function Distance(idx: nat, e: nat): nat
    requires idx < TABLE && e < TABLE
  {
    if idx <= e then e - idx else e + TABLE - idx
  }

  /** Linear probing from `idx`; `e` is some empty slot. */
  function Find(h: seq<int>, idx: nat, sum: int, e: nat): (r: nat)
    requires |h| == TABLE && idx < TABLE && e < TABLE && h[e] == 0
    ensures r < TABLE && (h[r] == 0 || h[r] == sum)
    decreases Distance(idx, e)
  {
    if h[idx] == 0 || h[idx] == sum then idx else Find(h, (idx + 1) % TABLE, sum, e)
  }

  /** Every entry is at its own index, and slot 0 is empty. */
  ghost predicate InPlace(h: seq<int>) {
    |h| == TABLE && h[0] == 0 && forall k | 0 <= k < TABLE :: h[k] == 0 || h[k] == k
  }

  /** The table holds exactly the sums of the log. */
  ghost predicate Holds(h: seq<int>, log: seq<int>) {
    && InPlace(h)
    && (forall i | 0 <= i < |log| :: 0 < log[i] < TABLE)
    && forall k | 0 < k < TABLE :: h[k] == k <==> k in log
  }

  /** While the entries are in place, probing never moves, so a sum is reported exactly if it has
      occurred before. */
  lemma FoundMeansSeen(h: seq<int>, log: seq<int>, sum: int)
    requires Holds(h, log) && 0 < sum < TABLE
    ensures Find(h, sum % TABLE, sum, 0) == sum
    ensures h[sum] == sum <==> sum in log
    ensures h[sum] != sum ==> Holds(h[sum := sum], log + [sum])
  {
    if h[sum] != sum {
      var now, longer := h[sum := sum], log + [sum];
      forall k | 0 < k < TABLE ensures now[k] == k <==> k in longer {
        if k in longer && k != sum { assert k in log; }
        if k in log { assert k in longer; }
        if k == sum { assert longer[|log|] == k; }
      }
    }
  }

  /** Lines 78-82. */
  method RoundSum(shared: array<int>, n: nat) returns (sum: int)
    requires shared.Length == 4 + n
    ensures sum == shared[3] + Total(shared[4..])
  {
    sum := shared[3];
    for i := 1 to n + 1
      invariant sum == shared[3] + Total(shared[4..3 + i])
    {
      assert shared[4..4 + i][..i - 1] == shared[4..3 + i];
      sum := sum + shared[3 + i];
    }
    assert shared[4..4 + n] == shared[4..];
  }

  /** Lines 90-101. */
  method Record(table: array<int>, sum: int, ghost e: nat) returns (duplicate: bool)
    requires table.Length == TABLE && e < TABLE && table[e] == 0 && 0 < sum
    modifies table
    ensures var at := Find(old(table[..]), sum % TABLE, sum, e);
      && duplicate == (old(table[at]) == sum)
      && table[..] == if duplicate then old(table[..]) else old(table[..])[at := sum]
  {
    var idx: nat := sum % TABLE;
    while table[idx] != 0 && table[idx] != sum
      invariant idx < TABLE && Find(table[..], idx, sum, e) == Find(table[..], sum % TABLE, sum, e)
      decreases Distance(idx, e)
    {
      idx := (idx + 1) % TABLE;
    }
    if table[idx] == sum { return true; }
    table[idx] := sum;
    return false;
  }
}
