/** Counting the elements of a sequence that satisfy a predicate. */
module Counting {

  function Count<T>(s: seq<T>, p: T -> bool): nat {
    if s == [] then 0 else (if p(s[0]) then 1 else 0) + Count(s[1..], p)
  }

  lemma {:induction false} CountUpdate<T>(s: seq<T>, i: nat, x: T, p: T -> bool)
    requires i < |s|
    ensures Count(s[i := x], p) == Count(s, p) - (if p(s[i]) then 1 else 0) + if p(x) then 1 else 0
  {
    if i == 0 {
      assert s[0 := x][1..] == s[1..];
    } else {
      assert s[i := x][1..] == s[1..][i - 1 := x];
      CountUpdate(s[1..], i - 1, x, p);
    }
  }

  lemma {:induction false} CountImplies<T>(s: seq<T>, p: T -> bool, q: T -> bool)
    requires forall i | 0 <= i < |s| :: p(s[i]) ==> q(s[i])
    ensures Count(s, p) <= Count(s, q)
  {
    if s != [] { CountImplies(s[1..], p, q); }
  }

  /** ... and strictly, when some element satisfies only the weaker predicate. */
  lemma {:induction false} CountImpliesStrictly<T>(s: seq<T>, p: T -> bool, q: T -> bool, k: nat)
    requires forall i | 0 <= i < |s| :: p(s[i]) ==> q(s[i])
    requires k < |s| && q(s[k]) && !p(s[k])
    ensures Count(s, p) < Count(s, q)
  {
    if k == 0 {
      CountImplies(s[1..], p, q);
    } else {
      CountImpliesStrictly(s[1..], p, q, k - 1);
    }
  }

  lemma {:induction false} CountWitness<T>(s: seq<T>, p: T -> bool) returns (k: nat)
    requires Count(s, p) > 0
    ensures k < |s| && p(s[k])
  {
    if p(s[0]) { k := 0; } else { k := CountWitness(s[1..], p); k := k + 1; }
  }

  lemma {:induction false} CountZero<T>(s: seq<T>, p: T -> bool)
    requires forall i | 0 <= i < |s| :: !p(s[i])
    ensures Count(s, p) == 0
  {
    if s != [] { CountZero(s[1..], p); }
  }

  lemma {:induction false} CountPositive<T>(s: seq<T>, p: T -> bool, k: nat)
    requires k < |s| && p(s[k])
    ensures Count(s, p) > 0
  {
    if k > 0 { CountPositive(s[1..], p, k - 1); }
  }

  lemma {:induction false} CountAll<T>(s: seq<T>, p: T -> bool)
    ensures Count(s, p) <= |s|
    ensures Count(s, p) == |s| ==> forall i | 0 <= i < |s| :: p(s[i])
  {
    if s != [] {
      CountAll(s[1..], p);
      if Count(s, p) == |s| {
        forall i | 0 <= i < |s| ensures p(s[i]) {
          if i > 0 { assert s[1..][i - 1] == s[i]; }
        }
      }
    }
  }

  lemma {:induction false} CountEvery<T>(s: seq<T>, p: T -> bool)
    requires forall i | 0 <= i < |s| :: p(s[i])
    ensures Count(s, p) == |s|
  {
    if s != [] { CountEvery(s[1..], p); }
  }
}
