/** 16-bit page-table entries and the frames they hold, shared by LA9 and LA10.

    Bit 15 of an entry is the valid bit, bit 14 the reference bit (LA10 only), the rest the
    frame.  Entries are numbers below 65536 and the bit operations are written as arithmetic;
    module EntryBits proves that this arithmetic is what the bit operations do. */
module PageTables {

  const TABLE_SIZE: nat := 2048
  const ESSENTIAL_PAGES: nat := 10
  const USABLE_FRAMES: nat := 12288
  const VALID: nat := 0x8000
  const REFERENCED: nat := 0x4000

  predicate IsValid(e: int) {
    e >= VALID
  }

  /** Bit 14 of a 16-bit entry is set in the second and in the last quarter of the range. */
  predicate HasReference(e: int) {
    REFERENCED <= e < VALID || e >= VALID + REFERENCED
  }

  function SetReference(e: int): int {
    if HasReference(e) then e else e + REFERENCED
  }

  function ClearReference(e: int): int {
    if HasReference(e) then e - REFERENCED else e
  }

  /** What an entry contributes: its low 15 bits in LA9 (`span` 0x8000), 14 in LA10 (0x4000). */
  function FrameOf(e: int, span: nat): int
    requires span > 0
  {
    e % span
  }

  // ----- Frames held by a table -----

  function EntryFrames(e: int, span: nat): multiset<int>
    requires span > 0
  {
    if IsValid(e) then multiset{FrameOf(e, span)} else multiset{}
  }

  function TableFrames(t: seq<int>, span: nat): multiset<int>
    requires span > 0
  {
    if t == [] then multiset{} else EntryFrames(t[0], span) + TableFrames(t[1..], span)
  }

  function EntryHeld(e: int, span: nat): seq<int>
    requires span > 0
  {
    if IsValid(e) then [FrameOf(e, span)] else []
  }

  /** The held frames in page order. */
  function HeldFrames(t: seq<int>, span: nat): seq<int>
    requires span > 0
  {
    if t == [] then [] else EntryHeld(t[0], span) + HeldFrames(t[1..], span)
  }

  lemma Exchange(a: multiset<int>, x: multiset<int>, y: multiset<int>, p: multiset<int>, q: multiset<int>)
    requires x + p == y + q
    ensures (a + x) + p == (a + y) + q
  {
    assert (a + x) + p == a + (x + p);
    assert (a + y) + q == a + (y + q);
  }

  lemma {:induction false} FramesUpdate(t: seq<int>, i: nat, e: int, span: nat)
    requires i < |t| && span > 0
    ensures TableFrames(t[i := e], span) + EntryFrames(t[i], span) == TableFrames(t, span) + EntryFrames(e, span)
  {
    if i == 0 {
      assert t[0 := e][1..] == t[1..];
      Swapped(EntryFrames(t[0], span), EntryFrames(e, span), TableFrames(t[1..], span));
    } else {
      var rest := t[1..];
      assert t[i := e][1..] == rest[i - 1 := e];
      FramesUpdate(rest, i - 1, e, span);
      Exchange(EntryFrames(t[0], span), TableFrames(rest[i - 1 := e], span), TableFrames(rest, span),
               EntryFrames(t[i], span), EntryFrames(e, span));
    }
  }

  lemma Swapped(a: multiset<int>, b: multiset<int>, rest: multiset<int>)
    ensures (b + rest) + a == (a + rest) + b
  {
  }

  lemma {:induction false} FramesInOrder(t: seq<int>, span: nat)
    requires span > 0
    ensures multiset(HeldFrames(t, span)) == TableFrames(t, span)
  {
    if t != [] { FramesInOrder(t[1..], span); }
  }

  lemma {:induction false} FramesSnoc(t: seq<int>, e: int, span: nat)
    requires span > 0
    ensures HeldFrames(t + [e], span) == HeldFrames(t, span) + EntryHeld(e, span)
  {
    if t == [] {
      assert t + [e] == [e] && [e][1..] == [];
      assert HeldFrames([], span) == [];
    } else {
      var rest := t[1..];
      assert (t + [e])[1..] == rest + [e];
      FramesSnoc(rest, e, span);
      assert HeldFrames(t + [e], span) == EntryHeld(t[0], span) + (HeldFrames(rest, span) + EntryHeld(e, span));
    }
  }

  lemma {:induction false} HeldPrefix(t: seq<int>, i: nat, span: nat)
    requires i <= |t| && span > 0
    ensures |HeldFrames(t[..i], span)| <= |HeldFrames(t, span)|
    decreases |t| - i
  {
    if i < |t| {
      FramesSnoc(t[..i], t[i], span);
      assert t[..i] + [t[i]] == t[..i + 1];
      HeldPrefix(t, i + 1, span);
    } else {
      assert t[..i] == t;
    }
  }

  lemma {:induction false} NoFrames(t: seq<int>, span: nat)
    requires span > 0 && forall i | 0 <= i < |t| :: !IsValid(t[i])
    ensures TableFrames(t, span) == multiset{}
  {
    if t != [] { NoFrames(t[1..], span); }
  }

  /** A table never holds more frames than it has pages, and fewer if a page is missing. */
  lemma {:induction false} FramesBound(t: seq<int>, span: nat)
    requires span > 0
    ensures |TableFrames(t, span)| <= |t|
    ensures (exists i :: 0 <= i < |t| && !IsValid(t[i])) ==> |TableFrames(t, span)| < |t|
  {
    if t != [] {
      FramesBound(t[1..], span);
      if i :| 0 <= i < |t| && !IsValid(t[i]) && i != 0 { assert !IsValid(t[1..][i - 1]); }
    }
  }

  // ----- All frames: 0, 1, ..., 12287, each once -----

  function FirstFrames(n: nat): (frames: seq<int>)
    ensures |frames| == n && forall i | 0 <= i < n :: frames[i] == i
  {
    seq(n, i => i)
  }

  ghost function AllFrames(): multiset<int> {
    multiset(FirstFrames(USABLE_FRAMES))
  }

  /** Every usable frame is somewhere, none is in two places, and there are no others. */
  lemma AllFramesOnce(m: multiset<int>)
    requires m == AllFrames()
    ensures |m| == USABLE_FRAMES
    ensures forall f: int :: m[f] == if 0 <= f < USABLE_FRAMES then 1 else 0
  {
    forall f: int ensures m[f] == if 0 <= f < USABLE_FRAMES then 1 else 0 {
      CountFirst(USABLE_FRAMES, f);
    }
  }

  lemma {:induction false} CountFirst(n: nat, f: int)
    ensures multiset(FirstFrames(n))[f] == if 0 <= f < n then 1 else 0
  {
    if n > 0 {
      assert FirstFrames(n) == FirstFrames(n - 1) + [n - 1];
      CountFirst(n - 1, f);
    }
  }
}
