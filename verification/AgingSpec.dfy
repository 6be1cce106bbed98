/** One binary search of LA10, probe by probe, and the aging of the histories after it. */
module AgingSpec {
  import opened PageTables
  import opened EntryBits
  import opened Sequences
  import opened BinarySearch
  import opened ReplacementChoice

  // ----- Counters -----

  datatype Counters = Counters(
    accesses: nat, faults: nat, replacements: nat, attempt1: nat, attempt2: nat, attempt3: nat, attempt4: nat)

  const ZERO := Counters(0, 0, 0, 0, 0, 0, 0)

  /** Lines 199-220; attempt 0 is no replacement. */
  function Charge(c: Counters, attempt: nat): Counters {
    if attempt == 0 then c
    else
      var d := c.(replacements := c.replacements + 1);
      if attempt == 1 then d.(attempt1 := d.attempt1 + 1)
      else if attempt == 2 then d.(attempt2 := d.attempt2 + 1)
      else if attempt == 3 then d.(attempt3 := d.attempt3 + 1)
      else d.(attempt4 := d.attempt4 + 1)
  }

  function Access(c: Counters, fault: bool): Counters {
    c.(accesses := c.accesses + 1, faults := if fault then c.faults + 1 else c.faults)
  }

  // ----- One probe and one search -----

  /** What a search works on: the table of its process, the free list, and the counters of the
      whole run and of the process. */
  datatype Local = Local(table: seq<PageEntry>, ff: seq<FrameEntry>, total: Counters, mine: Counters)

  datatype Walked = Walked(at: Local, found: bool)

  predicate Sized(l: Local) {
    |l.table| == TABLE_SIZE && |l.ff| >= MIN_FREE
  }

  function Loaded(frame: int): PageEntry {
    PageEntry(frame + VALID + REFERENCED, FULL)
  }

  /** Lines 279-296. */
  function Probe(l: Local, pid: int, page: nat, draw: nat): (w: Walked)
    requires Sized(l) && page < TABLE_SIZE
    ensures Sized(w.at)
  {
    var was := l.table[page];
    if IsValid(was.entry) then
      Walked(l.(table := l.table[page := was.(entry := SetReference(was.entry))],
                total := Access(l.total, false), mine := Access(l.mine, false)), true)
    else
      var total, mine := Access(l.total, true), Access(l.mine, true);
      match GetFrame(l.table, l.ff, pid, page, draw)
      case NoVictim => Walked(l.(total := total, mine := mine), false)
      case Got(t, ff, frame, attempt) =>
        Walked(Local(t[page := Loaded(frame)], ff, Charge(total, attempt), Charge(mine, attempt)), true)
  }

  function Walk(l: Local, pid: int, pages: seq<nat>, draw: nat): (w: Walked)
    requires Sized(l) && PagesBelow(pages, TABLE_SIZE)
    ensures Sized(w.at)
    decreases |pages|
  {
    if pages == [] then Walked(l, true)
    else
      var w := Probe(l, pid, pages[0], draw);
      if w.found then Walk(w.at, pid, pages[1..], draw) else w
  }

  /** Lines 303-311. */
  function Aged(p: PageEntry): PageEntry {
    if IsValid(p.entry) then
      PageEntry(ClearReference(p.entry), p.history / 2 + if HasReference(p.entry) then VALID else 0)
    else p
  }

  /** Lines 305-310 on the 16 bits of both fields. */
  lemma AgingOnBits(e: bv16, h: bv16, cleared: bv16, half: bv16, pushed: bv16)
    requires cleared == e & 0xBFFF && half == h >> 1
    requires pushed == half | if e & 0x4000 != 0 then 0x8000 else 0
    ensures Aged(PageEntry(e as int, h as int)) ==
      if e & 0x8000 != 0 then PageEntry(cleared as int, pushed as int) else PageEntry(e as int, h as int)
  {
    TestingTheValidBit(e);
    TestingTheReferenceBit(e);
    ClearingTheReferenceBit(e);
    PushingABit(h, half, pushed, e & 0x4000 != 0);
    AgedIs(e as int, h as int, cleared as int, pushed as int);
  }

  lemma AgedIs(e: int, h: int, cleared: int, pushed: int)
    requires cleared == ClearReference(e) && pushed == h / 2 + if HasReference(e) then VALID else 0
    ensures Aged(PageEntry(e, h)) == if IsValid(e) then PageEntry(cleared, pushed) else PageEntry(e, h)
  {
  }

  function Age(t: seq<PageEntry>): (u: seq<PageEntry>)
    ensures |u| == |t| && forall i | 0 <= i < |t| :: u[i] == Aged(t[i])
  {
    seq(|t|, i requires 0 <= i < |t| => Aged(t[i]))
  }

  /** Only a search that ends well ages the histories. */
  function Ended(w: Walked): (e: Walked)
    ensures Sized(w.at) ==> Sized(e.at)
  {
    if w.found then w.(at := w.at.(table := Age(w.at.table))) else w
  }

  /** The whole of `BS`. */
  function Search(l: Local, pid: int, s: int, idx: int, draw: nat): (w: Walked)
    requires Sized(l) && TableCovers(s)
    ensures Sized(w.at)
  {
    ProbesInRange(0, s - 1, idx, s);
    Ended(Walk(l, pid, Probes(0, s - 1, idx), draw))
  }

  // ----- No frame is lost -----

  function Entries(t: seq<PageEntry>): (e: seq<int>)
    ensures |e| == |t| && forall i | 0 <= i < |t| :: e[i] == t[i].entry
  {
    seq(|t|, i requires 0 <= i < |t| => t[i].entry)
  }

  function FrameNos(ff: seq<FrameEntry>): (f: seq<int>)
    ensures |f| == |ff| && forall i | 0 <= i < |ff| :: f[i] == ff[i].frameNo
  {
    seq(|ff|, i requires 0 <= i < |ff| => ff[i].frameNo)
  }

  ghost function Listed(ff: seq<FrameEntry>): multiset<int> {
    multiset(FrameNos(ff))
  }

  function Holding(t: seq<PageEntry>): multiset<int> {
    TableFrames(Entries(t), SPAN)
  }

  ghost predicate GoodTable(t: seq<PageEntry>) {
    forall i | 0 <= i < |t| :: 0 <= t[i].entry < 0x10000 && 0 <= t[i].history < 0x10000
  }

  ghost predicate GoodList(ff: seq<FrameEntry>) {
    forall i | 0 <= i < |ff| :: 0 <= ff[i].frameNo < SPAN
  }

  lemma HoldingUpdate(t: seq<PageEntry>, i: nat, p: PageEntry)
    requires i < |t|
    ensures Holding(t[i := p]) + EntryFrames(t[i].entry, SPAN) == Holding(t) + EntryFrames(p.entry, SPAN)
  {
    assert Entries(t[i := p]) == Entries(t)[i := p.entry];
    FramesUpdate(Entries(t), i, p.entry, SPAN);
  }

  /** Entry `i` is rewritten without changing the frame it holds. */
  lemma HoldingKept(t: seq<PageEntry>, i: nat, p: PageEntry)
    requires i < |t| && EntryFrames(t[i].entry, SPAN) == EntryFrames(p.entry, SPAN)
    ensures Holding(t[i := p]) == Holding(t)
  {
    HoldingUpdate(t, i, p);
    Cancel(Holding(t[i := p]), Holding(t), EntryFrames(p.entry, SPAN));
  }

  lemma HoldingGained(t: seq<PageEntry>, i: nat, frame: int)
    requires i < |t| && !IsValid(t[i].entry) && 0 <= frame < SPAN
    ensures Holding(t[i := Loaded(frame)]) == Holding(t) + multiset{frame}
  {
    HoldingUpdate(t, i, Loaded(frame));
    Cancel(Holding(t[i := Loaded(frame)]), Holding(t) + multiset{frame}, multiset{});
  }

  lemma HoldingLost(t: seq<PageEntry>, i: nat)
    requires i < |t| && VALID <= t[i].entry < 0x10000
    ensures Holding(t[i := t[i].(entry := t[i].entry - VALID)]) + multiset{FrameOf(t[i].entry, SPAN)} == Holding(t)
  {
    var p := t[i].(entry := t[i].entry - VALID);
    HoldingUpdate(t, i, p);
    Cancel(Holding(t[i := p]) + multiset{FrameOf(t[i].entry, SPAN)}, Holding(t), multiset{});
  }

  lemma Cancel(a: multiset<int>, b: multiset<int>, c: multiset<int>)
    requires a + c == b + c
    ensures a == b
  {
    assert a == (a + c) - c;
    assert b == (b + c) - c;
  }

  lemma ListedWithout(ff: seq<FrameEntry>, k: nat)
    requires k < |ff|
    ensures Listed(Without(ff, k)) + multiset{ff[k].frameNo} == Listed(ff)
  {
    var f := FrameNos(ff);
    assert FrameNos(Without(ff, k)) == f[..k] + f[k + 1..];
    assert f == f[..k] + [f[k]] + f[k + 1..];
  }

  lemma ListedSnoc(ff: seq<FrameEntry>, e: FrameEntry)
    ensures Listed(ff + [e]) == Listed(ff) + multiset{e.frameNo}
  {
    assert FrameNos(ff + [e]) == FrameNos(ff) + [e.frameNo];
  }

  ghost predicate Good(l: Local) {
    Sized(l) && GoodTable(l.table) && GoodList(l.ff)
  }

  ghost function FramesOf(l: Local): multiset<int> {
    Listed(l.ff) + Holding(l.table)
  }

  lemma TakenFromHead(ff: seq<FrameEntry>)
    requires ff != [] && GoodList(ff)
    ensures GoodList(ff[1..]) && 0 <= ff[0].frameNo < SPAN
    ensures multiset{ff[0].frameNo} + Listed(ff[1..]) == Listed(ff)
  {
    assert FrameNos(ff) == [ff[0].frameNo] + FrameNos(ff[1..]);
  }

  lemma Exchanged(ff: seq<FrameEntry>, k: nat, e: FrameEntry)
    requires k < |ff| && GoodList(ff) && 0 <= e.frameNo < SPAN
    ensures GoodList(Without(ff, k) + [e]) && 0 <= ff[k].frameNo < SPAN
    ensures multiset{ff[k].frameNo} + Listed(Without(ff, k) + [e]) == Listed(ff) + multiset{e.frameNo}
  {
    ListedWithout(ff, k);
    ListedSnoc(Without(ff, k), e);
    var rest, one, two := Listed(Without(ff, k)), multiset{ff[k].frameNo}, multiset{e.frameNo};
    assert one + (rest + two) == (rest + one) + two;
    forall i | 0 <= i < |ff| ensures 0 <= (Without(ff, k) + [e])[i].frameNo < SPAN {
      if i < |ff| - 1 { assert Without(ff, k)[i] == ff[if i < k then i else i + 1]; }
    }
  }

  /** A frame comes out of the list; if a page was given up for it, that page's frame goes in. */
  lemma GetFrameKeepsFrames(t: seq<PageEntry>, ff: seq<FrameEntry>, pid: int, page: int, draw: nat)
    requires |t| == TABLE_SIZE && ff != [] && GoodTable(t) && GoodList(ff)
    requires GetFrame(t, ff, pid, page, draw).Got?
    ensures var g := GetFrame(t, ff, pid, page, draw);
      && |g.table| == TABLE_SIZE && GoodTable(g.table) && GoodList(g.ff) && 0 <= g.frame < SPAN
      && multiset{g.frame} + Listed(g.ff) + Holding(g.table) == Listed(ff) + Holding(t)
  {
    if |ff| > MIN_FREE {
      TakenFromHead(ff);
    } else {
      var v := Victim(t, TABLE_SIZE);
      ChoiceIsBest(ff, pid, page, draw);
      var c := Choose(ff, pid, page, draw);
      var e := FrameEntry(FrameOf(t[v].entry, SPAN), pid, v);
      Exchanged(ff, c.index, e);
      HoldingLost(t, v);
      var g := GetFrame(t, ff, pid, page, draw);
      Regroup(multiset{g.frame}, Listed(g.ff), Holding(g.table), Listed(ff), multiset{e.frameNo}, Holding(t));
    }
  }

  lemma Regroup(a: multiset<int>, b: multiset<int>, c: multiset<int>, d: multiset<int>, e: multiset<int>,
                f: multiset<int>)
    requires a + b == d + e && c + e == f
    ensures a + b + c == d + f
  {
    assert d + e + c == d + (c + e);
  }

  lemma LoadKeepsFrames(l: Local, pid: int, page: nat, draw: nat)
    requires Good(l) && page < TABLE_SIZE && !IsValid(l.table[page].entry)
    requires GetFrame(l.table, l.ff, pid, page, draw).Got?
    ensures var g := GetFrame(l.table, l.ff, pid, page, draw);
      && |g.table| == TABLE_SIZE && GoodTable(g.table[page := Loaded(g.frame)]) && GoodList(g.ff)
      && Listed(g.ff) + Holding(g.table[page := Loaded(g.frame)]) == FramesOf(l)
  {
    var g := GetFrame(l.table, l.ff, pid, page, draw);
    GetFrameKeepsFrames(l.table, l.ff, pid, page, draw);
    HoldingGained(g.table, page, g.frame);
    assert Listed(g.ff) + (Holding(g.table) + multiset{g.frame}) == multiset{g.frame} + Listed(g.ff) + Holding(g.table);
  }

  lemma ProbeKeepsFrames(l: Local, pid: int, page: nat, draw: nat)
    requires Good(l) && page < TABLE_SIZE
    ensures var w := Probe(l, pid, page, draw); Good(w.at) && FramesOf(w.at) == FramesOf(l)
  {
    var e := l.table[page];
    if IsValid(e.entry) {
      HoldingKept(l.table, page, e.(entry := SetReference(e.entry)));
    } else if GetFrame(l.table, l.ff, pid, page, draw).Got? {
      LoadKeepsFrames(l, pid, page, draw);
    }
  }

  lemma {:induction false} WalkKeepsFrames(l: Local, pid: int, pages: seq<nat>, draw: nat)
    requires Good(l) && PagesBelow(pages, TABLE_SIZE)
    ensures var w := Walk(l, pid, pages, draw); Good(w.at) && FramesOf(w.at) == FramesOf(l)
    decreases |pages|
  {
    if pages != [] {
      ProbeKeepsFrames(l, pid, pages[0], draw);
      var w := Probe(l, pid, pages[0], draw);
      if w.found { WalkKeepsFrames(w.at, pid, pages[1..], draw); }
    }
  }

  lemma {:induction false} SameFrames(e: seq<int>, f: seq<int>)
    requires |e| == |f| && forall i | 0 <= i < |e| :: EntryFrames(e[i], SPAN) == EntryFrames(f[i], SPAN)
    ensures TableFrames(e, SPAN) == TableFrames(f, SPAN)
  {
    if e != [] { SameFrames(e[1..], f[1..]); }
  }

  lemma AgingKeepsFrames(t: seq<PageEntry>)
    requires GoodTable(t)
    ensures GoodTable(Age(t)) && Holding(Age(t)) == Holding(t)
  {
    forall i | 0 <= i < |t|
      ensures EntryFrames(Entries(t)[i], SPAN) == EntryFrames(Entries(Age(t))[i], SPAN)
      ensures 0 <= Aged(t[i]).entry < 0x10000 && 0 <= Aged(t[i]).history < 0x10000
    {
      AgedKeepsFrame(t[i]);
    }
    SameFrames(Entries(t), Entries(Age(t)));
  }

  lemma AgedKeepsFrame(p: PageEntry)
    requires 0 <= p.entry < 0x10000 && 0 <= p.history < 0x10000
    ensures EntryFrames(Aged(p).entry, SPAN) == EntryFrames(p.entry, SPAN)
    ensures 0 <= Aged(p).entry < 0x10000 && 0 <= Aged(p).history < 0x10000
  {
  }

  /** A search, whether or not it finds what it looks for, moves frames between the list and the
      table of its process, and neither loses nor duplicates any. */
  lemma SearchKeepsFrames(l: Local, pid: int, s: int, idx: int, draw: nat)
    requires Good(l) && TableCovers(s)
    ensures var w := Search(l, pid, s, idx, draw); Good(w.at) && FramesOf(w.at) == FramesOf(l)
  {
    ProbesInRange(0, s - 1, idx, s);
    WalkKeepsFrames(l, pid, Probes(0, s - 1, idx), draw);
    AgingKeepsFrames(Walk(l, pid, Probes(0, s - 1, idx), draw).at.table);
  }

  // ----- What a search brings in it keeps -----

  predicate Settled(t: seq<PageEntry>, i: int) {
    0 <= i < |t| && IsValid(t[i].entry) && t[i].history == FULL
  }

  lemma ProbeKeepsSettled(l: Local, pid: int, page: nat, draw: nat, i: int)
    requires Sized(l) && page < TABLE_SIZE && Settled(l.table, i)
    ensures Settled(Probe(l, pid, page, draw).at.table, i)
  {
  }

  lemma {:induction false} WalkKeepsSettled(l: Local, pid: int, pages: seq<nat>, draw: nat, i: int)
    requires Sized(l) && PagesBelow(pages, TABLE_SIZE) && Settled(l.table, i)
    ensures Settled(Walk(l, pid, pages, draw).at.table, i)
    decreases |pages|
  {
    if pages != [] {
      ProbeKeepsSettled(l, pid, pages[0], draw, i);
      var w := Probe(l, pid, pages[0], draw);
      if w.found { WalkKeepsSettled(w.at, pid, pages[1..], draw, i); }
    }
  }

  lemma ProbeLoads(l: Local, pid: int, page: nat, draw: nat)
    requires Good(l) && page < TABLE_SIZE && !IsValid(l.table[page].entry) && Probe(l, pid, page, draw).found
    ensures Settled(Probe(l, pid, page, draw).at.table, page)
    ensures HasReference(Probe(l, pid, page, draw).at.table[page].entry)
  {
    GetFrameKeepsFrames(l.table, l.ff, pid, page, draw);
  }

  lemma ProbeLeavesOthers(l: Local, pid: int, page: nat, draw: nat, i: nat)
    requires Good(l) && page < TABLE_SIZE && i < TABLE_SIZE && i != page
    ensures var t, u := l.table, Probe(l, pid, page, draw).at.table; IsValid(u[i].entry) ==> u[i] == t[i]
  {
  }

  /** A page that was missing when a search got to it is still there when the search ends. */
  lemma {:induction false} LoadedPagesStay(l: Local, pid: int, pages: seq<nat>, draw: nat, k: nat)
    requires Good(l) && PagesBelow(pages, TABLE_SIZE) && k < |pages|
    requires Walk(l, pid, pages, draw).found && !IsValid(l.table[pages[k]].entry)
    ensures Settled(Walk(l, pid, pages, draw).at.table, pages[k])
    decreases |pages|
  {
    var w := Probe(l, pid, pages[0], draw);
    ProbeKeepsFrames(l, pid, pages[0], draw);
    if pages[k] == pages[0] {
      ProbeLoads(l, pid, pages[0], draw);
      WalkKeepsSettled(w.at, pid, pages[1..], draw, pages[k]);
    } else {
      ProbeLeavesOthers(l, pid, pages[0], draw, pages[k]);
      assert pages[1..][k - 1] == pages[k];
      LoadedPagesStay(w.at, pid, pages[1..], draw, k - 1);
    }
  }

  // ----- Histories -----

  /** The reference bits of a page since it was loaded, newest first; a search before that counts
      as one in which it was referenced. */
  predicate Bit(refs: seq<bool>, i: nat) {
    i >= |refs| || refs[i]
  }

  /** Bits i to i + k - 1 as a number, bit i the most significant. */
  function Packed(refs: seq<bool>, i: nat, k: nat): nat
    decreases |refs| + k
  {
    if k == 0 then 0 else (if Bit(refs, i) then Pow2(k - 1) else 0) + Packed(refs, i + 1, k - 1)
  }

  lemma {:induction false} PackedBound(refs: seq<bool>, i: nat, k: nat)
    ensures Packed(refs, i, k) < Pow2(k)
    decreases k
  {
    if k > 0 { PackedBound(refs, i + 1, k - 1); }
  }

  lemma {:induction false} PackedShift(refs: seq<bool>, b: bool, i: nat, k: nat)
    ensures Packed([b] + refs, i + 1, k) == Packed(refs, i, k)
    decreases k
  {
    if k > 0 { PackedShift(refs, b, i + 1, k - 1); }
  }

  lemma {:induction false} PackedHalf(refs: seq<bool>, i: nat, k: nat)
    requires k > 0
    ensures Packed(refs, i, k) / 2 == Packed(refs, i, k - 1)
    decreases k
  {
    if k > 1 { PackedHalf(refs, i + 1, k - 1); }
  }

  function History(refs: seq<bool>): nat {
    Packed(refs, 0, 16)
  }

  lemma Powers()
    ensures Pow2(16) == 0x10000 && Pow2(15) == VALID
  {
    assert Pow2(4) == 16 && Pow2(8) == 256;
    assert Pow2(12) == 4096;
    assert Pow2(15) == VALID;
  }

  /** `(history >> 1) | (referenced ? 0x8000 : 0)` is the history with one more bit. */
  lemma AgingPushesBit(refs: seq<bool>, b: bool)
    ensures History([b] + refs) == History(refs) / 2 + if b then VALID else 0
  {
    Powers();
    PackedShift(refs, b, 0, 15);
    PackedHalf(refs, 0, 16);
  }

  /** `a` was referenced less recently than `b`: at the newest of the k searches from i on in
      which they differ, `b` was referenced and `a` was not. */
  predicate Older(a: seq<bool>, b: seq<bool>, i: nat, k: nat)
    decreases k
  {
    k > 0 && if Bit(a, i) == Bit(b, i) then Older(a, b, i + 1, k - 1) else Bit(b, i)
  }

  lemma {:induction false} SmallerMeansOlder(a: seq<bool>, b: seq<bool>, i: nat, k: nat)
    ensures Packed(a, i, k) < Packed(b, i, k) <==> Older(a, b, i, k)
    decreases k
  {
    if k > 0 {
      SmallerMeansOlder(a, b, i + 1, k - 1);
      PackedBound(a, i + 1, k - 1);
      PackedBound(b, i + 1, k - 1);
    }
  }

  /** The logs behind the histories of a table. */
  ghost predicate Recorded(t: seq<PageEntry>, refs: seq<seq<bool>>) {
    |refs| == |t| && forall i | 0 <= i < |t| :: IsValid(t[i].entry) ==> t[i].history == History(refs[i])
  }

  ghost predicate NoReferences(t: seq<PageEntry>) {
    forall i | 0 <= i < |t| :: IsValid(t[i].entry) ==> !HasReference(t[i].entry)
  }

  /** A page that is brought in starts a new log. */
  ghost function WalkRefs(l: Local, pid: int, pages: seq<nat>, draw: nat, refs: seq<seq<bool>>): (r: seq<seq<bool>>)
    requires Sized(l) && PagesBelow(pages, TABLE_SIZE) && |refs| == TABLE_SIZE
    ensures |r| == TABLE_SIZE
    decreases |pages|
  {
    if pages == [] then refs
    else
      var w := Probe(l, pid, pages[0], draw);
      var now := if w.found && !IsValid(l.table[pages[0]].entry) then refs[pages[0] := []] else refs;
      if w.found then WalkRefs(w.at, pid, pages[1..], draw, now) else now
  }

  ghost function AgedRefs(t: seq<PageEntry>, refs: seq<seq<bool>>): (r: seq<seq<bool>>)
    requires |refs| == |t|
    ensures |r| == |t|
  {
    seq(|t|, i requires 0 <= i < |t| => if IsValid(t[i].entry) then [HasReference(t[i].entry)] + refs[i] else refs[i])
  }

  lemma {:induction false} NothingRecorded(i: nat, k: nat)
    ensures Packed([], i, k) == Pow2(k) - 1
    decreases k
  {
    if k > 0 { NothingRecorded(i + 1, k - 1); }
  }

  /** A page that is brought in has the history of a page that every search used. */
  lemma FreshRecord()
    ensures History([]) == FULL
  {
    NothingRecorded(0, 16);
    Powers();
  }

  lemma RecordsFollow(t: seq<PageEntry>, u: seq<PageEntry>, refs: seq<seq<bool>>, page: nat, now: seq<bool>)
    requires Recorded(t, refs) && |u| == |t| && page < |t| && u[page].history == History(now)
    requires forall i | 0 <= i < |t| && i != page :: IsValid(u[i].entry) ==> u[i] == t[i]
    ensures Recorded(u, refs[page := now])
  {
  }

  lemma ProbeKeepsRecords(l: Local, pid: int, page: nat, draw: nat, refs: seq<seq<bool>>)
    requires Good(l) && page < TABLE_SIZE && Recorded(l.table, refs)
    ensures var w := Probe(l, pid, page, draw);
      Recorded(w.at.table, if w.found && !IsValid(l.table[page].entry) then refs[page := []] else refs)
  {
    var w := Probe(l, pid, page, draw);
    forall i | 0 <= i < TABLE_SIZE && i != page ensures IsValid(w.at.table[i].entry) ==> w.at.table[i] == l.table[i] {
      ProbeLeavesOthers(l, pid, page, draw, i);
    }
    if IsValid(l.table[page].entry) {
      RecordsFollow(l.table, w.at.table, refs, page, refs[page]);
      assert refs[page := refs[page]] == refs;
    } else if w.found {
      ProbeLoads(l, pid, page, draw);
      FreshRecord();
      RecordsFollow(l.table, w.at.table, refs, page, []);
    }
  }

  lemma {:induction false} WalkKeepsRecords(l: Local, pid: int, pages: seq<nat>, draw: nat, refs: seq<seq<bool>>)
    requires Good(l) && PagesBelow(pages, TABLE_SIZE) && Recorded(l.table, refs)
    ensures Recorded(Walk(l, pid, pages, draw).at.table, WalkRefs(l, pid, pages, draw, refs))
    decreases |pages|
  {
    if pages != [] {
      ProbeKeepsRecords(l, pid, pages[0], draw, refs);
      ProbeKeepsFrames(l, pid, pages[0], draw);
      var w := Probe(l, pid, pages[0], draw);
      if w.found {
        var now := if !IsValid(l.table[pages[0]].entry) then refs[pages[0] := []] else refs;
        WalkKeepsRecords(w.at, pid, pages[1..], draw, now);
      }
    }
  }

  lemma AgingKeepsRecords(t: seq<PageEntry>, refs: seq<seq<bool>>)
    requires GoodTable(t) && Recorded(t, refs)
    ensures Recorded(Age(t), AgedRefs(t, refs)) && NoReferences(Age(t))
  {
    forall i | 0 <= i < |t| && IsValid(t[i].entry)
      ensures Age(t)[i].history == History(AgedRefs(t, refs)[i])
    {
      AgingPushesBit(refs[i], HasReference(t[i].entry));
    }
  }

  lemma ProbeReferences(l: Local, pid: int, page: nat, draw: nat, i: nat)
    requires Good(l) && page < TABLE_SIZE && i < TABLE_SIZE && Probe(l, pid, page, draw).found
    ensures var t, u := l.table, Probe(l, pid, page, draw).at.table;
      && (i == page ==> IsValid(u[i].entry) && HasReference(u[i].entry))
      && (i != page && IsValid(u[i].entry) ==> u[i] == t[i])
  {
    if i != page {
      ProbeLeavesOthers(l, pid, page, draw, i);
    } else if !IsValid(l.table[page].entry) {
      ProbeLoads(l, pid, page, draw);
    }
  }

  lemma InHeadOrRest(pages: seq<nat>, i: nat)
    requires pages != []
    ensures i in pages <==> i == pages[0] || i in pages[1..]
  {
  }

  /** When a search ends, a resident page has its reference bit set exactly if the search probed
      it, or it was set before. */
  lemma {:induction false} ReferencedMeansProbed(l: Local, pid: int, pages: seq<nat>, draw: nat, i: nat)
    requires Good(l) && PagesBelow(pages, TABLE_SIZE) && i < TABLE_SIZE && Walk(l, pid, pages, draw).found
    requires IsValid(Walk(l, pid, pages, draw).at.table[i].entry)
    ensures HasReference(Walk(l, pid, pages, draw).at.table[i].entry) <==>
      (IsValid(l.table[i].entry) && HasReference(l.table[i].entry)) || i in pages
    ensures IsValid(l.table[i].entry) || i in pages
    decreases |pages|
  {
    if pages != [] {
      ProbeReferences(l, pid, pages[0], draw, i);
      ProbeKeepsFrames(l, pid, pages[0], draw);
      InHeadOrRest(pages, i);
      ReferencedMeansProbed(Probe(l, pid, pages[0], draw).at, pid, pages[1..], draw, i);
    }
  }

  /** The logs after a whole search. */
  ghost function SearchRefs(l: Local, pid: int, s: int, idx: int, draw: nat, refs: seq<seq<bool>>): (r: seq<seq<bool>>)
    requires Sized(l) && TableCovers(s) && |refs| == TABLE_SIZE
    ensures |r| == TABLE_SIZE
  {
    ProbesInRange(0, s - 1, idx, s);
    var pages := Probes(0, s - 1, idx);
    var w := Walk(l, pid, pages, draw);
    var now := WalkRefs(l, pid, pages, draw, refs);
    if w.found then AgedRefs(w.at.table, now) else now
  }

  /** Every history is the record of the last sixteen searches: a search adds one bit for every
      resident page, saying whether it probed that page. */
  lemma SearchRecordsReferences(l: Local, pid: int, s: int, idx: int, draw: nat, refs: seq<seq<bool>>)
    requires Good(l) && TableCovers(s) && Recorded(l.table, refs) && NoReferences(l.table)
    requires Search(l, pid, s, idx, draw).found
    ensures var u, r := Search(l, pid, s, idx, draw).at.table, SearchRefs(l, pid, s, idx, draw, refs);
      && Recorded(u, r) && NoReferences(u)
      && forall i | 0 <= i < TABLE_SIZE && IsValid(u[i].entry) :: r[i] != [] && r[i][0] == (i in Probes(0, s - 1, idx))
  {
    ProbesInRange(0, s - 1, idx, s);
    var pages := Probes(0, s - 1, idx);
    var w := Walk(l, pid, pages, draw);
    WalkKeepsFrames(l, pid, pages, draw);
    WalkKeepsRecords(l, pid, pages, draw, refs);
    AgingKeepsRecords(w.at.table, WalkRefs(l, pid, pages, draw, refs));
    forall i | 0 <= i < TABLE_SIZE && IsValid(w.at.table[i].entry)
      ensures HasReference(w.at.table[i].entry) == (i in pages)
    {
      ReferencedMeansProbed(l, pid, pages, draw, i);
    }
  }

  /** A page that is not brought in keeps its log. */
  lemma {:induction false} ResidentPagesKeepTheirLog(l: Local, pid: int, pages: seq<nat>, draw: nat,
                                                     refs: seq<seq<bool>>, i: nat)
    requires Sized(l) && PagesBelow(pages, TABLE_SIZE) && |refs| == TABLE_SIZE && i < TABLE_SIZE
    ensures WalkRefs(l, pid, pages, draw, refs)[i] == refs[i] || WalkRefs(l, pid, pages, draw, refs)[i] == []
    ensures i !in pages ==> WalkRefs(l, pid, pages, draw, refs)[i] == refs[i]
    decreases |pages|
  {
    if pages != [] {
      assert pages == [pages[0]] + pages[1..];
      var w := Probe(l, pid, pages[0], draw);
      var now := if w.found && !IsValid(l.table[pages[0]].entry) then refs[pages[0] := []] else refs;
      if w.found { ResidentPagesKeepTheirLog(w.at, pid, pages[1..], draw, now, i); }
    }
  }

  /** The page given up is, of those that could be, the least recently used by the record of the
      last sixteen searches, and of those the first. */
  lemma VictimIsLeastRecentlyUsed(t: seq<PageEntry>, refs: seq<seq<bool>>, j: int)
    requires |t| == TABLE_SIZE && Recorded(t, refs) && Candidate(t, j)
    ensures var v := Victim(t, TABLE_SIZE);
      && v != -1 && !Older(refs[j], refs[v], 0, 16)
      && (!Older(refs[v], refs[j], 0, 16) ==> v <= j)
  {
    VictimIsLeast(t, TABLE_SIZE, j);
    var v := Victim(t, TABLE_SIZE);
    SmallerMeansOlder(refs[j], refs[v], 0, 16);
    SmallerMeansOlder(refs[v], refs[j], 0, 16);
  }

  /** A resident page can be given up exactly if one of its last sixteen searches passed it by. */
  lemma CandidateMeansPassedBy(t: seq<PageEntry>, refs: seq<seq<bool>>, i: nat)
    requires |t| == TABLE_SIZE && Recorded(t, refs) && ESSENTIAL_PAGES <= i < TABLE_SIZE && IsValid(t[i].entry)
    ensures Candidate(t, i) <==> exists k :: 0 <= k < 16 && !Bit(refs[i], k)
  {
    Powers();
    FullMeansAllBits(refs[i], 0, 16);
    PackedBound(refs[i], 0, 16);
  }

  lemma {:induction false} FullMeansAllBits(refs: seq<bool>, i: nat, k: nat)
    ensures Packed(refs, i, k) == Pow2(k) - 1 <==> forall d | i <= d < i + k :: Bit(refs, d)
    decreases k
  {
    if k > 0 {
      FullMeansAllBits(refs, i + 1, k - 1);
      PackedBound(refs, i + 1, k - 1);
      assert Pow2(k) == 2 * Pow2(k - 1);
    }
  }

  // ----- A search that fails -----

  lemma {:induction false} WalkAgesNothing(l: Local, pid: int, pages: seq<nat>, draw: nat, i: nat)
    requires Sized(l) && PagesBelow(pages, TABLE_SIZE) && i < TABLE_SIZE
    ensures var w := Walk(l, pid, pages, draw);
      w.at.table[i].history == l.table[i].history || w.at.table[i].history == FULL
    decreases |pages|
  {
    if pages != [] {
      var w := Probe(l, pid, pages[0], draw);
      if w.found { WalkAgesNothing(w.at, pid, pages[1..], draw, i); }
    }
  }

  /** A search that fails ages nothing: each history is as it was, or that of a page just loaded. */
  lemma FailedSearchAgesNothing(l: Local, pid: int, s: int, idx: int, draw: nat, i: nat)
    requires Sized(l) && TableCovers(s) && i < TABLE_SIZE && !Search(l, pid, s, idx, draw).found
    ensures var w := Search(l, pid, s, idx, draw);
      w.at.table[i].history == l.table[i].history || w.at.table[i].history == FULL
  {
    ProbesInRange(0, s - 1, idx, s);
    WalkAgesNothing(l, pid, Probes(0, s - 1, idx), draw, i);
  }
}
