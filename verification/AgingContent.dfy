/** What LA10's free list says is true: an entry with an owner names a frame that still holds the
    page it names, and the entries are in the order in which they were freed. */
module AgingContent {
  import opened PageTables
  import opened Sequences
  import opened BinarySearch
  import opened ReplacementChoice
  import opened AgingSpec

  /** For each frame, the process and page last loaded into it. */
  type Content = map<int, (int, int)>

  ghost predicate Holds(content: Content, frame: int, pid: int, page: int) {
    frame in content && content[frame] == (pid, page)
  }

  ghost predicate ListTruthful(ff: seq<FrameEntry>, content: Content) {
    forall i | 0 <= i < |ff| :: ff[i].lastOwner != NOBODY ==> Holds(content, ff[i].frameNo, ff[i].lastOwner, ff[i].pgNo)
  }

  ghost predicate TableTruthful(t: seq<PageEntry>, pid: int, content: Content) {
    forall i | 0 <= i < |t| :: IsValid(t[i].entry) ==> Holds(content, FrameOf(t[i].entry, SPAN), pid, i)
  }

  ghost predicate Once(m: multiset<int>) {
    forall f: int :: m[f] <= 1
  }

  lemma ListedTwice(ff: seq<FrameEntry>, i: nat, j: nat)
    requires i < j < |ff| && ff[i].frameNo == ff[j].frameNo
    ensures Listed(ff)[ff[i].frameNo] >= 2
  {
    var f := FrameNos(ff);
    assert f == f[..j] + f[j..] && f[..j][i] == f[j..][0];
  }

  lemma ListedOnce(ff: seq<FrameEntry>, i: nat, j: nat)
    requires i < |ff| && j < |ff| && i != j && Once(Listed(ff))
    ensures ff[i].frameNo != ff[j].frameNo
  {
    if ff[i].frameNo == ff[j].frameNo { ListedTwice(ff, if i < j then i else j, if i < j then j else i); }
  }

  lemma IsListed(ff: seq<FrameEntry>, i: nat)
    requires i < |ff|
    ensures ff[i].frameNo in Listed(ff)
  {
    assert FrameNos(ff)[i] == ff[i].frameNo;
  }

  lemma {:induction false} EntryIsHeld(e: seq<int>, i: nat)
    requires i < |e| && IsValid(e[i])
    ensures FrameOf(e[i], SPAN) in TableFrames(e, SPAN)
  {
    if i > 0 { EntryIsHeld(e[1..], i - 1); }
  }

  lemma IsHeld(t: seq<PageEntry>, i: nat)
    requires i < |t| && IsValid(t[i].entry)
    ensures FrameOf(t[i].entry, SPAN) in Holding(t)
  {
    EntryIsHeld(Entries(t), i);
  }

  lemma Apart(t: seq<PageEntry>, ff: seq<FrameEntry>, i: nat, k: nat)
    requires i < |t| && k < |ff| && IsValid(t[i].entry) && Once(Listed(ff) + Holding(t))
    ensures FrameOf(t[i].entry, SPAN) != ff[k].frameNo
  {
    IsHeld(t, i);
    IsListed(ff, k);
    var f := ff[k].frameNo;
    assert (Listed(ff) + Holding(t))[f] == Listed(ff)[f] + Holding(t)[f];
  }

  /** Where in the list the frame for a page comes from. */
  ghost function Source(ff: seq<FrameEntry>, pid: int, page: int, draw: nat): (k: int)
    requires ff != []
    ensures 0 <= k < |ff|
  {
    ChoiceIsBest(ff, pid, page, draw);
    if |ff| > MIN_FREE then 0 else Choose(ff, pid, page, draw).index
  }

  /** The entries that stay keep telling the truth when entry k's frame gets a new page. */
  lemma RestStaysTruthful(ff: seq<FrameEntry>, k: nat, now: (int, int), content: Content)
    requires k < |ff| && ListTruthful(ff, content) && Once(Listed(ff))
    ensures ListTruthful(Without(ff, k), content[ff[k].frameNo := now])
  {
    var rest := Without(ff, k);
    forall i | 0 <= i < |rest| && rest[i].lastOwner != NOBODY
      ensures Holds(content[ff[k].frameNo := now], rest[i].frameNo, rest[i].lastOwner, rest[i].pgNo)
    {
      var from := if i < k then i else i + 1;
      assert rest[i] == ff[from];
      ListedOnce(ff, from, k);
    }
  }

  lemma GetFrameKeepsTruth(t: seq<PageEntry>, ff: seq<FrameEntry>, pid: int, page: int, draw: nat, content: Content)
    requires |t| == TABLE_SIZE && ff != [] && GoodTable(t) && Once(Listed(ff) + Holding(t))
    requires ListTruthful(ff, content) && TableTruthful(t, pid, content)
    requires GetFrame(t, ff, pid, page, draw).Got?
    ensures var g := GetFrame(t, ff, pid, page, draw);
      && g.frame == ff[Source(ff, pid, page, draw)].frameNo && g.frame in Listed(ff)
      && ListTruthful(g.ff, content[g.frame := (pid, page)])
  {
    var g, k := GetFrame(t, ff, pid, page, draw), Source(ff, pid, page, draw);
    IsListed(ff, k);
    OnceBoth(ff, t);
    RestStaysTruthful(ff, k, (pid, page), content);
    if |ff| > MIN_FREE {
      assert g.ff == Without(ff, 0);
    } else {
      Apart(t, ff, Victim(t, TABLE_SIZE), k);
      assert g.ff == Without(ff, k) + [g.ff[|g.ff| - 1]];
    }
  }

  lemma OnceBoth(ff: seq<FrameEntry>, t: seq<PageEntry>)
    requires Once(Listed(ff) + Holding(t))
    ensures Once(Listed(ff))
  {
    forall f: int ensures Listed(ff)[f] <= 1 {
      assert (Listed(ff) + Holding(t))[f] == Listed(ff)[f] + Holding(t)[f];
    }
  }

  ghost function ProbeContent(l: Local, pid: int, page: nat, draw: nat, content: Content): Content
    requires Sized(l) && page < TABLE_SIZE
  {
    if IsValid(l.table[page].entry) then content
    else
      var g := GetFrame(l.table, l.ff, pid, page, draw);
      if g.Got? then content[g.frame := (pid, page)] else content
  }

  ghost function WalkContent(l: Local, pid: int, pages: seq<nat>, draw: nat, content: Content): Content
    requires Sized(l) && PagesBelow(pages, TABLE_SIZE)
    decreases |pages|
  {
    if pages == [] then content
    else
      var w := Probe(l, pid, pages[0], draw);
      var now := ProbeContent(l, pid, pages[0], draw, content);
      if w.found then WalkContent(w.at, pid, pages[1..], draw, now) else now
  }

  /** The two contents agree on every frame that is not among these. */
  ghost predicate SameElsewhere(a: Content, b: Content, frames: multiset<int>) {
    forall f: int :: f !in frames ==> ((f in a) == (f in b) && (f in a ==> a[f] == b[f]))
  }

  ghost predicate Truthful(l: Local, pid: int, content: Content) {
    ListTruthful(l.ff, content) && TableTruthful(l.table, pid, content)
  }

  lemma ProbeKeepsTruth(l: Local, pid: int, page: nat, draw: nat, content: Content)
    requires Good(l) && page < TABLE_SIZE && Once(FramesOf(l)) && Truthful(l, pid, content)
    ensures var now := ProbeContent(l, pid, page, draw, content);
      && Truthful(Probe(l, pid, page, draw).at, pid, now)
      && SameElsewhere(content, now, FramesOf(l))
  {
    if IsValid(l.table[page].entry) {
      MarkKeepsTruth(l.table, pid, page, content);
    } else if GetFrame(l.table, l.ff, pid, page, draw).Got? {
      GetFrameKeepsTruth(l.table, l.ff, pid, page, draw, content);
      FaultKeepsTable(l, pid, page, draw, content);
    }
  }

  lemma MarkKeepsTruth(t: seq<PageEntry>, pid: int, page: nat, content: Content)
    requires |t| == TABLE_SIZE && GoodTable(t) && page < TABLE_SIZE && IsValid(t[page].entry)
    requires TableTruthful(t, pid, content)
    ensures TableTruthful(t[page := t[page].(entry := SetReference(t[page].entry))], pid, content)
  {
  }

  /** The page brought in is now the content of its frame; every other page is where it was. */
  lemma FaultKeepsTable(l: Local, pid: int, page: nat, draw: nat, content: Content)
    requires Good(l) && page < TABLE_SIZE && Once(FramesOf(l)) && TableTruthful(l.table, pid, content)
    requires !IsValid(l.table[page].entry) && GetFrame(l.table, l.ff, pid, page, draw).Got?
    requires GetFrame(l.table, l.ff, pid, page, draw).frame == l.ff[Source(l.ff, pid, page, draw)].frameNo
    ensures TableTruthful(Probe(l, pid, page, draw).at.table, pid, ProbeContent(l, pid, page, draw, content))
  {
    var g, u := GetFrame(l.table, l.ff, pid, page, draw), Probe(l, pid, page, draw).at.table;
    LoadKeepsTruth(l.table, l.ff, Source(l.ff, pid, page, draw), pid, page, content);
    assert FrameOf(Loaded(g.frame).entry, SPAN) == g.frame by {
      GetFrameKeepsFrames(l.table, l.ff, pid, page, draw);
    }
    forall i | 0 <= i < TABLE_SIZE && IsValid(u[i].entry)
      ensures Holds(ProbeContent(l, pid, page, draw, content), FrameOf(u[i].entry, SPAN), pid, i)
    {
      if i != page { ProbeLeavesOthers(l, pid, page, draw, i); }
    }
  }

  lemma LoadKeepsTruth(t: seq<PageEntry>, ff: seq<FrameEntry>, k: nat, pid: int, page: nat, content: Content)
    requires k < |ff| && TableTruthful(t, pid, content) && Once(Listed(ff) + Holding(t))
    ensures TableTruthful(t, pid, content[ff[k].frameNo := (pid, page)])
  {
    forall i | 0 <= i < |t| && IsValid(t[i].entry)
      ensures FrameOf(t[i].entry, SPAN) != ff[k].frameNo
    {
      Apart(t, ff, i, k);
    }
  }

  /** A search keeps the list truthful, and touches no frame that is neither listed nor its own. */
  lemma {:induction false} WalkKeepsTruth(l: Local, pid: int, pages: seq<nat>, draw: nat, content: Content)
    requires Good(l) && PagesBelow(pages, TABLE_SIZE) && Once(FramesOf(l)) && Truthful(l, pid, content)
    ensures var now := WalkContent(l, pid, pages, draw, content);
      && Truthful(Walk(l, pid, pages, draw).at, pid, now)
      && SameElsewhere(content, now, FramesOf(l))
    decreases |pages|
  {
    if pages != [] {
      ProbeKeepsTruth(l, pid, pages[0], draw, content);
      ProbeKeepsFrames(l, pid, pages[0], draw);
      var w := Probe(l, pid, pages[0], draw);
      if w.found {
        WalkKeepsTruth(w.at, pid, pages[1..], draw, ProbeContent(l, pid, pages[0], draw, content));
      }
    }
  }

  lemma AgingKeepsTruth(t: seq<PageEntry>, pid: int, content: Content)
    requires GoodTable(t) && TableTruthful(t, pid, content)
    ensures TableTruthful(Age(t), pid, content)
  {
  }

  /** So does the aging after it. */
  lemma SearchKeepsTruth(l: Local, pid: int, pages: seq<nat>, draw: nat, content: Content)
    requires Good(l) && PagesBelow(pages, TABLE_SIZE) && Once(FramesOf(l)) && Truthful(l, pid, content)
    ensures var now := WalkContent(l, pid, pages, draw, content);
      && Truthful(Ended(Walk(l, pid, pages, draw)).at, pid, now)
      && SameElsewhere(content, now, FramesOf(l))
  {
    WalkKeepsTruth(l, pid, pages, draw, content);
    WalkKeepsFrames(l, pid, pages, draw);
    AgingKeepsTruth(Walk(l, pid, pages, draw).at.table, pid, WalkContent(l, pid, pages, draw, content));
  }

  // ----- Order -----

  /** What a probe puts at the end of the list: the frame of the page given up, if one was. */
  ghost function ProbeFrees(l: Local, pid: int, page: nat, draw: nat): seq<FrameEntry>
    requires Sized(l) && page < TABLE_SIZE
  {
    var v := Victim(l.table, TABLE_SIZE);
    if IsValid(l.table[page].entry) || |l.ff| > MIN_FREE || v == -1 then []
    else [FrameEntry(FrameOf(l.table[v].entry, SPAN), pid, v)]
  }

  ghost function WalkFrees(l: Local, pid: int, pages: seq<nat>, draw: nat): seq<FrameEntry>
    requires Sized(l) && PagesBelow(pages, TABLE_SIZE)
    decreases |pages|
  {
    if pages == [] then []
    else
      var w := Probe(l, pid, pages[0], draw);
      ProbeFrees(l, pid, pages[0], draw) + if w.found then WalkFrees(w.at, pid, pages[1..], draw) else []
  }

  lemma ProbeKeepsOrder(l: Local, pid: int, page: nat, draw: nat, log: seq<FrameEntry>)
    requires Sized(l) && page < TABLE_SIZE && Subsequence(l.ff, log)
    ensures Subsequence(Probe(l, pid, page, draw).at.ff, log + ProbeFrees(l, pid, page, draw))
  {
    var g := GetFrame(l.table, l.ff, pid, page, draw);
    assert log + [] == log;
    if !IsValid(l.table[page].entry) && g.Got? {
      var k := Source(l.ff, pid, page, draw);
      SubsequenceWithout(l.ff, log, k);
      if |l.ff| > MIN_FREE {
        assert Without(l.ff, 0) == l.ff[1..];
      } else {
        SubsequenceSnoc(Without(l.ff, k), log, g.ff[|g.ff| - 1]);
      }
    }
  }

  lemma FreesInTurn(l: Local, pid: int, pages: seq<nat>, draw: nat, log: seq<FrameEntry>)
    requires Sized(l) && PagesBelow(pages, TABLE_SIZE) && pages != []
    ensures var w, freed := Probe(l, pid, pages[0], draw), ProbeFrees(l, pid, pages[0], draw);
      log + WalkFrees(l, pid, pages, draw)
      == log + freed + if w.found then WalkFrees(w.at, pid, pages[1..], draw) else []
  {
    var w := Probe(l, pid, pages[0], draw);
    Associative(log, ProbeFrees(l, pid, pages[0], draw),
                if w.found then WalkFrees(w.at, pid, pages[1..], draw) else []);
  }

  lemma Associative(a: seq<FrameEntry>, b: seq<FrameEntry>, c: seq<FrameEntry>)
    ensures a + (b + c) == a + b + c
  {
  }

  /** The list keeps, of all entries ever put into it, some, in the order of their freeing. */
  lemma {:induction false} WalkKeepsOrder(l: Local, pid: int, pages: seq<nat>, draw: nat, log: seq<FrameEntry>)
    requires Sized(l) && PagesBelow(pages, TABLE_SIZE) && Subsequence(l.ff, log)
    ensures Subsequence(Walk(l, pid, pages, draw).at.ff, log + WalkFrees(l, pid, pages, draw))
    decreases |pages|
  {
    if pages == [] {
      assert log + [] == log;
    } else {
      var w := Probe(l, pid, pages[0], draw);
      ProbeKeepsOrder(l, pid, pages[0], draw, log);
      FreesInTurn(l, pid, pages, draw, log);
      if w.found {
        WalkKeepsOrder(w.at, pid, pages[1..], draw, log + ProbeFrees(l, pid, pages[0], draw));
      }
    }
  }
}
