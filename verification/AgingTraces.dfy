/** What the histories and the free list of LA10 mean, along every run. */
module AgingTraces {
  import opened PageTables
  import opened Sequences
  import opened BinarySearch
  import opened ReplacementChoice
  import opened AgingSpec
  import opened AgingContent
  import opened AgingRuns
  import opened AgingStart
  import opened Processes

  /** What happened so far: for every ready process the reference logs of its pages, for every
      frame what was last loaded into it, and everything ever put into the free list. */
  datatype Trace = Trace(refs: seq<seq<seq<bool>>>, content: Content, log: seq<FrameEntry>)

  ghost predicate TablesTruthful(ps: seq<Proc>, content: Content) {
    forall i | 0 <= i < |ps| :: TableTruthful(ps[i].table, ps[i].id, content)
  }

  ghost predicate RefsOk(ps: seq<Proc>, refs: seq<seq<seq<bool>>>) {
    |refs| == |ps| && forall i | 0 <= i < |ps| :: Recorded(ps[i].table, refs[i]) && NoReferences(ps[i].table)
  }

  ghost predicate ContentOk(w: World, content: Content) {
    ListTruthful(w.ff, content) && TablesTruthful(w.ready, content) && TablesTruthful(w.dropped, content)
  }

  ghost predicate TraceOk(w: World, tr: Trace) {
    RefsOk(w.ready, tr.refs) && ContentOk(w, tr.content) && Subsequence(w.ff, tr.log)
  }

  function FirstProbes(w: World): seq<nat>
    requires w.ready != [] && w.ready[0].done < |w.ready[0].searches|
  {
    Probes(0, w.ready[0].s - 1, w.ready[0].searches[w.ready[0].done])
  }

  lemma FirstProbesInRange(w: World)
    requires Ready(w)
    ensures PagesBelow(FirstProbes(w), TABLE_SIZE)
  {
    ProbesInRange(0, w.ready[0].s - 1, w.ready[0].searches[w.ready[0].done], w.ready[0].s);
  }

  lemma FirstSearchIsWalk(w: World, draw: nat)
    requires Ready(w)
    ensures PagesBelow(FirstProbes(w), TABLE_SIZE)
    ensures FirstSearch(w, draw) == Ended(Walk(LocalOf(w), w.ready[0].id, FirstProbes(w), draw))
  {
    FirstProbesInRange(w);
  }

  ghost function NextContent(w: World, content: Content, draw: nat): Content
    requires Ready(w)
  {
    FirstProbesInRange(w);
    WalkContent(LocalOf(w), w.ready[0].id, FirstProbes(w), draw, content)
  }

  /** What the iteration puts at the end of the list after the search. */
  ghost function Handed(w: World, draw: nat): seq<FrameEntry>
    requires Ready(w)
  {
    var r, p := FirstSearch(w, draw), w.ready[0];
    if r.found && p.done + 1 == |p.searches| then Returned(r.at.table) else []
  }

  ghost function NextLog(w: World, log: seq<FrameEntry>, draw: nat): seq<FrameEntry>
    requires Ready(w)
  {
    FirstProbesInRange(w);
    log + WalkFrees(LocalOf(w), w.ready[0].id, FirstProbes(w), draw) + Handed(w, draw)
  }

  ghost function NextRefs(w: World, refs: seq<seq<seq<bool>>>, draw: nat): seq<seq<seq<bool>>>
    requires Ready(w) && refs != [] && |refs[0]| == TABLE_SIZE
  {
    var r, p := FirstSearch(w, draw), w.ready[0];
    refs[1..] + if r.found && p.done + 1 != |p.searches|
                then [SearchRefs(LocalOf(w), p.id, p.s, p.searches[p.done], draw, refs[0])] else []
  }

  ghost function Next(w: World, tr: Trace, draw: nat): Trace
    requires Inv(w) && TraceOk(w, tr)
  {
    if w.ready == [] then tr
    else Trace(NextRefs(w, tr.refs, draw), NextContent(w, tr.content, draw), NextLog(w, tr.log, draw))
  }

  // ----- Histories -----

  lemma IterateKeepsRefs(w: World, refs: seq<seq<seq<bool>>>, draw: nat)
    requires Inv(w) && w.ready != [] && RefsOk(w.ready, refs)
    ensures RefsOk(Iterate(w, draw).ready, NextRefs(w, refs, draw))
  {
    var r, p := FirstSearch(w, draw), w.ready[0];
    if r.found {
      SearchRecordsReferences(LocalOf(w), p.id, p.s, p.searches[p.done], draw, refs[0]);
    }
  }

  // ----- Content -----

  lemma TableElsewhere(t: seq<PageEntry>, pid: int, a: Content, b: Content, mine: multiset<int>)
    requires TableTruthful(t, pid, a) && SameElsewhere(a, b, mine)
    requires forall f | f in Holding(t) :: f !in mine
    ensures TableTruthful(t, pid, b)
  {
    forall i | 0 <= i < |t| && IsValid(t[i].entry) ensures Holds(b, FrameOf(t[i].entry, SPAN), pid, i) {
      IsHeld(t, i);
    }
  }

  lemma TablesElsewhere(ps: seq<Proc>, a: Content, b: Content, mine: multiset<int>)
    requires TablesTruthful(ps, a) && SameElsewhere(a, b, mine)
    requires forall f | f in HeldBy(ps) :: f !in mine
    ensures TablesTruthful(ps, b)
  {
    forall i | 0 <= i < |ps| ensures TableTruthful(ps[i].table, ps[i].id, b) {
      HeldByIncludes(ps, i);
      TableElsewhere(ps[i].table, ps[i].id, a, b, mine);
    }
  }

  /** The frames the first ready process works on are nobody else's. */
  lemma OthersApart(mine: multiset<int>, ready: multiset<int>, dropped: multiset<int>, all: multiset<int>)
    requires mine + ready + dropped == all && Once(all)
    ensures Once(mine)
    ensures forall f | f in ready :: f !in mine
    ensures forall f | f in dropped :: f !in mine
  {
    forall f: int ensures mine[f] + ready[f] + dropped[f] <= 1 {
      assert all[f] == mine[f] + ready[f] + dropped[f];
    }
  }

  lemma WorkingFrames(w: World)
    requires Inv(w) && w.ready != []
    ensures Once(FramesOf(LocalOf(w)))
    ensures forall f | f in HeldBy(w.ready[1..]) :: f !in FramesOf(LocalOf(w))
    ensures forall f | f in HeldBy(w.dropped) :: f !in FramesOf(LocalOf(w))
  {
    var all := AllFrames();
    AllFramesOnce(all);
    var rest, dropped, p := HeldBy(w.ready[1..]), HeldBy(w.dropped), w.ready[0];
    assert Listed(w.ff) + (Holding(p.table) + rest) + dropped == FramesOf(LocalOf(w)) + rest + dropped;
    OthersApart(FramesOf(LocalOf(w)), rest, dropped, all);
  }

  lemma OthersKeepContent(w: World, content: Content, now: Content)
    requires Inv(w) && w.ready != [] && ContentOk(w, content)
    requires SameElsewhere(content, now, FramesOf(LocalOf(w)))
    ensures TablesTruthful(w.ready[1..], now) && TablesTruthful(w.dropped, now)
  {
    WorkingFrames(w);
    TablesElsewhere(w.ready[1..], content, now, FramesOf(LocalOf(w)));
    TablesElsewhere(w.dropped, content, now, FramesOf(LocalOf(w)));
  }

  lemma SearchKeepsContent(w: World, content: Content, draw: nat)
    requires Inv(w) && w.ready != [] && ContentOk(w, content)
    ensures var r, now := FirstSearch(w, draw), NextContent(w, content, draw);
      && Truthful(r.at, w.ready[0].id, now)
      && TablesTruthful(w.ready[1..], now) && TablesTruthful(w.dropped, now)
  {
    FirstSearchIsWalk(w, draw);
    WorkingFrames(w);
    assert TableTruthful(w.ready[0].table, w.ready[0].id, content);
    SearchKeepsTruth(LocalOf(w), w.ready[0].id, FirstProbes(w), draw, content);
    OthersKeepContent(w, content, NextContent(w, content, draw));
  }

  lemma TablesTruthfulSnoc(ps: seq<Proc>, p: Proc, content: Content)
    requires TablesTruthful(ps, content) && TableTruthful(p.table, p.id, content)
    ensures TablesTruthful(ps + [p], content)
  {
  }

  lemma FreedIsTruthful(ff: seq<FrameEntry>, frames: seq<int>, content: Content)
    requires ListTruthful(ff, content)
    ensures ListTruthful(ff + Freed(frames), content)
  {
  }

  /** The three ways to go on after a search. */
  lemma OutcomeKeepsContent(w: World, r: Walked, content: Content, draw: nat)
    requires Ready(w) && r == FirstSearch(w, draw) && Truthful(r.at, w.ready[0].id, content)
    requires TablesTruthful(w.ready[1..], content) && TablesTruthful(w.dropped, content)
    ensures ContentOk(Iterate(w, draw), content)
  {
    var p := w.ready[0].(table := r.at.table);
    TablesTruthfulSnoc(w.dropped, p, content);
    TablesTruthfulSnoc(w.ready[1..], p.(done := p.done + 1), content);
    FreedIsTruthful(r.at.ff, HeldFrames(Entries(r.at.table), SPAN), content);
  }

  lemma IterateKeepsContent(w: World, content: Content, draw: nat)
    requires Inv(w) && w.ready != [] && ContentOk(w, content)
    ensures ContentOk(Iterate(w, draw), NextContent(w, content, draw))
  {
    SearchKeepsContent(w, content, draw);
    OutcomeKeepsContent(w, FirstSearch(w, draw), NextContent(w, content, draw), draw);
  }

  // ----- Order -----

  lemma {:induction false} SubsequenceAppend(sub: seq<FrameEntry>, full: seq<FrameEntry>, more: seq<FrameEntry>)
    requires Subsequence(sub, full)
    ensures Subsequence(sub + more, full + more)
    decreases |more|
  {
    if more == [] {
      assert sub + more == sub && full + more == full;
    } else {
      SubsequenceSnoc(sub, full, more[0]);
      SubsequenceAppend(sub + [more[0]], full + [more[0]], more[1..]);
      assert sub + more == sub + [more[0]] + more[1..] && full + more == full + [more[0]] + more[1..];
    }
  }

  lemma IterateHands(w: World, draw: nat)
    requires Ready(w)
    ensures Iterate(w, draw).ff == FirstSearch(w, draw).at.ff + Handed(w, draw)
  {
  }

  lemma IterateKeepsOrder(w: World, log: seq<FrameEntry>, draw: nat)
    requires Ready(w) && Subsequence(w.ff, log)
    ensures Subsequence(Iterate(w, draw).ff, NextLog(w, log, draw))
  {
    FirstSearchIsWalk(w, draw);
    WalkKeepsOrder(LocalOf(w), w.ready[0].id, FirstProbes(w), draw, log);
    SubsequenceAppend(FirstSearch(w, draw).at.ff, log + WalkFrees(LocalOf(w), w.ready[0].id, FirstProbes(w), draw),
                      Handed(w, draw));
    IterateHands(w, draw);
  }

  /** Along every run, histories are the records of the last sixteen searches, free-list entries
      with an owner still hold what they say, and the list is in the order of freeing. */
  lemma IterateKeepsTrace(w: World, tr: Trace, draw: nat)
    requires Inv(w) && TraceOk(w, tr)
    ensures Inv(Iterate(w, draw)) && TraceOk(Iterate(w, draw), Next(w, tr, draw))
  {
    IterateKeepsInvariant(w, draw);
    if w.ready != [] {
      IterateKeepsRefs(w, tr.refs, draw);
      IterateKeepsContent(w, tr.content, draw);
      IterateKeepsOrder(w, tr.log, draw);
    }
  }

  ghost function After(w: World, tr: Trace, draw: nat, k: nat): (r: (World, Trace))
    requires Inv(w) && TraceOk(w, tr)
    ensures Inv(r.0) && TraceOk(r.0, r.1)
    decreases k
  {
    if k == 0 then (w, tr)
    else
      IterateKeepsTrace(w, tr, draw);
      After(Iterate(w, draw), Next(w, tr, draw), draw, k - 1)
  }

  /** The use of it all: at every probe of every run, when the first attempt succeeds, the frame
      it takes still holds the very page that is missing. */
  lemma FirstAttemptFindsThePage(w: World, tr: Trace, draw: nat, k: nat)
    requires Inv(w) && TraceOk(w, tr) && w.ready != [] && k < |FirstProbes(w)|
    ensures PagesBelow(FirstProbes(w)[..k], TABLE_SIZE)
    ensures var pid, page := w.ready[0].id, FirstProbes(w)[k];
      var ff := Walk(LocalOf(w), pid, FirstProbes(w)[..k], draw).at.ff;
      var content := WalkContent(LocalOf(w), pid, FirstProbes(w)[..k], draw, tr.content);
      var c := Choose(ff, pid, page, draw);
      && 0 <= c.index < |ff|
      && (c.attempt == 1 ==> Holds(content, ff[c.index].frameNo, pid, page))
  {
    FirstProbesInRange(w);
    WorkingFrames(w);
    var pid, pages := w.ready[0].id, FirstProbes(w)[..k];
    WalkKeepsTruth(LocalOf(w), pid, pages, draw, tr.content);
    ChoiceIsBest(Walk(LocalOf(w), pid, pages, draw).at.ff, pid, FirstProbes(w)[k], draw);
  }

  // ----- The start -----

  ghost function BeginTrace(inputs: seq<Input>): Trace {
    Trace(seq(|inputs|, i => seq(TABLE_SIZE, k => [])),
          map f | 0 <= f < 10 * |inputs| :: (f / 10, f % 10),
          Begin(inputs).ff)
  }

  lemma {:induction false} WholeIsSubsequence(ff: seq<FrameEntry>)
    ensures Subsequence(ff, ff)
  {
    if ff != [] { WholeIsSubsequence(ff[1..]); }
  }

  lemma EssentialTruthful(i: nat, n: nat, content: Content)
    requires i < n <= MAX_PROCESSES && content == map f | 0 <= f < 10 * n :: (f / 10, f % 10)
    ensures TableTruthful(EssentialTable(i, ESSENTIAL_PAGES), i, content)
  {
    var t := EssentialTable(i, ESSENTIAL_PAGES);
    forall k | 0 <= k < |t| && IsValid(t[k].entry) ensures Holds(content, FrameOf(t[k].entry, SPAN), i, k) {
      var f := 10 * i + k;
      assert FrameOf(t[k].entry, SPAN) == f && f / 10 == i;
    }
  }

  lemma EssentialRecorded(i: nat)
    requires i < MAX_PROCESSES
    ensures var t := EssentialTable(i, ESSENTIAL_PAGES);
      Recorded(t, seq(TABLE_SIZE, k => [])) && NoReferences(t)
  {
    NothingRecorded(0, 16);
    Powers();
  }

  lemma BeginTraceOk(inputs: seq<Input>)
    requires |inputs| <= MAX_PROCESSES
    ensures TraceOk(Begin(inputs), BeginTrace(inputs))
  {
    WholeIsSubsequence(Begin(inputs).ff);
    forall i: nat | i < |inputs|
      ensures TableTruthful(Begin(inputs).ready[i].table, i, BeginTrace(inputs).content)
      ensures Recorded(Begin(inputs).ready[i].table, BeginTrace(inputs).refs[i])
      ensures NoReferences(Begin(inputs).ready[i].table)
    {
      EssentialTruthful(i, |inputs|, BeginTrace(inputs).content);
      EssentialRecorded(i);
    }
  }

  /** The histories and the list can be true of the state in which a run begins exactly if there
      are at most 1128 processes: with more, two pages claim the same frame. */
  lemma TraceExistsExactly(inputs: seq<Input>)
    ensures (exists tr :: TraceOk(Begin(inputs), tr)) <==> |inputs| <= MAX_PROCESSES
  {
    if |inputs| <= MAX_PROCESSES {
      BeginTraceOk(inputs);
    } else {
      forall tr: Trace ensures !TraceOk(Begin(inputs), tr) {
        OneFrameTwoPages(inputs, tr.content);
      }
    }
  }

  lemma OneFrameTwoPages(inputs: seq<Input>, content: Content)
    requires |inputs| > MAX_PROCESSES
    ensures !TablesTruthful(Begin(inputs).ready, content)
  {
    var p := Begin(inputs).ready[MAX_PROCESSES];
    assert p == FirstProc(inputs, MAX_PROCESSES);
    assert p.table[8] == p.table[9] == Stored(-1);
    assert IsValid(p.table[8].entry) && IsValid(p.table[9].entry);
  }
}
