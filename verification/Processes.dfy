/** The processes of LA9 and LA10: records with a page table, on the heap and as values.  The two
    programs differ only in what a page-table entry is. */
module Processes {
  import opened PageTables
  import opened BinarySearch

  /** What the input file gives of a process: its size and the searches it makes. */
  datatype Input = Input(s: int, searches: seq<int>)

  ghost predicate InputOk(x: Input) {
    TableCovers(x.s) && x.searches != [] && forall k | 0 <= k < |x.searches| :: 0 <= x.searches[k] < x.s
  }

  datatype Job<E> = Job(id: nat, s: int, searches: seq<int>, done: nat, table: seq<E>)

  function SearchesLeft<E>(jobs: seq<Job<E>>): int {
    if jobs == [] then 0 else |jobs[0].searches| - jobs[0].done + SearchesLeft(jobs[1..])
  }

  lemma {:induction false} SearchesLeftSnoc<E>(jobs: seq<Job<E>>, j: Job<E>)
    ensures SearchesLeft(jobs + [j]) == SearchesLeft(jobs) + |j.searches| - j.done
  {
    if jobs == [] {
      assert jobs + [j] == [j];
    } else {
      assert (jobs + [j])[1..] == jobs[1..] + [j];
      SearchesLeftSnoc(jobs[1..], j);
    }
  }

  lemma {:induction false} SearchesLeftPositive<E>(jobs: seq<Job<E>>)
    requires forall i | 0 <= i < |jobs| :: jobs[i].done < |jobs[i].searches|
    ensures SearchesLeft(jobs) >= |jobs|
  {
    if jobs != [] { SearchesLeftPositive(jobs[1..]); }
  }

  // ----- On the heap -----

  class Process<E> {
    const id: nat
    const s: int
    const searchIndices: seq<int>
    const pageTable: array<E>
    var currSearchCnt: nat

    /** A page table full of `blank`. */
    constructor (id: nat, x: Input, blank: E)
      ensures this.id == id && s == x.s && searchIndices == x.searches && currSearchCnt == 0
      ensures fresh(pageTable) && pageTable.Length == TABLE_SIZE
      ensures forall i | 0 <= i < TABLE_SIZE :: pageTable[i] == blank
    {
      this.id, s, searchIndices, currSearchCnt := id, x.s, x.searches, 0;
      pageTable := new E[TABLE_SIZE](i => blank);
    }
  }

  ghost function JobOf<E>(p: Process<E>): Job<E>
    reads p, p.pageTable
  {
    Job(p.id, p.s, p.searchIndices, p.currSearchCnt, p.pageTable[..])
  }

  ghost function Tables<E>(ps: seq<Process<E>>): set<array<E>> {
    set p | p in ps :: p.pageTable
  }

  ghost function JobsOf<E>(ps: seq<Process<E>>): (jobs: seq<Job<E>>)
    reads ps, Tables(ps)
    ensures |jobs| == |ps| && forall i | 0 <= i < |ps| :: jobs[i] == JobOf(ps[i])
  {
    seq(|ps|, i requires 0 <= i < |ps| reads ps, Tables(ps) => JobOf(ps[i]))
  }

  lemma JobsOfSnoc<E>(ps: seq<Process<E>>, p: Process<E>)
    ensures JobsOf(ps + [p]) == JobsOf(ps) + [JobOf(p)]
  {
  }

  /** No process is queued twice and no two share a page table. */
  ghost predicate Apart<E>(ps: seq<Process<E>>) {
    forall i, j | 0 <= i < j < |ps| :: ps[i] != ps[j] && ps[i].pageTable != ps[j].pageTable
  }

  lemma HeadApart<E>(ready: seq<Process<E>>, others: seq<Process<E>>)
    requires ready != [] && Apart(ready + others)
    ensures ready[0] !in ready[1..] && ready[0] !in others
    ensures ready[0].pageTable !in Tables(ready[1..]) && ready[0].pageTable !in Tables(others)
    ensures Apart(ready[1..] + others + [ready[0]])
    ensures ready[1..] + (others + [ready[0]]) == ready[1..] + others + [ready[0]]
  {
    var all := ready + others;
    var next := ready[1..] + others + [ready[0]];
    assert forall i | 0 <= i < |next| - 1 :: next[i] == all[i + 1];
    assert forall i | 0 <= i < |ready[1..]| :: ready[1..][i] == all[i + 1] && all[0] != all[i + 1];
    assert forall i | 0 <= i < |others| :: others[i] == all[i + |ready|] && all[0] != all[i + |ready|];
  }

  lemma LastApart<E>(ready: seq<Process<E>>, others: seq<Process<E>>, p: Process<E>)
    requires Apart(ready + others + [p])
    ensures p !in ready && p !in others && p.pageTable !in Tables(ready) && p.pageTable !in Tables(others)
    ensures Apart(ready + others) && Apart(ready + [p] + others) && Apart(ready + (others + [p]))
    ensures others != [] ==> ready + [others[0]] + others[1..] == ready + others
  {
    var all := ready + others + [p];
    var last := |ready| + |others|;
    assert forall i | 0 <= i < |ready| :: ready[i] == all[i] && all[i] != all[last];
    assert forall i | 0 <= i < |others| :: others[i] == all[i + |ready|] && all[i + |ready|] != all[last];
    assert ready + (others + [p]) == all;
    var moved := ready + [p] + others;
    assert forall i | |ready| < i < |moved| :: moved[i] == all[i - 1];
  }
}
