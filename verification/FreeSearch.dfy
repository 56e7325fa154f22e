/** What a search for free clusters means, one cluster at a time (src/allocation.rs:187-213 and
    372-484), and what its result is worth. */
module FreeSearch {

  import opened Results

  datatype Run = Run(first: nat, count: nat)

  datatype Policy = FirstRun | LongestRun

  /** The run being measured, and the longest closed one (LongestRun only). */
  datatype ScanState = ScanState(first: Option<nat>, count: nat, longest: Option<Run>)

  const START := ScanState(None, 0, None)

  datatype Closed = Closed(stop: Option<Run>, state: ScanState)

  /** Ends the run being measured; FirstRun stops with it, LongestRun remembers the longest. */
  function CloseRun(policy: Policy, st: ScanState): Closed {
    match st.first
    case None => Closed(None, ScanState(None, 0, st.longest))
    case Some(f) =>
      var run := Run(f, st.count);
      match policy
      case FirstRun => Closed(Some(run), ScanState(None, 0, st.longest))
      case LongestRun =>
        if st.longest.None? || st.longest.value.count < run.count
        then Closed(None, ScanState(None, 0, Some(run)))
        else Closed(None, ScanState(None, 0, st.longest))
  }

  function Finish(policy: Policy, st: ScanState): Option<Run> {
    var c := CloseRun(policy, st);
    if c.stop.Some? then c.stop else c.state.longest
  }

  function Extend(st: ScanState, c: nat): ScanState {
    ScanState(if st.first.None? then Some(c) else st.first, st.count + 1, st.longest)
  }

  /** The search over clusters `c` up to `end`, looking at one allocation bit at a time. */
  function Scan(alloc: set<nat>, c: nat, end: nat, n: nat, policy: Policy, st: ScanState): Option<Run>
    decreases end - c
  {
    if c >= end then Finish(policy, st)
    else if c !in alloc then
      var st' := Extend(st, c);
      if st'.count == n then Some(Run(st'.first.value, n))
      else Scan(alloc, c + 1, end, n, policy, st')
    else
      var closed := CloseRun(policy, st);
      if closed.stop.Some? then closed.stop
      else Scan(alloc, c + 1, end, n, policy, closed.state)
  }

  /** Once a run is closed, allocated clusters change nothing. */
  lemma {:induction false} ScanSkip(alloc: set<nat>, c: nat, c': nat, end: nat, n: nat, policy: Policy, st: ScanState)
    requires c <= c' && st.first.None? && st.count == 0
    requires forall x: nat :: c <= x < c' && x < end ==> x in alloc
    ensures Scan(alloc, c, end, n, policy, st) == Scan(alloc, c', end, n, policy, st)
    decreases c' - c
  {
    if c < c' {
      if c < end {
        assert c in alloc;
        ScanSkip(alloc, c + 1, c', end, n, policy, st);
      }
    }
  }

  /** Skipping a stretch of allocated clusters after closing the run is the same as looking at
      each of them. */
  lemma SkipFull(alloc: set<nat>, c: nat, c': nat, end: nat, n: nat, policy: Policy, st: ScanState)
    requires c < c' && c < end
    requires forall x: nat :: c <= x < c' && x < end ==> x in alloc
    ensures var closed := CloseRun(policy, st);
            Scan(alloc, c, end, n, policy, st) ==
              if closed.stop.Some? then closed.stop else Scan(alloc, c', end, n, policy, closed.state)
  {
    assert c in alloc;
    var closed := CloseRun(policy, st);
    if closed.stop.None? {
      ScanSkip(alloc, c + 1, c', end, n, policy, closed.state);
    }
  }

  // ---- what the result is worth ---------------------------------------------

  /** `k` free clusters from `a` on, inside `lo..hi`. */
  ghost predicate Free(alloc: set<nat>, lo: nat, hi: nat, a: nat, k: nat) {
    0 < k && lo <= a && a + k <= hi && forall x: nat :: a <= x < a + k ==> x !in alloc
  }

  /** `r` is a longest stretch of free clusters in `lo..hi`, capped at `n`, and the leftmost such. */
  ghost predicate LeftmostLongest(alloc: set<nat>, lo: nat, hi: nat, n: nat, r: Run) {
    && Free(alloc, lo, hi, r.first, r.count) && r.count <= n
    && forall a: nat, k: nat :: Free(alloc, lo, hi, a, k) && k <= n ==> k < r.count || (k == r.count && r.first <= a)
  }

  /** `r` starts at the least free cluster of `lo..hi` and goes on until `n` or until it must stop. */
  ghost predicate FirstFree(alloc: set<nat>, lo: nat, hi: nat, n: nat, r: Run) {
    && Free(alloc, lo, hi, r.first, r.count) && r.count <= n
    && (forall x: nat :: lo <= x < r.first ==> x in alloc)
    && (r.count == n || r.first + r.count == hi || r.first + r.count in alloc)
  }

  ghost predicate NoneFree(alloc: set<nat>, lo: nat, hi: nat) {
    forall x: nat :: lo <= x < hi ==> x in alloc
  }

  ghost predicate Answer(alloc: set<nat>, lo: nat, hi: nat, n: nat, policy: Policy, r: Option<Run>) {
    match r
    case None => NoneFree(alloc, lo, hi)
    case Some(run) =>
      match policy
      case FirstRun => FirstFree(alloc, lo, hi, n, run)
      case LongestRun => LeftmostLongest(alloc, lo, hi, n, run)
  }

  /** The invariant of the search after the clusters `from..c`. */
  ghost predicate Scanned(alloc: set<nat>, from: nat, c: nat, n: nat, policy: Policy, st: ScanState) {
    && from <= c && st.count <= c - from && st.count < n
    && (st.first.Some? <==> st.count > 0)
    && (st.first.Some? ==> st.first.value == c - st.count)
    && (forall x: nat :: c - st.count <= x < c ==> x !in alloc)
    && (c - st.count == from || c - st.count - 1 in alloc)
    && match policy
       case FirstRun => st.longest.None? && NoneFree(alloc, from, c - st.count)
       case LongestRun =>
         match st.longest
         case None => NoneFree(alloc, from, c - st.count)
         case Some(r) => r.count < n && LeftmostLongest(alloc, from, c - st.count, n, r)
  }

  /** A stretch cannot straddle an allocated cluster. */
  lemma NoStraddle(alloc: set<nat>, from: nat, mid: nat, hi: nat, a: nat, k: nat)
    requires Free(alloc, from, hi, a, k) && from <= mid
    requires mid == from || mid - 1 in alloc
    ensures a + k <= mid || mid <= a
  {
    assert a < mid < a + k ==> mid - 1 !in alloc;
  }

  /** Closing the run keeps the invariant, now with the whole of `from..c` accounted for. */
  lemma CloseKeeps(alloc: set<nat>, from: nat, c: nat, n: nat, st: ScanState)
    requires Scanned(alloc, from, c, n, LongestRun, st)
    ensures var l := CloseRun(LongestRun, st).state.longest;
            match l
            case None => NoneFree(alloc, from, c)
            case Some(r) => r.count < n && LeftmostLongest(alloc, from, c, n, r)
  {
    var l := CloseRun(LongestRun, st).state.longest;
    var mid := c - st.count;
    if l.Some? {
      var r := l.value;
      assert Free(alloc, from, c, r.first, r.count);
      forall a: nat, k: nat | Free(alloc, from, c, a, k) && k <= n
        ensures k < r.count || (k == r.count && r.first <= a)
      {
        NoStraddle(alloc, from, mid, c, a, k);
        if a + k <= mid {
          assert Free(alloc, from, mid, a, k);
          assert !NoneFree(alloc, from, mid) by { assert a !in alloc; }
        }
      }
    }
  }

  lemma EndAnswers(alloc: set<nat>, from: nat, end: nat, n: nat, policy: Policy, st: ScanState)
    requires Scanned(alloc, from, end, n, policy, st)
    ensures Answer(alloc, from, end, n, policy, Finish(policy, st))
  {
    if policy == LongestRun { CloseKeeps(alloc, from, end, n, st); }
  }

  lemma CutAnswers(alloc: set<nat>, from: nat, c: nat, end: nat, n: nat, policy: Policy, st: ScanState)
    requires Scanned(alloc, from, c, n, policy, st) && c < end && c in alloc && CloseRun(policy, st).stop.Some?
    ensures Answer(alloc, from, end, n, policy, CloseRun(policy, st).stop)
  {
  }

  lemma FullAnswers(alloc: set<nat>, from: nat, c: nat, end: nat, n: nat, policy: Policy, st: ScanState)
    requires Scanned(alloc, from, c, n, policy, st) && c < end && c !in alloc && st.count + 1 == n
    ensures Answer(alloc, from, end, n, policy, Some(Run(Extend(st, c).first.value, n)))
  {
    if policy == LongestRun { FullRunIsBest(alloc, from, c, end, n, st); }
  }

  lemma StepFree(alloc: set<nat>, from: nat, c: nat, n: nat, policy: Policy, st: ScanState)
    requires Scanned(alloc, from, c, n, policy, st) && c !in alloc && st.count + 1 != n
    ensures Scanned(alloc, from, c + 1, n, policy, Extend(st, c))
  {
  }

  lemma {:induction false} ScanAnswers(alloc: set<nat>, from: nat, c: nat, end: nat, n: nat, policy: Policy,
                                       st: ScanState)
    requires Scanned(alloc, from, c, n, policy, st) && c <= end
    ensures Answer(alloc, from, end, n, policy, Scan(alloc, c, end, n, policy, st))
    decreases end - c
  {
    hide Scanned, Answer, CloseRun, Finish;
    if c == end {
      EndAnswers(alloc, from, end, n, policy, st);
    } else if c in alloc {
      if CloseRun(policy, st).stop.Some? {
        CutAnswers(alloc, from, c, end, n, policy, st);
      } else {
        StepAllocated(alloc, from, c, n, policy, st);
        ScanAnswers(alloc, from, c + 1, end, n, policy, CloseRun(policy, st).state);
      }
    } else if st.count + 1 == n {
      FullAnswers(alloc, from, c, end, n, policy, st);
    } else {
      StepFree(alloc, from, c, n, policy, st);
      ScanAnswers(alloc, from, c + 1, end, n, policy, Extend(st, c));
    }
  }
  lemma StepAllocated(alloc: set<nat>, from: nat, c: nat, n: nat, policy: Policy, st: ScanState)
    requires Scanned(alloc, from, c, n, policy, st) && c in alloc && CloseRun(policy, st).stop.None?
    ensures Scanned(alloc, from, c + 1, n, policy, CloseRun(policy, st).state)
  {
    if policy == LongestRun {
      CloseKeeps(alloc, from, c, n, st);
      var l := CloseRun(policy, st).state.longest;
      if l.Some? {
        var hi := c + 1;
        forall a: nat, k: nat | Free(alloc, from, hi, a, k) && k <= n
          ensures k < l.value.count || (k == l.value.count && l.value.first <= a)
        {
          assert a + k == hi ==> c !in alloc;
          assert Free(alloc, from, c, a, k);
        }
      }
    }
  }

  lemma FullRunIsBest(alloc: set<nat>, from: nat, c: nat, end: nat, n: nat, st: ScanState)
    requires Scanned(alloc, from, c, n, LongestRun, st) && c < end && c !in alloc && st.count + 1 == n
    ensures LeftmostLongest(alloc, from, end, n, Run(c - st.count, n))
  {
    var mid := c - st.count;
    assert Free(alloc, from, end, mid, n);
    forall a: nat, k: nat | Free(alloc, from, end, a, k) && k <= n
      ensures k < n || (k == n && mid <= a)
    {
      NoStraddle(alloc, from, mid, end, a, k);
      assert a !in alloc;
      assert a + k <= mid ==> Free(alloc, from, mid, a, k);
    }
  }

  /** The search from a cluster answers the question it is asked: FirstRun finds the least free
      cluster and goes as far as it may, LongestRun finds the leftmost longest stretch, and nothing
      is found only when nothing is free. */
  lemma ScanIsAnswer(alloc: set<nat>, from: nat, end: nat, n: nat, policy: Policy)
    requires 0 < n && from <= end
    ensures Answer(alloc, from, end, n, policy, Scan(alloc, from, end, n, policy, START))
  {
    ScanAnswers(alloc, from, from, end, n, policy, START);
  }

  // ---- searching with wrap-around -------------------------------------------

  /** Search from `from`; when nothing is free there, once more from the first cluster. */
  function Find(alloc: set<nat>, from: nat, first: nat, end: nat, n: nat, policy: Policy): Option<Run> {
    var r := Scan(alloc, from, end, n, policy, START);
    if r.None? && from > first then Scan(alloc, first, end, n, policy, START) else r
  }

  /** After wrapping, a search fails exactly when no cluster of the heap is free; and what it finds
      is a non-empty stretch of free clusters, no longer than asked for. */
  lemma FindFails(alloc: set<nat>, from: nat, first: nat, end: nat, n: nat, policy: Policy)
    requires 0 < n && first <= from && first <= end
    ensures Find(alloc, from, first, end, n, policy).None? <==> NoneFree(alloc, first, end)
    ensures match Find(alloc, from, first, end, n, policy)
            case None => true
            case Some(r) => Free(alloc, first, end, r.first, r.count) && r.count <= n
  {
    ScanIsAnswer(alloc, first, end, n, policy);
    if from <= end {
      ScanIsAnswer(alloc, from, end, n, policy);
    }
    match Find(alloc, from, first, end, n, policy)
    case None =>
    case Some(r) => assert r.first !in alloc;
  }

  /** What is found is the answer for the clusters from `from` on if any of those is free, and for the
      whole heap otherwise: the search wraps around only when it found nothing at all. */
  lemma FindAnswers(alloc: set<nat>, from: nat, first: nat, end: nat, n: nat, policy: Policy)
    requires 0 < n && first <= from <= end
    ensures Answer(alloc, if NoneFree(alloc, from, end) then first
            else from, end, n, policy, Find(alloc, from, first, end, n, policy))
  {
    ScanIsAnswer(alloc, first, end, n, policy);
    ScanIsAnswer(alloc, from, end, n, policy);
    var r := Scan(alloc, from, end, n, policy, START);
    if r.Some? {
      assert r.value.first !in alloc;
    }
  }

  /** When there is a run as long as asked for, LongestRun comes back with one exactly when one lies behind
      the start of the search, or nothing at all is free there. */
  lemma LongestMet(alloc: set<nat>, from: nat, first: nat, end: nat, n: nat, a: nat)
    requires 0 < n && first <= from <= end && Free(alloc, first, end, a, n)
    ensures var r := Find(alloc, from, first, end, n, LongestRun);
            r.Some? && (r.value.count == n <==> NoneFree(alloc, from, end) || exists b: nat :: Free(alloc, from, end, b, n))
  {
    FindAnswers(alloc, from, first, end, n, LongestRun);
    assert a !in alloc;
  }

  /** So LongestRun can come back with one cluster where a run of the length asked for is free. */
  lemma LongestMissed()
    ensures Find({10}, 11, 2, 12, 5, LongestRun) == Some(Run(11, 1)) && Free({10}, 2, 12, 2, 5)
  {
    assert Scan({10}, 12, 12, 5, LongestRun, Extend(START, 11)) == Some(Run(11, 1));
  }
}
