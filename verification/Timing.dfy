/** Workflow timing: interval union, peak parallelism and span. An instant t stands for the
    unit of time [t, t+1), so the size of a set of instants is a duration.
 */
module Timing {
  import opened Orders
  import opened Ids

  datatype Interval = Interval(start: int, end: int)

  ghost predicate Proper(s: seq<Interval>) {
    forall v :: v in s ==> v.start <= v.end
  }

  // ------------------------------------------------------------------
  // What is being measured.
  // ------------------------------------------------------------------

  ghost predicate Covers(v: Interval, t: int) {
    v.start <= t < v.end
  }

  ghost function Range(lo: int, hi: int): (r: set<int>)
    ensures forall t :: t in r <==> lo <= t < hi
    decreases hi - lo
  {
    if hi <= lo then {} else Range(lo, hi - 1) + {hi - 1}
  }

  /** The instants covered by at least one interval. */
  ghost function Covered(s: seq<Interval>): set<int> {
    if |s| == 0 then {} else Range(s[0].start, s[0].end) + Covered(s[1..])
  }

  lemma {:induction false} CoveredIff(s: seq<Interval>, t: int)
    ensures t in Covered(s) <==> exists v :: v in s && Covers(v, t)
  {
    if |s| == 0 {
    } else {
      CoveredIff(s[1..], t);
      assert s == [s[0]] + s[1..];
      assert Covers(s[0], t) <==> t in Range(s[0].start, s[0].end);
    }
  }

  /** How many intervals cover an instant. */
  ghost function Load(s: seq<Interval>, t: int): nat {
    if |s| == 0 then 0 else (if Covers(s[0], t) then 1 else 0) + Load(s[1..], t)
  }

  ghost function Total(s: seq<Interval>): int {
    Sum((v: Interval) => v.end - v.start, s)
  }

  /** p is the largest load over all instants (0 when there is none). */
  ghost predicate IsPeak(s: seq<Interval>, p: nat) {
    && (forall t :: Load(s, t) <= p)
    && (p == 0 || exists t :: Load(s, t) == p)
  }

  lemma {:induction false} RangeSize(lo: int, hi: int)
    requires lo <= hi
    ensures |Range(lo, hi)| == hi - lo
    decreases hi - lo
  {
    if lo < hi {
      RangeSize(lo, hi - 1);
    }
  }

  // ------------------------------------------------------------------
  // unionWorkflowDuration
  // ------------------------------------------------------------------

  predicate StartsBefore(a: Interval, b: Interval) {
    if a.start == b.start then a.end < b.end else a.start < b.start
  }

  lemma StartsBeforeWeakOrder()
    ensures StrictWeakOrder(StartsBefore)
  {
  }

  lemma SameCovered(a: seq<Interval>, b: seq<Interval>)
    requires multiset(a) == multiset(b)
    ensures Covered(a) == Covered(b)
  {
    SameElements(a, b);
    forall t ensures t in Covered(a) <==> t in Covered(b) {
      CoveredIff(a, t);
      CoveredIff(b, t);
    }
  }

  lemma CoveredGrows(s: seq<Interval>, n: nat)
    requires n < |s|
    ensures Covered(s[..n + 1]) == Covered(s[..n]) + Range(s[n].start, s[n].end)
  {
    assert s[..n + 1] == s[..n] + [s[n]];
    forall t ensures t in Covered(s[..n + 1]) <==> t in Covered(s[..n]) + Range(s[n].start, s[n].end) {
      CoveredIff(s[..n + 1], t);
      CoveredIff(s[..n], t);
      assert Covers(s[n], t) <==> t in Range(s[n].start, s[n].end);
    }
  }

  /** The sweep has closed blocks of known size before start and one open block. */
  ghost predicate Swept(cover: set<int>, closed: set<int>, total: int, start: int, end: int) {
    && start <= end
    && cover == closed + Range(start, end)
    && (forall t :: t in closed ==> t < start)
    && |closed| == total
  }

  lemma RangeMerge(a: int, b: int, c: int, d: int)
    requires a <= c <= b && c <= d
    ensures Range(a, b) + Range(c, d) == Range(a, if d > b then d else b)
  {
    hide Range;
    forall t ensures t in Range(a, b) + Range(c, d) <==> t in Range(a, if d > b then d else b) {
    }
  }

  /** The next interval starts inside or at the end of the open block. */
  lemma SweepMerge(cover: set<int>, closed: set<int>, total: int, start: int, end: int, v: Interval)
    requires Swept(cover, closed, total, start, end)
    requires start <= v.start <= end && v.start <= v.end
    ensures Swept(cover + Range(v.start, v.end), closed, total, start, if v.end > end then v.end else end)
  {
    hide Range;
    RangeMerge(start, end, v.start, v.end);
    assert cover + Range(v.start, v.end) == closed + (Range(start, end) + Range(v.start, v.end));
  }

  /** The next interval starts after the open block, which is closed. */
  lemma SweepClose(cover: set<int>, closed: set<int>, total: int, start: int, end: int, v: Interval)
    requires Swept(cover, closed, total, start, end)
    requires end < v.start <= v.end
    ensures Swept(cover + Range(v.start, v.end), closed + Range(start, end), total + (end - start), v.start, v.end)
  {
    RangeSize(start, end);
    assert closed !! Range(start, end);
  }

  lemma SweepTotal(cover: set<int>, closed: set<int>, total: int, start: int, end: int)
    requires Swept(cover, closed, total, start, end)
    ensures |cover| == total + (end - start)
  {
    RangeSize(start, end);
    assert closed !! Range(start, end);
  }

  /** The sweep over intervals sorted by start. */
  method Sweep(s: seq<Interval>) returns (total: int)
    requires |s| > 0 && Proper(s) && Sorted(StartsBefore, s)
    ensures total == |Covered(s)|
  {
    var start, end := s[0].start, s[0].end;
    total := 0;
    ghost var closed: set<int> := {};
    CoveredGrows(s, 0);
    assert Swept(Covered(s[..1]), closed, total, start, end);
    hide Swept, Range, Covered;
    for n := 1 to |s|
      invariant Swept(Covered(s[..n]), closed, total, start, end)
      invariant start <= s[n - 1].start
    {
      CoveredGrows(s, n);
      assert !StartsBefore(s[n], s[n - 1]);
      if s[n].start <= end {
        SweepMerge(Covered(s[..n]), closed, total, start, end, s[n]);
        if s[n].end > end {
          end := s[n].end;
        }
      } else {
        SweepClose(Covered(s[..n]), closed, total, start, end, s[n]);
        closed := closed + Range(start, end);
        total := total + (end - start);
        start, end := s[n].start, s[n].end;
      }
    }
    assert s[..|s|] == s;
    SweepTotal(Covered(s), closed, total, start, end);
    total := total + (end - start);
  }

  /** The sort-and-sweep union is the number of instants covered by some interval. */
  method UnionDuration(intervals: seq<Interval>) returns (total: int)
    requires Proper(intervals)
    ensures total == |Covered(intervals)|
  {
    if |intervals| == 0 {
      return 0;
    }
    StartsBeforeWeakOrder();
    hide StrictWeakOrder, Sorted, Covered;
    var s := SortSlice(intervals, StartsBefore);
    SameElements(intervals, s);
    SameCovered(intervals, s);
    forall i | 0 <= i < |s| ensures s[i].start <= s[i].end {
      assert s[i] in intervals;
    }
    total := Sweep(s);
  }

  // ------------------------------------------------------------------
  // peakWorkflowParallelism
  // ------------------------------------------------------------------

  datatype Boundary = Boundary(at: int, delta: int)

  predicate Earlier(a: Boundary, b: Boundary) {
    if a.at == b.at then a.delta < b.delta else a.at < b.at
  }

  lemma EarlierWeakOrder()
    ensures StrictWeakOrder(Earlier)
  {
  }

  ghost function Delta(): Boundary -> int {
    (b: Boundary) => b.delta
  }

  /** A boundary's contribution to the balance at instant t. */
  ghost function UpTo(t: int): Boundary -> int {
    (b: Boundary) => if b.at <= t then b.delta else 0
  }

  function Boundaries(s: seq<Interval>): seq<Boundary> {
    if |s| == 0 then [] else [Boundary(s[0].start, 1), Boundary(s[0].end, -1)] + Boundaries(s[1..])
  }

  lemma {:induction false} BoundariesAppend(s: seq<Interval>, v: Interval)
    ensures Boundaries(s + [v]) == Boundaries(s) + [Boundary(v.start, 1), Boundary(v.end, -1)]
  {
    if |s| == 0 {
      assert s + [v] == [v];
      assert Boundaries([]) == [];
    } else {
      assert (s + [v])[1..] == s[1..] + [v];
      BoundariesAppend(s[1..], v);
    }
  }

  /** Starts minus ends up to t is the load at t: zero-length intervals cancel. */
  lemma {:induction false} BalanceIsLoad(s: seq<Interval>, t: int)
    requires Proper(s)
    ensures Sum(UpTo(t), Boundaries(s)) == Load(s, t)
  {
    if |s| == 0 {
    } else {
      assert s[0] in s;
      assert forall v :: v in s[1..] ==> v in s;
      BalanceIsLoad(s[1..], t);
      var pair := [Boundary(s[0].start, 1), Boundary(s[0].end, -1)];
      SumConcat(UpTo(t), pair, Boundaries(s[1..]));
      assert pair[1..] == [Boundary(s[0].end, -1)];
      assert Sum(UpTo(t), pair) == UpTo(t)(pair[0]) + UpTo(t)(pair[1]);
    }
  }

  lemma {:induction false} SumAgree(f: Boundary -> int, g: Boundary -> int, s: seq<Boundary>)
    requires forall b :: b in s ==> f(b) == g(b)
    ensures Sum(f, s) == Sum(g, s)
  {
    if |s| == 0 {
    } else {
      assert s == [s[0]] + s[1..];
      SumAgree(f, g, s[1..]);
    }
  }

  lemma {:induction false} SumSign(f: Boundary -> int, s: seq<Boundary>)
    requires forall b :: b in s ==> f(b) >= 0
    ensures Sum(f, s) >= 0
  {
    if |s| == 0 {
    } else {
      assert s == [s[0]] + s[1..];
      SumSign(f, s[1..]);
    }
  }

  /** Up to a start at t every boundary counts in full, after it none counts negatively. */
  lemma AroundStart(bs: seq<Boundary>, n: nat)
    requires Sorted(Earlier, bs) && n < |bs| && bs[n].delta == 1
    requires forall b :: b in bs ==> b.delta == 1 || b.delta == -1
    ensures forall b :: b in bs[..n + 1] ==> UpTo(bs[n].at)(b) == Delta()(b)
    ensures forall b :: b in bs[n + 1..] ==> UpTo(bs[n].at)(b) >= 0
  {
    forall b | b in bs[..n + 1] ensures b.at <= bs[n].at {
      var i :| 0 <= i <= n && bs[i] == b;
      assert i == n || !Earlier(bs[n], bs[i]);
    }
    forall b | b in bs[n + 1..] ensures b.at > bs[n].at || b.delta == 1 {
      var i :| n < i < |bs| && bs[i] == b;
      assert !Earlier(bs[i], bs[n]);
      assert b in bs;
    }
  }

  /** The running count after a start is at most the load at that start. */
  lemma CountAtMostLoad(intervals: seq<Interval>, bs: seq<Boundary>, n: nat)
    requires Proper(intervals) && multiset(bs) == multiset(Boundaries(intervals))
    requires Sorted(Earlier, bs) && n < |bs| && bs[n].delta == 1
    requires forall b :: b in bs ==> b.delta == 1 || b.delta == -1
    ensures Sum(Delta(), bs[..n + 1]) <= Load(intervals, bs[n].at)
  {
    hide Sorted, Sum, Load, Boundaries;
    var t := bs[n].at;
    AroundStart(bs, n);
    BalanceIsLoad(intervals, t);
    SumPermutation(UpTo(t), bs, Boundaries(intervals));
    assert bs == bs[..n + 1] + bs[n + 1..];
    SumConcat(UpTo(t), bs[..n + 1], bs[n + 1..]);
    SumAgree(UpTo(t), Delta(), bs[..n + 1]);
    SumSign(UpTo(t), bs[n + 1..]);
  }

  /** The load at any instant is one of the running counts. */
  lemma LoadIsCount(intervals: seq<Interval>, bs: seq<Boundary>, t: int) returns (n: nat)
    requires Proper(intervals) && multiset(bs) == multiset(Boundaries(intervals))
    requires Sorted(Earlier, bs)
    ensures n <= |bs| && Sum(Delta(), bs[..n]) == Load(intervals, t)
  {
    n := Cut(bs, t);
    BalanceIsLoad(intervals, t);
    SumPermutation(UpTo(t), bs, Boundaries(intervals));
    assert bs == bs[..n] + bs[n..];
    SumConcat(UpTo(t), bs[..n], bs[n..]);
    SumAgree(UpTo(t), Delta(), bs[..n]);
    forall b | b in bs[n..] ensures UpTo(t)(b) == 0 {
    }
    SumZero(UpTo(t), bs[n..]);
  }

  lemma {:induction false} SumZero(f: Boundary -> int, s: seq<Boundary>)
    requires forall b :: b in s ==> f(b) == 0
    ensures Sum(f, s) == 0
  {
    if |s| == 0 {
    } else {
      assert s == [s[0]] + s[1..];
      SumZero(f, s[1..]);
    }
  }

  lemma Cut(bs: seq<Boundary>, t: int) returns (n: nat)
    requires Sorted(Earlier, bs)
    ensures n <= |bs|
    ensures forall b :: b in bs[..n] ==> b.at <= t
    ensures forall b :: b in bs[n..] ==> b.at > t
  {
    n := 0;
    while n < |bs| && bs[n].at <= t
      invariant n <= |bs|
      invariant forall i :: 0 <= i < n ==> bs[i].at <= t
    {
      n := n + 1;
    }
    forall i | n <= i < |bs| ensures bs[i].at > t {
      assert i == n || !Earlier(bs[i], bs[n]);
    }
  }

  /** The boundary sweep finds the largest number of intervals covering one instant. */
  method PeakParallelism(intervals: seq<Interval>) returns (peak: nat)
    requires Proper(intervals)
    ensures IsPeak(intervals, peak)
  {
    var boundaries: seq<Boundary> := [];
    for i := 0 to |intervals|
      invariant boundaries == Boundaries(intervals[..i])
    {
      assert intervals[..i + 1] == intervals[..i] + [intervals[i]];
      BoundariesAppend(intervals[..i], intervals[i]);
      boundaries := boundaries + [Boundary(intervals[i].start, 1), Boundary(intervals[i].end, -1)];
    }
    assert intervals[..|intervals|] == intervals;
    EarlierWeakOrder();
    var bs := SortSlice(boundaries, Earlier);
    SameElements(boundaries, bs);
    BoundaryDeltas(intervals);
    var current := 0;
    peak := 0;
    hide Sorted, Proper;
    for n := 0 to |bs|
      invariant current == Sum(Delta(), bs[..n])
      invariant CountsBelow(bs, n, peak)
      invariant peak == 0 || exists t :: peak <= Load(intervals, t)
    {
      RunningCount(bs, n, peak);
      current := current + bs[n].delta;
      if current > peak {
        assert bs[n] in bs;
        CountAtMostLoad(intervals, bs, n);
        peak := current;
      }
    }
    forall t ensures Load(intervals, t) <= peak {
      var n := LoadIsCount(intervals, bs, t);
    }
  }

  /** No running count up to position n exceeds peak. */
  ghost predicate CountsBelow(bs: seq<Boundary>, n: nat, peak: int)
    requires n <= |bs|
  {
    forall k :: 0 <= k <= n ==> Sum(Delta(), bs[..k]) <= peak
  }

  lemma RunningCount(bs: seq<Boundary>, n: nat, peak: int)
    requires n < |bs| && CountsBelow(bs, n, peak)
    ensures Sum(Delta(), bs[..n + 1]) == Sum(Delta(), bs[..n]) + bs[n].delta
    ensures Sum(Delta(), bs[..n]) <= peak
    ensures var c := Sum(Delta(), bs[..n + 1]); CountsBelow(bs, n + 1, if c > peak then c else peak)
  {
    assert bs[..n + 1] == bs[..n] + [bs[n]];
    SumConcat(Delta(), bs[..n], [bs[n]]);
  }

  lemma {:induction false} BoundaryDeltas(s: seq<Interval>)
    ensures forall b :: b in Boundaries(s) ==> b.delta == 1 || b.delta == -1
  {
    if |s| == 0 {
    } else {
      BoundaryDeltas(s[1..]);
    }
  }

  // ------------------------------------------------------------------
  // workflowSpanDuration
  // ------------------------------------------------------------------

  /** The span runs from the earliest start to the latest end. */
  ghost predicate IsSpan(s: seq<Interval>, lo: int, hi: int) {
    && (forall v :: v in s ==> lo <= v.start && v.end <= hi)
    && (exists v :: v in s && v.start == lo)
    && (exists v :: v in s && v.end == hi)
  }

  ghost predicate SpanIs(s: seq<Interval>, span: int) {
    if |s| == 0 then span == 0 else exists lo, hi :: IsSpan(s, lo, hi) && span == hi - lo
  }

  method SpanDuration(intervals: seq<Interval>) returns (span: int)
    requires Proper(intervals)
    ensures SpanIs(intervals, span)
    ensures |Covered(intervals)| <= span
  {
    if |intervals| == 0 {
      return 0;
    }
    var start, end := intervals[0].start, intervals[0].end;
    for i := 1 to |intervals|
      invariant IsSpan(intervals[..i], start, end)
    {
      assert intervals[..i + 1] == intervals[..i] + [intervals[i]];
      if intervals[i].start < start {
        start := intervals[i].start;
      }
      if intervals[i].end > end {
        end := intervals[i].end;
      }
    }
    assert intervals[..|intervals|] == intervals;
    CoveredInSpan(intervals, start, end);
    span := end - start;
  }

  lemma CoveredInSpan(s: seq<Interval>, lo: int, hi: int)
    requires Proper(s) && |s| > 0
    requires forall v :: v in s ==> lo <= v.start && v.end <= hi
    ensures |Covered(s)| <= hi - lo
  {
    assert s[0] in s;
    RangeSize(lo, hi);
    forall t | t in Covered(s) ensures t in Range(lo, hi) {
      CoveredIff(s, t);
    }
    SubsetSize(Covered(s), Range(lo, hi));
  }

  // ------------------------------------------------------------------
  // Double counting: summed durations against peak and union.
  // ------------------------------------------------------------------

  ghost function LoadSum(s: seq<Interval>, lo: int, hi: int): int
    decreases hi - lo
  {
    if hi <= lo then 0 else LoadSum(s, lo, hi - 1) + Load(s, hi - 1)
  }

  lemma {:induction false} LoadSumSplit(s: seq<Interval>, lo: int, hi: int)
    requires |s| > 0
    ensures LoadSum(s, lo, hi) == LoadSum([s[0]], lo, hi) + LoadSum(s[1..], lo, hi)
    decreases hi - lo
  {
    if lo < hi {
      LoadSumSplit(s, lo, hi - 1);
      assert Load([s[0]], hi - 1) == (if Covers(s[0], hi - 1) then 1 else 0) + Load([s[0]][1..], hi - 1);
    }
  }

  lemma {:induction false} LoadSumOne(v: Interval, lo: int, hi: int)
    requires lo <= v.start <= v.end
    ensures LoadSum([v], lo, hi) ==
            if hi <= v.start then 0 else if hi <= v.end then hi - v.start else v.end - v.start
    decreases hi - lo
  {
    if lo < hi {
      LoadSumOne(v, lo, hi - 1);
      assert Load([v], hi - 1) == (if Covers(v, hi - 1) then 1 else 0) + Load([v][1..], hi - 1);
    }
  }

  lemma {:induction false} TotalIsLoadSum(s: seq<Interval>, lo: int, hi: int)
    requires Proper(s)
    requires forall v :: v in s ==> lo <= v.start && v.end <= hi
    ensures Total(s) == LoadSum(s, lo, hi)
  {
    if |s| == 0 {
      EmptyLoadSum(lo, hi);
    } else {
      assert s[0] in s;
      assert forall v :: v in s[1..] ==> v in s;
      TotalIsLoadSum(s[1..], lo, hi);
      LoadSumSplit(s, lo, hi);
      LoadSumOne(s[0], lo, hi);
    }
  }

  lemma {:induction false} EmptyLoadSum(lo: int, hi: int)
    ensures LoadSum([], lo, hi) == 0
    decreases hi - lo
  {
    if lo < hi {
      EmptyLoadSum(lo, hi - 1);
    }
  }

  lemma {:induction false} LoadSumBound(s: seq<Interval>, lo: int, hi: int, peak: nat)
    requires forall t :: Load(s, t) <= peak
    ensures LoadSum(s, lo, hi) <= peak * |Covered(s) * Range(lo, hi)|
    decreases hi - lo
  {
    hide Range, Covered, Load;
    if hi <= lo {
      assert Covered(s) * Range(lo, hi) == {};
    } else {
      LoadSumBound(s, lo, hi - 1, peak);
      LoadPositive(s, hi - 1);
      var before := Covered(s) * Range(lo, hi - 1);
      if hi - 1 in Covered(s) {
        assert Covered(s) * Range(lo, hi) == before + {hi - 1};
        assert peak * (|before| + 1) == peak * |before| + peak;
      } else {
        assert Covered(s) * Range(lo, hi) == before;
      }
    }
  }

  lemma {:induction false} LoadPositive(s: seq<Interval>, t: int)
    ensures Load(s, t) > 0 <==> t in Covered(s)
  {
    if |s| == 0 {
    } else {
      LoadPositive(s[1..], t);
      assert Covers(s[0], t) <==> t in Range(s[0].start, s[0].end);
    }
  }

  /** Summed time never exceeds peak parallelism times wall time. */
  lemma TotalAtMostPeakTimesUnion(s: seq<Interval>, peak: nat)
    requires Proper(s) && IsPeak(s, peak)
    ensures Total(s) <= peak * |Covered(s)|
  {
    if |s| > 0 {
      var lo, hi := Bounds(s);
      TotalIsLoadSum(s, lo, hi);
      LoadSumBound(s, lo, hi, peak);
      SubsetSize(Covered(s) * Range(lo, hi), Covered(s));
      Scale(peak, |Covered(s) * Range(lo, hi)|, |Covered(s)|);
    }
  }

  lemma Scale(k: nat, a: nat, b: nat)
    requires a <= b
    ensures k * a <= k * b
  {
  }

  lemma {:induction false} Bounds(s: seq<Interval>) returns (lo: int, hi: int)
    ensures forall v :: v in s ==> lo <= v.start && v.end <= hi
  {
    lo, hi := 0, 0;
    if |s| == 0 {
    } else {
      lo, hi := Bounds(s[1..]);
      lo := if s[0].start < lo then s[0].start else lo;
      hi := if s[0].end > hi then s[0].end else hi;
      assert s == [s[0]] + s[1..];
    }
  }

  // ------------------------------------------------------------------
  // MeasureWorkflowTiming
  // ------------------------------------------------------------------

  datatype Purpose = Handoff | Replan | Investigation | Implementation | Repair | Validation | Review | Promotion
      | OtherPurpose(name: string)

  datatype InvocationState = Active | Succeeded | Unsuccessful

  datatype Invocation = Invocation(
    taskId: Uuid, attempt: nat, retried: bool, purpose: Purpose, state: InvocationState,
    claimedAt: Option<int>, startedAt: Option<int>, finishedAt: Option<int>)

  function Waited(i: Invocation): int {
    if i.claimedAt.Some? && i.startedAt.Some? && i.startedAt.value >= i.claimedAt.value
    then i.startedAt.value - i.claimedAt.value else 0
  }

  /** Model time spent in an invocation that ended without success. */
  ghost function FailedTime(observedAt: int): Invocation -> int {
    (i: Invocation) =>
      var span := Span(i, observedAt);
      if span.Some? && IsUnsuccessful(i) then span.value.end - span.value.start else 0
  }

  lemma SumStep(f: Invocation -> int, s: seq<Invocation>, n: nat)
    requires n < |s|
    ensures Sum(f, s[..n + 1]) == Sum(f, s[..n]) + f(s[n])
  {
    assert s[..n + 1] == s[..n] + [s[n]];
    SumConcat(f, s[..n], [s[n]]);
  }

  predicate IsRetry(i: Invocation) { i.attempt > 1 || i.retried }

  predicate IsRecovery(i: Invocation) { i.purpose.Repair? || i.purpose.Replan? }

  predicate IsUnsuccessful(i: Invocation) { i.state.Unsuccessful? }

  predicate IsActive(i: Invocation) { i.state.Active? }

  datatype Measured = Measured(
    criticalPath: int, designWall: int, implementationWall: int, validationWall: int,
    aggregateModel: int, nonSuccessfulModel: int, queue: int, logicalTasks: nat, invocations: nat,
    retries: nat, recoveries: nat, nonSuccessful: nat, active: nat, peak: nat)

  /** The interval an invocation contributes, if it started and did not end before it started. */
  function Span(i: Invocation, observedAt: int): Option<Interval> {
    if i.startedAt.None? then None
    else
      var end := if i.finishedAt.Some? then i.finishedAt.value else observedAt;
      if end < i.startedAt.value then None else Some(Interval(i.startedAt.value, end))
  }

  /** An instant counts for an invocation exactly from its start until it finished, or until the
      observation while it has not. */
  lemma RunsAt(i: Invocation, observedAt: int, t: int)
    ensures Span(i, observedAt).Some? && Covers(Span(i, observedAt).value, t) <==>
            && i.startedAt.Some? && i.startedAt.value <= t
            && (i.finishedAt.Some? ==> t < i.finishedAt.value) && (i.finishedAt.None? ==> t < observedAt)
    ensures Span(i, observedAt).Some? ==>
              var v := Span(i, observedAt).value;
              v.start <= v.end && i.startedAt == Some(v.start) && i.finishedAt in {None, Some(v.end)}
    ensures Waited(i) >= 0
    ensures i.claimedAt.Some? && i.startedAt.Some? && i.claimedAt.value <= i.startedAt.value ==>
              i.claimedAt.value + Waited(i) == i.startedAt.value
  {
  }

  /** The intervals of the invocations whose purpose is wanted, in order. */
  ghost function Spans(s: seq<Invocation>, observedAt: int, wanted: iset<Purpose>): seq<Interval> {
    if |s| == 0 then []
    else
      var last := s[|s| - 1];
      var rest := Spans(s[..|s| - 1], observedAt, wanted);
      var span := Span(last, observedAt);
      if span.Some? && last.purpose in wanted then rest + [span.value] else rest
  }

  ghost const ANY: iset<Purpose> := iset p: Purpose | true

  ghost predicate Contributes(i: Invocation, observedAt: int, wanted: iset<Purpose>, v: Interval) {
    i.purpose in wanted && Span(i, observedAt) == Some(v)
  }

  lemma {:induction false} SpansMember(s: seq<Invocation>, observedAt: int, wanted: iset<Purpose>, v: Interval)
    ensures v in Spans(s, observedAt, wanted) <==>
            exists i :: i in s && Contributes(i, observedAt, wanted, v)
  {
    if |s| == 0 {
    } else {
      var rest, last := s[..|s| - 1], s[|s| - 1];
      SpansMember(rest, observedAt, wanted, v);
      assert s == rest + [last];
      if Contributes(last, observedAt, wanted, v) {
        assert last in s;
      }
      if v in Spans(rest, observedAt, wanted) {
        var i :| i in rest && Contributes(i, observedAt, wanted, v);
        assert i in s;
      }
    }
  }

  lemma SpansProper(s: seq<Invocation>, observedAt: int, wanted: iset<Purpose>)
    ensures Proper(Spans(s, observedAt, wanted))
  {
    forall v | v in Spans(s, observedAt, wanted) ensures v.start <= v.end {
      SpansMember(s, observedAt, wanted, v);
    }
  }

  lemma SpansStep(s: seq<Invocation>, n: nat, observedAt: int, wanted: iset<Purpose>)
    requires n < |s|
    ensures Spans(s[..n + 1], observedAt, wanted) ==
            if Span(s[n], observedAt).Some? && s[n].purpose in wanted
            then Spans(s[..n], observedAt, wanted) + [Span(s[n], observedAt).value]
            else Spans(s[..n], observedAt, wanted)
  {
    assert s[..n + 1][..n] == s[..n];
  }

  /** A category's wall time is never more than the whole span. */
  lemma CategoryWithin(s: seq<Invocation>, observedAt: int, wanted: iset<Purpose>)
    ensures |Covered(Spans(s, observedAt, wanted))| <= |Covered(Spans(s, observedAt, ANY))|
  {
    var part, all := Spans(s, observedAt, wanted), Spans(s, observedAt, ANY);
    forall t | t in Covered(part) ensures t in Covered(all) {
      CoveredIff(part, t);
      CoveredIff(all, t);
      var v :| v in part && Covers(v, t);
      SpansMember(s, observedAt, wanted, v);
      var i :| i in s && Contributes(i, observedAt, wanted, v);
      assert Contributes(i, observedAt, ANY, v);
      SpansMember(s, observedAt, ANY, v);
    }
    SubsetSize(Covered(part), Covered(all));
  }

  ghost function Tally(s: seq<Invocation>, test: Invocation -> bool): nat {
    if |s| == 0 then 0 else Tally(s[..|s| - 1], test) + (if test(s[|s| - 1]) then 1 else 0)
  }

  lemma TallyStep(s: seq<Invocation>, n: nat, test: Invocation -> bool)
    requires n < |s|
    ensures Tally(s[..n + 1], test) == Tally(s[..n], test) + (if test(s[n]) then 1 else 0)
  {
    assert s[..n + 1][..n] == s[..n];
  }

  /** The wall time of three categories measured together. */
  method CategoryWall(categories: map<Purpose, seq<Interval>>, purposes: seq<Purpose>,
                      ghost s: seq<Invocation>, ghost observedAt: int)
    returns (wall: int)
    requires forall p :: Category(categories, p) == Spans(s, observedAt, iset{p})
    ensures wall == |Covered(Spans(s, observedAt, iset p | p in purposes))|
  {
    var all: seq<Interval> := [];
    for k := 0 to |purposes|
      invariant forall v :: v in all <==> exists j :: 0 <= j < k && v in Category(categories, purposes[j])
    {
      all := all + Category(categories, purposes[k]);
    }
    ghost var wanted := iset p | p in purposes;
    forall v ensures v in all <==> v in Spans(s, observedAt, wanted) {
      CategoryMember(categories, purposes, s, observedAt, v);
    }
    SpansProper(s, observedAt, wanted);
    assert Covered(all) == Covered(Spans(s, observedAt, wanted)) by {
      forall t ensures t in Covered(all) <==> t in Covered(Spans(s, observedAt, wanted)) {
        CoveredIff(all, t);
        CoveredIff(Spans(s, observedAt, wanted), t);
      }
    }
    wall := UnionDuration(all);
  }

  function Category(categories: map<Purpose, seq<Interval>>, p: Purpose): seq<Interval> {
    if p in categories then categories[p] else []
  }

  lemma CategoryMember(categories: map<Purpose, seq<Interval>>, purposes: seq<Purpose>, s: seq<Invocation>,
                       observedAt: int, v: Interval)
    requires forall p :: Category(categories, p) == Spans(s, observedAt, iset{p})
    ensures v in Spans(s, observedAt, iset p | p in purposes) <==>
            exists j :: 0 <= j < |purposes| && v in Category(categories, purposes[j])
  {
    var wanted := iset p | p in purposes;
    SpansMember(s, observedAt, wanted, v);
    if v in Spans(s, observedAt, wanted) {
      var i :| i in s && Contributes(i, observedAt, wanted, v);
      var j :| 0 <= j < |purposes| && purposes[j] == i.purpose;
      assert Contributes(i, observedAt, iset{i.purpose}, v);
      SpansMember(s, observedAt, iset{purposes[j]}, v);
    }
    forall j | 0 <= j < |purposes| && v in Category(categories, purposes[j]) ensures v in Spans(s, observedAt, wanted) {
      SpansMember(s, observedAt, iset{purposes[j]}, v);
      var i :| i in s && Contributes(i, observedAt, iset{purposes[j]}, v);
      assert Contributes(i, observedAt, wanted, v);
    }
  }

  /** The timing report: walls are unions of covered time, model time is summed, and the
      sum is bounded by peak parallelism times the critical path. None is the zero time. */
  method MeasureWorkflowTiming(invocations: seq<Invocation>, observed: Option<int>) returns (r: Measured)
    ensures observed.None? ==> r == Measured(0, 0, 0, 0, 0, 0, 0, 0, 0, 0, 0, 0, 0, 0)
    ensures observed.Some? ==>
              && var at := observed.value;
              && r.aggregateModel == Total(Spans(invocations, at, ANY))
              && IsPeak(Spans(invocations, at, ANY), r.peak)
              && SpanIs(Spans(invocations, at, ANY), r.criticalPath)
              && r.aggregateModel <= r.peak * r.criticalPath
              && r.nonSuccessfulModel == Sum(FailedTime(at), invocations) <= r.aggregateModel
              && r.designWall == |Covered(Spans(invocations, at,
                                                iset p | p in [Handoff, Replan, Investigation]))| <= r.criticalPath
              && r.implementationWall == |Covered(Spans(invocations, at,
                                                        iset p | p in [Implementation, Repair]))| <= r.criticalPath
              && r.validationWall == |Covered(Spans(invocations, at,
                                                    iset p | p in [Validation, Review, Promotion]))| <= r.criticalPath
    ensures observed.Some? ==>
              && r.invocations == |invocations|
              && r.queue == Sum(Waited, invocations)
              && r.active == Tally(invocations, IsActive)
              && r.nonSuccessful == Tally(invocations, IsUnsuccessful)
              && r.retries == Tally(invocations, IsRetry)
              && r.recoveries == Tally(invocations, IsRecovery)
              && r.logicalTasks == |set i | i in invocations && i.taskId.Valid() :: i.taskId|
  {
    if observed.None? {
      return Measured(0, 0, 0, 0, 0, 0, 0, 0, 0, 0, 0, 0, 0, 0);
    }
    var observedAt := observed.value;
    var tasks, retries, recoveries, nonSuccessful, active, queue := CountInvocations(invocations);
    var categories, all, aggregate, nonSuccessfulTime := CollectSpans(invocations, observedAt);
    SpansProper(invocations, observedAt, ANY);
    var design := CategoryWall(categories, [Handoff, Replan, Investigation], invocations, observedAt);
    var build := CategoryWall(categories, [Implementation, Repair], invocations, observedAt);
    var check := CategoryWall(categories, [Validation, Review, Promotion], invocations, observedAt);
    CategoryWithin(invocations, observedAt, iset p | p in [Handoff, Replan, Investigation]);
    CategoryWithin(invocations, observedAt, iset p | p in [Implementation, Repair]);
    CategoryWithin(invocations, observedAt, iset p | p in [Validation, Review, Promotion]);
    var critical := SpanDuration(all);
    var peak := PeakParallelism(all);
    TotalAtMostPeakTimesUnion(all, peak);
    Scale(peak, |Covered(all)|, critical);
    r := Measured(critical, design, build, check, aggregate, nonSuccessfulTime, queue, |tasks|,
                  |invocations|, retries, recoveries, nonSuccessful, active, peak);
  }

  /** The counters of the invocation loop. */
  method CountInvocations(invocations: seq<Invocation>)
    returns (tasks: set<Uuid>, retries: nat, recoveries: nat, nonSuccessful: nat, active: nat, queue: int)
    ensures tasks == set i | i in invocations && i.taskId.Valid() :: i.taskId
    ensures retries == Tally(invocations, IsRetry)
    ensures recoveries == Tally(invocations, IsRecovery)
    ensures nonSuccessful == Tally(invocations, IsUnsuccessful)
    ensures active == Tally(invocations, IsActive)
    ensures queue == Sum(Waited, invocations)
  {
    tasks, retries, recoveries, nonSuccessful, active, queue := {}, 0, 0, 0, 0, 0;
    for n := 0 to |invocations|
      invariant tasks == set i | i in invocations[..n] && i.taskId.Valid() :: i.taskId
      invariant retries == Tally(invocations[..n], IsRetry)
      invariant recoveries == Tally(invocations[..n], IsRecovery)
      invariant nonSuccessful == Tally(invocations[..n], IsUnsuccessful)
      invariant active == Tally(invocations[..n], IsActive)
      invariant queue == Sum(Waited, invocations[..n])
    {
      var i := invocations[n];
      TallyStep(invocations, n, IsRetry);
      TallyStep(invocations, n, IsRecovery);
      TallyStep(invocations, n, IsUnsuccessful);
      TallyStep(invocations, n, IsActive);
      SumStep(Waited, invocations, n);
      assert invocations[..n + 1] == invocations[..n] + [i];
      if i.taskId.Valid() {
        tasks := tasks + {i.taskId};
      }
      if IsRetry(i) {
        retries := retries + 1;
      }
      if IsRecovery(i) {
        recoveries := recoveries + 1;
      }
      if IsUnsuccessful(i) {
        nonSuccessful := nonSuccessful + 1;
      } else if IsActive(i) {
        active := active + 1;
      }
      if i.claimedAt.Some? && i.startedAt.Some? && i.startedAt.value >= i.claimedAt.value {
        queue := queue + (i.startedAt.value - i.claimedAt.value);
      }
    }
    assert invocations[..|invocations|] == invocations;
  }

  /** The interval lists and time sums of the invocation loop. */
  method CollectSpans(invocations: seq<Invocation>, observedAt: int)
    returns (categories: map<Purpose, seq<Interval>>, all: seq<Interval>, aggregate: int, nonSuccessful: int)
    ensures forall p :: Category(categories, p) == Spans(invocations, observedAt, iset{p})
    ensures all == Spans(invocations, observedAt, ANY)
    ensures aggregate == Total(all)
    ensures nonSuccessful == Sum(FailedTime(observedAt), invocations) <= aggregate
  {
    categories, all, aggregate, nonSuccessful := map[], [], 0, 0;
    hide Covers, Proper;
    for n := 0 to |invocations|
      invariant forall p :: Category(categories, p) == Spans(invocations[..n], observedAt, iset{p})
      invariant all == Spans(invocations[..n], observedAt, ANY)
      invariant aggregate == Total(all)
      invariant nonSuccessful == Sum(FailedTime(observedAt), invocations[..n]) <= aggregate
    {
      var i := invocations[n];
      forall p {
        SpansStep(invocations, n, observedAt, iset{p});
      }
      SpansStep(invocations, n, observedAt, ANY);
      SumStep(FailedTime(observedAt), invocations, n);
      var span := Span(i, observedAt);
      if span.Some? {
        SumConcat((v: Interval) => v.end - v.start, all, [span.value]);
        categories := categories[i.purpose := Category(categories, i.purpose) + [span.value]];
        all := all + [span.value];
        aggregate := aggregate + (span.value.end - span.value.start);
        if i.state.Unsuccessful? {
          nonSuccessful := nonSuccessful + (span.value.end - span.value.start);
        }
      }
    }
    assert invocations[..|invocations|] == invocations;
  }
}
