/** When the decision of PlanAssignment depends on how the sort orders dependencies that name
    one aggregate. See kernel/assignment.go.
 */
module AssignmentOrder {
  import opened Orders
  import opened Ids
  import opened Lifecycle
  import opened Assignment

  /** The decision reaches the dependency loop. */
  ghost predicate Scans(i: Input) {
    && InputValid(i) && ParentsOk(i.parents) && i.task.owner.None? && i.task.condition.Runnable?
    && (i.task.phase.Planned? || (i.task.phase.Ready? && i.readied.Valid()))
  }

  predicate Passes(linked: set<Uuid>, d: Dependency) {
    DependencyWellFormed(d) && d.evidence in linked && DependencySatisfied(d)
  }

  function Keys(ds: seq<Dependency>): seq<Key> {
    Map(DependencyKey, ds)
  }

  /** The loop gets to the dependencies with this key: all earlier ones pass and stand alone. */
  ghost predicate ClearBefore(i: Input, k: Key) {
    forall d :: d in i.dependencies && EarlierKey(DependencyKey(d), k) ==>
      Passes(Linked(i.parents), d) && multiset(Keys(i.dependencies))[DependencyKey(d)] == 1
  }

  /** What the loop makes of a dependency that comes first among those with its key: nothing if
      it is ill-formed, otherwise its evidence and whether it blocks. */
  function Outcome(linked: set<Uuid>, d: Dependency): Option<(Uuid, bool)> {
    if !DependencyWellFormed(d) then None
    else Some((d.evidence, d.evidence in linked && !DependencySatisfied(d)))
  }

  /** Dependencies on one aggregate are interchangeable wherever the loop gets to them. */
  ghost predicate Interchangeable(i: Input) {
    forall x, y :: x in i.dependencies && y in i.dependencies && SameKey(x, y) && ClearBefore(i, DependencyKey(x)) ==>
      Outcome(Linked(i.parents), x) == Outcome(Linked(i.parents), y)
  }

  predicate SameKey(x: Dependency, y: Dependency) {
    DependencyKey(x) == DependencyKey(y)
  }

  /** Whatever sorted order the sort leaves, the decision is the same. */
  ghost predicate Determined(i: Input) {
    forall a, b :: SortedOrder(i, a) && SortedOrder(i, b) ==> PlanWith(i, a) == PlanWith(i, b)
  }

  // ------------------------------------------------------------------
  // From the loop to the decision.
  // ------------------------------------------------------------------

  lemma NotScanned(i: Input, a: seq<Dependency>, b: seq<Dependency>)
    requires !Scans(i)
    ensures PlanWith(i, a) == PlanWith(i, b)
  {
    hide InputValid, ParentsOk, Scan, Select, InsertionSort, Uuid.Valid, Canonical;
  }

  lemma SameScan(i: Input, a: seq<Dependency>, b: seq<Dependency>)
    requires Scan(Linked(i.parents), a, |a|) == Scan(Linked(i.parents), b, |b|)
    ensures PlanWith(i, a) == PlanWith(i, b)
  {
    hide InputValid, ParentsOk, Scan, Select, InsertionSort, Uuid.Valid, Canonical;
  }

  lemma ScanStops(i: Input, a: seq<Dependency>)
    requires Scans(i) && Scan(Linked(i.parents), a, |a|).stop.Some?
    ensures Some(PlanWith(i, a).status) == Scan(Linked(i.parents), a, |a|).stop
    ensures PlanWith(i, a).dependencyEvents == Scan(Linked(i.parents), a, |a|).events
  {
    hide InputValid, ParentsOk, Scan, Select, InsertionSort, Uuid.Valid, Canonical;
  }

  // ------------------------------------------------------------------
  // Keys of a sorted order.
  // ------------------------------------------------------------------

  lemma SameKeys(i: Input, a: seq<Dependency>, b: seq<Dependency>)
    requires SortedOrder(i, a) && SortedOrder(i, b)
    ensures Keys(a) == Keys(b) && |a| == |b|
  {
    KeysSorted(a);
    KeysSorted(b);
    KeyWeakOrder();
    MapPermutation(DependencyKey, a, b);
    hide StrictWeakOrder, NoTies, Sorted, EarlierKey, Map;
    SortedUnique(EarlierKey, Keys(a), Keys(b));
    SameSize(a, b);
  }

  lemma Alone(keys: seq<Key>, p: nat)
    requires p < |keys| && forall q :: 0 <= q < |keys| && q != p ==> keys[q] != keys[p]
    ensures multiset(keys)[keys[p]] == 1
  {
    var k, x, y := keys[p], keys[..p], keys[p + 1..];
    assert keys == x + [k] + y;
    assert k !in multiset(x) && k !in multiset(y);
  }

  lemma NotAlone(keys: seq<Key>, p: nat, q: nat)
    requires p < q < |keys| && keys[p] == keys[q]
    ensures multiset(keys)[keys[p]] > 1
  {
    var x, y := keys[..q], keys[q..];
    assert keys == x + y && x[p] == keys[p] && y[0] == keys[q];
    assert keys[p] in multiset(x) && keys[p] in multiset(y);
  }

  lemma KeyIrreflexive(k: Key)
    ensures !EarlierKey(k, k)
  {
    LessAsymmetric(k.id.text, k.id.text);
  }

  /** Positions before the first one with a key hold exactly the dependencies with earlier keys. */
  lemma EarlierPosition(a: seq<Dependency>, p: nat, n: nat)
    requires Sorted(EarlierDependency, a) && p < |a| && n < |a|
    ensures EarlierKey(DependencyKey(a[p]), DependencyKey(a[n])) ==> p < n
    ensures p < n && DependencyKey(a[p]) != DependencyKey(a[n]) ==> EarlierKey(DependencyKey(a[p]), DependencyKey(a[n]))
  {
    hide DependencyKey;
    KeyIrreflexive(DependencyKey(a[n]));
    KeyTotal(DependencyKey(a[p]), DependencyKey(a[n]));
    hide EarlierKey;
    assert n < p ==> !EarlierDependency(a[p], a[n]);
    assert p < n ==> !EarlierDependency(a[n], a[p]);
  }

  // ------------------------------------------------------------------
  // Interchangeable dependencies give one decision.
  // ------------------------------------------------------------------

  lemma PrefixSorted(a: seq<Dependency>, n: nat)
    requires Sorted(EarlierDependency, a) && n <= |a|
    ensures Sorted(EarlierDependency, a[..n])
  {
    hide EarlierDependency;
  }

  lemma PassedDistinct(linked: set<Uuid>, a: seq<Dependency>, n: nat)
    requires Sorted(EarlierDependency, a) && 0 < n < |a| && Scan(linked, a, n).stop.None?
    requires DependencyKey(a[n - 1]) != DependencyKey(a[n])
    ensures Distinct(Keys(a[..n + 1]))
  {
    ScanPassed(linked, a, n);
    PrefixSorted(a, n + 1);
    hide Scan, DependencyKey, Sorted;
    var head := a[..n + 1];
    forall k | 0 < k < |head| ensures DependencyKey(head[k - 1]) != DependencyKey(head[k]) {
      assert head[k - 1] == a[k - 1] && head[k] == a[k];
    }
    SortedKeysDistinct(head);
  }

  lemma LaterDiffers(a: seq<Dependency>, n: nat, p: nat, q: nat)
    requires Sorted(EarlierDependency, a) && p < n < |a| && q < |a| && q != p && Distinct(Keys(a[..n + 1]))
    ensures Keys(a)[q] != Keys(a)[p]
  {
    var head := Keys(a[..n + 1]);
    assert head[p] == Keys(a)[p] && head[n] == Keys(a)[n];
    EarlierPosition(a, p, n);
    EarlierPosition(a, q, n);
    hide Sorted, DependencyKey, EarlierKey;
    if q <= n {
      assert head[q] == Keys(a)[q];
    }
  }

  /** Every position the loop has passed stands alone with its key. */
  lemma PassedAlone(linked: set<Uuid>, a: seq<Dependency>, n: nat, p: nat)
    requires Sorted(EarlierDependency, a) && p < n < |a| && Scan(linked, a, n).stop.None?
    requires DependencyKey(a[n - 1]) != DependencyKey(a[n])
    ensures multiset(Keys(a))[DependencyKey(a[p])] == 1
  {
    hide Scan, DependencyKey, Sorted, Distinct;
    PassedDistinct(linked, a, n);
    forall q | 0 <= q < |a| && q != p ensures Keys(a)[q] != Keys(a)[p] {
      LaterDiffers(a, n, p, q);
    }
    Alone(Keys(a), p);
  }

  lemma ClearAt(i: Input, a: seq<Dependency>, n: nat)
    requires SortedOrder(i, a) && n < |a| && Scan(Linked(i.parents), a, n).stop.None?
    requires n > 0 ==> DependencyKey(a[n - 1]) != DependencyKey(a[n])
    ensures ClearBefore(i, DependencyKey(a[n]))
  {
    var linked := Linked(i.parents);
    SameElements(a, i.dependencies);
    MapPermutation(DependencyKey, a, i.dependencies);
    ScanPassed(linked, a, n);
    hide Scan, DependencyKey, EarlierKey, DependencyWellFormed, DependencySatisfied, Linked, Sorted;
    forall d | d in i.dependencies && EarlierKey(DependencyKey(d), DependencyKey(a[n]))
      ensures Passes(linked, d) && multiset(Keys(i.dependencies))[DependencyKey(d)] == 1
    {
      assert d in a;
      var p :| 0 <= p < |a| && a[p] == d;
      EarlierPosition(a, p, n);
      PassedAlone(linked, a, n, p);
    }
  }

  lemma {:induction false} ScansAgree(i: Input, a: seq<Dependency>, b: seq<Dependency>, n: nat)
    requires SortedOrder(i, a) && SortedOrder(i, b) && Interchangeable(i) && n <= |a| == |b|
    ensures Scan(Linked(i.parents), a, n) == Scan(Linked(i.parents), b, n)
  {
    hide SortedOrder, Interchangeable, DependencyWellFormed, DependencySatisfied, DependencyKey, Linked, Keys;
    if n == 0 {
      assert Scan(Linked(i.parents), a, 0) == Scanned(None, []);
    } else {
      ScansAgree(i, a, b, n - 1);
      SameKeys(i, a, b);
      if Scan(Linked(i.parents), a, n - 1).stop.None? {
        ScanAgreesAt(i, a, b, n - 1);
      }
    }
  }

  lemma ScanAgreesAt(i: Input, a: seq<Dependency>, b: seq<Dependency>, n: nat)
    requires SortedOrder(i, a) && SortedOrder(i, b) && Interchangeable(i) && n < |a| == |b| && Keys(a) == Keys(b)
    requires Scan(Linked(i.parents), a, n) == Scan(Linked(i.parents), b, n) && Scan(Linked(i.parents), a, n).stop.None?
    ensures Scan(Linked(i.parents), a, n + 1) == Scan(Linked(i.parents), b, n + 1)
  {
    hide DependencyKey, DependencyWellFormed, DependencySatisfied, Linked, Sorted, ClearBefore;
    SameElements(a, i.dependencies);
    SameElements(b, i.dependencies);
    assert a[n] in a && b[n] in b;
    assert Keys(a)[n] == Keys(b)[n];
    if n > 0 && DependencyKey(a[n - 1]) == DependencyKey(a[n]) {
      assert Keys(a)[n - 1] == Keys(b)[n - 1];
    } else {
      ClearAt(i, a, n);
      assert n > 0 ==> Keys(a)[n - 1] == Keys(b)[n - 1];
      assert SameKey(a[n], b[n]);
    }
  }

  // ------------------------------------------------------------------
  // Dependencies that are not interchangeable give two.
  // ------------------------------------------------------------------

  /** The p-th dependency moved to the n-th place. */
  function Swapped(s: seq<Dependency>, n: nat, p: nat): (r: seq<Dependency>)
    requires n <= p < |s|
    ensures |r| == |s|
  {
    s[n := s[p]][p := s[n]]
  }

  lemma SwapSorted(i: Input, s: seq<Dependency>, n: nat, p: nat)
    requires SortedOrder(i, s) && n <= p < |s| && SameKey(s[n], s[p])
    ensures SortedOrder(i, Swapped(s, n, p)) && Keys(Swapped(s, n, p)) == Keys(s)
  {
    hide DependencyKey, EarlierKey;
    var r := Swapped(s, n, p);
    assert multiset(r) == multiset(s);
    forall x, y | 0 <= x < y < |r| ensures !EarlierDependency(r[y], r[x]) {
      assert !EarlierDependency(s[y], s[x]);
      assert SameKey(r[x], s[x]) && SameKey(r[y], s[y]);
    }
  }

  /** The loop over dependencies that all pass. */
  lemma {:induction false} ScanThrough(linked: set<Uuid>, ds: seq<Dependency>, n: nat)
    requires n <= |ds| && forall k :: 0 <= k < n ==> Passes(linked, ds[k])
    requires forall k :: 0 < k < n ==> DependencyKey(ds[k - 1]) != DependencyKey(ds[k])
    ensures Scan(linked, ds, n) == Scanned(None, Map(EvidenceOf, ds[..n]))
  {
    hide DependencyKey, DependencyWellFormed, DependencySatisfied;
    if n == 0 {
      assert Map(EvidenceOf, ds[..0]) == [];
    } else {
      ScanThrough(linked, ds, n - 1);
      assert Map(EvidenceOf, ds[..n]) == Map(EvidenceOf, ds[..n - 1]) + [ds[n - 1].evidence];
    }
  }

  /** What the loop gives when it stops at a group of equal keys. */
  function Stopped(events: seq<Uuid>, outcome: Option<(Uuid, bool)>): Scanned {
    match outcome
    case None => Scanned(Some(Invalid), events)
    case Some(o) => Scanned(Some(if o.1 then BlockedDependency else Invalid), events + [o.0])
  }

  /** The first position with a key that the loop gets to. */
  ghost predicate Opens(i: Input, a: seq<Dependency>, n: nat) {
    && SortedOrder(i, a) && n < |a| && ClearBefore(i, DependencyKey(a[n]))
    && forall p :: 0 <= p < n ==> !SameKey(a[p], a[n])
  }

  lemma BeforeGroup(i: Input, a: seq<Dependency>, n: nat, p: nat)
    requires Opens(i, a, n) && p < n
    ensures Passes(Linked(i.parents), a[p]) && multiset(Keys(a))[DependencyKey(a[p])] == 1
  {
    SameElements(a, i.dependencies);
    MapPermutation(DependencyKey, a, i.dependencies);
    hide DependencyKey, DependencyWellFormed, DependencySatisfied, Linked, Sorted, EarlierKey, Map;
    assert a[p] in a && !SameKey(a[p], a[n]);
    EarlierPosition(a, p, n);
  }

  lemma ReachesGroup(i: Input, a: seq<Dependency>, n: nat)
    requires Opens(i, a, n)
    ensures Scan(Linked(i.parents), a, n) == Scanned(None, Map(EvidenceOf, a[..n]))
  {
    hide DependencyKey, Passes, Linked, SortedOrder, ClearBefore, Scan;
    forall p | 0 <= p < n ensures Passes(Linked(i.parents), a[p]) {
      BeforeGroup(i, a, n, p);
    }
    forall k | 0 < k < n ensures DependencyKey(a[k - 1]) != DependencyKey(a[k]) {
      BeforeGroup(i, a, n, k);
      if DependencyKey(a[k - 1]) == DependencyKey(a[k]) {
        NotAlone(Keys(a), k - 1, k);
      }
    }
    ScanThrough(Linked(i.parents), a, n);
  }

  lemma GroupStep(linked: set<Uuid>, a: seq<Dependency>, n: nat, events: seq<Uuid>)
    requires n + 1 < |a| && Scan(linked, a, n) == Scanned(None, events)
    requires SameKey(a[n], a[n + 1]) && (n > 0 ==> !SameKey(a[n - 1], a[n]))
    ensures Scan(linked, a, |a|) == Stopped(events, Outcome(linked, a[n]))
  {
    hide DependencyWellFormed, DependencySatisfied, DependencyKey;
    if Scan(linked, a, n + 1).stop.Some? {
      StoppedStays(linked, a, n + 1);
    } else {
      StoppedStays(linked, a, n + 2);
    }
  }

  /** The first member of a shared group alone decides how the loop ends. */
  lemma GroupStops(i: Input, a: seq<Dependency>, n: nat)
    requires Opens(i, a, n) && n + 1 < |a| && SameKey(a[n], a[n + 1])
    ensures Scan(Linked(i.parents), a, |a|) == Stopped(Map(EvidenceOf, a[..n]), Outcome(Linked(i.parents), a[n]))
  {
    hide ClearBefore, SortedOrder, Scan, Stopped, Outcome, Linked, SameKey;
    ReachesGroup(i, a, n);
    assert n > 0 ==> !SameKey(a[n - 1], a[n]);
    GroupStep(Linked(i.parents), a, n, Map(EvidenceOf, a[..n]));
  }

  lemma FirstWithKey(s: seq<Dependency>, x: Dependency) returns (n: nat)
    requires x in s
    ensures n < |s| && SameKey(s[n], x) && forall p :: 0 <= p < n ==> !SameKey(s[p], x)
  {
    hide DependencyKey;
    n := 0;
    while !SameKey(s[n], x)
      invariant n < |s| && forall p :: 0 <= p < n ==> !SameKey(s[p], x)
      decreases |s| - n
    {
      var q :| 0 <= q < |s| && s[q] == x;
      n := n + 1;
    }
  }

  /** Any member of the group the loop gets to can be made its first member. */
  lemma Front(i: Input, s: seq<Dependency>, n: nat, x: Dependency, y: Dependency) returns (a: seq<Dependency>)
    requires Opens(i, s, n) && x in i.dependencies && y in i.dependencies && x != y && SameKey(s[n], x) && SameKey(x, y)
    ensures Opens(i, a, n) && a[n] == x && a[..n] == s[..n] && n + 1 < |a| && SameKey(a[n], a[n + 1])
  {
    SameElements(s, i.dependencies);
    assert x in s && y in s;
    var p :| 0 <= p < |s| && s[p] == x;
    var q :| 0 <= q < |s| && s[q] == y;
    hide DependencyKey, ClearBefore;
    assert n <= p && n <= q;
    SwapSorted(i, s, n, p);
    a := Swapped(s, n, p);
    assert forall k :: 0 <= k < |s| ==> Keys(a)[k] == Keys(s)[k];
    var m := if p > q then p else q;
    assert n < m && DependencyKey(s[m]) == DependencyKey(s[n]);
    assert DependencyKey(s[n + 1]) == DependencyKey(s[n]) by {
      hide SortedOrder;
      GroupTogether(i, s, n, m);
    }
    assert Keys(a)[n + 1] == Keys(s)[n + 1] && Keys(a)[n] == Keys(s)[n];
    forall k | 0 <= k < n ensures !SameKey(a[k], a[n]) {
      assert !SameKey(s[k], s[n]);
      assert Keys(a)[k] == Keys(s)[k];
    }
  }

  lemma GroupTogether(i: Input, s: seq<Dependency>, n: nat, m: nat)
    requires SortedOrder(i, s) && n < m < |s| && SameKey(s[n], s[m])
    ensures SameKey(s[n], s[n + 1])
  {
    EarlierPosition(s, n, n + 1);
    EarlierPosition(s, m, n + 1);
  }

  lemma StoppedDiffers(events: seq<Uuid>, o: Option<(Uuid, bool)>, u: Option<(Uuid, bool)>)
    requires o != u
    ensures Stopped(events, o).stop != Stopped(events, u).stop || Stopped(events, o).events != Stopped(events, u).events
  {
    var n := |events|;
    if o.Some? && u.Some? {
      assert (events + [o.value.0])[n] == o.value.0 && (events + [u.value.0])[n] == u.value.0;
    }
  }

  lemma DisagreeFrom(i: Input, s: seq<Dependency>, n: nat, x: Dependency, y: Dependency)
    returns (a: seq<Dependency>, b: seq<Dependency>)
    requires Scans(i) && Opens(i, s, n) && x in i.dependencies && y in i.dependencies && SameKey(s[n], x)
             && SameKey(x, y)
    requires Outcome(Linked(i.parents), x) != Outcome(Linked(i.parents), y)
    ensures SortedOrder(i, a) && SortedOrder(i, b) && PlanWith(i, a) != PlanWith(i, b)
  {
    hide Scans, PlanWith, Outcome, Linked, ClearBefore, SortedOrder, Scan, DependencyKey;
    a := Front(i, s, n, x, y);
    b := Front(i, s, n, y, x);
    GroupStops(i, a, n);
    GroupStops(i, b, n);
    StoppedDiffers(Map(EvidenceOf, s[..n]), Outcome(Linked(i.parents), x), Outcome(Linked(i.parents), y));
    ScanStops(i, a);
    ScanStops(i, b);
  }

  lemma Disagree(i: Input, x: Dependency, y: Dependency) returns (a: seq<Dependency>, b: seq<Dependency>)
    requires Scans(i) && x in i.dependencies && y in i.dependencies && SameKey(x, y) && ClearBefore(i, DependencyKey(x))
    requires Outcome(Linked(i.parents), x) != Outcome(Linked(i.parents), y)
    ensures SortedOrder(i, a) && SortedOrder(i, b) && PlanWith(i, a) != PlanWith(i, b)
  {
    hide Scans, DependencyKey, PlanWith, Outcome, Linked, ClearBefore, SortedOrder, InsertionSort;
    var s := InsertionSort(EarlierDependency, i.dependencies);
    SomeOrder(i);
    SortedMembers(i, s);
    var n := FirstWithKey(s, x);
    assert Opens(i, s, n);
    a, b := DisagreeFrom(i, s, n, x, y);
  }

  lemma SomeOrder(i: Input)
    ensures SortedOrder(i, InsertionSort(EarlierDependency, i.dependencies))
  {
    DependencyWeakOrder();
    InsertionSorted(EarlierDependency, i.dependencies);
  }

  lemma SortedMembers(i: Input, s: seq<Dependency>)
    requires SortedOrder(i, s)
    ensures forall x :: x in s <==> x in i.dependencies
  {
    SameElements(s, i.dependencies);
  }

  // ------------------------------------------------------------------
  // The exact condition.
  // ------------------------------------------------------------------

  /** The decision does not depend on how the sort orders equal aggregates if and only if the
      loop is not reached, or the dependencies in the first group of equal aggregates that it
      gets to are interchangeable: all ill-formed, or all well-formed with one evidence event and
      all blocking or none. */
  lemma DeterminedIff(i: Input)
    ensures Determined(i) <==> !Scans(i) || Interchangeable(i)
  {
    hide Scans, PlanWith, SortedOrder, Outcome, ClearBefore;
    if !Scans(i) {
      forall a, b | SortedOrder(i, a) && SortedOrder(i, b) ensures PlanWith(i, a) == PlanWith(i, b) {
        NotScanned(i, a, b);
      }
    } else if Interchangeable(i) {
      forall a, b | SortedOrder(i, a) && SortedOrder(i, b) ensures PlanWith(i, a) == PlanWith(i, b) {
        SameKeys(i, a, b);
        ScansAgree(i, a, b, |a|);
        SameScan(i, a, b);
      }
    } else {
      var x, y :| x in i.dependencies && y in i.dependencies && SameKey(x, y) && ClearBefore(i, DependencyKey(x))
                  && Outcome(Linked(i.parents), x) != Outcome(Linked(i.parents), y);
      var a, b := Disagree(i, x, y);
    }
  }

  /** Two dependencies on one aggregate, one satisfied and one not: the decision is INVALID or
      BLOCKED as the sort happens to order them. */
  lemma DuplicatesDisagree(i: Input, met: Dependency, unmet: Dependency)
    requires Scans(i) && multiset(i.dependencies) == multiset([met, unmet]) && SameKey(met, unmet)
    requires DependencyWellFormed(met) && DependencyWellFormed(unmet)
    requires met.evidence in Linked(i.parents) && unmet.evidence in Linked(i.parents)
    requires DependencySatisfied(met) && !DependencySatisfied(unmet)
    ensures SortedOrder(i, [met, unmet]) && SortedOrder(i, [unmet, met])
    ensures PlanWith(i, [met, unmet]).status.Invalid? && PlanWith(i, [unmet, met]).status.BlockedDependency?
  {
    hide Scans, PlanWith, DependencyWellFormed, DependencySatisfied, Linked;
    PairStops(i, met, unmet);
    PairStops(i, unmet, met);
  }

  /** Two satisfied dependencies on one aggregate with different evidence: both orders are
      INVALID, but they report different dependency events. */
  lemma EvidenceDisagrees(i: Input, x: Dependency, y: Dependency)
    requires Scans(i) && multiset(i.dependencies) == multiset([x, y]) && SameKey(x, y)
    requires Passes(Linked(i.parents), x) && Passes(Linked(i.parents), y) && x.evidence != y.evidence
    ensures SortedOrder(i, [x, y]) && SortedOrder(i, [y, x])
    ensures PlanWith(i, [x, y]).dependencyEvents == [x.evidence] && PlanWith(i, [y, x]).dependencyEvents == [y.evidence]
  {
    hide Scans, PlanWith, DependencyWellFormed, DependencySatisfied, Linked;
    PairStops(i, x, y);
    PairStops(i, y, x);
  }

  lemma PairStops(i: Input, x: Dependency, y: Dependency)
    requires Scans(i) && multiset(i.dependencies) == multiset([x, y]) && SameKey(x, y)
    ensures SortedOrder(i, [x, y])
    ensures var s := Stopped([], Outcome(Linked(i.parents), x));
            Some(PlanWith(i, [x, y]).status) == s.stop && PlanWith(i, [x, y]).dependencyEvents == s.events
  {
    hide Scans, PlanWith, DependencyWellFormed, DependencySatisfied, Linked, DependencyKey;
    var linked := Linked(i.parents);
    KeyIrreflexive(DependencyKey(x));
    hide EarlierKey;
    assert Scan(linked, [x, y], 0) == Scanned(None, []);
    assert Scan(linked, [x, y], 2) == Stopped([], Outcome(linked, x)) by {
      assert Scan(linked, [x, y], 1).stop.None? || Scan(linked, [x, y], 1) == Stopped([], Outcome(linked, x));
    }
    ScanStops(i, [x, y]);
  }

  // ------------------------------------------------------------------
  // When a task is assigned.
  // ------------------------------------------------------------------

  /** A free and runnable task, dependencies on distinct aggregates that all pass with evidence
      of their own, well-formed candidates with distinct actors and one of them eligible. */
  ghost predicate Assignable(i: Input) {
    && Scans(i) && i.decidedAt.Some? && (forall d :: d in i.dependencies ==> Passes(Linked(i.parents), d))
    && Distinct(Keys(i.dependencies)) && Distinct(Map(EvidenceOf, i.dependencies))
    && CandidatesOk(i.candidates) && exists c :: c in i.candidates && Eligible(c, i.profile, i.decidedAt.value)
  }

  lemma ReadyScans(i: Input, order: seq<Dependency>)
    requires PlanWith(i, order).status.ReadyToAssign?
    ensures Scans(i)
  {
    hide ParentsOk, Scan, Select, Canonical, InsertionSort, Uuid.Valid, Digest.Valid;
  }

  lemma ReadyNeeds(i: Input, order: seq<Dependency>)
    requires SortedOrder(i, order) && PlanWith(i, order).status.ReadyToAssign?
    ensures Assignable(i)
  {
    hide PlanWith, SortedOrder, DependencyWellFormed, DependencySatisfied, Linked, Scans, CandidatesOk, Eligible, Map;
    ReadyScans(i, order);
    ReadyMeans(i, order);
    var d := PlanWith(i, order);
    DistinctPermutation(d.dependencyEvents, Map(EvidenceOf, i.dependencies));
    assert d.selected.value in i.candidates && Eligible(d.selected.value, i.profile, i.decidedAt.value);
  }

  lemma ScansAll(linked: set<Uuid>, ds: seq<Dependency>, order: seq<Dependency>)
    requires multiset(order) == multiset(ds) && Distinct(Keys(ds)) && forall d :: d in ds ==> Passes(linked, d)
    ensures Scan(linked, order, |order|) == Scanned(None, Map(EvidenceOf, order))
  {
    hide Passes, Scan, DependencyKey;
    SameElements(order, ds);
    MapPermutation(DependencyKey, order, ds);
    DistinctPermutation(Keys(order), Keys(ds));
    forall k | 0 <= k < |order| ensures Passes(linked, order[k]) {
      assert order[k] in order;
    }
    forall k | 0 < k < |order| ensures DependencyKey(order[k - 1]) != DependencyKey(order[k]) {
      assert Keys(order)[k - 1] != Keys(order)[k];
    }
    ScanThrough(linked, order, |order|);
    assert order[..|order|] == order;
  }

  lemma EvidenceDistinct(ds: seq<Dependency>, order: seq<Dependency>)
    requires multiset(order) == multiset(ds) && Distinct(Map(EvidenceOf, ds))
    ensures Distinct(Canonical(Map(EvidenceOf, order)))
  {
    hide Canonical, Map, Distinct;
    MapPermutation(EvidenceOf, order, ds);
    DistinctPermutation(Canonical(Map(EvidenceOf, order)), Map(EvidenceOf, ds));
  }

  lemma SelectFinds(i: Input, d: Decision, c: Candidate)
    requires i.decidedAt.Some? && Distinct(d.dependencyEvents) && CandidatesOk(i.candidates)
    requires c in i.candidates && Eligible(c, i.profile, i.decidedAt.value)
    ensures Select(i, d).status.ReadyToAssign?
  {
    hide Eligible, CandidatesOk, InsertionSort;
    EligibleInside(i.candidates, i.profile, i.decidedAt.value);
  }

  lemma PassedSelects(i: Input, order: seq<Dependency>, events: seq<Uuid>) returns (d: Decision)
    requires Scans(i) && Scan(Linked(i.parents), order, |order|) == Scanned(None, events)
    ensures i.decidedAt.Some? && d.dependencyEvents == Canonical(events) && PlanWith(i, order) == Select(i, d)
  {
    hide ParentsOk, Scan, Select, Canonical, InsertionSort, Uuid.Valid, Digest.Valid, Linked;
    d := Decision(Invalid, true, false, i.readinessRevision, Canonical(events), InsertionSort(EarlierParent, i.parents),
                  None);
  }

  /** READY_TO_ASSIGN exactly for an assignable input, whatever order the sort leaves. */
  lemma ReadyIff(i: Input, order: seq<Dependency>)
    requires SortedOrder(i, order)
    ensures PlanWith(i, order).status.ReadyToAssign? <==> Assignable(i)
  {
    if PlanWith(i, order).status.ReadyToAssign? {
      ReadyNeeds(i, order);
    }
    if Assignable(i) {
      hide PlanWith, Scans, Passes, Linked, CandidatesOk, Eligible, Select, Canonical, Sorted, Scan, Map, Distinct;
      ScansAll(Linked(i.parents), i.dependencies, order);
      EvidenceDistinct(i.dependencies, order);
      var d := PassedSelects(i, order, Map(EvidenceOf, order));
      var c :| c in i.candidates && Eligible(c, i.profile, i.decidedAt.value);
      SelectFinds(i, d, c);
    }
  }
}
