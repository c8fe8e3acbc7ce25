/** The decision of PlanAssignment on the fields of its input: every status, and which candidate is
    chosen. See kernel/assignment.go.
 */
module AssignmentFields {
  import opened Orders
  import opened Ids
  import opened Lifecycle
  import opened Assignment
  import opened AssignmentOrder

  // ------------------------------------------------------------------
  // The decision on the fields of candidates and dependencies.
  // ------------------------------------------------------------------

  function RouteLevel(r: Route): nat {
    match r
    case BoundedExecution => 1
    case ComplexReasoning => 2
    case NovelReasoning => 3
    case HumanRoute => 4
    case _ => 0
  }

  /** A candidate whose qualification passed, is in date and covers the work at its level, with all
      hard constraints passed and a well-formed record. */
  ghost predicate Qualified(c: Candidate, p: Profile, at: int) {
    var q := c.qualification;
    && Documented(q) && q.status.Pass? && q.observedAt.Some? && q.observedAt.value <= at
    && (q.revokedAt.Some? ==> at < q.revokedAt.value) && (q.expiresAt.Some? ==> at < q.expiresAt.value)
    && q.model == c.model && p.kind in q.kinds
    && q.route in {BoundedExecution, ComplexReasoning, NovelReasoning} && !p.route.OtherRoute?
    && RouteLevel(q.route) >= RouteLevel(p.route)
    && 1 <= |c.constraints| <= 64
    && (forall i :: 0 <= i < |c.constraints| ==> Passed(c.constraints[i]))
    && 1 <= |c.evidence| <= 64
    && (forall i :: 0 <= i < |c.evidence| ==> c.evidence[i].id.Valid() && c.evidence[i].sha.Valid())
    && (forall i, j :: 0 <= i < j < |c.evidence| ==> c.evidence[i].id != c.evidence[j].id)
    && 1 <= |c.reasons| <= 64 && (forall i :: 0 <= i < |c.reasons| ==> 1 <= |c.reasons[i].value| <= 4096)
    && (forall i, j :: 0 <= i < j < |c.reasons| ==> c.reasons[i] != c.reasons[j])
    && (!c.cost.reported ==> c.cost.microunits == 0)
  }

  /** A named constraint that passed, on evidence. */
  ghost predicate Passed(k: Constraint) {
    && 1 <= |k.id.value| <= 256 && k.outcome.ConstraintPass? && 1 <= |k.evidence| <= 64
    && (forall i :: 0 <= i < |k.evidence| ==> k.evidence[i].Valid())
    && (forall i, j :: 0 <= i < j < |k.evidence| ==> k.evidence[i] != k.evidence[j])
  }

  lemma PassedIff(cs: seq<Constraint>)
    ensures (forall k :: k in cs ==> k.Valid() && k.outcome.ConstraintPass?) <==> forall i :: 0 <= i < |cs| ==>
              Passed(cs[i])
  {
    hide Uuid.Valid;
    assert forall i :: 0 <= i < |cs| ==> cs[i] in cs;
    forall k: Constraint ensures k.Valid() && k.outcome.ConstraintPass? <==> Passed(k) {
    }
    hide Constraint.Valid, Passed;
  }

  /** Candidates with valid parts, no actor twice. */
  ghost predicate CandidatesFit(cs: seq<Candidate>) {
    && (forall i :: 0 <= i < |cs| ==>
          cs[i].actor.Valid() && cs[i].execution.Valid() && cs[i].model.Valid() && cs[i].runtime.Valid())
    && (forall i, j :: 0 <= i < j < |cs| ==> cs[i].actor != cs[j].actor)
  }

  lemma CandidatesIff(cs: seq<Candidate>)
    ensures CandidatesOk(cs) <==> CandidatesFit(cs)
  {
    hide Actor.Valid, Digest.Valid, Uuid.Valid;
    var actors := Map(ActorOf, cs);
    assert forall i :: 0 <= i < |cs| ==> actors[i] == cs[i].actor;
    assert (forall c :: c in cs ==> CandidateWellFormed(c)) <==>
        (forall i :: 0 <= i < |cs| ==> CandidateWellFormed(cs[i]));
  }

  /** A qualification record with all its parts. */
  ghost predicate Documented(q: Qualification) {
    && q.id.Valid() && q.digest.Valid() && q.corpus.Valid() && q.model.Valid() && q.observedAt.Some?
    && q.route in {BoundedExecution, ComplexReasoning, NovelReasoning} && q.status in {Pass, NotPassed}
    && 1 <= |q.role.value| <= 256 && 1 <= |q.kinds| <= 7 && 1 <= |q.evidence| <= 64
    && (forall i :: 0 <= i < |q.kinds| ==> !q.kinds[i].OtherWork?)
    && (forall i, j :: 0 <= i < j < |q.kinds| ==> q.kinds[i] != q.kinds[j])
    && (forall i :: 0 <= i < |q.evidence| ==> q.evidence[i].Valid())
    && (forall i, j :: 0 <= i < j < |q.evidence| ==> q.evidence[i] != q.evidence[j])
    && (q.expiresAt.Some? ==> q.observedAt.value < q.expiresAt.value)
    && (q.revokedAt.Some? ==> q.observedAt.value <= q.revokedAt.value)
  }

  lemma ValidIffDocumented(q: Qualification)
    ensures q.Valid() <==> Documented(q)
  {
    hide Uuid.Valid, Digest.Valid;
    assert (forall k :: k in q.kinds ==> !k.OtherWork?) <==>
        (forall i :: 0 <= i < |q.kinds| ==> !q.kinds[i].OtherWork?);
  }

  lemma EligibleIffQualified(c: Candidate, p: Profile, at: int)
    ensures Eligible(c, p, at) <==> Qualified(c, p, at)
  {
    hide Uuid.Valid, Digest.Valid, Constraint.Valid, Qualification.Valid;
    var ids := Map(EvidenceId, c.evidence);
    assert forall i :: 0 <= i < |ids| ==> ids[i] == c.evidence[i].id;
    PassedIff(c.constraints);
    hide Passed;
    ValidIffDocumented(c.qualification);
    DocumentedObserved(c.qualification);
    hide Documented;
  }

  lemma DocumentedObserved(q: Qualification)
    ensures Documented(q) ==> q.observedAt.Some?
  {
    hide Uuid.Valid, Digest.Valid;
  }

  /** The chosen candidate against any other qualified one: a reported cost before none, then the
      lower cost, then the lighter load, then the earlier name. */
  ghost predicate Preferred(c: Candidate, o: Candidate) {
    && (o.cost.reported ==> c.cost.reported)
    && (c.cost.reported && o.cost.reported ==> c.cost.microunits <= o.cost.microunits)
    && (c.cost.reported == o.cost.reported && (c.cost.reported ==> c.cost.microunits == o.cost.microunits) ==>
          && c.active <= o.active
          && (c.active == o.active ==> Less(c.actor.fqn, o.actor.fqn)))
  }

  /** READY_TO_ASSIGN: the chosen candidate is listed and qualified, and preferred to every other
      qualified candidate. */
  lemma ReadyChoice(i: Input, order: seq<Dependency>, o: Candidate)
    requires SortedOrder(i, order) && PlanWith(i, order).status.ReadyToAssign? && i.decidedAt.Some?
    ensures var d := PlanWith(i, order);
            && d.selected.Some? && d.selected.value in i.candidates
            && Qualified(d.selected.value, i.profile, i.decidedAt.value)
            && (o in i.candidates && Qualified(o, i.profile, i.decidedAt.value) && o != d.selected.value ==>
                  Preferred(d.selected.value, o))
  {
    hide PlanWith, SortedOrder, Eligible, Qualified, Linked, DependencyWellFormed, DependencySatisfied, CandidatesOk,
         Map;
    ReadyMeans(i, order);
    EligibleIffQualified(o, i.profile, i.decidedAt.value);
    EligibleIffQualified(PlanWith(i, order).selected.value, i.profile, i.decidedAt.value);
  }

  /** A dependency that asks for a terminal phase and is observed in it, backed by a parent. */
  ghost predicate Fulfilled(d: Dependency, parents: seq<Parent>) {
    && d.aggregate.Valid() && d.required in {Completed, Accepted, Closed} && d.evidence.Valid()
    && (exists k :: 0 <= k < |parents| && parents[k].event == d.evidence)
    && d.observed.Some? && d.observed.value.aggregate == d.aggregate && d.observed.value.phase == d.required
    && d.observed.value.revision > 0 && d.observed.value.epoch > 0
  }

  lemma PassesIffFulfilled(d: Dependency, parents: seq<Parent>)
    ensures Passes(Linked(parents), d) <==> Fulfilled(d, parents)
  {
    hide Uuid.Valid;
    if d.evidence in Linked(parents) {
      var p :| p in parents && p.event == d.evidence;
      var k :| 0 <= k < |parents| && parents[k] == p;
    }
    if k :| 0 <= k < |parents| && parents[k].event == d.evidence {
      assert parents[k] in parents;
    }
  }

  // ------------------------------------------------------------------
  // Every status.
  // ------------------------------------------------------------------

  /** An input whose task, profile and policy fit each other, within the size limits. */
  ghost predicate Fitting(i: Input) {
    var t, p := i.task, i.profile;
    && t.aggregate.kind.Task? && t.aggregate.id.Valid() && 0 !in {t.revision, t.epoch, t.scope}
    && 0 !in {i.readinessRevision, i.policyRevision} && i.policyDigest.Valid() && i.decidedAt.Some?
    && p.sound && (p.task, p.epoch, p.scope) == (t.aggregate.id, t.epoch, t.scope)
    && p.route in {BoundedExecution, ComplexReasoning, NovelReasoning}
    && 0 < |i.parents| < 65 && |i.dependencies| < 65 && |i.candidates| < 65
  }

  lemma ValidIffFitting(i: Input)
    ensures InputValid(i) <==> Fitting(i)
  {
    hide Uuid.Valid, Digest.Valid;
  }

  /** Parents that are valid events over known edges, none twice. */
  ghost predicate ParentsFit(ps: seq<Parent>) {
    && (forall k :: 0 <= k < |ps| ==>
          ps[k].event.Valid() && ps[k].edge in {Causal, Derivation, Response, Retry, Supersession})
    && (forall j, k :: 0 <= j < k < |ps| ==> ps[j] != ps[k])
  }

  lemma ParentsOkIff(ps: seq<Parent>)
    ensures ParentsOk(ps) <==> ParentsFit(ps)
  {
    hide Uuid.Valid;
    if ParentsFit(ps) {
      forall p | p in ps ensures p.event.Valid() && !p.edge.OtherEdge? {
        var k :| 0 <= k < |ps| && ps[k] == p;
      }
    }
  }

  ghost predicate Admitted(i: Input) {
    Fitting(i) && ParentsFit(i.parents)
  }

  /** The task can take an owner now. */
  ghost predicate Free(i: Input) {
    i.task.owner.None? && i.task.condition.Runnable? && i.task.phase in {Planned, Ready}
  }

  lemma ScansIff(i: Input)
    ensures Scans(i) <==> Admitted(i) && Free(i) && (i.task.phase.Ready? ==> i.readied.Valid())
  {
    hide InputValid, ParentsOk, Fitting, ParentsFit, Uuid.Valid;
    ValidIffFitting(i);
    ParentsOkIff(i.parents);
  }

  lemma SelectStatus(i: Input, d: Decision)
    requires i.decidedAt.Some? && d.status.Invalid?
    ensures Select(i, d).status in {Invalid, NoEligibleActor, ReadyToAssign}
  {
    hide CandidatesOk, Eligible, InsertionSort;
  }

  /** What each early status says. */
  lemma EarlyStatus(i: Input, order: seq<Dependency>)
    ensures var d := PlanWith(i, order);
            && (d.status.AlreadyOwned? <==> Admitted(i) && i.task.owner.Some?)
            && (d.status.NotRunnable? <==> Admitted(i) && i.task.owner.None? && !Free(i))
            && (d.bound <==> Fitting(i))
            && (d.readinessRevision == (if Admitted(i) then i.readinessRevision else 0))
  {
    hide InputValid, ParentsOk, Fitting, ParentsFit, Uuid.Valid, Scan, Select, Canonical, InsertionSort, Linked;
    ValidIffFitting(i);
    ParentsOkIff(i.parents);
    if Scans(i) {
      ScanNever(Linked(i.parents), order, |order|);
      FittingDated(i);
      var d := Decision(Invalid, true, false, i.readinessRevision,
                        Canonical(Scan(Linked(i.parents), order, |order|).events),
                        InsertionSort(EarlierParent, i.parents), None);
      SelectStatus(i, d);
      SelectKeepsRest(i, d);
    }
  }

  lemma FittingDated(i: Input)
    requires InputValid(i)
    ensures i.decidedAt.Some?
  {
    hide Uuid.Valid, Digest.Valid;
  }

  lemma SelectKeepsRest(i: Input, d: Decision)
    requires i.decidedAt.Some?
    ensures Select(i, d).bound == d.bound && Select(i, d).readinessRevision == d.readinessRevision
  {
    hide CandidatesOk, Eligible, InsertionSort;
  }

  lemma {:induction false} ScanNever(linked: set<Uuid>, ds: seq<Dependency>, n: nat)
    requires n <= |ds|
    ensures Scan(linked, ds, n).stop in {None, Some(Invalid), Some(BlockedDependency)}
  {
    hide DependencyWellFormed, DependencySatisfied, DependencyKey;
    if n == 0 {
    } else {
      ScanNever(linked, ds, n - 1);
    }
  }

  /** The first n dependencies are fulfilled and on aggregates of their own. */
  ghost predicate Through(i: Input, order: seq<Dependency>, n: nat)
    requires n <= |order|
  {
    && (forall j :: 0 <= j < n ==> Fulfilled(order[j], i.parents))
    && (forall j :: 0 < j < n ==> !SameKey(order[j - 1], order[j]))
  }

  /** The loop blocks at the k-th dependency: it gets there, and the dependency asks, backed by a
      parent, for a phase that is not observed. */
  ghost predicate BlocksAt(i: Input, order: seq<Dependency>, k: nat)
    requires k < |order|
  {
    var d := order[k];
    && Through(i, order, k) && (k > 0 ==> !SameKey(order[k - 1], d))
    && d.aggregate.Valid() && d.required in {Completed, Accepted, Closed} && d.evidence.Valid()
    && (exists j :: 0 <= j < |i.parents| && i.parents[j].event == d.evidence)
    && !Fulfilled(d, i.parents)
  }

  lemma ThroughStep(i: Input, order: seq<Dependency>, n: nat)
    requires n < |order|
    ensures Through(i, order, n + 1) <==>
            Through(i, order, n) && Fulfilled(order[n], i.parents) && (n > 0 ==> !SameKey(order[n - 1], order[n]))
  {
    hide Fulfilled, SameKey;
  }

  lemma {:induction false} BlockedScan(i: Input, order: seq<Dependency>, n: nat)
    requires n <= |order|
    ensures Scan(Linked(i.parents), order, n).stop == Some(BlockedDependency) <==> BlocksWithin(i, order, n)
    ensures Scan(Linked(i.parents), order, n).stop.None? <==> Through(i, order, n)
  {
    if n == 0 {
    } else {
      hide Scan, BlocksAt, Through, Linked, BlocksWithin, Fulfilled, SameKey;
      BlockedScan(i, order, n - 1);
      ScanAt(i, order, n - 1);
      ThroughStep(i, order, n - 1);
      BlocksStep(i, order, n - 1);
    }
  }

  ghost predicate BlocksWithin(i: Input, order: seq<Dependency>, n: nat)
    requires n <= |order|
  {
    exists k :: 0 <= k < n && BlocksAt(i, order, k)
  }

  lemma BlocksStep(i: Input, order: seq<Dependency>, n: nat)
    requires n < |order|
    ensures BlocksWithin(i, order, n + 1) <==> BlocksWithin(i, order, n) || BlocksAt(i, order, n)
  {
    hide BlocksAt;
  }

  lemma ScanAt(i: Input, order: seq<Dependency>, n: nat)
    requires n < |order| && (Scan(Linked(i.parents), order, n).stop.None? <==> Through(i, order, n))
    ensures var before, after := Scan(Linked(i.parents), order, n).stop, Scan(Linked(i.parents), order, n + 1).stop;
            && (before.Some? ==> after == before && !BlocksAt(i, order, n))
            && (before.None? ==> (after == Some(BlockedDependency) <==> BlocksAt(i, order, n)))
            && (after.None? <==>
                  before.None? && Fulfilled(order[n], i.parents) && (n > 0 ==> !SameKey(order[n - 1], order[n])))
  {
    PassesIffFulfilled(order[n], i.parents);
    EvidenceLinked(order[n], i.parents);
    FulfilledParts(order[n], i.parents);
    hide Fulfilled, DependencyKey, Uuid.Valid, Linked, Through;
  }

  lemma EvidenceLinked(d: Dependency, parents: seq<Parent>)
    ensures d.evidence in Linked(parents) <==> exists j :: 0 <= j < |parents| && parents[j].event == d.evidence
  {
    if d.evidence in Linked(parents) {
      var p :| p in parents && p.event == d.evidence;
      var k :| 0 <= k < |parents| && parents[k] == p;
    }
  }

  lemma FulfilledParts(d: Dependency, parents: seq<Parent>)
    ensures DependencyWellFormed(d) <==>
              d.aggregate.Valid() && d.required in {Completed, Accepted, Closed} && d.evidence.Valid()
  {
    hide Uuid.Valid;
  }

  /** BLOCKED_DEPENDENCY: exactly when the loop over the sorted dependencies blocks. */
  lemma BlockedIff(i: Input, order: seq<Dependency>)
    ensures PlanWith(i, order).status.BlockedDependency? <==>
            Scans(i) && BlocksWithin(i, order, |order|)
  {
    hide BlocksWithin, Linked;
    BlockedScan(i, order, |order|);
    if Scans(i) {
      hide InputValid, ParentsOk, Scan, Select, Canonical, InsertionSort, Uuid.Valid;
      FittingDated(i);
      var d := Decision(Invalid, true, false, i.readinessRevision,
                        Canonical(Scan(Linked(i.parents), order, |order|).events),
                        InsertionSort(EarlierParent, i.parents), None);
      SelectStatus(i, d);
    } else {
      hide Scan, Select, Canonical, InsertionSort, Uuid.Valid, InputValid, ParentsOk;
    }
  }

  /** NO_ELIGIBLE_ACTOR: exactly when everything is in order and no candidate is qualified. */
  lemma NoActorIff(i: Input, order: seq<Dependency>)
    requires SortedOrder(i, order)
    ensures PlanWith(i, order).status.NoEligibleActor? <==>
            && Scans(i) && i.decidedAt.Some? && (forall d :: d in i.dependencies ==> Fulfilled(d, i.parents))
            && Distinct(Keys(i.dependencies)) && Distinct(Map(EvidenceOf, i.dependencies)) && CandidatesOk(i.candidates)
            && forall c :: c in i.candidates ==> !Qualified(c, i.profile, i.decidedAt.value)
  {
    hide SortedOrder, Fulfilled, Keys, Map, Distinct, CandidatesOk, Qualified, PlanWith, Scans;
    if PlanWith(i, order).status.NoEligibleActor? {
      NoActorNeeds(i, order);
    }
    if Clear(i, order) && CandidatesOk(i.candidates)
       && forall c :: c in i.candidates ==> !Qualified(c, i.profile, i.decidedAt.value) {
      NoActorSuffices(i, order);
    }
  }

  /** The decision gets to the candidates. */
  ghost predicate Clear(i: Input, order: seq<Dependency>) {
    && Scans(i) && i.decidedAt.Some? && (forall d :: d in i.dependencies ==> Fulfilled(d, i.parents))
    && Distinct(Keys(i.dependencies)) && Distinct(Map(EvidenceOf, i.dependencies))
  }

  lemma ClearScans(i: Input, order: seq<Dependency>) returns (d: Decision)
    requires SortedOrder(i, order) && Clear(i, order)
    ensures i.decidedAt.Some? && Distinct(d.dependencyEvents) && PlanWith(i, order) == Select(i, d)
  {
    forall x | x in i.dependencies ensures Passes(Linked(i.parents), x) {
      PassesIffFulfilled(x, i.parents);
    }
    hide Passes, Fulfilled, Scans, Select, PlanWith, Map, Distinct, Sorted, Linked, Scan, Canonical;
    ScansAll(Linked(i.parents), i.dependencies, order);
    EvidenceDistinct(i.dependencies, order);
    d := PassedSelects(i, order, Map(EvidenceOf, order));
  }

  lemma NoActorSuffices(i: Input, order: seq<Dependency>)
    requires SortedOrder(i, order) && Clear(i, order) && CandidatesOk(i.candidates)
    requires forall c :: c in i.candidates ==> !Qualified(c, i.profile, i.decidedAt.value)
    ensures PlanWith(i, order).status.NoEligibleActor?
  {
    hide SortedOrder, PlanWith, CandidatesOk, Clear, Qualified, Eligible, Distinct;
    var d := ClearScans(i, order);
    forall c | c in i.candidates ensures !Eligible(c, i.profile, i.decidedAt.value) {
      EligibleIffQualified(c, i.profile, i.decidedAt.value);
    }
    SelectsNone(i, d);
  }

  lemma Nothing(cs: seq<Candidate>)
    ensures cs == [] <==> forall c :: c !in cs
  {
    if |cs| > 0 {
      assert cs[0] in cs;
    }
  }

  lemma SelectsNone(i: Input, d: Decision)
    requires i.decidedAt.Some? && Distinct(d.dependencyEvents) && CandidatesOk(i.candidates)
    requires forall c :: c in i.candidates ==> !Eligible(c, i.profile, i.decidedAt.value)
    ensures Select(i, d).status.NoEligibleActor?
  {
    hide CandidatesOk, Eligible, InsertionSort, Distinct;
    EligibleInside(i.candidates, i.profile, i.decidedAt.value);
    Nothing(EligibleOf(i.candidates, i.profile, i.decidedAt.value));
  }

  lemma NoActorScans(i: Input, order: seq<Dependency>) returns (d: Decision)
    requires PlanWith(i, order).status.NoEligibleActor?
    ensures Scans(i) && i.decidedAt.Some? && Scan(Linked(i.parents), order, |order|).stop.None? && d.status.Invalid?
    ensures d.dependencyEvents == Canonical(Scan(Linked(i.parents), order, |order|).events)
            && PlanWith(i, order) == Select(i, d)
  {
    ScanNever(Linked(i.parents), order, |order|);
    hide ParentsOk, Scan, Select, Canonical, InsertionSort, Uuid.Valid, Digest.Valid, Linked;
    d := Decision(Invalid, true, false, i.readinessRevision, Canonical(Scan(Linked(i.parents), order, |order|).events),
                  InsertionSort(EarlierParent, i.parents), None);
  }

  lemma NoActorNeeds(i: Input, order: seq<Dependency>)
    requires SortedOrder(i, order) && PlanWith(i, order).status.NoEligibleActor?
    ensures Clear(i, order) && CandidatesOk(i.candidates)
    ensures forall c :: c in i.candidates ==> !Qualified(c, i.profile, i.decidedAt.value)
  {
    var d := NoActorScans(i, order);
    hide PlanWith, Scans, Qualified, Eligible, CandidatesOk, Canonical;
    SelectedNone(i, d);
    forall c | c in i.candidates ensures !Qualified(c, i.profile, i.decidedAt.value) {
      EligibleIffQualified(c, i.profile, i.decidedAt.value);
    }
    hide Select;
    ScannedClear(i, order);
  }

  lemma SelectedNone(i: Input, d: Decision)
    requires i.decidedAt.Some? && d.status.Invalid? && Select(i, d).status.NoEligibleActor?
    ensures Distinct(d.dependencyEvents) && CandidatesOk(i.candidates)
    ensures forall c :: c in i.candidates ==> !Eligible(c, i.profile, i.decidedAt.value)
  {
    hide CandidatesOk, Eligible, InsertionSort, Distinct;
    EligibleInside(i.candidates, i.profile, i.decidedAt.value);
  }

  lemma ScannedClear(i: Input, order: seq<Dependency>)
    requires SortedOrder(i, order) && Scans(i) && i.decidedAt.Some?
             && Scan(Linked(i.parents), order, |order|).stop.None?
    requires Distinct(Canonical(Scan(Linked(i.parents), order, |order|).events))
    ensures Clear(i, order)
  {
    hide Scan, Scans, Fulfilled, Linked, Canonical, Distinct, Sorted, Map, SameKey, Keys;
    BlockedScan(i, order, |order|);
    SameElements(order, i.dependencies);
    forall d | d in i.dependencies ensures Fulfilled(d, i.parents) {
      var k :| 0 <= k < |order| && order[k] == d;
    }
    ThroughDistinct(i, order);
    ScannedEvidence(i, order);
    MapPermutation(EvidenceOf, order, i.dependencies);
    DistinctPermutation(Canonical(Map(EvidenceOf, order)), Map(EvidenceOf, i.dependencies));
  }

  lemma ScannedEvidence(i: Input, order: seq<Dependency>)
    requires Scan(Linked(i.parents), order, |order|).stop.None?
    ensures Scan(Linked(i.parents), order, |order|).events == Map(EvidenceOf, order)
  {
    hide Linked;
    ScanPassed(Linked(i.parents), order, |order|);
    hide Scan, DependencyWellFormed, DependencySatisfied, DependencyKey;
  }

  lemma ThroughDistinct(i: Input, order: seq<Dependency>)
    requires SortedOrder(i, order) && Through(i, order, |order|)
    ensures Distinct(Keys(i.dependencies))
  {
    hide Fulfilled, DependencyKey, Sorted;
    assert forall k :: 0 < k < |order| ==> !SameKey(order[k - 1], order[k]);
    SortedKeysDistinct(order);
    MapPermutation(DependencyKey, order, i.dependencies);
    DistinctPermutation(Map(DependencyKey, order), Map(DependencyKey, i.dependencies));
  }

  /** What a READY_TO_ASSIGN decision copies. */
  lemma ReadyCopies(i: Input, order: seq<Dependency>)
    requires PlanWith(i, order).status.ReadyToAssign?
    ensures var d := PlanWith(i, order);
            && d.bound && d.readinessRevision == i.readinessRevision && d.needsReadiness == i.task.phase.Planned?
            && (i.task.phase.Planned? ==> multiset(d.parents) == multiset(i.parents))
            && (!i.task.phase.Planned? ==> d.parents == [Parent(i.readied, Causal)])
  {
    hide ParentsOk, Scan, Canonical, Uuid.Valid, Digest.Valid, CandidatesOk, Eligible, EligibleOf, InputValid;
    assert Scan(Linked(i.parents), order, |order|).stop != Some(ReadyToAssign) by {
      ScanNeverReady(Linked(i.parents), order, |order|);
    }
  }

  /** READY_TO_ASSIGN on the fields: a fitting input, a free task, every dependency fulfilled on an
      aggregate and with evidence of its own, and a qualified candidate. */
  lemma ReadyOnFields(i: Input, order: seq<Dependency>)
    requires SortedOrder(i, order)
    ensures PlanWith(i, order).status.ReadyToAssign? <==>
            && Admitted(i) && Free(i) && (i.task.phase.Ready? ==> i.readied.Valid()) && i.decidedAt.Some?
            && (forall d :: d in i.dependencies ==> Fulfilled(d, i.parents))
            && Distinct(Keys(i.dependencies)) && Distinct(Map(EvidenceOf, i.dependencies))
               && CandidatesFit(i.candidates)
            && exists c :: c in i.candidates && Qualified(c, i.profile, i.decidedAt.value)
  {
    hide SortedOrder, PlanWith, Scans, Passes, Fulfilled, Keys, Map, Distinct, CandidatesOk, CandidatesFit, Qualified,
         Eligible, Linked, Admitted, Free;
    ReadyIff(i, order);
    ScansIff(i);
    CandidatesIff(i.candidates);
    forall d | d in i.dependencies ensures Passes(Linked(i.parents), d) <==> Fulfilled(d, i.parents) {
      PassesIffFulfilled(d, i.parents);
    }
    if i.decidedAt.Some? {
      forall c | c in i.candidates ensures Eligible(c, i.profile, i.decidedAt.value) <==>
          Qualified(c, i.profile, i.decidedAt.value) {
        EligibleIffQualified(c, i.profile, i.decidedAt.value);
      }
    }
  }
}
