/** PlanAssignment of kernel/assignment.go: which actor gets a task, and why the answer does
    not depend on the order in which candidates, dependencies and parents are listed.
 */
module Assignment {
  import opened Orders
  import opened Ids
  import opened Lifecycle

  datatype Route = Deterministic | BoundedExecution | ComplexReasoning | NovelReasoning | HumanRoute
      | OtherRoute(name: string) {
    predicate ModelExecutable() {
      BoundedExecution? || ComplexReasoning? || NovelReasoning?
    }

    function Rank(): int {
      match this
      case Deterministic => 0
      case BoundedExecution => 1
      case ComplexReasoning => 2
      case NovelReasoning => 3
      case HumanRoute => 4
      case OtherRoute(_) => -1
    }

    predicate Satisfies(required: Route) {
      Rank() >= 0 && required.Rank() >= 0 && Rank() >= required.Rank()
    }
  }

  datatype WorkKind =
    | Investigation | Design | Implementation | Debugging | Validation | SecurityReview | ReleaseWork
    | OtherWork(name: string)

  datatype QualificationStatus = Pass | NotPassed | OtherStatus(name: string)

  datatype Qualification = Qualification(
    id: Uuid, digest: Digest, corpus: Digest, model: Digest, route: Route, role: Text, kinds: seq<WorkKind>,
    status: QualificationStatus, observedAt: Option<int>, expiresAt: Option<int>, revokedAt: Option<int>,
    evidence: seq<Uuid>)
  {
    predicate Valid() {
      && id.Valid() && digest.Valid() && corpus.Valid() && model.Valid() && route.ModelExecutable()
         && 1 <= |role.value| <= 256
      && !status.OtherStatus? && observedAt.Some? && ValidUnique(evidence, 1, 64)
      && 1 <= |kinds| <= 7 && (forall k :: k in kinds ==> !k.OtherWork?) && Distinct(kinds)
      && (expiresAt.Some? ==> expiresAt.value > observedAt.value)
      && (revokedAt.Some? ==> revokedAt.value >= observedAt.value)
    }

    predicate EligibleAt(at: int) {
      && Valid() && status.Pass? && at >= observedAt.value
      && (revokedAt.Some? ==> at < revokedAt.value) && (expiresAt.Some? ==> at < expiresAt.value)
    }
  }

  datatype ConstraintOutcome = ConstraintPass | ConstraintFail | NotReported | OtherOutcome(name: string)

  datatype Constraint = Constraint(id: Text, outcome: ConstraintOutcome, evidence: seq<Uuid>) {
    predicate Valid() {
      1 <= |id.value| <= 256 && ValidUnique(evidence, 1, 64) && !outcome.OtherOutcome?
    }
  }

  datatype Cost = Cost(reported: bool, microunits: nat)

  datatype EvidenceRef = EvidenceRef(id: Uuid, sha: Digest)

  datatype Candidate = Candidate(
    actor: Actor, execution: Execution, active: nat, model: Digest, runtime: Digest, qualification: Qualification,
    constraints: seq<Constraint>, evidence: seq<EvidenceRef>, reasons: seq<Text>, cost: Cost)

  /** The parts of the bound work profile that the planner reads; sound stands for the rest of
      its own validity rule. */
  datatype Profile = Profile(sound: bool, task: Uuid, epoch: nat, scope: nat, id: Uuid, revision: nat, digest: Digest,
                             kind: WorkKind, route: Route)

  datatype Task = Task(aggregate: AggregateRef, revision: nat, epoch: nat, scope: nat, phase: Phase,
                       condition: Condition, owner: Option<Actor>)

  datatype Observed = Observed(aggregate: AggregateRef, revision: nat, epoch: nat, phase: Phase)

  datatype Dependency = Dependency(aggregate: AggregateRef, required: Phase, observed: Option<Observed>, evidence: Uuid)

  datatype Edge = Causal | Derivation | Response | Retry | Supersession | OtherEdge(name: string)

  datatype Parent = Parent(event: Uuid, edge: Edge)

  datatype Input = Input(
    task: Task, dependencies: seq<Dependency>, parents: seq<Parent>, readied: Uuid, readinessRevision: nat,
    profile: Profile, policyRevision: nat, policyDigest: Digest, decidedAt: Option<int>, candidates: seq<Candidate>)

  datatype Status = ReadyToAssign | BlockedDependency | NoEligibleActor | AlreadyOwned | NotRunnable | Invalid

  /** The selected candidate stands for the fields the decision copies from it. */
  datatype Decision = Decision(
    status: Status, bound: bool, needsReadiness: bool, readinessRevision: nat, dependencyEvents: seq<Uuid>,
    parents: seq<Parent>, selected: Option<Candidate>)

  // ------------------------------------------------------------------
  // Eligibility and the three orders.
  // ------------------------------------------------------------------

  function EvidenceId(e: EvidenceRef): Uuid {
    e.id
  }

  /** candidateEligible */
  predicate Eligible(c: Candidate, p: Profile, at: int) {
    && c.qualification.EligibleAt(at) && c.qualification.model == c.model && c.qualification.route.ModelExecutable()
    && c.qualification.route.Satisfies(p.route) && p.kind in c.qualification.kinds
    && 1 <= |c.evidence| <= 64 && (forall e :: e in c.evidence ==> e.id.Valid() && e.sha.Valid())
       && Distinct(Map(EvidenceId, c.evidence))
    && 1 <= |c.reasons| <= 64 && (forall r :: r in c.reasons ==> 1 <= |r.value| <= 4096) && Distinct(c.reasons)
    && 1 <= |c.constraints| <= 64 && (forall k :: k in c.constraints ==> k.Valid() && k.outcome.ConstraintPass?)
    && (c.cost.reported || c.cost.microunits == 0)
  }

  /** Reported cost first, then cost, then load, then actor name. */
  predicate Cheaper(a: Candidate, b: Candidate) {
    if a.cost.reported != b.cost.reported then a.cost.reported
    else if a.cost.reported && a.cost.microunits != b.cost.microunits then a.cost.microunits < b.cost.microunits
    else if a.active != b.active then a.active < b.active
    else Less(a.actor.fqn, b.actor.fqn)
  }

  function KindName(k: AggregateKind): string {
    match k
    case Story => "story"
    case Task => "task"
    case CompletionReview => "completion-review"
    case Escalation => "escalation"
    case ReleasePlan => "release-plan"
    case VariantGroup => "variant-group"
    case HumanParticipant => "human-participant"
    case HumanInteraction => "human-interaction"
    case Evidence => "evidence"
    case ExecutionAggregate => "execution"
    case System => "system"
    case WorkBudget => "work-budget-account"
    case WorkInvocation => "work-invocation"
    case WorkflowInstance => "workflow-instance"
    case OtherAggregate(name) => name
  }

  /** The aggregate as the source compares it: by kind name and id. */
  datatype Key = Key(kind: string, id: Uuid)

  function DependencyKey(d: Dependency): Key {
    Key(KindName(d.aggregate.kind), d.aggregate.id)
  }

  predicate EarlierKey(a: Key, b: Key) {
    if a.kind != b.kind then Less(a.kind, b.kind) else Less(a.id.text, b.id.text)
  }

  predicate EarlierDependency(a: Dependency, b: Dependency) {
    EarlierKey(DependencyKey(a), DependencyKey(b))
  }

  /** The valid edge names in alphabetical order. */
  function EdgeRank(e: Edge): nat {
    match e
    case Causal => 0
    case Derivation => 1
    case Response => 2
    case Retry => 3
    case Supersession => 4
    case OtherEdge(_) => 5
  }

  predicate EarlierParent(a: Parent, b: Parent) {
    if EdgeRank(a.edge) != EdgeRank(b.edge) then EdgeRank(a.edge) < EdgeRank(b.edge)
    else Less(a.event.text, b.event.text)
  }

  lemma CheaperWeakOrder()
    ensures StrictWeakOrder(Cheaper)
  {
    forall x, y | Cheaper(x, y) ensures !Cheaper(y, x) {
      LessAsymmetric(x.actor.fqn, y.actor.fqn);
    }
    forall x, y, z | !Cheaper(y, x) && !Cheaper(z, y) ensures !Cheaper(z, x) {
      if !Less(y.actor.fqn, x.actor.fqn) && !Less(z.actor.fqn, y.actor.fqn) {
        LessNegativelyTransitive(x.actor.fqn, y.actor.fqn, z.actor.fqn);
      }
    }
  }

  lemma KeyTotal(x: Key, y: Key)
    ensures EarlierKey(x, y) || EarlierKey(y, x) || x == y
  {
    LessTotal(x.kind, y.kind);
    LessTotal(x.id.text, y.id.text);
  }

  lemma EarlierKeyNegative(x: Key, y: Key, z: Key)
    requires !EarlierKey(y, x) && !EarlierKey(z, y)
    ensures !EarlierKey(z, x)
  {
    LessTotal(x.kind, y.kind);
    LessTotal(y.kind, z.kind);
    LessAsymmetric(x.kind, z.kind);
    if Less(x.kind, y.kind) && Less(y.kind, z.kind) {
      LessTransitive(x.kind, y.kind, z.kind);
    }
    if !Less(y.id.text, x.id.text) && !Less(z.id.text, y.id.text) {
      LessNegativelyTransitive(x.id.text, y.id.text, z.id.text);
    }
  }

  lemma DependencyWeakOrder()
    ensures StrictWeakOrder(EarlierDependency)
  {
    forall x, y | EarlierDependency(x, y) ensures !EarlierDependency(y, x) {
      var a, b := DependencyKey(x), DependencyKey(y);
      LessAsymmetric(a.kind, b.kind);
      LessAsymmetric(a.id.text, b.id.text);
    }
    forall x, y, z | !EarlierDependency(y, x) && !EarlierDependency(z, y) ensures !EarlierDependency(z, x) {
      EarlierKeyNegative(DependencyKey(x), DependencyKey(y), DependencyKey(z));
    }
  }

  lemma ParentWeakOrder()
    ensures StrictWeakOrder(EarlierParent)
  {
    forall x, y | EarlierParent(x, y) ensures !EarlierParent(y, x) {
      LessAsymmetric(x.event.text, y.event.text);
    }
    forall x, y, z | !EarlierParent(y, x) && !EarlierParent(z, y) ensures !EarlierParent(z, x) {
      if !Less(y.event.text, x.event.text) && !Less(z.event.text, y.event.text) {
        LessNegativelyTransitive(x.event.text, y.event.text, z.event.text);
      }
    }
  }

  function ActorOf(c: Candidate): Actor {
    c.actor
  }

  /** Candidates with distinct actors never tie. */
  lemma CandidatesNoTies(s: seq<Candidate>)
    requires Distinct(Map(ActorOf, s))
    ensures NoTies(Cheaper, s)
  {
    forall x, y | x in s && y in s && !Cheaper(x, y) && !Cheaper(y, x) ensures x == y {
      LessTotal(x.actor.fqn, y.actor.fqn);
      DistinctImage(ActorOf, s, x, y);
    }
  }

  lemma DependenciesNoTies(s: seq<Dependency>)
    requires Distinct(Map(DependencyKey, s))
    ensures NoTies(EarlierDependency, s)
  {
    forall x, y | x in s && y in s && !EarlierDependency(x, y) && !EarlierDependency(y, x) ensures x == y {
      KeyTotal(DependencyKey(x), DependencyKey(y));
      DistinctImage(DependencyKey, s, x, y);
    }
  }

  lemma ParentsNoTies(s: seq<Parent>)
    requires forall p :: p in s ==> !p.edge.OtherEdge?
    ensures NoTies(EarlierParent, s)
  {
    forall x, y | x in s && y in s && !EarlierParent(x, y) && !EarlierParent(y, x) ensures x == y {
      LessTotal(x.event.text, y.event.text);
    }
  }

  // ------------------------------------------------------------------
  // The decision.
  // ------------------------------------------------------------------

  predicate InputValid(i: Input) {
    && i.task.aggregate.kind.Task? && i.task.aggregate.id.Valid() && i.task.revision > 0 && i.task.epoch > 0
       && i.task.scope > 0
    && i.readinessRevision > 0 && i.policyRevision > 0 && i.policyDigest.Valid() && i.decidedAt.Some?
    && i.profile.sound && i.profile.task == i.task.aggregate.id && i.profile.epoch == i.task.epoch
       && i.profile.scope == i.task.scope
    && i.profile.route.ModelExecutable() && |i.dependencies| <= 64 && 1 <= |i.parents| <= 64 && |i.candidates| <= 64
  }

  predicate ParentsOk(ps: seq<Parent>) {
    (forall p :: p in ps ==> p.event.Valid() && !p.edge.OtherEdge?) && Distinct(ps)
  }

  predicate DependencyWellFormed(d: Dependency) {
    d.aggregate.Valid() && (d.required.Completed? || d.required.Accepted? || d.required.Closed?) && d.evidence.Valid()
  }

  predicate DependencySatisfied(d: Dependency) {
    && d.observed.Some? && d.observed.value.aggregate == d.aggregate && d.observed.value.revision > 0
    && d.observed.value.epoch > 0 && d.observed.value.phase == d.required
  }

  function Linked(ps: seq<Parent>): set<Uuid> {
    set p | p in ps :: p.event
  }

  datatype Scanned = Scanned(stop: Option<Status>, events: seq<Uuid>)

  /** The dependency loop over the first n dependencies. */
  function Scan(linked: set<Uuid>, ds: seq<Dependency>, n: nat): Scanned
    requires n <= |ds|
  {
    if n == 0 then Scanned(None, [])
    else
      var before := Scan(linked, ds, n - 1);
      if before.stop.Some? then before
      else
        var d := ds[n - 1];
        if !DependencyWellFormed(d) || (n > 1 && DependencyKey(ds[n - 2]) == DependencyKey(d))
        then before.(stop := Some(Invalid))
        else
          var events := before.events + [d.evidence];
          if d.evidence !in linked then Scanned(Some(Invalid), events)
          else if !DependencySatisfied(d) then Scanned(Some(BlockedDependency), events)
          else Scanned(None, events)
  }

  predicate CandidateWellFormed(c: Candidate) {
    c.actor.Valid() && c.execution.Valid() && c.model.Valid() && c.runtime.Valid()
  }

  predicate CandidatesOk(cs: seq<Candidate>) {
    (forall c :: c in cs ==> CandidateWellFormed(c)) && Distinct(Map(ActorOf, cs))
  }

  function EligibleOf(cs: seq<Candidate>, p: Profile, at: int): seq<Candidate> {
    if |cs| == 0 then []
    else
      var c := cs[|cs| - 1];
      EligibleOf(cs[..|cs| - 1], p, at) + (if Eligible(c, p, at) then [c] else [])
  }

  /** The decision when the sort leaves the dependencies in the given order. */
  ghost function PlanWith(i: Input, order: seq<Dependency>): Decision {
    var invalid := Decision(Invalid, false, false, 0, [], [], None);
    if !InputValid(i) then invalid
    else if !ParentsOk(i.parents) then invalid.(bound := true)
    else
      var d := invalid.(bound := true, parents := InsertionSort(EarlierParent, i.parents),
                        readinessRevision := i.readinessRevision);
      if i.task.owner.Some? then d.(status := AlreadyOwned)
      else if !i.task.condition.Runnable? || (!i.task.phase.Planned? && !i.task.phase.Ready?)
      then d.(status := NotRunnable)
      else if i.task.phase.Ready? && !i.readied.Valid() then d
      else
        var scan := Scan(Linked(i.parents), order, |order|);
        if scan.stop.Some? then d.(status := scan.stop.value, dependencyEvents := scan.events)
        else Select(i, d.(dependencyEvents := Canonical(scan.events)))
  }

  /** The last part of the decision, once the dependencies are satisfied. */
  ghost function Select(i: Input, d: Decision): Decision
    requires i.decidedAt.Some?
  {
    if !Distinct(d.dependencyEvents) || !CandidatesOk(i.candidates) then d
    else
      var eligible := EligibleOf(i.candidates, i.profile, i.decidedAt.value);
      if |eligible| == 0 then d.(status := NoEligibleActor)
      else
        d.(status := ReadyToAssign, selected := Some(InsertionSort(Cheaper, eligible)[0]),
           needsReadiness := i.task.phase.Planned?,
           parents := if i.task.phase.Planned? then d.parents else [Parent(i.readied, Causal)])
  }

  ghost function Plan(i: Input): Decision {
    PlanWith(i, InsertionSort(EarlierDependency, i.dependencies))
  }

  // ------------------------------------------------------------------
  // The planner.
  // ------------------------------------------------------------------

  method CheckParents(ps: seq<Parent>) returns (ok: bool)
    ensures ok <==> forall p :: p in ps ==> p.event.Valid() && !p.edge.OtherEdge?
  {
    for n := 0 to |ps|
      invariant forall k :: 0 <= k < n ==> ps[k].event.Valid() && !ps[k].edge.OtherEdge?
    {
      if !ps[n].event.Valid() || ps[n].edge.OtherEdge? {
        assert ps[n] in ps;
        return false;
      }
    }
    ok := true;
  }

  /** canonicalAssignmentParents */
  method CanonicalParents(ps: seq<Parent>) returns (sorted: Option<seq<Parent>>)
    ensures sorted.Some? <==> ParentsOk(ps)
    ensures sorted.Some? ==> sorted.value == InsertionSort(EarlierParent, ps)
  {
    hide Uuid.Valid, InsertionSort;
    var ok := CheckParents(ps);
    if !ok {
      return None;
    }
    ParentWeakOrder();
    ParentsNoTies(ps);
    hide StrictWeakOrder, NoTies, Sorted;
    var s := SortSlice(ps, EarlierParent);
    SortIsInsertionSort(EarlierParent, ps, s);
    SameElements(ps, s);
    ParentsNoTies(s);
    DistinctPermutation(ps, s);
    var repeated := Repeats(EarlierParent, s);
    return if repeated then None else Some(s);
  }

  method ScanDependencies(linked: set<Uuid>, ds: seq<Dependency>) returns (scan: Scanned)
    ensures scan == Scan(linked, ds, |ds|)
  {
    var events := [];
    for n := 0 to |ds|
      invariant Scan(linked, ds, n) == Scanned(None, events)
    {
      var d := ds[n];
      if !DependencyWellFormed(d) || (n > 0 && DependencyKey(ds[n - 1]) == DependencyKey(d)) {
        StoppedStays(linked, ds, n + 1);
        return Scanned(Some(Invalid), events);
      }
      events := events + [d.evidence];
      if d.evidence !in linked {
        StoppedStays(linked, ds, n + 1);
        return Scanned(Some(Invalid), events);
      }
      if !DependencySatisfied(d) {
        StoppedStays(linked, ds, n + 1);
        return Scanned(Some(BlockedDependency), events);
      }
    }
    scan := Scanned(None, events);
  }

  lemma {:induction false} StoppedStays(linked: set<Uuid>, ds: seq<Dependency>, n: nat)
    requires n <= |ds| && Scan(linked, ds, n).stop.Some?
    ensures Scan(linked, ds, |ds|) == Scan(linked, ds, n)
    decreases |ds| - n
  {
    hide DependencyWellFormed, DependencySatisfied, DependencyKey;
    if n == |ds| {
    } else {
      assert Scan(linked, ds, n + 1) == Scan(linked, ds, n);
      StoppedStays(linked, ds, n + 1);
    }
  }

  method CollectEligible(cs: seq<Candidate>, p: Profile, at: int) returns (eligible: Option<seq<Candidate>>)
    ensures eligible.Some? <==> CandidatesOk(cs)
    ensures eligible.Some? ==> eligible.value == EligibleOf(cs, p, at)
  {
    hide CandidateWellFormed, Eligible, Distinct, Map;
    var found, seen := [], {};
    assert Distinct(Map(ActorOf, cs[..0])) by { NoneDistinct(ActorOf); }
    for n := 0 to |cs|
      invariant seen == set a | a in Map(ActorOf, cs[..n])
      invariant forall k :: 0 <= k < n ==> CandidateWellFormed(cs[k])
      invariant Distinct(Map(ActorOf, cs[..n]))
      invariant found == EligibleOf(cs[..n], p, at)
    {
      var c := cs[n];
      assert c in cs;
      if !CandidateWellFormed(c) {
        return None;
      }
      assert cs[..n + 1][..n] == cs[..n] && cs[..n + 1] == cs[..n] + [c];
      AppendDistinct(ActorOf, cs[..n], c);
      if c.actor in seen {
        if Distinct(Map(ActorOf, cs)) {
          PrefixDistinct(ActorOf, cs, n + 1);
        }
        return None;
      }
      seen := seen + {c.actor};
      if Eligible(c, p, at) {
        found := found + [c];
      }
    }
    assert cs[..|cs|] == cs;
    eligible := Some(found);
  }

  lemma {:induction false} EligibleInside(cs: seq<Candidate>, p: Profile, at: int)
    ensures forall c :: c in EligibleOf(cs, p, at) <==> c in cs && Eligible(c, p, at)
    ensures Distinct(Map(ActorOf, cs)) ==> Distinct(Map(ActorOf, EligibleOf(cs, p, at)))
  {
    hide Eligible;
    if |cs| == 0 {
    } else {
      var n := |cs| - 1;
      EligibleInside(cs[..n], p, at);
      assert cs == cs[..n] + [cs[n]];
      if Distinct(Map(ActorOf, cs)) {
        PrefixDistinct(ActorOf, cs, n);
        AppendDistinct(ActorOf, cs[..n], cs[n]);
        var before := EligibleOf(cs[..n], p, at);
        AppendDistinct(ActorOf, before, cs[n]);
        forall x | x in before ensures x.actor != cs[n].actor {
          MapIn(ActorOf, cs[..n], x);
        }
      }
    }
  }

  /** The last part of PlanAssignment: duplicate evidence, eligibility, selection. */
  method SelectCandidate(i: Input, d: Decision) returns (decision: Decision)
    requires i.decidedAt.Some?
    ensures decision == Select(i, d.(dependencyEvents := Canonical(d.dependencyEvents)))
  {
    BeforeWeakOrder();
    var events := SortSlice(d.dependencyEvents, Before);
    SortedIsCanonical(d.dependencyEvents, events);
    decision := d.(dependencyEvents := events);
    BeforeNoTies(events);
    var repeated := Repeats(Before, events);
    if repeated {
      return;
    }
    var eligible := CollectEligible(i.candidates, i.profile, i.decidedAt.value);
    if eligible.None? {
      return;
    }
    if |eligible.value| == 0 {
      decision := decision.(status := NoEligibleActor);
      return;
    }
    EligibleInside(i.candidates, i.profile, i.decidedAt.value);
    CandidatesNoTies(eligible.value);
    CheaperWeakOrder();
    var ranked := SortSlice(eligible.value, Cheaper);
    SortIsInsertionSort(Cheaper, eligible.value, ranked);
    decision := decision.(status := ReadyToAssign, selected := Some(ranked[0]),
                          needsReadiness := i.task.phase.Planned?);
    if !decision.needsReadiness {
      decision := decision.(parents := [Parent(i.readied, Causal)]);
    }
  }

  method PlanAssignment(i: Input) returns (decision: Decision)
    ensures exists order :: SortedOrder(i, order) && decision == PlanWith(i, order)
  {
    DependencyWeakOrder();
    var dependencies := SortSlice(i.dependencies, EarlierDependency);
    assert SortedOrder(i, dependencies);
    decision := PlanOrdered(i, dependencies);
  }

  /** An order a sort may leave the dependencies in. */
  ghost predicate SortedOrder(i: Input, order: seq<Dependency>) {
    multiset(order) == multiset(i.dependencies) && Sorted(EarlierDependency, order)
  }

  /** Everything after the sort. */
  method PlanOrdered(i: Input, dependencies: seq<Dependency>) returns (decision: Decision)
    ensures decision == PlanWith(i, dependencies)
  {
    hide StrictWeakOrder, Sorted, Canonical, InsertionSort, Scan, Select;
    decision := Decision(Invalid, false, false, 0, [], [], None);
    if !InputValid(i) {
      return;
    }
    decision := decision.(bound := true);
    var parents := CanonicalParents(i.parents);
    if parents.None? {
      return;
    }
    decision := decision.(parents := parents.value, readinessRevision := i.readinessRevision);
    if i.task.owner.Some? {
      decision := decision.(status := AlreadyOwned);
      return;
    }
    if !i.task.condition.Runnable? || (!i.task.phase.Planned? && !i.task.phase.Ready?) {
      decision := decision.(status := NotRunnable);
      return;
    }
    if i.task.phase.Ready? && !i.readied.Valid() {
      return;
    }
    var scan := ScanDependencies(Linked(i.parents), dependencies);
    decision := decision.(dependencyEvents := scan.events);
    if scan.stop.Some? {
      decision := decision.(status := scan.stop.value);
      return;
    }
    decision := SelectCandidate(i, decision);
  }

  // ------------------------------------------------------------------
  // What the decision guarantees.
  // ------------------------------------------------------------------

  /** Sorting is deterministic when the dependencies name distinct aggregates. */
  lemma OrderDetermined(i: Input, order: seq<Dependency>)
    requires SortedOrder(i, order)
    requires Distinct(Map(DependencyKey, i.dependencies))
    ensures PlanWith(i, order) == Plan(i)
  {
    hide PlanWith, InsertionSort;
    DependencyWeakOrder();
    DependenciesNoTies(i.dependencies);
    SortIsInsertionSort(EarlierDependency, i.dependencies, order);
  }

  lemma {:induction false} EligiblePermutation(a: seq<Candidate>, b: seq<Candidate>, p: Profile, at: int)
    requires multiset(a) == multiset(b)
    ensures multiset(EligibleOf(a, p, at)) == multiset(EligibleOf(b, p, at))
  {
    hide Eligible;
    forall c ensures multiset(EligibleOf(a, p, at))[c] == multiset(EligibleOf(b, p, at))[c] {
      EligibleCount(a, p, at, c);
      EligibleCount(b, p, at, c);
    }
  }

  lemma {:induction false} EligibleCount(cs: seq<Candidate>, p: Profile, at: int, c: Candidate)
    ensures multiset(EligibleOf(cs, p, at))[c] == if Eligible(c, p, at) then multiset(cs)[c] else 0
  {
    hide Eligible;
    if |cs| == 0 {
    } else {
      var n := |cs| - 1;
      EligibleCount(cs[..n], p, at, c);
      assert cs == cs[..n] + [cs[n]];
    }
  }

  lemma SelectionPermutation(i: Input, j: Input, d: Decision)
    requires i.decidedAt.Some?
             && j == i.(dependencies := j.dependencies, parents := j.parents, candidates := j.candidates)
    requires multiset(i.candidates) == multiset(j.candidates)
    ensures Select(i, d) == Select(j, d)
  {
    hide Eligible, CandidateWellFormed, InsertionSort, StrictWeakOrder, NoTies;
    SameElements(i.candidates, j.candidates);
    MapPermutation(ActorOf, i.candidates, j.candidates);
    DistinctPermutation(Map(ActorOf, i.candidates), Map(ActorOf, j.candidates));
    var a, b := EligibleOf(i.candidates, i.profile, i.decidedAt.value),
        EligibleOf(j.candidates, i.profile, i.decidedAt.value);
    EligiblePermutation(i.candidates, j.candidates, i.profile, i.decidedAt.value);
    SameSize(a, b);
    if CandidatesOk(i.candidates) {
      EligibleInside(i.candidates, i.profile, i.decidedAt.value);
      CandidatesNoTies(a);
      CheaperWeakOrder();
      SortPermutation(Cheaper, a, b);
    }
  }

  /** The decision does not depend on the order of candidates, of parents, or of dependencies
      that name distinct aggregates. */
  lemma PlanPermutation(i: Input, j: Input)
    requires j == i.(dependencies := j.dependencies, parents := j.parents, candidates := j.candidates)
    requires multiset(i.dependencies) == multiset(j.dependencies) && Distinct(Map(DependencyKey, i.dependencies))
    requires multiset(i.parents) == multiset(j.parents) && multiset(i.candidates) == multiset(j.candidates)
    ensures Plan(i) == Plan(j)
  {
    hide Scan, Select, InsertionSort, StrictWeakOrder, NoTies, Canonical, Uuid.Valid, Digest.Valid;
    SameSize(i.dependencies, j.dependencies);
    SameSize(i.parents, j.parents);
    SameSize(i.candidates, j.candidates);
    assert InputValid(i) <==> InputValid(j);
    SameParents(i.parents, j.parents);
    SameDependencies(i.dependencies, j.dependencies);
    if i.decidedAt.Some? {
      forall d ensures Select(i, d) == Select(j, d) {
        SelectionPermutation(i, j, d);
      }
    }
  }

  lemma SameParents(a: seq<Parent>, b: seq<Parent>)
    requires multiset(a) == multiset(b)
    ensures ParentsOk(a) <==> ParentsOk(b)
    ensures Linked(a) == Linked(b)
    ensures ParentsOk(a) ==> InsertionSort(EarlierParent, a) == InsertionSort(EarlierParent, b)
  {
    hide Uuid.Valid, InsertionSort, StrictWeakOrder, NoTies;
    SameElements(a, b);
    DistinctPermutation(a, b);
    if ParentsOk(a) {
      ParentWeakOrder();
      ParentsNoTies(a);
      SortPermutation(EarlierParent, a, b);
    }
  }

  lemma SameDependencies(a: seq<Dependency>, b: seq<Dependency>)
    requires multiset(a) == multiset(b) && Distinct(Map(DependencyKey, a))
    ensures InsertionSort(EarlierDependency, a) == InsertionSort(EarlierDependency, b)
  {
    DependencyWeakOrder();
    DependenciesNoTies(a);
    hide EarlierDependency, StrictWeakOrder, NoTies, InsertionSort;
    SortPermutation(EarlierDependency, a, b);
  }

  lemma {:induction false} ScanPassed(linked: set<Uuid>, ds: seq<Dependency>, n: nat)
    requires n <= |ds| && Scan(linked, ds, n).stop.None?
    ensures forall k :: 0 <= k < n ==>
              DependencyWellFormed(ds[k]) && DependencySatisfied(ds[k]) && ds[k].evidence in linked
    ensures forall k :: 0 < k < n ==> DependencyKey(ds[k - 1]) != DependencyKey(ds[k])
    ensures |Scan(linked, ds, n).events| == n && forall k :: 0 <= k < n ==>
              Scan(linked, ds, n).events[k] == ds[k].evidence
  {
    hide DependencyWellFormed, DependencySatisfied, DependencyKey;
    if n == 0 {
    } else {
      ScanPassed(linked, ds, n - 1);
    }
  }

  lemma KeyWeakOrder()
    ensures StrictWeakOrder(EarlierKey)
  {
    forall x, y | EarlierKey(x, y) ensures !EarlierKey(y, x) {
      LessAsymmetric(x.kind, y.kind);
      LessAsymmetric(x.id.text, y.id.text);
    }
    forall x, y, z | !EarlierKey(y, x) && !EarlierKey(z, y) ensures !EarlierKey(z, x) {
      EarlierKeyNegative(x, y, z);
    }
  }

  lemma KeysSorted(ds: seq<Dependency>)
    requires Sorted(EarlierDependency, ds)
    ensures Sorted(EarlierKey, Map(DependencyKey, ds)) && NoTies(EarlierKey, Map(DependencyKey, ds))
  {
    var keys := Map(DependencyKey, ds);
    forall x, y | x in keys && y in keys && !EarlierKey(x, y) && !EarlierKey(y, x) ensures x == y {
      KeyTotal(x, y);
    }
    hide EarlierKey;
    forall p, q | 0 <= p < q < |keys| ensures !EarlierKey(keys[q], keys[p]) {
      assert !EarlierDependency(ds[q], ds[p]);
    }
  }

  lemma SortedKeysDistinct(ds: seq<Dependency>)
    requires Sorted(EarlierDependency, ds)
    requires forall k :: 0 < k < |ds| ==> DependencyKey(ds[k - 1]) != DependencyKey(ds[k])
    ensures Distinct(Map(DependencyKey, ds))
  {
    var keys := Map(DependencyKey, ds);
    KeyWeakOrder();
    KeysSorted(ds);
    forall k | 0 < k < |keys| ensures keys[k - 1] != keys[k] {
      assert DependencyKey(ds[k - 1]) != DependencyKey(ds[k]);
    }
    hide EarlierKey, StrictWeakOrder, NoTies, Sorted;
    AdjacentDistinct(EarlierKey, keys);
  }

  ghost predicate BestEligible(i: Input, c: Candidate) {
    && i.decidedAt.Some? && c in i.candidates && Eligible(c, i.profile, i.decidedAt.value)
    && forall o :: o in i.candidates && Eligible(o, i.profile, i.decidedAt.value) && o != c ==> Cheaper(c, o)
  }

  lemma SelectReady(i: Input, d: Decision)
    requires i.decidedAt.Some? && !d.status.ReadyToAssign? && Select(i, d).status.ReadyToAssign?
    ensures Select(i, d).selected.Some? && BestEligible(i, Select(i, d).selected.value)
    ensures Distinct(d.dependencyEvents) && CandidatesOk(i.candidates)
  {
    hide Eligible, CandidateWellFormed;
    var eligible := EligibleOf(i.candidates, i.profile, i.decidedAt.value);
    EligibleInside(i.candidates, i.profile, i.decidedAt.value);
    var ranked := InsertionSort(Cheaper, eligible);
    SameElements(eligible, ranked);
    CheaperWeakOrder();
    CandidatesNoTies(eligible);
    assert Sorted(Cheaper, ranked) by { hide Cheaper, NoTies; InsertionSorted(Cheaper, eligible); }
    hide InsertionSort, StrictWeakOrder, CandidatesOk, Select;
    var c := ranked[0];
    assert c in ranked;
    forall o | o in eligible && o != c ensures Cheaper(c, o) {
      assert o in ranked;
      var k :| 0 <= k < |ranked| && ranked[k] == o;
      assert !Cheaper(ranked[k], ranked[0]);
    }
  }

  /** READY_TO_ASSIGN: the task is free and runnable, every dependency is satisfied and backed
      by its own parent event, and the actor chosen is the one minimum of the eligible ones. */
  lemma ReadyMeans(i: Input, order: seq<Dependency>)
    requires SortedOrder(i, order)
    requires PlanWith(i, order).status.ReadyToAssign?
    ensures var d := PlanWith(i, order);
            && d == Plan(i)
            && i.task.owner.None? && i.task.condition.Runnable? && (i.task.phase.Planned? || i.task.phase.Ready?)
            && d.selected.Some? && BestEligible(i, d.selected.value) && CandidatesOk(i.candidates)
            && Distinct(Map(DependencyKey, i.dependencies))
            && (forall x :: x in i.dependencies ==>
                  DependencyWellFormed(x) && DependencySatisfied(x) && x.evidence in Linked(i.parents))
            && multiset(d.dependencyEvents) == multiset(Map(EvidenceOf, i.dependencies)) && Distinct(d.dependencyEvents)
  {
    hide Eligible, CandidatesOk, InsertionSort, BestEligible, DependencyWellFormed, DependencySatisfied,
      EarlierDependency, Uuid.Valid, Digest.Valid, Canonical, Scan, Select;
    var d := PlanWith(i, order);
    var scan := Scan(Linked(i.parents), order, |order|);
    assert scan.stop.None? by { ScanNeverReady(Linked(i.parents), order, |order|); }
    ScanPassed(Linked(i.parents), order, |order|);
    SortedKeysDistinct(order);
    MapPermutation(DependencyKey, order, i.dependencies);
    DistinctPermutation(Map(DependencyKey, order), Map(DependencyKey, i.dependencies));
    SameElements(order, i.dependencies);
    OrderDetermined(i, order);
    ReadyEvents(i, order);
    forall x | x in i.dependencies
      ensures DependencyWellFormed(x) && DependencySatisfied(x) && x.evidence in Linked(i.parents)
    {
      assert x in order;
    }
  }

  function EvidenceOf(d: Dependency): Uuid {
    d.evidence
  }

  lemma {:induction false} ScanNeverReady(linked: set<Uuid>, ds: seq<Dependency>, n: nat)
    requires n <= |ds|
    ensures Scan(linked, ds, n).stop != Some(ReadyToAssign)
  {
    if n == 0 {
    } else {
      ScanNeverReady(linked, ds, n - 1);
    }
  }

  lemma ReadyEvents(i: Input, order: seq<Dependency>)
    requires multiset(order) == multiset(i.dependencies) && PlanWith(i, order).status.ReadyToAssign?
    requires Scan(Linked(i.parents), order, |order|).stop.None?
    ensures var d := PlanWith(i, order);
            && d.selected.Some? && BestEligible(i, d.selected.value) && CandidatesOk(i.candidates)
            && multiset(d.dependencyEvents) == multiset(Map(EvidenceOf, i.dependencies)) && Distinct(d.dependencyEvents)
  {
    hide InputValid, PlanWith, Eligible, CandidatesOk, BestEligible;
    var scan := Scan(Linked(i.parents), order, |order|);
    ScanPassed(Linked(i.parents), order, |order|);
    assert scan.events == Map(EvidenceOf, order);
    MapPermutation(EvidenceOf, order, i.dependencies);
    hide Scan, Map, Canonical;
    var d := PlanSelects(i, order);
    SelectReady(i, d);
    SelectKeepsEvents(i, d);
  }

  /** A decision that passes the dependency loop ends with the selection. */
  lemma PlanSelects(i: Input, order: seq<Dependency>) returns (d: Decision)
    requires PlanWith(i, order).status.ReadyToAssign? && Scan(Linked(i.parents), order, |order|).stop.None?
    ensures i.decidedAt.Some? && d.status.Invalid? && PlanWith(i, order) == Select(i, d)
    ensures d.dependencyEvents == Canonical(Scan(Linked(i.parents), order, |order|).events)
  {
    hide ParentsOk, Scan, Select, Canonical, InsertionSort, Uuid.Valid, Digest.Valid;
    var invalid := Decision(Invalid, false, false, 0, [], [], None);
    d := invalid.(bound := true, parents := InsertionSort(EarlierParent, i.parents),
                  readinessRevision := i.readinessRevision,
                  dependencyEvents := Canonical(Scan(Linked(i.parents), order, |order|).events));
  }

  lemma SelectKeepsEvents(i: Input, d: Decision)
    requires i.decidedAt.Some?
    ensures Select(i, d).dependencyEvents == d.dependencyEvents
  {
    hide CandidatesOk, Eligible, InsertionSort;
  }
}
