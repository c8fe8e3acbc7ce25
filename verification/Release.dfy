/** Release plans: the durable plan of kernel/release.go, what every reachable CODE plan
    satisfies, and its refinement of the abstract model EvaluateRelease.
 */
module Release {
  import opened Orders
  import opened Ids

  datatype State =
    | Absent | Planned | Qualified | Executing | Reconciling | ReadyForAcceptance | Failed | Blocked | NotRequired

  datatype Mode = Code | NoRelease | OtherMode(name: string)

  datatype Outcome = Merged | AlreadyMerged | FailedOutcome | Unknown | OtherOutcome(name: string)

  predicate Success(o: Outcome) {
    o.Merged? || o.AlreadyMerged?
  }

  // ------------------------------------------------------------------
  // The abstract model.
  // ------------------------------------------------------------------

  datatype Abstract = Abstract(
    state: State, mode: Mode, author: Principal, approval: Uuid, planDigest: Digest, base: Text, heads: seq<Text>,
    mergeOrder: seq<Uuid>, nextMergeIndex: nat, roundLimit: nat, nextRound: nat, activeRound: nat,
    activeAttempt: Option<Uuid>, unresolvedAttempt: Option<Uuid>, latestResult: Option<Uuid>, qualifiedTree: Text)

  datatype Transition =
    | Create(author: Principal, approval: Uuid)
    | Qualify(base: Text, heads: seq<Text>)
    | RequestExecution(merge: Uuid, round: nat)
    | RecordResult(attempt: Uuid, outcome: Outcome)
    | Reconcile(attempt: Uuid, supersedes: Uuid, outcome: Outcome)
    | Finalize(terminal: State, providerTree: Text)
    | OtherAction

  /** EvaluateRelease: the next state, or None for a rejection. planDigest None is the empty digest. */
  function EvaluateRelease(c: Abstract, planDigest: Option<Digest>, t: Transition): Option<State> {
    if c.state in {ReadyForAcceptance, Failed, Blocked, NotRequired} then None
    else if planDigest.Some? && planDigest.value != c.planDigest then None
    else match t
      case Create(author, approval) =>
        if c.state.Absent? && author == c.author && approval == c.approval then Some(Planned) else None
      case Qualify(base, heads) =>
        if c.mode.Code? && c.state.Planned? && base == c.base && heads == c.heads then Some(Qualified) else None
      case RequestExecution(merge, round) =>
        if !c.state.Qualified? then None
        else if c.nextMergeIndex >= |c.mergeOrder| || c.mergeOrder[c.nextMergeIndex] != merge then None
        else if c.nextRound > c.roundLimit || round > c.roundLimit || round != c.nextRound then None
        else Some(Executing)
      case RecordResult(attempt, outcome) =>
        if c.state.Executing? && c.activeAttempt == Some(attempt) then OutcomeState(c, outcome) else None
      case Reconcile(attempt, supersedes, outcome) =>
        if c.state.Reconciling? && c.unresolvedAttempt == Some(attempt) && c.latestResult == Some(supersedes)
        then OutcomeState(c, outcome) else None
      case Finalize(terminal, providerTree) =>
        if c.mode.NoRelease? then
          if c.state.Planned? && terminal.NotRequired? then Some(NotRequired) else None
        else if c.state.Qualified? && c.nextMergeIndex == |c.mergeOrder| && providerTree == c.qualifiedTree
        then Some(terminal) else None
      case OtherAction => None
  }

  function OutcomeState(c: Abstract, outcome: Outcome): Option<State> {
    match outcome
    case Unknown => Some(Reconciling)
    case Merged => Some(Qualified)
    case AlreadyMerged => Some(Qualified)
    case FailedOutcome => Some(if c.activeRound >= c.roundLimit then Failed else Qualified)
    case OtherOutcome(_) => None
  }

  // ------------------------------------------------------------------
  // The durable plan.
  // ------------------------------------------------------------------

  datatype Merge = Merge(id: Uuid, changeRef: Text, head: Text, role: Text)

  /** What the creation command fixes for good. */
  datatype Terms = Terms(
    id: Uuid, opening: Uuid, mode: Mode, story: AggregateRef, storyEpoch: nat, storyRevision: nat,
    author: Principal, approval: Uuid, approvalRevision: nat, policyRevision: nat, planDigest: Digest,
    evidence: seq<Uuid>, repository: Text, baseRef: Text, base: Text, merges: seq<Merge>, strategy: Text,
    conflictPolicy: Text, manifest: Text, manifestDigest: Digest, profiles: seq<Text>, expectedTree: Text,
    roundLimit: nat, noReleaseReason: Text)

  datatype Qualification = Qualification(
    event: Uuid, id: Uuid, base: Text, heads: seq<Text>, tree: Text, gate: Digest, toolchain: Digest, lock: Digest,
    artifacts: seq<Digest>)

  datatype Attempt = Attempt(merge: Uuid, id: Uuid, round: nat, key: Text, request: Uuid)

  datatype Result = Result(merge: Uuid, attempt: Uuid, outcome: Outcome, event: Uuid, tree: Text,
                           reconciled: Option<Uuid>)

  datatype Plan = Plan(
    terms: Terms, revision: nat, state: State, qualification: Option<Qualification>, next: nat, round: nat,
    active: Option<Attempt>, results: map<Uuid, Result>, finalization: Option<Uuid>, providerTree: Text)

  const STRATEGY := Text("FF_ONLY_ORDERED")
  const CONFLICTS := Text("FAIL_NO_IMPROVISATION")
  const CONTRACT := Text("tekroo.kernel.contracts/0.12.0")

  function Heads(merges: seq<Merge>): seq<Text> {
    seq(|merges|, i requires 0 <= i < |merges| => merges[i].head)
  }

  function MergeIds(merges: seq<Merge>): seq<Uuid> {
    seq(|merges|, i requires 0 <= i < |merges| => merges[i].id)
  }

  predicate TermsValid(t: Terms) {
    && t.id.Valid() && t.opening.Valid() && t.story.kind.Story? && t.story.Valid() && t.storyEpoch > 0
    && t.storyRevision > 0 && t.author.Valid() && t.approval.Valid() && t.approvalRevision > 0
    && t.policyRevision > 0 && t.planDigest.Valid() && |t.evidence| > 0
    && (forall e :: e in t.evidence ==> e.Valid()) && Distinct(t.evidence)
    && match t.mode
       case OtherMode(_) => false
       case NoRelease => !t.noReleaseReason.Empty() && |t.merges| == 0
       case Code =>
         && !t.repository.Empty() && !t.baseRef.Empty() && !t.base.Empty() && |t.merges| > 0
         && t.strategy == STRATEGY && t.conflictPolicy == CONFLICTS && t.manifest == CONTRACT
         && t.manifestDigest.Valid() && !t.expectedTree.Empty() && 0 < t.roundLimit <= 1000
         && (forall m :: m in t.merges ==> m.id.Valid() && !m.changeRef.Empty() && !m.head.Empty() && !m.role.Empty())
         && Distinct(MergeIds(t.merges))
  }

  predicate ResultValid(key: Uuid, r: Result) {
    && key == r.merge && r.merge.Valid() && r.attempt.Valid() && r.event.Valid()
    && !r.outcome.OtherOutcome?
    && (r.reconciled.Some? ==> r.reconciled.value.Valid())
  }

  predicate QualificationValid(t: Terms, q: Qualification) {
    q.event.Valid() && q.id.Valid() && q.base == t.base && q.heads == Heads(t.merges) && q.tree == t.expectedTree
  }

  predicate AttemptValid(a: Attempt) {
    a.merge.Valid() && a.id.Valid() && a.round > 0 && !a.key.Empty() && a.request.Valid()
  }

  /** ReleasePlanSnapshot.Valid for a CODE plan, apart from its terms. */
  predicate CodeValid(p: Plan) {
    && p.next <= |p.terms.merges| && 0 < p.round <= p.terms.roundLimit
    && (forall k :: k in p.results ==> ResultValid(k, p.results[k]))
    && (!p.state.Planned? ==> p.qualification.Some?)
    && (p.qualification.Some? ==> QualificationValid(p.terms, p.qualification.value))
    && match p.state
       case Planned => p.qualification.None? && p.active.None? && p.next == 0 && p.finalization.None?
       case Qualified => p.active.None? && p.finalization.None?
       case Executing => p.active.Some? && AttemptValid(p.active.value) && p.finalization.None?
       case Reconciling => p.active.Some? && AttemptValid(p.active.value) && p.finalization.None?
       case ReadyForAcceptance =>
         && p.active.None? && p.next == |p.terms.merges|
         && p.finalization.Some? && p.finalization.value.Valid()
         && p.providerTree == p.terms.expectedTree
       case Failed => p.active.None? && p.finalization.None?
       case _ => false
  }

  predicate NoReleaseValid(p: Plan) {
    && p.next == 0 && p.round == 1 && p.active.None? && p.qualification.None? && |p.results| == 0
    && p.providerTree.Empty()
    && match p.state
       case Planned => p.finalization.None?
       case NotRequired => p.finalization.Some? && p.finalization.value.Valid()
       case _ => false
  }

  predicate Valid(p: Plan) {
    p.revision > 0 && TermsValid(p.terms) && if p.terms.mode.Code? then CodeValid(p) else NoReleaseValid(p)
  }

  // ------------------------------------------------------------------
  // Events. A body holds the fields of the parsed payload.
  // ------------------------------------------------------------------

  datatype Body =
    | QualificationRecorded(
        expectedRevision: nat, planDigest: Digest, qualification: Uuid, base: Text, heads: seq<Text>, tree: Text,
        gate: Digest, toolchain: Digest, lock: Digest, artifacts: seq<Digest>, evidence: seq<Uuid>,
        manifest: Text, manifestDigest: Digest, profiles: seq<Text>)
    | ExecutionRequested(
        plan: Uuid, expectedRevision: nat, planDigest: Digest, merge: Uuid, attempt: Uuid, round: nat, key: Text,
        evidence: seq<Uuid>)
    | ResultRecorded(report: Report)
    | ReconciliationRecorded(report: Report, supersedes: Uuid, reconciliation: Uuid, provider: Text)
    | Finalized(
        plan: Uuid, expectedRevision: nat, planDigest: Digest, mode: Mode, terminal: State, providerTree: Text,
        qualifiedTree: Text, qualificationEvent: Option<Uuid>, resultEvents: seq<Uuid>)
    | OtherBody

  datatype Report = Report(
    plan: Uuid, expectedRevision: nat, planDigest: Digest, merge: Uuid, attempt: Uuid, outcome: Outcome,
    evidence: seq<Uuid>, base: Text, head: Text, tree: Text)

  datatype Event = Event(id: Uuid, aggregate: Uuid, revision: nat, committed: bool, body: Body)

  /** ReleaseResultFromPayload, common part. */
  predicate ReportParses(r: Report) {
    && r.plan.Valid() && r.expectedRevision > 0 && r.planDigest.Valid() && r.merge.Valid() && r.attempt.Valid()
    && |r.evidence| > 0 && !r.outcome.OtherOutcome?
    && (if Success(r.outcome) then !r.base.Empty() && !r.head.Empty() && !r.tree.Empty()
        else r.base.Empty() && r.head.Empty() && r.tree.Empty())
  }

  const PROVIDER_MERGED := Text("MERGED")
  const PROVIDER_OPEN := Text("OPEN")
  const PROVIDER_CLOSED := Text("CLOSED_UNMERGED")
  const PROVIDER_MISSING := Text("MISSING")
  const PROVIDER_UNAVAILABLE := Text("UNAVAILABLE")

  /** The extra conditions of a reconciliation payload. */
  predicate ReconciliationParses(r: Report, supersedes: Uuid, reconciliation: Uuid, provider: Text) {
    && ReportParses(r) && supersedes.Valid() && reconciliation.Valid()
    && (Success(r.outcome) ==> provider == PROVIDER_MERGED)
    && (r.outcome.FailedOutcome? ==> provider in {PROVIDER_OPEN, PROVIDER_CLOSED, PROVIDER_MISSING})
    && (r.outcome.Unknown? ==> provider == PROVIDER_UNAVAILABLE)
  }

  predicate Addressed(p: Plan, plan: Uuid, expectedRevision: nat, planDigest: Digest) {
    plan == p.terms.id && expectedRevision == p.revision && planDigest == p.terms.planDigest
  }

  /** releaseResultIdentityMatches */
  predicate IdentityMatches(p: Plan, r: Report) {
    && p.next < |p.terms.merges|
    && r.merge == p.terms.merges[p.next].id
    && (Success(r.outcome) ==> r.base == p.terms.base && r.head == p.terms.merges[p.next].head)
  }

  /** applyReleaseOutcome */
  function ApplyOutcome(p: Plan, r: Result, round: nat): Plan {
    match r.outcome
    case Unknown => p.(state := Reconciling)
    case Merged => p.(state := Qualified, providerTree := r.tree, next := p.next + 1, round := 1, active := None)
    case AlreadyMerged => p.(state := Qualified, providerTree := r.tree, next := p.next + 1, round := 1, active := None)
    case FailedOutcome =>
      if round >= p.terms.roundLimit then p.(active := None, state := Failed)
      else p.(active := None, state := Qualified, round := round + 1)
    case OtherOutcome(_) => p
  }

  predicate Merged(p: Plan, i: nat)
    requires i < |p.terms.merges|
  {
    p.terms.merges[i].id in p.results && Success(p.results[p.terms.merges[i].id].outcome)
  }

  predicate AllMerged(p: Plan) {
    forall i :: 0 <= i < |p.terms.merges| ==> Merged(p, i)
  }

  /** The event a result now rests on: its reconciliation if it was reconciled. */
  function EffectiveEvent(r: Result): Uuid {
    if r.reconciled.Some? then r.reconciled.value else r.event
  }

  function EffectiveResults(p: Plan): seq<Uuid> {
    if AllMerged(p)
    then seq(|p.terms.merges|, i requires 0 <= i < |p.terms.merges|
             && Merged(p, i) => EffectiveEvent(p.results[p.terms.merges[i].id]))
    else []
  }

  /** effectiveReleaseResultEventIDs */
  method EffectiveReleaseResultEventIDs(p: Plan) returns (ids: seq<Uuid>)
    ensures ids == EffectiveResults(p)
  {
    ids := [];
    for i := 0 to |p.terms.merges|
      invariant |ids| == i
      invariant forall k :: 0 <= k < i ==> Merged(p, k) && ids[k] == EffectiveEvent(p.results[p.terms.merges[k].id])
    {
      if !Merged(p, i) {
        return [];
      }
      ids := ids + [EffectiveEvent(p.results[p.terms.merges[i].id])];
    }
  }

  /** The branch checks of ApplyReleaseEvent: the plan before the revision is bumped. */
  function Branch(p: Plan, e: Event): Option<Plan> {
    match e.body
    case QualificationRecorded(expectedRevision, planDigest, qualification, base, heads, tree, gate, toolchain, lock,
                               artifacts, evidence, manifest, manifestDigest, profiles) =>
      if && expectedRevision > 0 && planDigest.Valid() && qualification.Valid() && !base.Empty() && |heads| > 0
         && !tree.Empty() && gate.Valid() && toolchain.Valid() && lock.Valid() && |artifacts| > 0 && |evidence| > 0
         && manifest == CONTRACT && manifestDigest.Valid() && |profiles| > 0
         && expectedRevision == p.revision && planDigest == p.terms.planDigest && base == p.terms.base
         && heads == Heads(p.terms.merges) && tree == p.terms.expectedTree && manifest == p.terms.manifest
         && manifestDigest == p.terms.manifestDigest && profiles == p.terms.profiles && p.state.Planned?
      then Some(p.(state := Qualified,
                   qualification := Some(Qualification(e.id, qualification, base, heads, tree, gate, toolchain, lock,
                                                       artifacts))))
      else None
    case ExecutionRequested(plan, expectedRevision, planDigest, merge, attempt, round, key, evidence) =>
      if && plan.Valid() && expectedRevision > 0 && planDigest.Valid() && merge.Valid() && attempt.Valid() && round > 0
         && !key.Empty() && |evidence| > 0
         && Addressed(p, plan, expectedRevision, planDigest) && p.state.Qualified?
         && p.next < |p.terms.merges| && p.terms.merges[p.next].id == merge
         && round == p.round && round <= p.terms.roundLimit
      then Some(p.(state := Executing, active := Some(Attempt(merge, attempt, round, key, e.id))))
      else None
    case ResultRecorded(r) =>
      if && ReportParses(r) && Addressed(p, r.plan, r.expectedRevision, r.planDigest)
         && p.active.Some? && p.active.value.id == r.attempt && p.active.value.merge == r.merge
         && p.state.Executing? && IdentityMatches(p, r)
      then
        var result := Result(r.merge, r.attempt, r.outcome, e.id, r.tree, None);
        Some(ApplyOutcome(p.(results := p.results[r.merge := result]), result, p.active.value.round))
      else None
    case ReconciliationRecorded(r, supersedes, reconciliation, provider) =>
      if && ReconciliationParses(r, supersedes, reconciliation, provider)
         && r.merge in p.results && Addressed(p, r.plan, r.expectedRevision, r.planDigest)
         && p.state.Reconciling? && p.active.Some? && p.active.value.id == r.attempt
         && p.results[r.merge].event == supersedes && p.results[r.merge].outcome.Unknown?
         && IdentityMatches(p, r)
      then
        var result := Result(r.merge, r.attempt, r.outcome, p.results[r.merge].event, r.tree, Some(e.id));
        Some(ApplyOutcome(p.(results := p.results[r.merge := result]), result, p.active.value.round))
      else None
    case Finalized(plan, expectedRevision, planDigest, mode, terminal, providerTree, qualifiedTree, qualificationEvent,
                   resultEvents) =>
      if && Addressed(p, plan, expectedRevision, planDigest) && mode == p.terms.mode
         && (mode.Code? ==>
               && p.state.Qualified? && p.next == |p.terms.merges|
               && p.qualification.Some? && qualificationEvent == Some(p.qualification.value.event)
               && qualifiedTree == p.terms.expectedTree && terminal.ReadyForAcceptance?
               && providerTree == p.terms.expectedTree && p.providerTree == p.terms.expectedTree
               && resultEvents == EffectiveResults(p))
         && (mode.NoRelease? ==>
               terminal.NotRequired? && |resultEvents| == 0 && qualificationEvent.None? && qualifiedTree.Empty()
                   && providerTree.Empty())
      then Some(p.(state := terminal, finalization := Some(e.id), providerTree := providerTree))
      else None
    case OtherBody => None
  }

  /** ApplyReleaseEvent: None is a rejection. */
  function Apply(p: Plan, e: Event): Option<Plan> {
    if !Valid(p) || e.aggregate != p.terms.id || e.revision != p.revision + 1 || !e.id.Valid() || !e.committed then None
    else
      var b := Branch(p, e);
      if b.None? then None
      else
        var next := b.value.(revision := p.revision + 1);
        if Valid(next) then Some(next) else None
  }

  /** What ReleasePlanFromCreatePayload returns. */
  predicate Created(p: Plan) {
    && Valid(p) && p.revision == 1 && p.state.Planned? && p.qualification.None? && p.next == 0 && p.round == 1
    && p.active.None? && p.results == map[] && p.finalization.None? && p.providerTree.Empty()
  }

  /** The plan after a whole run of accepted events. */
  function Run(p: Plan, events: seq<Event>): Option<Plan> {
    if |events| == 0 then Some(p)
    else
      var before := Run(p, events[..|events| - 1]);
      if before.None? then None else Apply(before.value, events[|events| - 1])
  }

  // ------------------------------------------------------------------
  // The reachable invariant of a CODE plan.
  // ------------------------------------------------------------------

  ghost predicate MergedBefore(p: Plan)
    requires p.next <= |p.terms.merges|
  {
    forall i :: 0 <= i < p.next ==> Merged(p, i)
  }

  ghost predicate UntouchedAfter(p: Plan) {
    forall i :: p.next < i < |p.terms.merges| ==> p.terms.merges[i].id !in p.results
  }

  ghost predicate ActiveIsNext(p: Plan) {
    p.active.Some? ==>
      p.next < |p.terms.merges| && p.active.value.merge == p.terms.merges[p.next].id && p.active.value.round == p.round
  }

  /** The tree last seen on the provider is the one of the last merge performed. */
  ghost predicate TreeIsLast(p: Plan)
    requires p.next <= |p.terms.merges|
  {
    if p.next == 0 then p.providerTree.Empty()
    else
      var last := p.terms.merges[p.next - 1].id;
      last in p.results && p.providerTree == p.results[last].tree
  }

  ghost predicate UnresolvedIsActive(p: Plan) {
    p.state.Reconciling? && p.active.Some? ==>
      p.active.value.merge in p.results && p.results[p.active.value.merge].outcome.Unknown?
  }

  /** Where a plan stops: complete with nothing active, or failed before the end. */
  ghost predicate EndsCleanly(p: Plan) {
    && (p.next == |p.terms.merges| ==> p.round == 1 && !p.state.Failed?)
    && (p.active.Some? <==> p.state in {Executing, Reconciling})
  }

  ghost predicate Inv(p: Plan) {
    && Valid(p) && p.terms.mode.Code?
    && p.next <= |p.terms.merges|
    && MergedBefore(p) && UntouchedAfter(p) && ActiveIsNext(p) && TreeIsLast(p) && UnresolvedIsActive(p)
       && EndsCleanly(p)
  }

  lemma CreatedInv(p: Plan)
    requires Created(p) && p.terms.mode.Code?
    ensures Inv(p)
  {
    hide Uuid.Valid, Digest.Valid;
  }

  lemma DistinctMerge(t: Terms, i: nat, j: nat)
    requires TermsValid(t) && t.mode.Code? && i < |t.merges| && j < |t.merges| && i != j
    ensures t.merges[i].id != t.merges[j].id
  {
    hide Uuid.Valid, Digest.Valid;
    assert MergeIds(t.merges)[i] == t.merges[i].id && MergeIds(t.merges)[j] == t.merges[j].id;
  }

  /** A recorded or reconciled outcome of the merge at the next position keeps the invariant. */
  lemma OutcomeInv(p: Plan, q: Plan, r: Result)
    requires Inv(p) && p.active.Some? && r.merge == p.active.value.merge && !r.outcome.OtherOutcome?
    requires q == ApplyOutcome(p.(results := p.results[r.merge := r]), r,
                               p.active.value.round).(revision := p.revision + 1)
    requires Valid(q)
    ensures Inv(q)
  {
    hide TermsValid, CodeValid, NoReleaseValid;
    assert TermsValid(p.terms) && p.next < |p.terms.merges|;
    forall i | 0 <= i < |p.terms.merges| && i != p.next ensures p.terms.merges[i].id != r.merge {
      DistinctMerge(p.terms, i, p.next);
    }
    hide Valid;
    assert forall i :: 0 <= i < p.next ==> Merged(p, i) ==> Merged(q, i);
  }

  lemma StepInv(p: Plan, e: Event)
    requires Inv(p) && Apply(p, e).Some?
    ensures Inv(Apply(p, e).value)
    ensures Apply(p, e).value.terms == p.terms && Apply(p, e).value.revision == p.revision + 1
  {
    hide Valid, ReportParses, ReconciliationParses, Addressed, EffectiveResults;
    var q := Apply(p, e).value;
    assert p.results == q.results && p.terms == q.terms ==> forall i :: 0 <= i < p.next && Merged(p, i) ==>
        Merged(q, i);
    match e.body
    case ResultRecorded(r) =>
      assert !r.outcome.OtherOutcome? by { ReportOutcome(r); }
      OutcomeInv(p, q, Result(r.merge, r.attempt, r.outcome, e.id, r.tree, None));
    case ReconciliationRecorded(r, supersedes, reconciliation, provider) =>
      assert !r.outcome.OtherOutcome? by { ReconciliationOutcome(r, supersedes, reconciliation, provider); }
      OutcomeInv(p, q, Result(r.merge, r.attempt, r.outcome, p.results[r.merge].event, r.tree, Some(e.id)));
    case _ =>
  }

  lemma ReportOutcome(r: Report)
    requires ReportParses(r)
    ensures !r.outcome.OtherOutcome?
  {
    hide Uuid.Valid, Digest.Valid;
  }

  lemma ReconciliationOutcome(r: Report, supersedes: Uuid, reconciliation: Uuid, provider: Text)
    requires ReconciliationParses(r, supersedes, reconciliation, provider)
    ensures !r.outcome.OtherOutcome?
  {
    ReportOutcome(r);
  }

  /** Every reachable CODE plan has merged everything before its position and nothing after
      it, and its active attempt is for that position in the current round. */
  lemma {:induction false} ReachableInv(p: Plan, events: seq<Event>)
    requires Created(p) && p.terms.mode.Code? && Run(p, events).Some?
    ensures Inv(Run(p, events).value)
    ensures Run(p, events).value.terms == p.terms
  {
    hide Apply, Inv, Created;
    if |events| == 0 {
      CreatedInv(p);
    } else {
      ReachableInv(p, events[..|events| - 1]);
      StepInv(Run(p, events[..|events| - 1]).value, events[|events| - 1]);
    }
  }

  // ------------------------------------------------------------------
  // What the invariant gives.
  // ------------------------------------------------------------------

  ghost predicate EndsAsExpected(q: Plan) {
    && |q.terms.merges| > 0 && AllMerged(q) && Merged(q, |q.terms.merges| - 1)
    && q.results[q.terms.merges[|q.terms.merges| - 1].id].tree == q.terms.expectedTree
  }

  /** READY_FOR_ACCEPTANCE: every merge succeeded and the tree observed at the last merge is
      the one that was qualified. */
  lemma ReadyMeansExpectedTree(p: Plan, events: seq<Event>)
    requires Created(p) && p.terms.mode.Code? && Run(p, events).Some? && Run(p, events).value.state.ReadyForAcceptance?
    ensures EndsAsExpected(Run(p, events).value)
  {
    hide Created, Run, Inv;
    ReachableInv(p, events);
    ReadyPlan(Run(p, events).value);
  }

  lemma ReadyPlan(q: Plan)
    requires Inv(q) && q.state.ReadyForAcceptance?
    ensures |q.terms.merges| > 0 && q.next == |q.terms.merges| && q.providerTree == q.terms.expectedTree
    ensures forall i :: 0 <= i < |q.terms.merges| ==> Merged(q, i)
    ensures Merged(q, |q.terms.merges| - 1)
    ensures q.results[q.terms.merges[|q.terms.merges| - 1].id].tree == q.terms.expectedTree
  {
    hide ResultValid, Uuid.Valid, Digest.Valid;
    assert |q.terms.merges| > 0;
    assert q.next == |q.terms.merges| && q.providerTree == q.terms.expectedTree;
    hide CodeValid, TermsValid, NoReleaseValid, Valid;
    assert Merged(q, q.next - 1);
  }

  /** FAILED and READY_FOR_ACCEPTANCE accept nothing more. */
  lemma TerminalAbsorbs(p: Plan, e: Event)
    requires p.terms.mode.Code? && p.state in {Failed, ReadyForAcceptance}
    ensures Apply(p, e).None?
  {
    hide Valid, ReportParses, ReconciliationParses, Addressed, EffectiveResults;
  }

  /** The finalization of a fully merged CODE plan. */
  function CodeFinalization(p: Plan, id: Uuid): Event
    requires p.qualification.Some?
  {
    Event(id, p.terms.id, p.revision + 1, true,
          Finalized(p.terms.id, p.revision, p.terms.planDigest, Code, ReadyForAcceptance, p.terms.expectedTree,
                    p.terms.expectedTree, Some(p.qualification.value.event), EffectiveResults(p)))
  }

  /** A plan whose merges are all done moves again exactly when the last observed tree is the
      expected one: otherwise no event at all is accepted, not even a failure. */
  lemma FullyMergedMovesIffExpectedTree(p: Plan, id: Uuid)
    requires Inv(p) && p.state.Qualified? && p.next == |p.terms.merges| && id.Valid()
    ensures p.qualification.Some?
    ensures Apply(p, CodeFinalization(p, id)).Some? <==> p.providerTree == p.terms.expectedTree
    ensures (exists e :: Apply(p, e).Some?) <==> p.providerTree == p.terms.expectedTree
  {
    hide Uuid.Valid, Digest.Valid, ResultValid, TermsValid;
    assert CodeValid(p) && TermsValid(p.terms);
    assert Apply(p, CodeFinalization(p, id)).Some? <==> p.providerTree == p.terms.expectedTree;
    forall e | Apply(p, e).Some? ensures p.providerTree == p.terms.expectedTree {
      OnlyFinalization(p, e);
    }
  }

  lemma AllMergedAtEnd(p: Plan)
    requires Inv(p) && p.next == |p.terms.merges|
    ensures AllMerged(p)
  {
    hide Valid, UntouchedAfter, TreeIsLast;
  }

  lemma EffectiveAt(p: Plan, i: nat)
    requires AllMerged(p) && i < |p.terms.merges|
    ensures |EffectiveResults(p)| == |p.terms.merges| && p.terms.merges[i].id in p.results
    ensures EffectiveResults(p)[i] == EffectiveEvent(p.results[p.terms.merges[i].id])
  {
    assert Merged(p, i);
  }

  lemma OnlyFinalization(p: Plan, e: Event)
    requires p.terms.mode.Code? && p.state.Qualified? && p.next == |p.terms.merges| && Apply(p, e).Some?
    ensures e.body.Finalized? && p.providerTree == p.terms.expectedTree
  {
    hide Valid, ReportParses, ReconciliationParses, Addressed, EffectiveResults;
  }

  // ------------------------------------------------------------------
  // Execution requests.
  // ------------------------------------------------------------------

  /** Lexicographic order of (index, round). */
  ghost predicate Later(p: Plan, q: Plan) {
    p.next < q.next || (p.next == q.next && p.round < q.round)
  }

  /** Everything after a request made at p is beyond it, or still at it with the request used up. */
  ghost predicate Past(p: Plan, q: Plan) {
    Later(p, q) || (p.next == q.next && p.round == q.round && !q.state.Qualified? && !q.state.Planned?)
  }

  lemma StepMoves(p: Plan, e: Event)
    requires Inv(p) && Apply(p, e).Some?
    ensures var q := Apply(p, e).value;
            && (Later(p, q) || (p.next == q.next && p.round == q.round))
            && (p.next == q.next && p.round == q.round && !p.state.Qualified? && !p.state.Planned? ==>
                !q.state.Qualified? && !q.state.Planned?)
            && (e.body.ExecutionRequested? ==> Past(p, q))
  {
    hide Valid, ReportParses, ReconciliationParses, Addressed, EffectiveResults;
    match e.body
    case ResultRecorded(r) => assert !r.outcome.OtherOutcome? by { ReportOutcome(r); }
    case ReconciliationRecorded(r, supersedes, reconciliation, provider) =>
      assert !r.outcome.OtherOutcome? by { ReconciliationOutcome(r, supersedes, reconciliation, provider); }
    case _ =>
  }

  lemma RunStep(p: Plan, events: seq<Event>, n: nat)
    requires n < |events|
    ensures Run(p, events[..n + 1]) ==
            var before := Run(p, events[..n]);
            if before.None? then None else Apply(before.value, events[n])
  {
    hide Apply;
    assert events[..n + 1][..n] == events[..n];
  }

  lemma {:induction false} RunPrefix(p: Plan, events: seq<Event>, n: nat)
    requires n <= |events| && Run(p, events).Some?
    ensures Run(p, events[..n]).Some?
    decreases |events| - n
  {
    hide Apply;
    if n < |events| {
      RunPrefix(p, events, n + 1);
      RunStep(p, events, n);
    } else {
      assert events[..n] == events;
    }
  }

  /** The plan in which the n-th event was accepted. */
  ghost function PlanAt(p: Plan, events: seq<Event>, n: nat): Plan
    requires n <= |events| && Run(p, events).Some?
  {
    RunPrefix(p, events, n);
    Run(p, events[..n]).value
  }

  lemma PlanAtStep(p: Plan, events: seq<Event>, n: nat)
    requires Created(p) && p.terms.mode.Code? && Run(p, events).Some? && n < |events|
    ensures Apply(PlanAt(p, events, n), events[n]) == Some(PlanAt(p, events, n + 1))
    ensures Inv(PlanAt(p, events, n)) && Inv(PlanAt(p, events, n + 1))
    ensures PlanAt(p, events, n).terms == p.terms
  {
    hide Apply, Created, Inv;
    RunPrefix(p, events, n);
    RunPrefix(p, events, n + 1);
    RunStep(p, events, n);
    ReachableInv(p, events[..n]);
    ReachableInv(p, events[..n + 1]);
  }

  /** A request names the merge and the round its plan stands at. */
  lemma RequestNamesPosition(p: Plan, e: Event)
    requires Apply(p, e).Some? && e.body.ExecutionRequested?
    ensures p.state.Qualified? && p.next < |p.terms.merges|
    ensures e.body.merge == p.terms.merges[p.next].id && e.body.round == p.round
  {
    hide Valid, Addressed;
  }

  lemma {:induction false} PastStays(p: Plan, events: seq<Event>, i: nat, j: nat)
    requires Created(p) && p.terms.mode.Code? && Run(p, events).Some? && i < j <= |events|
    requires events[i].body.ExecutionRequested?
    ensures Past(PlanAt(p, events, i), PlanAt(p, events, j))
    decreases j
  {
    hide Apply, Created, Inv, Run;
    PlanAtStep(p, events, j - 1);
    StepMoves(PlanAt(p, events, j - 1), events[j - 1]);
    if i < j - 1 {
      PastStays(p, events, i, j - 1);
    }
  }

  /** Successive execution requests strictly increase (index, round) lexicographically. */
  lemma RequestsIncrease(p: Plan, events: seq<Event>, i: nat, j: nat)
    requires Created(p) && p.terms.mode.Code? && Run(p, events).Some? && i < j < |events|
    requires events[i].body.ExecutionRequested? && events[j].body.ExecutionRequested?
    ensures Later(PlanAt(p, events, i), PlanAt(p, events, j))
    ensures (events[i].body.merge, events[i].body.round) != (events[j].body.merge, events[j].body.round)
  {
    hide Apply, Created, Inv, Run;
    PlanAtStep(p, events, i);
    PlanAtStep(p, events, j);
    RequestNamesPosition(PlanAt(p, events, i), events[i]);
    RequestNamesPosition(PlanAt(p, events, j), events[j]);
    PastStays(p, events, i, j);
    var a, b := PlanAt(p, events, i), PlanAt(p, events, j);
    assert Later(a, b);
    if a.next != b.next {
      assert TermsValid(p.terms) by { assert Valid(a) by { InvValid(a); } ValidTerms(a); }
      DistinctMerge(p.terms, a.next, b.next);
    }
  }

  lemma InvValid(p: Plan)
    requires Inv(p)
    ensures Valid(p) && p.terms.mode.Code?
  {
    hide Valid;
  }

  lemma ValidTerms(p: Plan)
    requires Valid(p)
    ensures TermsValid(p.terms)
  {
    hide TermsValid, CodeValid, NoReleaseValid;
  }

  function Requests(events: seq<Event>): nat {
    if |events| == 0 then 0
    else Requests(events[..|events| - 1]) + (if events[|events| - 1].body.ExecutionRequested? then 1 else 0)
  }

  ghost function Used(p: Plan): nat {
    p.round + (if p.active.Some? || p.state.Failed? then 1 else 0)
  }

  /** How many requests the plan's position accounts for. */
  ghost function Spent(p: Plan): int {
    p.next * p.terms.roundLimit + Used(p) - 1
  }

  lemma UsedStep(p: Plan, e: Event)
    requires Inv(p) && Apply(p, e).Some?
    ensures var q := Apply(p, e).value;
            || (q.next == p.next && Used(q) >= Used(p) + (if e.body.ExecutionRequested? then 1 else 0))
            || (q.next == p.next + 1 && Used(q) >= 1 && Used(p) == p.round + 1 && !e.body.ExecutionRequested?)
  {
    hide Valid, ReportParses, ReconciliationParses, Addressed, EffectiveResults, MergedBefore, UntouchedAfter,
         TreeIsLast;
    match e.body
    case ResultRecorded(r) => assert !r.outcome.OtherOutcome? by { ReportOutcome(r); }
    case ReconciliationRecorded(r, supersedes, reconciliation, provider) =>
      assert !r.outcome.OtherOutcome? by { ReconciliationOutcome(r, supersedes, reconciliation, provider); }
    case _ =>
  }

  lemma SpentStep(p: Plan, e: Event)
    requires Inv(p) && Apply(p, e).Some?
    ensures Spent(Apply(p, e).value) >= Spent(p) + (if e.body.ExecutionRequested? then 1 else 0)
  {
    hide Apply, Valid, Inv, Used;
    StepInv(p, e);
    UsedStep(p, e);
    InvValid(p);
    Rounds(p);
    assert (p.next + 1) * p.terms.roundLimit == p.next * p.terms.roundLimit + p.terms.roundLimit;
  }

  lemma Rounds(p: Plan)
    requires Valid(p) && p.terms.mode.Code?
    ensures 0 < p.round <= p.terms.roundLimit && p.next <= |p.terms.merges| && |p.terms.merges| > 0
  {
    hide Uuid.Valid, Digest.Valid;
  }

  lemma {:induction false} RequestsWithinSpent(p: Plan, events: seq<Event>)
    requires Created(p) && p.terms.mode.Code? && Run(p, events).Some?
    ensures Requests(events) <= Spent(Run(p, events).value)
  {
    if |events| == 0 {
      hide Valid;
    } else {
      hide Apply, Created, Inv, Spent;
      var n := |events| - 1;
      RequestsWithinSpent(p, events[..n]);
      ReachableInv(p, events[..n]);
      SpentStep(Run(p, events[..n]).value, events[n]);
    }
  }

  /** A run makes at most |OrderedMerges| x ExecutionRoundLimit execution requests. */
  lemma RequestsBounded(p: Plan, events: seq<Event>)
    requires Created(p) && p.terms.mode.Code? && Run(p, events).Some?
    ensures Requests(events) <= |p.terms.merges| * p.terms.roundLimit
  {
    hide Apply, Created, Run, Requests, Valid, MergedBefore, UntouchedAfter, TreeIsLast;
    RequestsWithinSpent(p, events);
    ReachableInv(p, events);
    var q := Run(p, events).value;
    Rounds(q);
    var n, l := |q.terms.merges|, q.terms.roundLimit;
    if q.next < n {
      assert q.next * l + l <= n * l by { assert (q.next + 1) * l <= n * l; }
    }
  }

  // ------------------------------------------------------------------
  // Which plans can be completed.
  // ------------------------------------------------------------------

  function QualifyingEvent(p: Plan, id: Uuid): Event {
    var d := p.terms.planDigest;
    Event(id, p.terms.id, p.revision + 1, true,
          QualificationRecorded(p.revision, d, id, p.terms.base, Heads(p.terms.merges), p.terms.expectedTree, d, d, d,
                                [d], [id],
                                p.terms.manifest, p.terms.manifestDigest, p.terms.profiles))
  }

  function RequestEvent(p: Plan, id: Uuid): Event
    requires p.next < |p.terms.merges|
  {
    Event(id, p.terms.id, p.revision + 1, true,
          ExecutionRequested(p.terms.id, p.revision, p.terms.planDigest, p.terms.merges[p.next].id, id, p.round,
                             Text("key"), [id]))
  }

  function MergedEvent(p: Plan, id: Uuid, tree: Text): Event
    requires p.next < |p.terms.merges|
  {
    var m := p.terms.merges[p.next];
    Event(id, p.terms.id, p.revision + 1, true,
          ResultRecorded(Report(p.terms.id, p.revision, p.terms.planDigest, m.id, id, Outcome.Merged, [id],
                                p.terms.base, m.head, tree)))
  }

  /** A CODE plan that requires no profile leaves PLANNED by no event. */
  lemma PlannedMoves(p: Plan, e: Event)
    requires p.terms.mode.Code? && p.state.Planned? && Apply(p, e).Some?
    ensures |p.terms.profiles| > 0
  {
    hide ReportParses, ReconciliationParses, Addressed, EffectiveResults, TermsValid, Uuid.Valid, Digest.Valid;
  }

  lemma Qualifies(p: Plan, id: Uuid)
    requires Created(p) && p.terms.mode.Code? && id.Valid() && |p.terms.profiles| > 0
    ensures var q := Apply(p, QualifyingEvent(p, id));
            q.Some? && q.value.state.Qualified? && q.value.next == 0 && q.value.terms == p.terms
  {
    hide Uuid.Valid, Digest.Valid;
  }

  lemma Requested(p: Plan, id: Uuid)
    requires Inv(p) && p.state.Qualified? && p.next < |p.terms.merges| && id.Valid()
    ensures var q := Apply(p, RequestEvent(p, id));
            && q.Some? && q.value.state.Executing? && q.value.next == p.next && q.value.terms == p.terms
            && q.value.active.Some? && q.value.active.value.id == id
  {
    hide Uuid.Valid, Digest.Valid, ResultValid, MergedBefore, UntouchedAfter, TreeIsLast;
    assert p.terms.merges[p.next] in p.terms.merges;
  }

  lemma Merges(p: Plan, id: Uuid, tree: Text)
    requires Inv(p) && p.state.Executing? && p.active.Some? && p.active.value.id == id && id.Valid() && !tree.Empty()
    ensures p.next < |p.terms.merges|
    ensures var q := Apply(p, MergedEvent(p, id, tree));
            && q.Some? && q.value.state.Qualified? && q.value.next == p.next + 1 && q.value.terms == p.terms
            && q.value.providerTree == tree
  {
    hide Uuid.Valid, Digest.Valid, MergedBefore, UntouchedAfter, TreeIsLast;
    assert p.terms.merges[p.next] in p.terms.merges;
  }

  lemma RunAppend(p: Plan, events: seq<Event>, e: Event)
    requires Run(p, events).Some?
    ensures Run(p, events + [e]) == Apply(Run(p, events).value, e)
  {
    hide Apply;
    assert (events + [e])[..|events|] == events;
  }

  /** From any qualified position the remaining merges can be performed, the last one
      observing any tree whatever. */
  lemma {:induction false} Drive(p: Plan, events: seq<Event>, id: Uuid, tree: Text) returns (all: seq<Event>)
    requires Created(p) && p.terms.mode.Code? && id.Valid() && !tree.Empty()
    requires Run(p, events).Some? && Run(p, events).value.state.Qualified?
    requires Run(p, events).value.next < |p.terms.merges|
    ensures Run(p, all).Some? && FullyMerged(Run(p, all).value) && Run(p, all).value.providerTree == tree
    ensures Inv(Run(p, all).value) && Run(p, all).value.terms == p.terms
    decreases |p.terms.merges| - Run(p, events).value.next
  {
    hide Apply, Created, Inv, Run, Uuid.Valid;
    ReachableInv(p, events);
    var q := Run(p, events).value;
    Requested(q, id);
    var one := events + [RequestEvent(q, id)];
    RunAppend(p, events, RequestEvent(q, id));
    var r := Run(p, one).value;
    ReachableInv(p, one);
    Merges(r, id, tree);
    all := one + [MergedEvent(r, id, tree)];
    RunAppend(p, one, MergedEvent(r, id, tree));
    ReachableInv(p, all);
    if Run(p, all).value.next < |p.terms.merges| {
      all := Drive(p, all, id, tree);
    } else {
      hide MergedBefore, UntouchedAfter, TreeIsLast, Valid;
      NextWithin(Run(p, all).value);
    }
  }

  lemma NextWithin(p: Plan)
    requires Inv(p)
    ensures p.next <= |p.terms.merges|
  {
    hide Valid, MergedBefore, UntouchedAfter, TreeIsLast;
  }

  ghost predicate FullyMerged(p: Plan) {
    p.state.Qualified? && p.next == |p.terms.merges|
  }

  /** Whatever tree the last merge shows, some run of accepted events ends there. */
  lemma MergedReachable(p: Plan, id: Uuid, tree: Text) returns (events: seq<Event>)
    requires Created(p) && p.terms.mode.Code? && id.Valid() && !tree.Empty() && |p.terms.profiles| > 0
    ensures Run(p, events).Some? && FullyMerged(Run(p, events).value) && Run(p, events).value.providerTree == tree
    ensures Inv(Run(p, events).value) && Run(p, events).value.terms == p.terms
  {
    hide Apply, Created, Uuid.Valid, Inv;
    Qualifies(p, id);
    RunAppend(p, [], QualifyingEvent(p, id));
    assert [] + [QualifyingEvent(p, id)] == [QualifyingEvent(p, id)];
    CreatedInv(p);
    InvValid(p);
    Rounds(p);
    events := Drive(p, [QualifyingEvent(p, id)], id, tree);
  }

  lemma {:induction false} NeverQualified(p: Plan, events: seq<Event>)
    requires Created(p) && p.terms.mode.Code? && |p.terms.profiles| == 0 && Run(p, events).Some?
    ensures Run(p, events) == Some(p)
  {
    if |events| == 0 {
    } else {
      hide Apply, Valid;
      NeverQualified(p, events[..|events| - 1]);
      PlannedMoves(p, events[|events| - 1]);
    }
  }

  ghost predicate Completable(p: Plan) {
    exists events :: Run(p, events).Some? && Run(p, events).value.state.ReadyForAcceptance?
  }

  /** What the schema of the creation payload asks of the required profiles. */
  predicate SchemaAllows(t: Terms) {
    1 <= |t.profiles| <= 8 && Distinct(t.profiles)
  }

  /** Every CODE plan a command can create has a run to READY_FOR_ACCEPTANCE. */
  lemma EveryPlanCompletes(p: Plan, id: Uuid)
    requires Created(p) && p.terms.mode.Code? && SchemaAllows(p.terms) && id.Valid()
    ensures Completable(p)
  {
    hide Created, Completable, Uuid.Valid;
    CompletableIffProfiles(p, id);
  }

  /** For the plans ReleasePlanFromCreatePayload accepts by itself, which may list no profile, a
      run to READY_FOR_ACCEPTANCE exists exactly when some profile is listed. The payload schema
      excludes the empty list. */
  lemma CompletableIffProfiles(p: Plan, id: Uuid)
    requires Created(p) && p.terms.mode.Code? && id.Valid()
    ensures Completable(p) <==> |p.terms.profiles| > 0
  {
    hide Apply, Uuid.Valid, Inv, Run;
    if |p.terms.profiles| > 0 {
      assert !p.terms.expectedTree.Empty() by { hide Inv; }
      hide Created;
      var events := MergedReachable(p, id, p.terms.expectedTree);
      var q := Run(p, events).value;
      FullyMergedMovesIffExpectedTree(q, id);
      Finishes(q, id);
      RunAppend(p, events, CodeFinalization(q, id));
      assert Run(p, events + [CodeFinalization(q, id)]).value.state.ReadyForAcceptance?;
    } else {
      forall events | Run(p, events).Some? ensures !Run(p, events).value.state.ReadyForAcceptance? {
        NeverQualified(p, events);
      }
    }
  }

  lemma Finishes(p: Plan, id: Uuid)
    requires p.qualification.Some? && p.terms.mode.Code? && Apply(p, CodeFinalization(p, id)).Some?
    ensures Apply(p, CodeFinalization(p, id)).value.state.ReadyForAcceptance?
  {
    hide Valid, EffectiveResults;
  }

  /** A plan stuck with the wrong tree is reachable from every plan that can be qualified. */
  lemma WrongTreeReachable(p: Plan, id: Uuid, tree: Text) returns (events: seq<Event>)
    requires Created(p) && p.terms.mode.Code? && id.Valid() && !tree.Empty() && |p.terms.profiles| > 0
             && tree != p.terms.expectedTree
    ensures Run(p, events).Some? && FullyMerged(Run(p, events).value)
    ensures forall e :: Apply(Run(p, events).value, e).None?
  {
    hide Apply, Created, Uuid.Valid, Inv, Run;
    events := MergedReachable(p, id, tree);
    FullyMergedMovesIffExpectedTree(Run(p, events).value, id);
  }

  // ------------------------------------------------------------------
  // Refinement of the abstract model.
  // ------------------------------------------------------------------

  ghost function Abstraction(p: Plan): Abstract {
    var attempt := if p.active.Some? then Some(p.active.value.id) else None;
    Abstract(
      p.state, p.terms.mode, p.terms.author, p.terms.approval, p.terms.planDigest, p.terms.base, Heads(p.terms.merges),
      MergeIds(p.terms.merges), p.next, p.terms.roundLimit, p.round,
      if p.active.Some? then p.active.value.round else 0, attempt,
      if p.state.Reconciling? then attempt else None,
      if p.active.Some? && p.active.value.merge in p.results then Some(p.results[p.active.value.merge].event) else None,
      p.terms.expectedTree)
  }

  ghost function AbstractEvent(body: Body): Transition {
    match body
    case QualificationRecorded(_, _, _, base, heads, _, _, _, _, _, _, _, _, _) => Qualify(base, heads)
    case ExecutionRequested(_, _, _, merge, _, round, _, _) => RequestExecution(merge, round)
    case ResultRecorded(r) => RecordResult(r.attempt, r.outcome)
    case ReconciliationRecorded(r, supersedes, _, _) => Reconcile(r.attempt, supersedes, r.outcome)
    case Finalized(_, _, _, _, terminal, providerTree, _, _, _) => Finalize(terminal, providerTree)
    case OtherBody => OtherAction
  }

  /** Every accepted step of a reachable CODE plan is a step the abstract model accepts, into
      the same state. */
  lemma CodeRefines(p: Plan, e: Event)
    requires Inv(p) && Apply(p, e).Some?
    ensures EvaluateRelease(Abstraction(p), Some(p.terms.planDigest), AbstractEvent(e.body))
              == Some(Apply(p, e).value.state)
  {
    hide Valid, ReportParses, ReconciliationParses, Addressed, EffectiveResults, MergedBefore, UntouchedAfter,
         TreeIsLast;
    match e.body
    case ResultRecorded(r) => assert !r.outcome.OtherOutcome? by { ReportOutcome(r); }
    case ReconciliationRecorded(r, supersedes, reconciliation, provider) =>
      assert !r.outcome.OtherOutcome? by { ReconciliationOutcome(r, supersedes, reconciliation, provider); }
    case _ =>
  }

  /** A NO_RELEASE_REQUIRED plan refines the abstract model exactly when it is still PLANNED:
      the finalization branch does not look at the current state. */
  lemma NoReleaseRefinesIffPlanned(p: Plan, e: Event)
    requires p.terms.mode.NoRelease? && Apply(p, e).Some?
    ensures Apply(p, e).value.state.NotRequired?
    ensures EvaluateRelease(Abstraction(p), Some(p.terms.planDigest), AbstractEvent(e.body))
              == Some(Apply(p, e).value.state)
            <==> p.state.Planned?
  {
    hide Uuid.Valid, Digest.Valid, Addressed, EffectiveResults;
  }

  /** The finalization every NO_RELEASE_REQUIRED plan accepts. */
  function NoReleaseFinalization(p: Plan, id: Uuid): Event {
    Event(id, p.terms.id, p.revision + 1, true,
          Finalized(p.terms.id, p.revision, p.terms.planDigest, NoRelease, NotRequired, Text(""), Text(""), None, []))
  }

  /** A second finalization of the same plan is accepted and replaces the first one's event;
      the abstract model refuses it. */
  lemma NoReleaseFinalizesTwice(p: Plan, first: Uuid, second: Uuid)
    requires Created(p) && p.terms.mode.NoRelease? && first.Valid() && second.Valid() && first != second
    ensures var one := Apply(p, NoReleaseFinalization(p, first));
            && one.Some? && one.value.finalization == Some(first)
            && var e := NoReleaseFinalization(one.value, second);
            && var two := Apply(one.value, e);
            && two.Some? && two.value.finalization == Some(second)
            && EvaluateRelease(Abstraction(one.value), Some(p.terms.planDigest), AbstractEvent(e.body)).None?
  {
    hide Uuid.Valid, Digest.Valid;
  }
}
