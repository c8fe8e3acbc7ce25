/** Bounded completion reviews: applying branch results and finalizing. */
module BoundedReview {
  import opened Orders
  import opened Ids
  import opened Review

  datatype Dimension =
    | PrincipalDimension | ActorDimension | ExecutionDimension | ContextDimension | WorkspaceDimension
    | ModelProfileDimension | ProviderDimension | MethodDimension | HumanDimension | OtherDimension(name: string)

  datatype Identity = Identity(principal: Principal, actor: Actor, execution: Execution, model: Digest,
                               workspace: Digest, context: Digest) {
    predicate Valid() {
      principal.Valid() && actor.Valid() && execution.Valid() && model.Valid() && workspace.Valid() && context.Valid()
    }
  }

  datatype Receipt = Receipt(dimensions: seq<Dimension>, comparison: Digest, methods: seq<Text>, evidence: seq<Uuid>) {
    predicate Valid() {
      && 1 <= |dimensions| <= 9 && (forall d :: d in dimensions ==> !d.OtherDimension?) && Distinct(dimensions)
      && comparison.Valid()
      && 1 <= |methods| <= 64 && (forall m :: m in methods ==> 1 <= |m.value| <= 4096) && Distinct(methods)
      && ValidUnique(evidence, 1, 64)
    }

    predicate Proves(required: seq<Dimension>, requiredMethods: seq<Text>) {
      Valid() && (forall d :: d in required ==> d in dimensions) && (forall m :: m in requiredMethods ==> m in methods)
    }
  }

  /** RequiredSeparationProven */
  predicate Separated(implementer: Identity, authority: Principal, actor: Option<Actor>, execution: Option<Execution>,
                      required: seq<Dimension>, receipt: Receipt)
  {
    && implementer.Valid() && authority.Valid() && receipt.Proves(required, [])
    && (PrincipalDimension in required ==> authority != implementer.principal)
    && (ActorDimension in required ==> actor.Some? && actor.value.Valid() && actor.value != implementer.actor)
    && (ExecutionDimension in required ==>
        execution.Some? && execution.value.Valid() && execution.value != implementer.execution)
  }

  datatype Role = Validator | Adjudicator | PolicyTimeout | OtherRole(name: string)

  datatype Finding = Finding(id: Uuid, key: Digest, classification: Text, summary: Text, evidence: seq<Uuid>)

  datatype Record = Record(
    branch: Branch, role: Role, authority: Principal, round: nat, verdict: Verdict, reasons: seq<Text>,
    evidence: seq<Uuid>, findings: seq<Finding>, supersedes: seq<Uuid>, changed: seq<Uuid>, event: Uuid,
    decidedAt: Option<int>, candidate: Digest, receipt: Receipt, actor: Option<Actor>, execution: Option<Execution>)

  datatype Spec = Spec(
    branch: Branch, validator: Principal, owner: Actor, criteria: seq<Text>, evidence: seq<Uuid>, deadline: int,
    roundLimit: nat, dimensions: seq<Dimension>, methods: seq<Text>)

  datatype Adjudication = Adjudication(adjudicator: Principal, deadline: int, roundLimit: nat)

  datatype WorkProfile = WorkProfile(profile: Uuid, revision: nat, digest: Digest, epoch: nat, scope: nat)

  /** What the opening of the review fixes for good. */
  datatype Terms = Terms(
    subject: AggregateRef, epoch: nat, branchPolicyRevision: nat, required: seq<Branch>, branches: map<Branch, Spec>,
    adjudication: Adjudication, policy: Policy, topologyBound: bool, scope: nat, profile: WorkProfile,
    candidate: Digest, implementer: Identity, topology: Digest)

  datatype Finalization = Finalization(
    event: Uuid, revision: nat, status: Status, resultEvents: seq<Uuid>, evidence: seq<Uuid>, scope: nat,
    profile: WorkProfile, candidate: Digest, topology: Digest)

  datatype Snapshot = Snapshot(
    terms: Terms, results: map<Branch, Verdict>, records: map<Branch, Record>, known: map<Uuid, Record>,
    findings: map<Digest, Finding>, revision: nat, finalization: Option<Finalization>, join: Join)

  // ------------------------------------------------------------------
  // Findings of the current records.
  // ------------------------------------------------------------------

  ghost predicate Holds(records: map<Branch, Record>, f: Finding) {
    exists b :: b in records && f in records[b].findings
  }

  /** No two current findings share a key and differ. */
  ghost predicate Consistent(records: map<Branch, Record>) {
    forall f, g :: Holds(records, f) && Holds(records, g) && f.key == g.key ==> f == g
  }

  /** The map holds exactly the current findings, by key. */
  ghost predicate FindingsOf(records: map<Branch, Record>, m: map<Digest, Finding>) {
    && (forall f :: Holds(records, f) ==> f.key in m && m[f.key] == f)
    && (forall k :: k in m ==> m[k].key == k && Holds(records, m[k]))
  }

  lemma FindingsUnique(records: map<Branch, Record>, m: map<Digest, Finding>, n: map<Digest, Finding>)
    requires FindingsOf(records, m) && FindingsOf(records, n)
    ensures m == n && Consistent(records)
  {
    assert forall k :: k in m ==> k in n && n[k] == m[k];
    assert forall k :: k in n ==> k in m;
  }

  /** The findings of the branches already ranged over, and of the first n findings of b. */
  ghost predicate Part(records: map<Branch, Record>, done: set<Branch>, b: Branch, n: nat, f: Finding)
    requires b in records && n <= |records[b].findings|
  {
    (exists c :: c in done && c in records && f in records[c].findings) || f in records[b].findings[..n]
  }

  ghost predicate PartOf(records: map<Branch, Record>, done: set<Branch>, b: Branch, n: nat, m: map<Digest, Finding>)
    requires b in records && n <= |records[b].findings|
  {
    && (forall f :: Part(records, done, b, n, f) ==> f.key in m && m[f.key] == f)
    && (forall k :: k in m ==> m[k].key == k && Part(records, done, b, n, m[k]))
  }

  /** currentFindingSet: the records are ranged over in any order. */
  method CurrentFindingSet(records: map<Branch, Record>) returns (findings: Option<map<Digest, Finding>>)
    ensures findings.Some? <==> Consistent(records)
    ensures findings.Some? ==> FindingsOf(records, findings.value)
  {
    var m: map<Digest, Finding> := map[];
    var pending := records.Keys;
    while pending != {}
      invariant pending <= records.Keys
      invariant FindingsOf(Restrict(records, records.Keys - pending), m)
      decreases pending
    {
      var b :| b in pending;
      ghost var done := records.Keys - pending;
      var list := records[b].findings;
      assert PartOf(records, done, b, 0, m) by { StartPart(records, done, b, m); }
      for n := 0 to |list|
        invariant PartOf(records, done, b, n, m)
      {
        var f := list[n];
        assert list[..n + 1] == list[..n] + [f];
        if f.key in m && m[f.key] != f {
          Clash(records, done, b, n, m);
          return None;
        }
        MorePart(records, done, b, n, m);
        m := m[f.key := f];
      }
      pending := pending - {b};
      EndPart(records, done, b, m, records.Keys - pending);
    }
    assert Restrict(records, records.Keys - {}) == records;
    FindingsUnique(records, m, m);
    findings := Some(m);
  }

  ghost function Restrict(records: map<Branch, Record>, keys: set<Branch>): map<Branch, Record> {
    map b | b in records && b in keys :: records[b]
  }

  lemma StartPart(records: map<Branch, Record>, done: set<Branch>, b: Branch, m: map<Digest, Finding>)
    requires b in records && done <= records.Keys && FindingsOf(Restrict(records, done), m)
    ensures PartOf(records, done, b, 0, m)
  {
    var part := Restrict(records, done);
    forall f ensures Part(records, done, b, 0, f) <==> Holds(part, f) {
      if Part(records, done, b, 0, f) {
        var c :| c in done && c in records && f in records[c].findings;
        assert c in part;
      }
    }
  }

  lemma MorePart(records: map<Branch, Record>, done: set<Branch>, b: Branch, n: nat, m: map<Digest, Finding>)
    requires b in records && n < |records[b].findings| && PartOf(records, done, b, n, m)
    requires var f := records[b].findings[n]; f.key in m ==> m[f.key] == f
    ensures var f := records[b].findings[n]; PartOf(records, done, b, n + 1, m[f.key := f])
  {
    var list := records[b].findings;
    assert list[..n + 1] == list[..n] + [list[n]];
    assert forall g :: Part(records, done, b, n + 1, g) <==> Part(records, done, b, n, g) || g == list[n];
  }

  lemma Clash(records: map<Branch, Record>, done: set<Branch>, b: Branch, n: nat, m: map<Digest, Finding>)
    requires b in records && n < |records[b].findings| && PartOf(records, done, b, n, m)
    requires var f := records[b].findings[n]; f.key in m && m[f.key] != f
    ensures !Consistent(records)
  {
    var f := records[b].findings[n];
    var g := m[f.key];
    assert Part(records, done, b, n, g);
    assert Holds(records, f);
    assert Holds(records, g);
  }

  lemma EndPart(records: map<Branch, Record>, done: set<Branch>, b: Branch, m: map<Digest, Finding>, more: set<Branch>)
    requires b in records && done <= records.Keys && PartOf(records, done, b, |records[b].findings|, m)
    requires more == done + {b}
    ensures FindingsOf(Restrict(records, more), m)
  {
    var part := Restrict(records, more);
    var list := records[b].findings;
    assert list[..|list|] == list;
    forall f ensures Part(records, done, b, |list|, f) <==> Holds(part, f) {
      if Part(records, done, b, |list|, f) {
        if f in list {
          assert b in part;
        } else {
          var c :| c in done && c in records && f in records[c].findings;
          assert c in part;
        }
      }
      if Holds(part, f) {
        var c :| c in part && f in part[c].findings;
      }
    }
  }

  // ------------------------------------------------------------------
  // Accepting a branch result.
  // ------------------------------------------------------------------

  predicate ValidSet(ids: seq<Uuid>, required: bool) {
    (required ==> |ids| > 0) && (forall id :: id in ids ==> id.Valid()) && Distinct(ids)
  }

  const MAX_ROUND := 1000

  /** ReviewBranchResultFromPayload: what the payload of a bounded result must satisfy. */
  predicate ResultParses(r: Record) {
    && r.branch.name != "" && ValidVerdict(r.verdict) && 0 < r.round <= MAX_ROUND
    && ValidSet(r.evidence, true) && ValidSet(r.supersedes, false) && ValidSet(r.changed, false)
    && (forall f :: f in r.findings ==> FindingParses(f))
    && (forall i, j :: 0 <= i < j < |r.findings| ==> r.findings[i].key != r.findings[j].key)
  }

  predicate FindingParses(f: Finding) {
    f.id.Valid() && f.key.Valid() && !f.summary.Empty() && ValidSet(f.evidence, true)
  }

  datatype Refusal =
    | AlreadyFinalized | InvalidResult | IndependenceNotProven | ValidatorMismatch | BranchRoundExhausted
    | BranchDeadlineExceeded | AdjudicatorMismatch | AdjudicationExhausted | AdjudicationDeadlineExceeded
    | PolicyAuthorityRequired | DeadlineNotReached | InvalidTimeoutResult | InvalidSourceRole | DuplicateResultEvent
    | ChangedConditionRequired | UnknownSupersededResult | FindingKeyConflict

  function RoleRefusal(t: Terms, spec: Spec, r: Record): Option<Refusal>
    requires r.decidedAt.Some?
  {
    match r.role
    case Validator =>
      if r.authority != spec.validator then Some(ValidatorMismatch)
      else if r.round > spec.roundLimit then Some(BranchRoundExhausted)
      else if r.decidedAt.value > spec.deadline then Some(BranchDeadlineExceeded)
      else None
    case Adjudicator =>
      if r.authority != t.adjudication.adjudicator then Some(AdjudicatorMismatch)
      else if r.round > t.adjudication.roundLimit then Some(AdjudicationExhausted)
      else if r.decidedAt.value > t.adjudication.deadline then Some(AdjudicationDeadlineExceeded)
      else None
    case PolicyTimeout =>
      if !r.authority.kind.Policy? then Some(PolicyAuthorityRequired)
      else if r.decidedAt.value <= spec.deadline then Some(DeadlineNotReached)
      else if !r.verdict.BLOCKED? && !r.verdict.CANCELLED? then Some(InvalidTimeoutResult)
      else None
    case OtherRole(_) => Some(InvalidSourceRole)
  }

  /** BoundedReviewResultReason: consistent says whether the findings would still agree. */
  function Reason(s: Snapshot, r: Record, consistent: bool): Option<Refusal> {
    var t := s.terms;
    if s.finalization.Some? then Some(AlreadyFinalized)
    else if || r.branch !in t.branches || !r.event.Valid() || r.decidedAt.None? || !r.authority.Valid() || r.round == 0
            || !ValidVerdict(r.verdict) || !ValidSet(r.evidence, true)
    then Some(InvalidResult)
    else
      var spec := t.branches[r.branch];
      if t.topologyBound && r.candidate != t.candidate then Some(IndependenceNotProven)
      else if && t.topologyBound && !r.role.PolicyTimeout?
              && (|| !r.receipt.Proves(spec.dimensions, spec.methods)
                  || !Separated(t.implementer, r.authority, r.actor, r.execution, spec.dimensions, r.receipt))
      then Some(IndependenceNotProven)
      else if RoleRefusal(t, spec, r).Some? then RoleRefusal(t, spec, r)
      else if r.event in s.known then Some(DuplicateResultEvent)
      else if r.branch in s.records then
        var prior := s.records[r.branch];
        if |r.supersedes| != 1 || r.supersedes[0] != prior.event || |r.changed| == 0
            || (r.role == prior.role && r.round <= prior.round)
        then Some(ChangedConditionRequired)
        else if !consistent then Some(FindingKeyConflict)
        else None
      else if |r.supersedes| != 0 then Some(UnknownSupersededResult)
      else if !consistent then Some(FindingKeyConflict)
      else None
  }

  /** What a record must satisfy whenever it is accepted, and for ever after. */
  ghost predicate Admissible(t: Terms, r: Record) {
    && r.branch in t.branches && r.event.Valid() && r.authority.Valid() && r.round > 0 && ValidVerdict(r.verdict)
    && r.decidedAt.Some? && ValidSet(r.evidence, true)
    && (t.topologyBound ==> r.candidate == t.candidate)
    && ByRole(t, t.branches[r.branch], r)
  }

  /** A validator or the adjudicator inside its limits and independent, or a policy timeout
      after the deadline that can only block or cancel. */
  ghost predicate ByRole(t: Terms, spec: Spec, r: Record) {
    && r.decidedAt.Some?
    && match r.role
       case Validator =>
         r.authority == spec.validator && r.round <= spec.roundLimit && r.decidedAt.value <= spec.deadline
             && Independent(t, spec, r)
       case Adjudicator =>
         && r.authority == t.adjudication.adjudicator && r.round <= t.adjudication.roundLimit
         && r.decidedAt.value <= t.adjudication.deadline && Independent(t, spec, r)
       case PolicyTimeout => r.authority.kind.Policy? && r.decidedAt.value > spec.deadline
           && r.verdict in {BLOCKED, CANCELLED}
       case OtherRole(_) => false
  }

  ghost predicate Independent(t: Terms, spec: Spec, r: Record) {
    t.topologyBound ==>
      && r.receipt.Proves(spec.dimensions, spec.methods)
      && Separated(t.implementer, r.authority, r.actor, r.execution, spec.dimensions, r.receipt)
  }

  /** A repeated branch names the record it replaces and why, in a later round of the same role. */
  ghost predicate Supersedes(s: Snapshot, r: Record) {
    if r.branch in s.records then
      var prior := s.records[r.branch];
      r.supersedes == [prior.event] && |r.changed| > 0 && (r.role == prior.role ==> r.round > prior.round)
    else r.supersedes == []
  }

  lemma AcceptedIff(s: Snapshot, r: Record, consistent: bool)
    ensures Reason(s, r, consistent).None? <==>
            && s.finalization.None? && Admissible(s.terms, r)
            && r.event !in s.known && Supersedes(s, r) && consistent
  {
    hide Uuid.Valid, Digest.Valid, Actor.Valid, Receipt.Proves, Separated, ValidSet;
  }

  ghost function FindingMap(records: map<Branch, Record>): (m: map<Digest, Finding>)
    requires Consistent(records)
    ensures FindingsOf(records, m)
  {
    assert forall b, f :: b in records && f in records[b].findings ==> Holds(records, f);
    map b, f | b in records && f in records[b].findings :: f.key := f
  }

  ghost function Entries(results: map<Branch, Verdict>): set<Entry> {
    set b | b in results :: Entry(b, results[b])
  }

  ghost function JoinOf(t: Terms, results: map<Branch, Verdict>): Join {
    JoinSpec(t.required, t.policy, Entries(results), |results|)
  }

  /** The snapshot after a branch result, None if it is refused. */
  ghost function Applied(s: Snapshot, r: Record): Option<Snapshot> {
    var records := s.records[r.branch := r];
    if Reason(s, r, Consistent(records)).Some? then None
    else
      assert Consistent(records) by { AcceptedIff(s, r, Consistent(records)); }
      var results := s.results[r.branch := r.verdict];
      var join := JoinOf(s.terms, results);
      if join.status.Conflict? then None
      else
        Some(s.(records := records, known := s.known[r.event := r], findings := FindingMap(records), results := results,
                revision := s.revision + 1, join := join))
  }

  lemma EntriesInsert(m: map<Branch, Verdict>, b: Branch, v: Verdict)
    requires b !in m
    ensures Entries(m[b := v]) == Entries(m) + {Entry(b, v)}
  {
    forall e | e in Entries(m) + {Entry(b, v)} ensures e in Entries(m[b := v]) {
      assert e.branch in m[b := v] && m[b := v][e.branch] == e.verdict;
    }
  }

  /** Ranging over a map in any order. */
  method Values(results: map<Branch, Verdict>) returns (values: seq<Entry>)
    ensures EntrySet(values) == Entries(results) && |values| == |results|
  {
    values := [];
    var pending := results.Keys;
    while pending != {}
      invariant pending <= results.Keys
      invariant EntrySet(values) == Entries(map b | b in results && b !in pending :: results[b])
      invariant |values| == |results| - |pending|
      decreases pending
    {
      var b :| b in pending;
      ghost var before := map c | c in results && c !in pending :: results[c];
      pending := pending - {b};
      ghost var after := map c | c in results && c !in pending :: results[c];
      assert after == before[b := results[b]];
      EntriesInsert(before, b, results[b]);
      values := values + [Entry(b, results[b])];
    }
    assert (map b | b in results && b !in pending :: results[b]) == results;
  }

  method ApplyBoundedReviewBranchResult(s: Snapshot, r: Record) returns (next: Option<Snapshot>)
    ensures next == Applied(s, r)
  {
    hide Reason;
    var records := s.records[r.branch := r];
    var findings := CurrentFindingSet(records);
    if Reason(s, r, findings.Some?).Some? {
      return None;
    }
    AcceptedIff(s, r, findings.Some?);
    FindingsUnique(records, findings.value, FindingMap(records));
    var results := s.results[r.branch := r.verdict];
    var values := Values(results);
    var join := EvaluateReviewJoin(s.terms.required, s.terms.policy, values);
    if join.status.Conflict? {
      return None;
    }
    return Some(s.(records := records, known := s.known[r.event := r], findings := findings.value, results := results,
                   revision := s.revision + 1, join := join));
  }

  // ------------------------------------------------------------------
  // Finalizing.
  // ------------------------------------------------------------------

  datatype FinalPayload = FinalPayload(
    review: Uuid, subject: AggregateRef, epoch: nat, branchPolicyRevision: nat, expectedRevision: nat, status: Status,
    resultEvents: seq<Uuid>, evidence: seq<Uuid>, scope: nat, profile: WorkProfile, candidate: Digest, topology: Digest)

  ghost function Carriers(records: map<Branch, Record>, id: Uuid): set<Branch> {
    set b | b in records && records[b].event == id
  }

  /** ids lists the events of the current records, one for each record. */
  ghost predicate SameEvents(records: map<Branch, Record>, ids: seq<Uuid>) {
    forall id :: multiset(ids)[id] == |Carriers(records, id)|
  }

  predicate Addressed(s: Snapshot, event: Uuid, v: FinalPayload) {
    && v.review.Valid() && event.Valid() && s.finalization.None? && v.subject == s.terms.subject
       && v.epoch == s.terms.epoch
    && v.branchPolicyRevision == s.terms.branchPolicyRevision && v.expectedRevision == s.revision
    && s.join.complete && v.status == s.join.status && ValidSet(v.resultEvents, true) && ValidSet(v.evidence, true)
    && (s.terms.topologyBound ==>
          v.scope == s.terms.scope && v.profile == s.terms.profile && v.candidate == s.terms.candidate
              && v.topology == s.terms.topology)
  }

  function Finalize(s: Snapshot, event: Uuid, v: FinalPayload): Snapshot {
    s.(finalization := Some(Finalization(event, v.expectedRevision, v.status, Canonical(v.resultEvents), v.evidence,
                                         v.scope,
                                         v.profile, v.candidate, v.topology)))
  }

  ghost function Finalized(s: Snapshot, event: Uuid, v: FinalPayload): Option<Snapshot> {
    if Addressed(s, event, v) && SameEvents(s.records, v.resultEvents) then Some(Finalize(s, event, v)) else None
  }

  lemma CarriersMore(records: map<Branch, Record>, b: Branch, r: Record, id: Uuid)
    requires b !in records
    ensures |Carriers(records[b := r], id)| == |Carriers(records, id)| + (if r.event == id then 1 else 0)
  {
    if r.event == id {
      assert Carriers(records[b := r], id) == Carriers(records, id) + {b};
    } else {
      assert Carriers(records[b := r], id) == Carriers(records, id);
    }
  }

  lemma SameEventsMore(records: map<Branch, Record>, ids: seq<Uuid>, b: Branch, r: Record)
    requires SameEvents(records, ids) && b !in records
    ensures SameEvents(records[b := r], ids + [r.event])
  {
    hide Carriers;
    assert multiset(ids + [r.event]) == multiset(ids) + multiset{r.event};
    forall id ensures multiset(ids + [r.event])[id] == |Carriers(records[b := r], id)| {
      CarriersMore(records, b, r, id);
    }
  }

  method ResultEvents(records: map<Branch, Record>) returns (want: seq<Uuid>)
    ensures SameEvents(records, want)
  {
    want := [];
    var pending := records.Keys;
    assert SameEvents(Restrict(records, {}), want);
    hide SameEvents;
    while pending != {}
      invariant pending <= records.Keys
      invariant SameEvents(Restrict(records, records.Keys - pending), want)
      decreases pending
    {
      var b :| b in pending;
      ghost var before := Restrict(records, records.Keys - pending);
      pending := pending - {b};
      SameEventsMore(before, want, b, records[b]);
      assert Restrict(records, records.Keys - pending) == before[b := records[b]];
      want := want + [records[b].event];
    }
    assert Restrict(records, records.Keys - {}) == records;
  }

  method ApplyReviewFinalization(s: Snapshot, event: Uuid, v: FinalPayload) returns (next: Option<Snapshot>)
    ensures next == Finalized(s, event, v)
  {
    if !Addressed(s, event, v) {
      return None;
    }
    var events := ResultEvents(s.records);
    BeforeWeakOrder();
    var want := SortSlice(events, Before);
    var got := SortSlice(v.resultEvents, Before);
    SortedIsCanonical(events, want);
    SortedIsCanonical(v.resultEvents, got);
    CanonicalIffPermutation(events, v.resultEvents);
    if want != got {
      assert exists id :: multiset(events)[id] != multiset(v.resultEvents)[id];
      return None;
    }
    return Some(s.(finalization := Some(Finalization(event, v.expectedRevision, v.status, got, v.evidence, v.scope,
                                                     v.profile, v.candidate, v.topology))));
  }

  // ------------------------------------------------------------------
  // Every reachable review.
  // ------------------------------------------------------------------

  /** What CompletionReviewFromPayload returns for a review with branches. */
  ghost predicate Opened(s: Snapshot) {
    && ValidRequired(s.terms.required, s.terms.policy)
    && s.terms.branches.Keys == (set b | b in s.terms.required)
    && s.results == map[] && s.records == map[] && s.known == map[] && s.findings == map[]
    && s.revision == 1 && s.finalization.None? && s.join == JoinOf(s.terms, map[])
  }

  datatype Input = BranchResult(record: Record) | Finalizing(event: Uuid, payload: FinalPayload)

  ghost function Step(s: Snapshot, input: Input): Option<Snapshot> {
    match input
    case BranchResult(r) => if ResultParses(r) then Applied(s, r) else None
    case Finalizing(event, v) => Finalized(s, event, v)
  }

  ghost function Run(s: Snapshot, inputs: seq<Input>): Option<Snapshot> {
    if |inputs| == 0 then Some(s)
    else
      var before := Run(s, inputs[..|inputs| - 1]);
      if before.None? then None else Step(before.value, inputs[|inputs| - 1])
  }

  ghost predicate TermsOk(t: Terms) {
    ValidRequired(t.required, t.policy) && t.branches.Keys == (set b | b in t.required)
  }

  /** Results mirror the records, and each record stands under its own branch and event. */
  ghost predicate Mirrored(s: Snapshot) {
    && s.records.Keys == s.results.Keys
    && (forall b :: b in s.records ==>
          && s.records[b].branch == b && s.results[b] == s.records[b].verdict
          && s.records[b].event in s.known && s.known[s.records[b].event] == s.records[b])
  }

  ghost predicate AllAdmissible(s: Snapshot) {
    forall b :: b in s.records ==> Admissible(s.terms, s.records[b])
  }

  ghost predicate FinalizedWell(s: Snapshot) {
    s.finalization.Some? ==>
      && s.join.complete && s.finalization.value.status == s.join.status
      && (forall id :: id in s.finalization.value.resultEvents <==>
          exists b :: b in s.records && s.records[b].event == id)
  }

  ghost predicate Inv(s: Snapshot) {
    && TermsOk(s.terms) && Mirrored(s) && AllAdmissible(s)
    && FindingsOf(s.records, s.findings)
    && s.join == JoinOf(s.terms, s.results) && !s.join.status.Conflict?
    && s.revision == 1 + |s.known|
    && FinalizedWell(s)
  }

  lemma OpenedInv(s: Snapshot)
    requires Opened(s)
    ensures Inv(s)
  {
    hide ValidRequired, ValidVerdict;
    assert Entries(map[]) == {};
    assert Coherent(s.terms.required, {});
    assert Verdicts({}) == {};
  }

  lemma AppliedFacts(s: Snapshot, r: Record)
    requires Applied(s, r).Some?
    ensures var t := Applied(s, r).value;
            && t.terms == s.terms && t.finalization.None? && t.records == s.records[r.branch := r]
            && t.known == s.known[r.event := r] && t.results == s.results[r.branch := r.verdict]
            && FindingsOf(t.records, t.findings) && t.join == JoinOf(t.terms, t.results) && !t.join.status.Conflict?
            && t.revision == s.revision + 1 && Admissible(s.terms, r) && r.event !in s.known
  {
    hide Reason, Admissible, Supersedes, JoinOf, FindingsOf;
    AcceptedIff(s, r, Consistent(s.records[r.branch := r]));
  }

  lemma AppliedMirrors(s: Snapshot, t: Snapshot, r: Record)
    requires Mirrored(s) && AllAdmissible(s) && Admissible(s.terms, r) && r.event !in s.known && t.terms == s.terms
    requires t.records == s.records[r.branch := r] && t.known == s.known[r.event := r]
             && t.results == s.results[r.branch := r.verdict]
    ensures Mirrored(t) && AllAdmissible(t)
  {
    hide Admissible;
  }

  lemma AppliedInv(s: Snapshot, r: Record)
    requires Inv(s) && Applied(s, r).Some?
    ensures Inv(Applied(s, r).value)
  {
    hide Applied, TermsOk, Admissible, AllAdmissible, Mirrored, JoinOf, FindingsOf;
    AppliedFacts(s, r);
    var next := Applied(s, r).value;
    AppliedMirrors(s, next, r);
    assert |next.known| == |s.known| + 1 by {
      assert next.known.Keys == s.known.Keys + {r.event};
    }
  }

  lemma SameEventsMembers(records: map<Branch, Record>, ids: seq<Uuid>, id: Uuid)
    requires SameEvents(records, ids)
    ensures id in ids <==> exists b :: b in records && records[b].event == id
  {
    assert multiset(ids)[id] == |Carriers(records, id)|;
    if b :| b in records && records[b].event == id {
      assert b in Carriers(records, id);
    }
    if id in ids {
      assert Carriers(records, id) != {};
      var b :| b in Carriers(records, id);
    }
  }

  lemma FinalizedInv(s: Snapshot, event: Uuid, v: FinalPayload)
    requires Inv(s) && Finalized(s, event, v).Some?
    ensures Inv(Finalized(s, event, v).value)
  {
    hide ValidSet, JoinOf, TermsOk, Admissible, FindingsOf, SameEvents, Canonical;
    SameElements(Canonical(v.resultEvents), v.resultEvents);
    forall id ensures id in v.resultEvents <==> exists b :: b in s.records && s.records[b].event == id {
      SameEventsMembers(s.records, v.resultEvents, id);
    }
  }

  /** In every reachable review the stored join is the join of the current records and never
      CONFLICT, the findings are those of the current records, and every record is admissible. */
  lemma {:induction false} ReachableInv(s: Snapshot, inputs: seq<Input>)
    requires Opened(s) && Run(s, inputs).Some?
    ensures Inv(Run(s, inputs).value)
  {
    hide Opened, Inv, Applied, Finalized;
    if |inputs| == 0 {
      OpenedInv(s);
    } else {
      var n := |inputs| - 1;
      ReachableInv(s, inputs[..n]);
      match inputs[n]
      case BranchResult(r) => AppliedInv(Run(s, inputs[..n]).value, r);
      case Finalizing(event, v) => FinalizedInv(Run(s, inputs[..n]).value, event, v);
    }
  }

  /** A PASS result inside its limits: from the branch's own validator or the adjudicator. */
  ghost predicate SoundPass(t: Terms, b: Branch, r: Record) {
    && b in t.branches && r.verdict.PASS? && r.decidedAt.Some? && r.round > 0
    && (|| (r.role.Validator? && r.authority == t.branches[b].validator && r.round <= t.branches[b].roundLimit
            && r.decidedAt.value <= t.branches[b].deadline)
        || (r.role.Adjudicator? && r.authority == t.adjudication.adjudicator && r.round <= t.adjudication.roundLimit
            && r.decidedAt.value <= t.adjudication.deadline))
    && (t.topologyBound ==> r.candidate == t.candidate && Independent(t, t.branches[b], r))
  }

  /** A review finalized PASS: every required branch holds a sound PASS, none of them from a
      policy timeout, and the finalization names exactly their events. */
  lemma PassFinalization(s: Snapshot, inputs: seq<Input>, b: Branch)
    requires Opened(s) && Run(s, inputs).Some?
    requires var f := Run(s, inputs).value.finalization; f.Some? && f.value.status == Terminal(PASS)
    requires b in Run(s, inputs).value.terms.required
    ensures var q := Run(s, inputs).value;
            b in q.records && SoundPass(q.terms, b, q.records[b])
                && q.records[b].event in q.finalization.value.resultEvents
  {
    hide Opened, Run, Applied, Finalized;
    ReachableInv(s, inputs);
    FinalizedPassIsSound(Run(s, inputs).value, b);
  }

  lemma FinalizedPassIsSound(q: Snapshot, b: Branch)
    requires Inv(q) && q.finalization.Some? && q.finalization.value.status == Terminal(PASS) && b in q.terms.required
    ensures b in q.records && SoundPass(q.terms, b, q.records[b])
            && q.records[b].event in q.finalization.value.resultEvents
  {
    hide Admissible, SoundPass, TermsOk, FindingsOf;
    assert q.join.status == Terminal(PASS);
    assert Entries(q.results) == AllPass(q.terms.required) by {
      hide JoinSpec;
      JoinedPass(q.terms.required, q.terms.policy, Entries(q.results), |q.results|);
    }
    hide JoinOf, FindingsOf, Admissible, SoundPass, Verdicts;
    assert Entry(b, PASS) in AllPass(q.terms.required);
    assert b in q.results && q.results[b].PASS?;
    AdmissiblePass(q.terms, b, q.records[b]);
  }

  lemma AdmissiblePass(t: Terms, b: Branch, r: Record)
    requires Admissible(t, r) && r.branch == b && r.verdict.PASS?
    ensures SoundPass(t, b, r)
  {
    hide Independent, ValidSet, Uuid.Valid;
  }

  /** After finalization neither a result nor a second finalization is accepted. */
  lemma FinalizedAbsorbs(s: Snapshot, input: Input)
    requires s.finalization.Some?
    ensures Step(s, input).None?
  {
  }

  /** The rounds of one branch do not bound its results: once an adjudicator has answered a
      validator, the validator may answer again in the very same round. */
  lemma RoundsMayRepeat(s: Snapshot, a: Record, event: Uuid)
    requires Inv(s) && a.branch in s.records && s.records[a.branch].role.Validator?
    requires a.role.Adjudicator? && Applied(s, a).Some?
    requires event.Valid() && event !in s.known && event != a.event
    ensures var again := s.records[a.branch].(event := event, supersedes := [a.event], changed := [event]);
            Applied(Applied(s, a).value, again).Some?
  {
    hide TermsOk, Admissible, FindingsOf, JoinOf, FinalizedWell, Applied, Uuid.Valid, ValidRequired;
    var prior := s.records[a.branch];
    var again := prior.(event := event, supersedes := [a.event], changed := [event]);
    assert Admissible(s.terms, prior) && prior.branch == a.branch && s.results[a.branch] == prior.verdict;
    AgainAdmissible(s.terms, prior, again);
    AppliedFacts(s, a);
    var t := Applied(s, a).value;
    assert t.results[again.branch := again.verdict] == s.results;
    SameFindings(s.records, t.records[again.branch := again], a.branch, s.findings);
    hide Consistent, Mirrored, Inv;
    Accepts(t, again);
  }

  lemma AgainAdmissible(t: Terms, prior: Record, again: Record)
    requires Admissible(t, prior) && again.event.Valid()
    requires again == prior.(event := again.event, supersedes := again.supersedes, changed := again.changed)
    ensures Admissible(t, again)
  {
    hide ValidSet, Independent, Uuid.Valid;
    AgainIndependent(t, prior, again);
  }

  lemma AgainIndependent(t: Terms, prior: Record, again: Record)
    requires again == prior.(event := again.event, supersedes := again.supersedes, changed := again.changed)
             && prior.branch in t.branches
    ensures Independent(t, t.branches[prior.branch], again) <==> Independent(t, t.branches[prior.branch], prior)
  {
  }

  lemma Accepts(t: Snapshot, r: Record)
    requires t.finalization.None? && Admissible(t.terms, r) && r.event !in t.known && Supersedes(t, r)
    requires Consistent(t.records[r.branch := r]) && !JoinOf(t.terms, t.results[r.branch := r.verdict]).status.Conflict?
    ensures Applied(t, r).Some?
  {
    hide Admissible, Reason, JoinOf, Supersedes;
    AcceptedIff(t, r, true);
  }

  lemma SameFindings(records: map<Branch, Record>, other: map<Branch, Record>, b: Branch, m: map<Digest, Finding>)
    requires b in records && b in other && records.Keys == other.Keys && records[b].findings == other[b].findings
    requires forall c :: c in records && c != b ==> records[c] == other[c]
    requires FindingsOf(records, m)
    ensures Consistent(other)
  {
    FindingsUnique(records, m, m);
    forall f | Holds(other, f) ensures Holds(records, f) {
      var c :| c in other && f in other[c].findings;
      assert f in records[c].findings;
    }
  }

  // ------------------------------------------------------------------
  // What round limits bound.
  // ------------------------------------------------------------------

  ghost predicate ValidVerdicts(results: map<Branch, Verdict>) {
    forall b :: b in results ==> ValidVerdict(results[b])
  }

  /** A results map over the required branches never conflicts. */
  lemma NoConflict(t: Terms, results: map<Branch, Verdict>)
    requires TermsOk(t) && results.Keys <= t.branches.Keys
    requires ValidVerdicts(results)
    ensures !JoinOf(t, results).status.Conflict?
  {
    hide ValidVerdict;
    DistinctSize(t.required);
    SubsetSize(results.Keys, set b | b in t.required);
    assert |results| == |results.Keys|;
  }

  /** In a reachable review the join never refuses a result that passed its checks. */
  lemma AppliedIff(s: Snapshot, r: Record)
    requires Inv(s)
    ensures Applied(s, r).Some? <==>
            && s.finalization.None? && Admissible(s.terms, r) && r.event !in s.known && Supersedes(s, r)
            && Consistent(s.records[r.branch := r])
  {
    AcceptedIff(s, r, Consistent(s.records[r.branch := r]));
    if s.finalization.None? && Admissible(s.terms, r) {
      AdmissibleResults(s, r);
      NoConflict(s.terms, s.results[r.branch := r.verdict]);
    }
    hide Reason, Admissible, Supersedes, JoinOf, FindingsOf, Consistent, Inv;
  }

  lemma AdmissibleResults(s: Snapshot, r: Record)
    requires Inv(s) && Admissible(s.terms, r)
    ensures TermsOk(s.terms) && s.results[r.branch := r.verdict].Keys <= s.terms.branches.Keys
    ensures ValidVerdicts(s.results[r.branch := r.verdict])
  {
    hide TermsOk, FindingsOf, JoinOf, FinalizedWell, ByRole, ValidSet, Uuid.Valid;
    forall b | b in s.results ensures b in s.terms.branches && ValidVerdict(s.results[b]) {
      assert Admissible(s.terms, s.records[b]);
    }
  }

  function BranchResults(rs: seq<Record>): seq<Input> {
    seq(|rs|, i requires 0 <= i < |rs| => BranchResult(rs[i]))
  }

  /** A list of results for one branch, each superseding the one before it: all that the checks
      ask of them apart from their rounds. */
  ghost predicate Chain(s: Snapshot, b: Branch, rs: seq<Record>) {
    forall i :: 0 <= i < |rs| ==> Link(s, b, rs, i)
  }

  ghost predicate Link(s: Snapshot, b: Branch, rs: seq<Record>, i: nat)
    requires i < |rs|
  {
    && rs[i].branch == b && ResultParses(rs[i]) && Admissible(s.terms, rs[i])
    && Consistent(s.records[b := rs[i]]) && rs[i].event !in s.known
    && (forall j :: 0 <= j < i ==> rs[j].event != rs[i].event)
    && if i == 0 then rs[i].supersedes == [] else rs[i].supersedes == [rs[i - 1].event] && |rs[i].changed| > 0
  }

  /** Rounds rise wherever the role stays. */
  predicate RoundsRise(rs: seq<Record>) {
    forall i :: 0 < i < |rs| && rs[i].role == rs[i - 1].role ==> rs[i - 1].round < rs[i].round
  }

  ghost predicate Reached(s: Snapshot, t: Snapshot, b: Branch, rs: seq<Record>) {
    && Inv(t) && t.terms == s.terms && t.finalization.None?
    && t.known.Keys == s.known.Keys + (set r | r in rs :: r.event)
    && t.records == (if |rs| == 0 then s.records else s.records[b := rs[|rs| - 1]])
  }

  /** The last result of the list may follow the one before it. */
  predicate LastRises(rs: seq<Record>)
    requires |rs| > 0
  {
    var n := |rs| - 1;
    n == 0 || rs[n].role != rs[n - 1].role || rs[n - 1].round < rs[n].round
  }

  lemma LinkSupersedes(s: Snapshot, t: Snapshot, b: Branch, rs: seq<Record>)
    requires |rs| > 0 && Link(s, b, rs, |rs| - 1) && b !in s.records && Reached(s, t, b, rs[..|rs| - 1])
    ensures var r := rs[|rs| - 1];
            && r.branch == b && ResultParses(r) && Admissible(t.terms, r) && Consistent(t.records[b := r])
            && r.event !in t.known && (Supersedes(t, r) <==> LastRises(rs))
  {
    hide Admissible, Consistent, Inv, ResultParses;
    var n := |rs| - 1;
    assert t.records[b := rs[n]] == s.records[b := rs[n]];
    forall x | x in rs[..n] ensures x.event != rs[n].event {
      var j :| 0 <= j < n && rs[..n][j] == x;
    }
  }

  lemma LinkAccepted(s: Snapshot, t: Snapshot, b: Branch, rs: seq<Record>)
    requires |rs| > 0 && Link(s, b, rs, |rs| - 1) && b !in s.records && Reached(s, t, b, rs[..|rs| - 1])
    ensures Step(t, BranchResult(rs[|rs| - 1])).Some? <==> LastRises(rs)
  {
    hide Applied, Admissible, Consistent, Inv, ResultParses, Supersedes, Link, LastRises;
    LinkSupersedes(s, t, b, rs);
    AppliedIff(t, rs[|rs| - 1]);
  }

  lemma LinkReached(s: Snapshot, t: Snapshot, b: Branch, rs: seq<Record>)
    requires |rs| > 0 && rs[|rs| - 1].branch == b && Reached(s, t, b, rs[..|rs| - 1])
             && Step(t, BranchResult(rs[|rs| - 1])).Some?
    ensures Reached(s, Step(t, BranchResult(rs[|rs| - 1])).value, b, rs)
  {
    hide Applied, Admissible, Inv, JoinOf, FindingsOf;
    var n := |rs| - 1;
    AppliedInv(t, rs[n]);
    AppliedFacts(t, rs[n]);
    assert rs == rs[..n] + [rs[n]];
    assert (set r | r in rs :: r.event) == (set r | r in rs[..n] :: r.event) + {rs[n].event};
  }

  /** Which rounds a branch accepts, exactly: over any list of otherwise acceptable results, all
      are accepted if and only if the round rises wherever the role stays. A change of role
      starts afresh. */
  lemma {:induction false} AcceptedIffRoundsRise(s: Snapshot, b: Branch, rs: seq<Record>)
    requires Inv(s) && s.finalization.None? && b !in s.records && Chain(s, b, rs)
    ensures Run(s, BranchResults(rs)).Some? <==> RoundsRise(rs)
    ensures Run(s, BranchResults(rs)).Some? ==> Reached(s, Run(s, BranchResults(rs)).value, b, rs)
  {
    hide Step, Inv, Link, Reached, RoundsRise, LastRises;
    if |rs| == 0 {
      assert BranchResults(rs) == [];
      NoneReached(s, b);
    } else {
      var n := |rs| - 1;
      assert BranchResults(rs)[..n] == BranchResults(rs[..n]);
      ChainPrefix(s, b, rs, n);
      AcceptedIffRoundsRise(s, b, rs[..n]);
      RoundsRiseLast(rs);
      assert Link(s, b, rs, n);
      var before := Run(s, BranchResults(rs[..n]));
      if before.Some? {
        LinkAccepted(s, before.value, b, rs);
        if Step(before.value, BranchResult(rs[n])).Some? {
          LinkBranch(s, b, rs, n);
          LinkReached(s, before.value, b, rs);
        }
      }
    }
  }

  lemma NoneReached(s: Snapshot, b: Branch)
    requires Inv(s) && s.finalization.None?
    ensures Reached(s, s, b, []) && RoundsRise([])
  {
    hide Inv;
  }

  lemma LinkBranch(s: Snapshot, b: Branch, rs: seq<Record>, i: nat)
    requires i < |rs| && Link(s, b, rs, i)
    ensures rs[i].branch == b
  {
    hide Admissible, Consistent, ResultParses;
  }

  lemma ChainPrefix(s: Snapshot, b: Branch, rs: seq<Record>, n: nat)
    requires Chain(s, b, rs) && n <= |rs|
    ensures Chain(s, b, rs[..n])
  {
    hide Admissible, Consistent, ResultParses;
    forall i | 0 <= i < n ensures Link(s, b, rs[..n], i) {
      assert Link(s, b, rs, i);
    }
  }

  lemma RoundsRiseLast(rs: seq<Record>)
    requires |rs| > 0
    ensures RoundsRise(rs) <==> RoundsRise(rs[..|rs| - 1]) && LastRises(rs)
  {
  }

  // ------------------------------------------------------------------
  // The bound over every run.
  // ------------------------------------------------------------------

  predicate ForBranch(input: Input, b: Branch) {
    input.BranchResult? && input.record.branch == b
  }

  /** How many results of a run are for one branch. */
  function ResultsFor(inputs: seq<Input>, b: Branch): nat {
    if |inputs| == 0 then 0
    else ResultsFor(inputs[..|inputs| - 1], b) + (if ForBranch(inputs[|inputs| - 1], b) then 1 else 0)
  }

  function LastRole(inputs: seq<Input>, b: Branch): Option<Role> {
    if |inputs| == 0 then None
    else if ForBranch(inputs[|inputs| - 1], b) then Some(inputs[|inputs| - 1].record.role)
    else LastRole(inputs[..|inputs| - 1], b)
  }

  /** The last result is for the branch and comes from another role than the one before it. */
  predicate ChangesRole(inputs: seq<Input>, b: Branch)
    requires |inputs| > 0
  {
    var last := inputs[|inputs| - 1];
    ForBranch(last, b) && LastRole(inputs[..|inputs| - 1], b) !in {None, Some(last.record.role)}
  }

  function RoleChanges(inputs: seq<Input>, b: Branch): nat {
    if |inputs| == 0 then 0
    else RoleChanges(inputs[..|inputs| - 1], b) + (if ChangesRole(inputs, b) then 1 else 0)
  }

  /** The results at the end of a run that the same role gave in a row. */
  function Stretch(inputs: seq<Input>, b: Branch): nat {
    if |inputs| == 0 then 0
    else if ChangesRole(inputs, b) then 1
    else Stretch(inputs[..|inputs| - 1], b) + (if ForBranch(inputs[|inputs| - 1], b) then 1 else 0)
  }

  /** The most rounds a role has: a policy timeout has those a payload can name. */
  ghost function RoundLimit(t: Terms, b: Branch, role: Role): nat
    requires b in t.branches
  {
    match role
    case Validator => t.branches[b].roundLimit
    case Adjudicator => t.adjudication.roundLimit
    case PolicyTimeout => MAX_ROUND
    case OtherRole(_) => 0
  }

  ghost predicate Counted(s: Snapshot, b: Branch, role: Option<Role>, stretch: nat) {
    && (role.Some? <==> b in s.records)
    && (role.Some? ==> s.records[b].role == role.value && stretch <= s.records[b].round <= MAX_ROUND)
    && (role.None? ==> stretch == 0)
  }

  lemma CountedStep(s: Snapshot, r: Record, b: Branch, role: Option<Role>, stretch: nat)
    requires ResultParses(r) && Applied(s, r).Some? && Counted(s, b, role, stretch)
    ensures var same := if role == Some(r.role) then stretch + 1 else 1;
            Counted(Applied(s, r).value, b, if r.branch == b then Some(r.role) else role,
                    if r.branch == b then same else stretch)
  {
    AppliedFacts(s, r);
    AcceptedIff(s, r, Consistent(s.records[r.branch := r]));
    assert Supersedes(s, r) && 0 < r.round <= MAX_ROUND by {
      hide JoinOf, FindingsOf, ByRole, ValidSet, Uuid.Valid, Consistent;
    }
    hide Applied, Reason, Admissible, FindingsOf, JoinOf, Consistent, ResultParses;
  }

  lemma FinalizedKeeps(s: Snapshot, event: Uuid, v: FinalPayload)
    requires Finalized(s, event, v).Some?
    ensures Finalized(s, event, v).value.records == s.records && Finalized(s, event, v).value.terms == s.terms
  {
  }

  lemma {:induction false} CountedRun(s: Snapshot, inputs: seq<Input>, b: Branch)
    requires Opened(s) && Run(s, inputs).Some?
    ensures Counted(Run(s, inputs).value, b, LastRole(inputs, b), Stretch(inputs, b))
            && Run(s, inputs).value.terms == s.terms
  {
    hide Applied, Finalized, ResultParses;
    if |inputs| == 0 {
      assert Run(s, inputs).value == s;
    } else {
      var n := |inputs| - 1;
      CountedRun(s, inputs[..n], b);
      hide Opened;
      var before := Run(s, inputs[..n]).value;
      match inputs[n]
      case BranchResult(r) =>
        CountedStep(before, r, b, LastRole(inputs[..n], b), Stretch(inputs[..n], b));
        AppliedFacts(before, r);
      case Finalizing(event, v) => FinalizedKeeps(before, event, v);
    }
  }

  /** In every run, the results one role gives a branch in a row are at most its rounds. */
  lemma StretchBounded(s: Snapshot, inputs: seq<Input>, b: Branch)
    requires Opened(s) && Run(s, inputs).Some? && LastRole(inputs, b).Some?
    ensures b in s.terms.branches
    ensures Stretch(inputs, b) <= RoundLimit(s.terms, b, LastRole(inputs, b).value)
  {
    hide Opened, Run, FindingsOf, JoinOf, Uuid.Valid, ValidSet, Independent, TermsOk;
    CountedRun(s, inputs, b);
    ReachableInv(s, inputs);
    assert Admissible(s.terms, Run(s, inputs).value.records[b]);
  }

  lemma RunBefore(s: Snapshot, inputs: seq<Input>)
    requires |inputs| > 0 && Run(s, inputs).Some?
    ensures Run(s, inputs[..|inputs| - 1]).Some?
  {
    hide Step;
  }

  /** Every role that answers the branch has at most this many rounds. */
  ghost predicate LimitsWithin(t: Terms, inputs: seq<Input>, b: Branch, most: nat)
    requires b in t.branches
  {
    forall input :: input in inputs && ForBranch(input, b) ==> RoundLimit(t, b, input.record.role) <= most
  }

  lemma {:induction false} LastRoleWithin(t: Terms, inputs: seq<Input>, b: Branch, most: nat)
    requires b in t.branches && LimitsWithin(t, inputs, b, most)
    ensures LastRole(inputs, b).Some? ==> RoundLimit(t, b, LastRole(inputs, b).value) <= most
  {
    hide RoundLimit;
    if |inputs| == 0 {
      assert LastRole(inputs, b).None?;
    } else {
      LastRoleWithin(t, inputs[..|inputs| - 1], b, most);
    }
  }

  lemma {:induction false} ResultsAndStretch(s: Snapshot, inputs: seq<Input>, b: Branch, most: nat)
    requires Opened(s) && Run(s, inputs).Some? && b in s.terms.branches && LimitsWithin(s.terms, inputs, b, most)
    ensures ResultsFor(inputs, b) <= RoleChanges(inputs, b) * most + Stretch(inputs, b)
    ensures Stretch(inputs, b) <= most
  {
    hide Run, RoundLimit, Opened;
    if |inputs| == 0 {
      assert ResultsFor(inputs, b) == 0;
    } else {
      var n := |inputs| - 1;
      RunBefore(s, inputs);
      ResultsAndStretch(s, inputs[..n], b, most);
      if ChangesRole(inputs, b) {
        assert (RoleChanges(inputs[..n], b) + 1) * most == RoleChanges(inputs[..n], b) * most + most;
      }
      LastRoleWithin(s.terms, inputs, b, most);
      if LastRole(inputs, b).Some? {
        StretchBounded(s, inputs, b);
      } else {
        NoResults(inputs, b);
      }
    }
  }

  lemma {:induction false} NoResults(inputs: seq<Input>, b: Branch)
    requires LastRole(inputs, b).None?
    ensures Stretch(inputs, b) == 0
  {
    if |inputs| == 0 {
      assert Stretch(inputs, b) == 0;
    } else {
      NoResults(inputs[..|inputs| - 1], b);
    }
  }

  /** Over every run, the results a branch accepts are at most the rounds of the roles that
      answer it, once for each time the role changes and once more. */
  lemma ResultsBounded(s: Snapshot, inputs: seq<Input>, b: Branch, most: nat)
    requires Opened(s) && Run(s, inputs).Some? && b in s.terms.branches && LimitsWithin(s.terms, inputs, b, most)
    ensures ResultsFor(inputs, b) <= (RoleChanges(inputs, b) + 1) * most
  {
    ResultsAndStretch(s, inputs, b, most);
    assert (RoleChanges(inputs, b) + 1) * most == RoleChanges(inputs, b) * most + most;
  }

  ghost predicate OneRole(inputs: seq<Input>, b: Branch, role: Role) {
    forall input :: input in inputs && ForBranch(input, b) ==> input.record.role == role
  }

  lemma {:induction false} NoChanges(inputs: seq<Input>, b: Branch, role: Role)
    requires OneRole(inputs, b, role)
    ensures RoleChanges(inputs, b) == 0 && LastRole(inputs, b) in {None, Some(role)}
  {
    if |inputs| == 0 {
      assert RoleChanges(inputs, b) == 0;
    } else {
      NoChanges(inputs[..|inputs| - 1], b, role);
    }
  }

  /** While one role alone answers a branch its rounds bound the accepted results; for policy
      timeouts that is only the largest round a payload can name. */
  lemma OneRoleBounded(s: Snapshot, inputs: seq<Input>, b: Branch, role: Role)
    requires Opened(s) && Run(s, inputs).Some? && OneRole(inputs, b, role) && b in s.terms.branches
    ensures ResultsFor(inputs, b) <= RoundLimit(s.terms, b, role)
  {
    hide Opened, Run, RoundLimit;
    NoChanges(inputs, b, role);
    ResultsBounded(s, inputs, b, RoundLimit(s.terms, b, role));
  }

  // ------------------------------------------------------------------
  // The bound is met, and a change of role escapes it.
  // ------------------------------------------------------------------

  /** The same answer under another event, superseding the one before it. */
  function Redated(r: Record, ids: seq<Uuid>, i: nat): Record
    requires i < |ids|
  {
    r.(event := ids[i], supersedes := if i == 0 then [] else [ids[i - 1]], changed := [ids[i]])
  }

  /** The answers of a validator and of the adjudicator in turn. */
  function Alternating(v: Record, a: Record, ids: seq<Uuid>): seq<Record> {
    seq(|ids|, i requires 0 <= i < |ids| => Redated(if i % 2 == 0 then v else a, ids, i))
  }

  /** The answers of one policy timeout, in rounds one, two, three... */
  function Repeating(p: Record, ids: seq<Uuid>): seq<Record> {
    seq(|ids|, i requires 0 <= i < |ids| => Redated(p.(round := i + 1), ids, i))
  }

  ghost predicate FreshIds(s: Snapshot, ids: seq<Uuid>) {
    Distinct(ids) && forall i :: 0 <= i < |ids| ==> ids[i].Valid() && ids[i] !in s.known
  }

  /** An answer that the open review would take as the first one of its branch. */
  ghost predicate Answers(s: Snapshot, r: Record) {
    && Inv(s) && s.finalization.None? && r.branch !in s.records
    && ResultParses(r) && Admissible(s.terms, r) && Consistent(s.records[r.branch := r])
  }

  lemma RedatedLink(s: Snapshot, r: Record, rs: seq<Record>, ids: seq<Uuid>, i: nat)
    requires Answers(s, r) && FreshIds(s, ids) && |rs| == |ids| && i < |ids| && rs[i] == Redated(r, ids, i)
    requires forall j :: 0 <= j < |ids| ==> rs[j].event == ids[j]
    ensures Link(s, r.branch, rs, i)
  {
    RedatedAdmissible(s.terms, r, ids, i);
    hide Inv, Admissible, ResultParses, Uuid.Valid;
    SameFindingsConsistent(s.records, r, rs[i]);
    assert forall j :: 0 <= j < i ==> ids[j] != ids[i];
  }

  lemma RedatedAdmissible(t: Terms, r: Record, ids: seq<Uuid>, i: nat)
    requires Admissible(t, r) && ResultParses(r) && i < |ids| && forall k :: 0 <= k < |ids| ==> ids[k].Valid()
    ensures Admissible(t, Redated(r, ids, i)) && ResultParses(Redated(r, ids, i))
  {
    hide Uuid.Valid, Digest.Valid;
    AgainAdmissible(t, r, Redated(r, ids, i));
    hide Admissible;
  }

  lemma SameFindingsConsistent(records: map<Branch, Record>, r: Record, again: Record)
    requires Consistent(records[r.branch := r]) && again.branch == r.branch && again.findings == r.findings
    ensures Consistent(records[r.branch := again])
  {
    var earlier, later := records[r.branch := r], records[r.branch := again];
    forall f | Holds(later, f) ensures Holds(earlier, f) {
      var b :| b in later && f in later[b].findings;
      assert f in earlier[b].findings;
    }
  }

  lemma {:induction false} CountAll(b: Branch, rs: seq<Record>)
    requires forall r :: r in rs ==> r.branch == b
    ensures ResultsFor(BranchResults(rs), b) == |rs|
  {
    if |rs| == 0 {
      assert BranchResults(rs) == [];
    } else {
      var n := |rs| - 1;
      assert BranchResults(rs)[..n] == BranchResults(rs[..n]);
      CountAll(b, rs[..n]);
    }
  }

  /** Nothing bounds the results once roles alternate: an answer of the validator and one of
      the adjudicator, in whatever rounds, are accepted again in turn for as long as there are
      new event ids. */
  lemma AlternatingUnbounded(s: Snapshot, v: Record, a: Record, ids: seq<Uuid>)
    requires Answers(s, v) && Answers(s, a) && v.branch == a.branch && FreshIds(s, ids)
    requires v.role.Validator? && a.role.Adjudicator?
    ensures Run(s, BranchResults(Alternating(v, a, ids))).Some?
    ensures ResultsFor(BranchResults(Alternating(v, a, ids)), v.branch) == |ids|
  {
    hide Run, Admissible, ResultParses, Consistent, Inv, Link, FreshIds;
    var rs := Alternating(v, a, ids);
    forall i | 0 <= i < |rs| ensures Link(s, v.branch, rs, i) {
      RedatedLink(s, if i % 2 == 0 then v else a, rs, ids, i);
    }
    assert RoundsRise(rs);
    AcceptedIffRoundsRise(s, v.branch, rs);
    CountAll(v.branch, rs);
  }

  /** Policy timeouts fill every round a payload can name, whatever the round limits of the
      review. */
  lemma TimeoutsFillRounds(s: Snapshot, p: Record, ids: seq<Uuid>)
    requires Answers(s, p) && p.role.PolicyTimeout? && FreshIds(s, ids) && |ids| <= MAX_ROUND
    ensures Run(s, BranchResults(Repeating(p, ids))).Some?
    ensures ResultsFor(BranchResults(Repeating(p, ids)), p.branch) == |ids|
  {
    hide Run, Consistent, Inv, Link, FreshIds, ValidSet, Uuid.Valid;
    var rs := Repeating(p, ids);
    forall i | 0 <= i < |rs| ensures rs[i].event == ids[i] && rs[i].branch == p.branch && rs[i].round == i + 1 {
      assert rs[i] == Redated(p.(round := i + 1), ids, i);
    }
    forall i | 0 <= i < |rs| ensures Link(s, p.branch, rs, i) {
      TimeoutAnswers(s, p, i + 1);
      RedatedLink(s, p.(round := i + 1), rs, ids, i);
    }
    assert RoundsRise(rs);
    AcceptedIffRoundsRise(s, p.branch, rs);
    CountAll(p.branch, rs);
  }

  lemma TimeoutAnswers(s: Snapshot, p: Record, round: nat)
    requires Answers(s, p) && p.role.PolicyTimeout? && 0 < round <= MAX_ROUND
    ensures Answers(s, p.(round := round))
  {
    hide Inv, ValidSet, Uuid.Valid, Digest.Valid, Consistent;
    SameFindingsConsistent(s.records, p, p.(round := round));
  }

  // ------------------------------------------------------------------
  // A topology-bound review that takes such answers.
  // ------------------------------------------------------------------

  /** One branch, one round for each role, and another principal than the implementer asked for. */
  function SampleTerms(id: Uuid, digest: Digest, who: Identity, validator: Principal, adjudicator: Principal): Terms {
    var b := Branch("branch");
    var spec := Spec(b, validator, who.actor, [Text("criterion")], [id], 0, 1, [PrincipalDimension], [Text("method")]);
    Terms(AggregateRef(Task, id), 1, 1, [b], map[b := spec], Adjudication(adjudicator, 0, 1), WaitAll, true, 1,
          WorkProfile(id, 1, digest, 1, 1), digest, who, digest)
  }

  function SampleAnswer(id: Uuid, digest: Digest, role: Role, authority: Principal): Record {
    Record(Branch("branch"), role, authority, 1, FAIL, [], [id], [], [], [], id, Some(0), digest,
           Receipt([PrincipalDimension], digest, [Text("method")], [id]), None, None)
  }

  ghost function SampleReview(t: Terms): Snapshot {
    Snapshot(t, map[], map[], map[], map[], 1, None, JoinOf(t, map[]))
  }

  lemma SampleAdmissible(id: Uuid, digest: Digest, who: Identity, validator: Principal, adjudicator: Principal)
    requires id.Valid() && digest.Valid() && who.Valid() && validator.Valid() && adjudicator.Valid()
    requires who.principal !in {validator, adjudicator}
    ensures var t := SampleTerms(id, digest, who, validator, adjudicator);
            && Admissible(t, SampleAnswer(id, digest, Validator, validator))
            && Admissible(t, SampleAnswer(id, digest, Adjudicator, adjudicator))
  {
    hide Uuid.Valid, Digest.Valid, Actor.Valid;
    assert Distinct([id]) && Distinct([Text("method")]) && Distinct([PrincipalDimension]);
  }

  lemma SampleParses(id: Uuid, digest: Digest, role: Role, authority: Principal)
    requires id.Valid()
    ensures ResultParses(SampleAnswer(id, digest, role, authority))
    ensures Consistent(map[Branch("branch") := SampleAnswer(id, digest, role, authority)])
  {
    hide Uuid.Valid;
  }

  /** An opened topology-bound review with one round for each role, and the two answers that it
      goes on taking in turn. */
  lemma BoundReviewAlternates(id: Uuid, digest: Digest, who: Identity, validator: Principal, adjudicator: Principal,
                              ids: seq<Uuid>)
    returns (s: Snapshot, v: Record, a: Record)
    requires id.Valid() && digest.Valid() && who.Valid() && validator.Valid() && adjudicator.Valid()
    requires who.principal !in {validator, adjudicator}
    requires Distinct(ids) && forall i :: 0 <= i < |ids| ==> ids[i].Valid()
    ensures Opened(s) && s.terms.topologyBound && s.terms.adjudication.roundLimit == 1
    ensures v.branch in s.terms.branches && s.terms.branches[v.branch].roundLimit == 1
    ensures Run(s, BranchResults(Alternating(v, a, ids))).Some?
    ensures ResultsFor(BranchResults(Alternating(v, a, ids)), v.branch) == |ids|
  {
    hide Uuid.Valid, Digest.Valid, Identity.Valid, Admissible, ResultParses, Consistent, Run, JoinOf;
    var t := SampleTerms(id, digest, who, validator, adjudicator);
    s := SampleReview(t);
    v := SampleAnswer(id, digest, Validator, validator);
    a := SampleAnswer(id, digest, Adjudicator, adjudicator);
    assert Opened(s) by { assert |"branch"| == 6; }
    OpenedInv(s);
    SampleAdmissible(id, digest, who, validator, adjudicator);
    SampleParses(id, digest, Validator, validator);
    SampleParses(id, digest, Adjudicator, adjudicator);
    assert s.records[v.branch := v] == map[v.branch := v] && s.records[a.branch := a] == map[a.branch := a];
    hide Opened, Inv;
    AlternatingUnbounded(s, v, a, ids);
  }
}
