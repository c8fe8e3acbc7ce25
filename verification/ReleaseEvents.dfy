/** Exactly which events a reachable CODE release plan accepts, and what each leaves, on the fields
    of the plan and of the event. See kernel/release.go.
 */
module ReleaseEvents {
  import opened Orders
  import opened Ids
  import opened Release

  /** The event stands at the plan's next revision. */
  predicate Follows(p: Plan, e: Event) {
    e.aggregate == p.terms.id && e.revision == p.revision + 1 && e.id.Valid() && e.committed
  }

  /** The payload names the plan as it is. */
  predicate Names(p: Plan, plan: Uuid, expectedRevision: nat, planDigest: Digest) {
    (plan, expectedRevision, planDigest) == (p.terms.id, p.revision, p.terms.planDigest)
  }

  lemma InvFacts(p: Plan)
    requires Inv(p)
    ensures p.terms.mode.Code? && p.revision > 0 && p.terms.id.Valid() && p.terms.planDigest.Valid()
    ensures p.next <= |p.terms.merges| && 0 < p.round <= p.terms.roundLimit && !p.terms.expectedTree.Empty()
    ensures p.terms.manifest == CONTRACT && p.terms.manifestDigest.Valid() && |p.terms.merges| > 0
            && !p.terms.base.Empty()
    ensures forall m :: m in p.terms.merges ==> m.id.Valid() && !m.head.Empty()
    ensures p.state in {Executing, Reconciling} ==>
              && p.active.Some? && p.active.value.id.Valid() && p.active.value.round == p.round
                 && p.next < |p.terms.merges|
              && p.active.value.merge == p.terms.merges[p.next].id && p.finalization.None?
    ensures p.state.Qualified? ==> p.qualification.Some? && p.active.None? && p.finalization.None?
  {
    hide Uuid.Valid, Digest.Valid, ResultValid, QualificationValid, MergedBefore, UntouchedAfter, TreeIsLast;
  }

  // ------------------------------------------------------------------
  // Qualification.
  // ------------------------------------------------------------------

  predicate Qualifying(p: Plan, b: Body) {
    && b.QualificationRecorded? && p.state.Planned? && b.expectedRevision == p.revision
       && b.planDigest == p.terms.planDigest
    && b.qualification.Valid() && b.base == p.terms.base && b.tree == p.terms.expectedTree
    && |b.heads| == |p.terms.merges| && (forall i :: 0 <= i < |b.heads| ==> b.heads[i] == p.terms.merges[i].head)
    && b.gate.Valid() && b.toolchain.Valid() && b.lock.Valid() && b.artifacts != [] && b.evidence != []
    && b.manifest == p.terms.manifest && b.manifestDigest == p.terms.manifestDigest
    && b.profiles == p.terms.profiles && b.profiles != []
  }

  /** A PLANNED plan is qualified exactly by a report on its own base, heads, tree, manifest and
      profiles. */
  lemma QualificationIff(p: Plan, e: Event)
    requires Inv(p) && e.body.QualificationRecorded?
    ensures Apply(p, e).Some? <==> Follows(p, e) && Qualifying(p, e.body)
    ensures Apply(p, e).Some? ==>
              var b := e.body;
              Apply(p, e) == Some(p.(state := Qualified, revision := p.revision + 1,
                                     qualification := Some(Qualification(e.id, b.qualification, b.base, b.heads, b.tree,
                                                                         b.gate,
                                                                         b.toolchain, b.lock, b.artifacts))))
  {
    HeadsIff(p.terms.merges, e.body.heads);
    InvFacts(p);
    hide Inv, TermsValid, ResultValid, Uuid.Valid, Digest.Valid, Heads;
    InvValid(p);
    if Follows(p, e) && Qualifying(p, e.body) {
      assert Branch(p, e).Some?;
      NextValid(p, Branch(p, e).value.(revision := p.revision + 1));
    }
  }

  lemma HeadsIff(merges: seq<Merge>, heads: seq<Text>)
    ensures heads == Heads(merges) <==> |heads| == |merges| && forall i :: 0 <= i < |heads| ==>
              heads[i] == merges[i].head
  {
  }

  /** A plan whose terms and results stay valid is valid when its state is. */
  lemma NextValid(p: Plan, q: Plan)
    requires Valid(p) && p.terms.mode.Code? && q.terms == p.terms && q.revision > 0 && q.results == p.results
    requires q.next == p.next && q.round == p.round && q.state.Qualified? && q.active.None? && q.finalization.None?
    requires q.qualification.Some? && QualificationValid(q.terms, q.qualification.value)
    ensures Valid(q)
  {
    hide TermsValid, ResultValid, QualificationValid;
  }

  // ------------------------------------------------------------------
  // Execution requests.
  // ------------------------------------------------------------------

  predicate Requesting(p: Plan, b: Body) {
    && b.ExecutionRequested? && p.state.Qualified? && Names(p, b.plan, b.expectedRevision, b.planDigest)
    && p.next < |p.terms.merges| && b.merge == p.terms.merges[p.next].id && b.round == p.round
    && b.attempt.Valid() && b.key != Text("") && b.evidence != []
  }

  /** A qualified plan takes exactly the request for its next merge in its current round. */
  lemma RequestIff(p: Plan, e: Event)
    requires Inv(p) && e.body.ExecutionRequested?
    ensures Apply(p, e).Some? <==> Follows(p, e) && Requesting(p, e.body)
    ensures Apply(p, e).Some? ==>
              Apply(p, e) == Some(p.(state := Executing, revision := p.revision + 1,
                                     active := Some(Attempt(e.body.merge, e.body.attempt, e.body.round, e.body.key,
                                                            e.id))))
  {
    hide Inv, TermsValid, ResultValid, QualificationValid, Uuid.Valid, Digest.Valid;
    InvFacts(p);
    InvValid(p);
    assert p.next < |p.terms.merges| ==> p.terms.merges[p.next] in p.terms.merges;
    assert e.body.key.Empty() <==> e.body.key == Text("");
  }

  // ------------------------------------------------------------------
  // Results and reconciliations.
  // ------------------------------------------------------------------

  /** A report on the next merge by the active attempt: of the planned base and head with a tree if
      it succeeded, of nothing if it did not. */
  predicate Reporting(p: Plan, r: Report) {
    && Names(p, r.plan, r.expectedRevision, r.planDigest) && r.evidence != [] && !r.outcome.OtherOutcome?
    && p.active.Some? && r.attempt == p.active.value.id && p.next < |p.terms.merges|
       && r.merge == p.terms.merges[p.next].id
    && (if r.outcome in {Outcome.Merged, AlreadyMerged}
        then r.base == p.terms.base && r.head == p.terms.merges[p.next].head && r.tree != Text("")
        else r.base == Text("") && r.head == Text("") && r.tree == Text(""))
  }

  /** What an outcome makes of the plan. */
  function Outcomes(p: Plan, r: Result): Plan {
    var q := p.(results := p.results[r.merge := r], revision := p.revision + 1);
    match r.outcome
    case Unknown => q.(state := Reconciling)
    case Merged => q.(state := Qualified, active := None, next := p.next + 1, round := 1, providerTree := r.tree)
    case AlreadyMerged => q.(state := Qualified, active := None, next := p.next + 1, round := 1, providerTree := r.tree)
    case FailedOutcome =>
      if p.round == p.terms.roundLimit then q.(state := Failed, active := None)
      else q.(state := Qualified, active := None, round := p.round + 1)
    case OtherOutcome(_) => q
  }

  lemma OutcomeValid(p: Plan, r: Result)
    requires Inv(p) && p.state in {Executing, Reconciling} && p.next < |p.terms.merges|
             && r.merge == p.terms.merges[p.next].id
    requires !r.outcome.OtherOutcome? && r.attempt.Valid() && r.event.Valid()
             && (r.reconciled.Some? ==> r.reconciled.value.Valid())
    ensures Valid(Outcomes(p, r))
  {
    hide Inv, TermsValid, QualificationValid, Uuid.Valid, Digest.Valid;
    InvFacts(p);
    InvValid(p);
    assert p.terms.merges[p.next] in p.terms.merges;
  }

  lemma OutcomeIs(p: Plan, r: Result)
    requires Inv(p) && p.state in {Executing, Reconciling} && !r.outcome.OtherOutcome?
    ensures p.active.Some?
    ensures ApplyOutcome(p.(results := p.results[r.merge := r]), r, p.active.value.round).(revision := p.revision + 1)
              == Outcomes(p, r)
  {
    hide Inv;
    InvFacts(p);
  }

  lemma ReportIff(p: Plan, r: Report)
    requires Inv(p) && p.state in {Executing, Reconciling}
    ensures Reporting(p, r) <==>
            && ReportParses(r) && Addressed(p, r.plan, r.expectedRevision, r.planDigest)
            && p.active.Some? && p.active.value.id == r.attempt && p.active.value.merge == r.merge
               && IdentityMatches(p, r)
  {
    hide Inv, Uuid.Valid, Digest.Valid;
    InvFacts(p);
    assert p.terms.merges[p.next] in p.terms.merges;
    assert forall t: Text :: t.Empty() <==> t == Text("");
  }

  /** An executing plan takes exactly a report on its active attempt, and records it. */
  lemma ResultIff(p: Plan, e: Event)
    requires Inv(p) && e.body.ResultRecorded?
    ensures Apply(p, e).Some? <==> Follows(p, e) && p.state.Executing? && Reporting(p, e.body.report)
    ensures Apply(p, e).Some? ==>
              var r := e.body.report;
              Apply(p, e) == Some(Outcomes(p, Result(r.merge, r.attempt, r.outcome, e.id, r.tree, None)))
  {
    hide Inv, Valid, ReportParses, IdentityMatches, Addressed, Reporting, ApplyOutcome, Outcomes, Uuid.Valid;
    var r := e.body.report;
    var x := Result(r.merge, r.attempt, r.outcome, e.id, r.tree, None);
    InvValid(p);
    if p.state.Executing? && Follows(p, e) {
      ReportIff(p, r);
      if Reporting(p, r) {
        ReportingFacts(p, r);
        OutcomeValid(p, x);
        OutcomeIs(p, x);
      }
    }
  }

  lemma ReportingFacts(p: Plan, r: Report)
    requires Inv(p) && p.state in {Executing, Reconciling} && Reporting(p, r)
    ensures p.next < |p.terms.merges| && r.merge == p.terms.merges[p.next].id && !r.outcome.OtherOutcome?
            && r.attempt.Valid()
  {
    hide Inv, Uuid.Valid;
    InvFacts(p);
  }

  /** The provider state that goes with an outcome. */
  predicate ProviderFits(o: Outcome, provider: Text) {
    match o
    case Merged => provider == Text("MERGED")
    case AlreadyMerged => provider == Text("MERGED")
    case FailedOutcome => provider in {Text("OPEN"), Text("CLOSED_UNMERGED"), Text("MISSING")}
    case Unknown => provider == Text("UNAVAILABLE")
    case OtherOutcome(_) => false
  }

  /** A report on the unresolved attempt that supersedes the unknown result and fits what the
      provider shows. */
  predicate Resolving(p: Plan, b: Body) {
    && b.ReconciliationRecorded? && p.state.Reconciling? && Reporting(p, b.report) && b.report.merge in p.results
    && b.supersedes == p.results[b.report.merge].event && b.reconciliation.Valid()
    && ProviderFits(b.report.outcome, b.provider)
  }

  /** The result as it is after a reconciliation: it keeps its first event. */
  function Resolved(p: Plan, e: Event): Result
    requires e.body.ReconciliationRecorded? && e.body.report.merge in p.results
  {
    var r := e.body.report;
    Result(r.merge, r.attempt, r.outcome, p.results[r.merge].event, r.tree, Some(e.id))
  }

  lemma ResolvingIff(p: Plan, e: Event)
    requires Inv(p) && e.body.ReconciliationRecorded? && p.state.Reconciling?
    ensures Branch(p, e).Some? <==> Resolving(p, e.body)
    ensures Resolving(p, e.body) ==>
              p.active.Some?
              && Branch(p, e) == Some(ApplyOutcome(p.(results := p.results[e.body.report.merge := Resolved(p, e)]),
                                                   Resolved(p, e),
                                                   p.active.value.round))
  {
    hide Inv, ReportParses, ReconciliationParses, IdentityMatches, Addressed, Reporting, ApplyOutcome, Uuid.Valid,
         ProviderFits;
    var r := e.body.report;
    ReportIff(p, r);
    ParsesIff(e.body);
    ReconcilingResult(p);
    if IdentityMatches(p, r) {
      ActiveReported(p, r);
    }
    if r.merge in p.results {
      ResultEventValid(p, r.merge);
    }
  }

  /** A reconciling plan takes exactly a resolving report, and records it. */
  lemma ReconciliationIff(p: Plan, e: Event)
    requires Inv(p) && e.body.ReconciliationRecorded?
    ensures Apply(p, e).Some? <==> Follows(p, e) && Resolving(p, e.body)
    ensures Apply(p, e).Some? ==> e.body.report.merge in p.results && Apply(p, e) == Some(Outcomes(p, Resolved(p, e)))
  {
    hide Inv, Valid, Branch, Reporting, ApplyOutcome, Outcomes, Uuid.Valid, ProviderFits;
    InvValid(p);
    if p.state.Reconciling? {
      ResolvingIff(p, e);
      if Resolving(p, e.body) && Follows(p, e) {
        ReportingFacts(p, e.body.report);
        ResultEventValid(p, e.body.report.merge);
        OutcomeValid(p, Resolved(p, e));
        OutcomeIs(p, Resolved(p, e));
      }
    } else {
      NothingToResolve(p, e);
    }
  }

  lemma NothingToResolve(p: Plan, e: Event)
    requires e.body.ReconciliationRecorded? && !p.state.Reconciling?
    ensures Branch(p, e).None?
  {
    hide ReconciliationParses, IdentityMatches, Addressed;
  }

  lemma ParsesIff(b: Body)
    requires b.ReconciliationRecorded?
    ensures ReconciliationParses(b.report, b.supersedes, b.reconciliation, b.provider) <==>
            ReportParses(b.report) && b.supersedes.Valid() && b.reconciliation.Valid()
                && ProviderFits(b.report.outcome, b.provider)
  {
    hide Uuid.Valid, Digest.Valid;
  }

  lemma ActiveReported(p: Plan, r: Report)
    requires Inv(p) && p.state.Reconciling? && IdentityMatches(p, r)
    ensures p.active.Some? && p.active.value.merge == r.merge
  {
    hide Inv;
    InvFacts(p);
  }

  lemma ReconcilingResult(p: Plan)
    requires Inv(p) && p.state.Reconciling?
    ensures p.active.Some? && p.active.value.merge in p.results && p.results[p.active.value.merge].outcome.Unknown?
  {
    hide Valid, MergedBefore, UntouchedAfter, TreeIsLast;
    InvFacts(p);
  }

  lemma ResultEventValid(p: Plan, m: Uuid)
    requires Inv(p) && m in p.results
    ensures p.results[m].event.Valid()
  {
    InvValid(p);
    hide Inv, TermsValid, QualificationValid, Uuid.Valid, Digest.Valid;
  }

  // ------------------------------------------------------------------
  // Finalization.
  // ------------------------------------------------------------------

  /** The events a plan rests on, merge by merge. */
  predicate RestsOn(p: Plan, ids: seq<Uuid>) {
    && |ids| == |p.terms.merges|
    && forall i :: 0 <= i < |ids| ==>
         && p.terms.merges[i].id in p.results
         && ids[i] == (var r := p.results[p.terms.merges[i].id]; if r.reconciled.Some? then r.reconciled.value
                       else r.event)
  }

  lemma EffectiveIff(p: Plan, ids: seq<Uuid>)
    requires Inv(p) && p.next == |p.terms.merges|
    ensures ids == EffectiveResults(p) <==> RestsOn(p, ids)
  {
    InvFacts(p);
    AllMergedAtEnd(p);
    var want := EffectiveResults(p);
    hide Inv, AllMerged, EffectiveResults;
    EffectiveAt(p, 0);
    forall i | 0 <= i < |p.terms.merges|
      ensures p.terms.merges[i].id in p.results && want[i] == EffectiveEvent(p.results[p.terms.merges[i].id])
    {
      EffectiveAt(p, i);
    }
    if RestsOn(p, ids) {
      assert forall i :: 0 <= i < |ids| ==> ids[i] == want[i];
    }
  }

  predicate Finalizing(p: Plan, b: Body) {
    && b.Finalized? && Names(p, b.plan, b.expectedRevision, b.planDigest) && b.mode.Code?
       && b.terminal.ReadyForAcceptance?
    && p.state.Qualified? && p.next == |p.terms.merges| && p.qualification.Some?
    && b.qualificationEvent == Some(p.qualification.value.event)
    && b.qualifiedTree == p.terms.expectedTree && b.providerTree == p.terms.expectedTree
    && p.providerTree == p.terms.expectedTree && RestsOn(p, b.resultEvents)
  }

  /** A fully merged plan is finalized exactly by the event that names its qualification, the
      expected tree on both sides, and the events its merges rest on. */
  lemma FinalizationIff(p: Plan, e: Event)
    requires Inv(p) && e.body.Finalized?
    ensures Apply(p, e).Some? <==> Follows(p, e) && Finalizing(p, e.body)
    ensures Apply(p, e).Some? ==>
              Apply(p, e) == Some(p.(state := ReadyForAcceptance, revision := p.revision + 1,
                                     finalization := Some(e.id)))
  {
    hide Inv, Valid, Branch, RestsOn, Uuid.Valid;
    InvFacts(p);
    InvValid(p);
    FinalizingIff(p, e);
    if Finalizing(p, e.body) && Follows(p, e) {
      FinalizedValid(p, p.(state := ReadyForAcceptance, revision := p.revision + 1, finalization := Some(e.id)));
    }
  }

  lemma FinalizingIff(p: Plan, e: Event)
    requires Inv(p) && e.body.Finalized?
    ensures Branch(p, e).Some? <==> Finalizing(p, e.body)
    ensures Finalizing(p, e.body) ==> Branch(p, e) == Some(p.(state := ReadyForAcceptance, finalization := Some(e.id)))
  {
    hide Inv, EffectiveResults, RestsOn;
    InvFacts(p);
    if p.next == |p.terms.merges| {
      EffectiveIff(p, e.body.resultEvents);
    }
  }

  lemma FinalizedValid(p: Plan, q: Plan)
    requires Valid(p) && p.terms.mode.Code? && p.state.Qualified? && p.active.None? && p.next == |p.terms.merges|
    requires p.qualification.Some? && p.providerTree == p.terms.expectedTree && q.finalization.Some?
             && q.finalization.value.Valid()
    requires q == p.(state := ReadyForAcceptance, revision := p.revision + 1, finalization := q.finalization)
    ensures Valid(q)
  {
    hide TermsValid, ResultValid, QualificationValid, Uuid.Valid;
  }

  /** A plan that needs no release is finalized exactly by the event that names it and nothing else,
      whatever its state. */
  lemma NoReleaseFinalizationIff(p: Plan, e: Event)
    requires Valid(p) && p.terms.mode.NoRelease? && e.body.Finalized?
    ensures Apply(p, e).Some? <==>
            var b := e.body;
            && Follows(p, e) && Names(p, b.plan, b.expectedRevision, b.planDigest) && b.mode.NoRelease?
            && b.terminal.NotRequired? && b.resultEvents == [] && b.qualificationEvent.None?
            && b.qualifiedTree == Text("") && b.providerTree == Text("")
    ensures Apply(p, e).Some? ==>
              Apply(p, e) == Some(p.(state := NotRequired, revision := p.revision + 1, finalization := Some(e.id)))
  {
    hide TermsValid, Uuid.Valid, Digest.Valid, EffectiveResults;
    assert forall t: Text :: t.Empty() <==> t == Text("");
  }

  // ------------------------------------------------------------------
  // Terms.
  // ------------------------------------------------------------------

  /** The terms of a CODE plan that may be created. */
  ghost predicate Sound(t: Terms) {
    && t.id.Valid() && t.opening.Valid() && t.story.kind.Story? && t.story.id.Valid() && t.author.Valid()
       && t.approval.Valid()
    && 0 !in {t.storyEpoch, t.storyRevision, t.approvalRevision, t.policyRevision, t.roundLimit} && t.roundLimit < 1001
    && t.planDigest.Valid() && t.manifestDigest.Valid() && t.evidence != [] && t.merges != []
    && (forall i :: 0 <= i < |t.evidence| ==> t.evidence[i].Valid())
    && (forall i, j :: 0 <= i < j < |t.evidence| ==> t.evidence[i] != t.evidence[j])
    && Text("") !in {t.repository, t.baseRef, t.base, t.expectedTree}
    && t.strategy == Text("FF_ONLY_ORDERED") && t.conflictPolicy == Text("FAIL_NO_IMPROVISATION")
    && t.manifest == Text("tekroo.kernel.contracts/0.12.0")
    && (forall i :: 0 <= i < |t.merges| ==>
          t.merges[i].id.Valid() && Text("") !in {t.merges[i].changeRef, t.merges[i].head, t.merges[i].role})
    && (forall i, j :: 0 <= i < j < |t.merges| ==> t.merges[i].id != t.merges[j].id)
  }

  lemma TermsIff(t: Terms)
    requires t.mode.Code?
    ensures TermsValid(t) <==> Sound(t)
  {
    hide Uuid.Valid, Digest.Valid;
    MergesIff(t.merges);
    assert forall x: Text :: x.Empty() <==> x == Text("");
    assert (forall e :: e in t.evidence ==> e.Valid()) <==>
        (forall i :: 0 <= i < |t.evidence| ==> t.evidence[i].Valid());
  }

  lemma MergesIff(ms: seq<Merge>)
    ensures Distinct(MergeIds(ms)) <==> forall i, j :: 0 <= i < j < |ms| ==> ms[i].id != ms[j].id
    ensures (forall m :: m in ms ==> m.id.Valid() && !m.changeRef.Empty() && !m.head.Empty() && !m.role.Empty())
            <==> forall i :: 0 <= i < |ms| ==>
                ms[i].id.Valid() && Text("") !in {ms[i].changeRef, ms[i].head, ms[i].role}
  {
    hide Uuid.Valid;
    assert forall x: Text :: x.Empty() <==> x == Text("");
    assert forall i :: 0 <= i < |ms| ==> ms[i] in ms;
    var ids := MergeIds(ms);
    assert forall i :: 0 <= i < |ms| ==> ids[i] == ms[i].id;
  }

  /** A created CODE plan: sound terms, nothing done yet. */
  lemma CreatedIff(p: Plan)
    requires p.terms.mode.Code?
    ensures Created(p) <==>
            && Sound(p.terms)
            && p == Plan(p.terms, 1, Planned, None, 0, 1, None, map[], None, Text(""))
  {
    TermsIff(p.terms);
    hide TermsValid, Sound;
    assert p.providerTree.Empty() <==> p.providerTree == Text("");
  }

  /** The terms of a plan that needs no release: a reason, and no merges. */
  lemma NoReleaseTerms(t: Terms)
    requires t.mode.NoRelease? && TermsValid(t)
    ensures t.merges == [] && t.noReleaseReason != Text("") && t.id.Valid() && t.planDigest.Valid() && t.evidence != []
  {
    hide Uuid.Valid, Digest.Valid;
  }

  // ------------------------------------------------------------------
  // The abstract model.
  // ------------------------------------------------------------------

  /** The abstract model takes exactly these steps, under its own plan digest and before it ends. */
  lemma AbstractIff(c: Abstract, digest: Option<Digest>, t: Transition)
    ensures var r := EvaluateRelease(c, digest, t);
            var live := c.state !in {ReadyForAcceptance, Failed, Blocked, NotRequired}
                && digest in {None, Some(c.planDigest)};
            && (t.Create? ==>
                  (r == Some(Planned) <==>
                     live && c.state == Absent && t.author == c.author && t.approval == c.approval))
            && (t.Qualify? ==>
                  (r == Some(Qualified) <==>
                     live && c.mode == Code && c.state == Planned && t.base == c.base && t.heads == c.heads))
            && (t.RequestExecution? ==>
                  (r == Some(Executing) <==>
                     && live && c.state == Qualified && c.nextMergeIndex < |c.mergeOrder|
                     && t.merge == c.mergeOrder[c.nextMergeIndex] && t.round == c.nextRound <= c.roundLimit))
            && (t.RecordResult? ==>
                  (r.Some? <==> && live && c.state == Executing && c.activeAttempt == Some(t.attempt)
                                && !t.outcome.OtherOutcome?))
            && (t.Reconcile? ==>
                  (r.Some? <==> && live && c.state == Reconciling && c.unresolvedAttempt == Some(t.attempt)
                                && c.latestResult == Some(t.supersedes) && !t.outcome.OtherOutcome?))
            && ((t.RecordResult? || t.Reconcile?) && r.Some? ==>
                  r.value == (match t.outcome
                              case Unknown => Reconciling
                              case FailedOutcome => if c.activeRound < c.roundLimit then Qualified else Failed
                              case _ => Qualified))
            && (t.Finalize? && c.mode == NoRelease ==>
                  (r.Some? <==> live && c.state == Planned && t.terminal == NotRequired))
            && (t.Finalize? && c.mode != NoRelease ==>
                  (r.Some? <==> && live && c.state == Qualified && c.nextMergeIndex == |c.mergeOrder|
                                && t.providerTree == c.qualifiedTree))
            && (t.Finalize? && r.Some? ==> r.value == t.terminal)
            && (t.Create? || t.Qualify? || t.RequestExecution? ==>
                r in {None, Some(Planned), Some(Qualified), Some(Executing)})
            && (t.OtherAction? ==> r.None?)
  {
  }
}
