/** What a run leaves in a bounded review, read off its inputs, and what independence means on the
    fields of a result. See kernel/coordination.go and kernel/verification_topology.go.
 */
module ReviewHistory {
  import opened Orders
  import opened Ids
  import opened Review
  import opened BoundedReview

  // ------------------------------------------------------------------
  // Independence and parsing, on the fields.
  // ------------------------------------------------------------------

  /** Valid ids, none twice. */
  ghost predicate Listed(ids: seq<Uuid>) {
    (forall i :: 0 <= i < |ids| ==> ids[i].Valid()) && (forall i, j :: 0 <= i < j < |ids| ==> ids[i] != ids[j])
  }

  lemma ListedIff(ids: seq<Uuid>)
    ensures ValidSet(ids, true) <==> Listed(ids) && ids != []
    ensures ValidSet(ids, false) <==> Listed(ids)
    ensures ValidUnique(ids, 1, 64) <==> Listed(ids) && 0 < |ids| < 65
  {
    hide Uuid.Valid;
    assert (forall id :: id in ids ==> id.Valid()) <==> (forall i :: 0 <= i < |ids| ==> ids[i].Valid());
  }

  /** A receipt with known dimensions, methods and evidence, none twice. */
  ghost predicate Complete(r: Receipt) {
    && 0 < |r.dimensions| < 10 && (forall i :: 0 <= i < |r.dimensions| ==> !r.dimensions[i].OtherDimension?)
    && (forall i, j :: 0 <= i < j < |r.dimensions| ==> r.dimensions[i] != r.dimensions[j])
    && r.comparison.Valid() && 0 < |r.methods| < 65
       && (forall i :: 0 <= i < |r.methods| ==> 0 < |r.methods[i].value| < 4097)
    && (forall i, j :: 0 <= i < j < |r.methods| ==> r.methods[i] != r.methods[j])
    && Listed(r.evidence) && 0 < |r.evidence| < 65
  }

  lemma ReceiptIff(r: Receipt)
    ensures r.Valid() <==> Complete(r)
  {
    ListedIff(r.evidence);
    hide ValidUnique, Listed, Digest.Valid;
    assert (forall d :: d in r.dimensions ==> !d.OtherDimension?) <==>
           (forall i :: 0 <= i < |r.dimensions| ==> !r.dimensions[i].OtherDimension?);
    assert (forall m :: m in r.methods ==> 1 <= |m.value| <= 4096) <==>
           (forall i :: 0 <= i < |r.methods| ==> 0 < |r.methods[i].value| < 4097);
  }

  /** The result comes from someone else than the implementer in every dimension the branch asks for,
      shown by a complete receipt over all its dimensions and methods. */
  ghost predicate Apart(t: Terms, spec: Spec, r: Record) {
    && Complete(r.receipt) && r.authority.Valid() && t.implementer.principal.Valid() && t.implementer.actor.Valid()
    && t.implementer.execution.Valid() && t.implementer.model.Valid() && t.implementer.workspace.Valid()
    && t.implementer.context.Valid()
    && (forall i :: 0 <= i < |spec.dimensions| ==> spec.dimensions[i] in r.receipt.dimensions)
    && (forall i :: 0 <= i < |spec.methods| ==> spec.methods[i] in r.receipt.methods)
    && (PrincipalDimension in spec.dimensions ==> r.authority != t.implementer.principal)
    && (ActorDimension in spec.dimensions ==>
          r.actor.Some? && r.actor.value.Valid() && r.actor.value != t.implementer.actor)
    && (ExecutionDimension in spec.dimensions ==>
          r.execution.Some? && r.execution.value.Valid() && r.execution.value != t.implementer.execution)
  }

  lemma IndependentIff(t: Terms, spec: Spec, r: Record)
    ensures Independent(t, spec, r) <==> (t.topologyBound ==> Apart(t, spec, r))
  {
    ReceiptIff(r.receipt);
    hide Receipt.Valid, Complete, Uuid.Valid, Digest.Valid, Actor.Valid;
  }

  /** The payload of a result. */
  ghost predicate Parsed(r: Record) {
    && r.branch != Branch("") && r.verdict in {PASS, FAIL, BLOCKED, INCONCLUSIVE, CANCELLED, SUPERSEDED}
    && 0 < r.round < 1001 && r.evidence != [] && Listed(r.evidence) && Listed(r.supersedes) && Listed(r.changed)
    && (forall i :: 0 <= i < |r.findings| ==> Stated(r.findings[i]))
    && (forall i, j :: 0 <= i < j < |r.findings| ==> r.findings[i].key != r.findings[j].key)
  }

  ghost predicate Stated(f: Finding) {
    f.id.Valid() && f.key.Valid() && f.summary != Text("") && f.evidence != [] && Listed(f.evidence)
  }

  lemma ParsedIff(r: Record)
    ensures ResultParses(r) <==> Parsed(r)
  {
    hide ValidSet, Listed, Uuid.Valid, Digest.Valid;
    ListedIff(r.evidence);
    ListedIff(r.supersedes);
    ListedIff(r.changed);
    forall f: Finding ensures FindingParses(f) <==> Stated(f) {
      ListedIff(f.evidence);
    }
    hide FindingParses, Stated;
  }

  /** An accepted result, on its fields: parsed, for a branch of the review, by the authority its role
      names, inside that role's limits, independent unless it is a timeout, new, in place of the
      record it supersedes, and not contradicting the other findings. */
  ghost predicate Acceptable(s: Snapshot, r: Record) {
    && s.finalization.None? && Parsed(r) && r.branch in s.terms.branches && r.event.Valid() && r.event !in s.known
    && r.decidedAt.Some? && r.authority.Valid() && (s.terms.topologyBound ==> r.candidate == s.terms.candidate)
    && InRole(s.terms, s.terms.branches[r.branch], r)
    && (r.branch !in s.records ==> r.supersedes == [])
    && (r.branch in s.records ==>
          var prior := s.records[r.branch];
          r.supersedes == [prior.event] && r.changed != [] && (r.role != prior.role || prior.round < r.round))
    && OthersAgree(s, r)
  }

  /** No new finding contradicts one of another branch. */
  ghost predicate OthersAgree(s: Snapshot, r: Record) {
    forall b, i, j ::
      b in s.records && b != r.branch && 0 <= i < |r.findings| && 0 <= j < |s.records[b].findings| ==>
      Agree(r.findings[i], s.records[b].findings[j])
  }

  predicate Agree(f: Finding, g: Finding) {
    f.key == g.key ==> f == g
  }

  ghost predicate InRole(t: Terms, spec: Spec, r: Record)
    requires r.decidedAt.Some?
  {
    || (&& r.role.Validator? && r.authority == spec.validator && r.round <= spec.roundLimit
        && r.decidedAt.value <= spec.deadline && (t.topologyBound ==> Apart(t, spec, r)))
    || (&& r.role.Adjudicator? && r.authority == t.adjudication.adjudicator && r.round <= t.adjudication.roundLimit
        && r.decidedAt.value <= t.adjudication.deadline && (t.topologyBound ==> Apart(t, spec, r)))
    || (&& r.role.PolicyTimeout? && r.authority.kind.Policy? && spec.deadline < r.decidedAt.value
        && r.verdict in {BLOCKED, CANCELLED})
  }

  lemma RoleIff(t: Terms, spec: Spec, r: Record)
    requires r.decidedAt.Some?
    ensures ByRole(t, spec, r) <==> InRole(t, spec, r)
  {
    IndependentIff(t, spec, r);
    hide Independent, Apart;
  }

  lemma AdmissibleIff(t: Terms, r: Record)
    requires Parsed(r)
    ensures Admissible(t, r) <==>
            && r.branch in t.branches && r.event.Valid() && r.authority.Valid() && r.decidedAt.Some?
            && (t.topologyBound ==> r.candidate == t.candidate) && InRole(t, t.branches[r.branch], r)
  {
    hide ValidSet, Listed, Stated, ByRole, InRole, Uuid.Valid;
    ListedIff(r.evidence);
    if r.branch in t.branches && r.decidedAt.Some? {
      RoleIff(t, t.branches[r.branch], r);
    }
  }

  /** In a reachable review, the findings stay consistent exactly when the new ones agree with those
      of the other branches. */
  lemma ConsistentIff(s: Snapshot, r: Record)
    requires Inv(s) && Parsed(r)
    ensures Consistent(s.records[r.branch := r]) <==> OthersAgree(s, r)
  {
    hide TermsOk, Mirrored, AllAdmissible, JoinOf, FinalizedWell, Stated, Listed;
    var m := s.records[r.branch := r];
    if Consistent(m) {
      forall b, i, j | b in s.records && b != r.branch && 0 <= i < |r.findings| && 0 <= j < |s.records[b].findings|
        ensures Agree(r.findings[i], s.records[b].findings[j])
      {
        assert m[b] == s.records[b] && m[r.branch] == r;
        assert Holds(m, r.findings[i]) && Holds(m, s.records[b].findings[j]);
      }
    }
    if OthersAgree(s, r) {
      forall f, g | Holds(m, f) && Holds(m, g) && f.key == g.key ensures f == g {
        FindingsAgree(s, r, f, g);
      }
    }
  }

  lemma FindingsAgree(s: Snapshot, r: Record, f: Finding, g: Finding)
    requires FindingsOf(s.records, s.findings) && Parsed(r) && f.key == g.key
    requires Holds(s.records[r.branch := r], f) && Holds(s.records[r.branch := r], g)
    requires OthersAgree(s, r)
    ensures f == g
  {
    hide Stated, Listed;
    var m := s.records[r.branch := r];
    var a :| a in m && f in m[a].findings;
    var b :| b in m && g in m[b].findings;
    var i :| 0 <= i < |m[a].findings| && m[a].findings[i] == f;
    var j :| 0 <= j < |m[b].findings| && m[b].findings[j] == g;
    if a != r.branch && b != r.branch {
      assert Holds(s.records, f) && Holds(s.records, g);
    } else if a == r.branch && b != r.branch {
      assert Agree(r.findings[i], s.records[b].findings[j]);
    } else if a != r.branch {
      assert Agree(r.findings[j], s.records[a].findings[i]);
    }
  }

  /** A reachable review takes exactly the acceptable results. */
  lemma ResultIff(s: Snapshot, r: Record)
    requires Inv(s)
    ensures Step(s, BranchResult(r)).Some? <==> Acceptable(s, r)
  {
    hide Inv, Parsed, ResultParses, Consistent, Applied, InRole, Admissible, Agree, Uuid.Valid;
    ParsedIff(r);
    if Parsed(r) {
      AppliedIff(s, r);
      AdmissibleIff(s.terms, r);
      ConsistentIff(s, r);
    }
  }

  // ------------------------------------------------------------------
  // What a run leaves.
  // ------------------------------------------------------------------

  /** The result given last for a branch. */
  function LastFor(inputs: seq<Input>, b: Branch): Option<Record> {
    if |inputs| == 0 then None
    else if ForBranch(inputs[|inputs| - 1], b) then Some(inputs[|inputs| - 1].record)
    else LastFor(inputs[..|inputs| - 1], b)
  }

  function Count(inputs: seq<Input>): nat {
    if |inputs| == 0 then 0 else Count(inputs[..|inputs| - 1]) + (if inputs[|inputs| - 1].BranchResult? then 1 else 0)
  }

  ghost predicate Kept(s: Snapshot, inputs: seq<Input>) {
    && s.revision == 1 + Count(inputs)
    && (forall b :: LastFor(inputs, b).None? <==> b !in s.records)
    && (forall b :: b in s.records ==> LastFor(inputs, b) == Some(s.records[b]))
    && (forall b :: b in s.results <==> b in s.records)
    && (forall b :: b in s.records ==> b in s.results && s.results[b] == s.records[b].verdict)
  }

  lemma KeptStep(s: Snapshot, inputs: seq<Input>)
    requires |inputs| > 0 && Kept(s, inputs[..|inputs| - 1]) && Step(s, inputs[|inputs| - 1]).Some?
    ensures Kept(Step(s, inputs[|inputs| - 1]).value, inputs)
  {
    hide Applied, Finalized, ResultParses, Kept, Admissible, FindingsOf, JoinOf;
    match inputs[|inputs| - 1]
    case BranchResult(r) =>
      AppliedFacts(s, r);
      KeptResult(s, Applied(s, r).value, inputs);
    case Finalizing(event, v) =>
      FinalizedKeeps(s, event, v);
      FinalizedRest(s, event, v);
      KeptSame(s, Finalized(s, event, v).value, inputs);
  }

  lemma KeptResult(s: Snapshot, t: Snapshot, inputs: seq<Input>)
    requires |inputs| > 0 && Kept(s, inputs[..|inputs| - 1]) && inputs[|inputs| - 1].BranchResult?
    requires var r := inputs[|inputs| - 1].record;
             && t.records == s.records[r.branch := r] && t.results == s.results[r.branch := r.verdict]
             && t.revision == s.revision + 1
    ensures Kept(t, inputs)
  {
    var before, r := inputs[..|inputs| - 1], inputs[|inputs| - 1].record;
    forall b ensures LastFor(inputs, b) == if b == r.branch then Some(r) else LastFor(before, b) {
    }
    assert Count(inputs) == Count(before) + 1;
    hide LastFor, Count;
  }

  lemma KeptSame(s: Snapshot, t: Snapshot, inputs: seq<Input>)
    requires |inputs| > 0 && Kept(s, inputs[..|inputs| - 1]) && !inputs[|inputs| - 1].BranchResult?
    requires t.records == s.records && t.results == s.results && t.revision == s.revision
    ensures Kept(t, inputs)
  {
    var before := inputs[..|inputs| - 1];
    forall b ensures LastFor(inputs, b) == LastFor(before, b) {
    }
    assert Count(inputs) == Count(before);
    hide LastFor, Count;
  }

  lemma FinalizedRest(s: Snapshot, event: Uuid, v: FinalPayload)
    requires Finalized(s, event, v).Some?
    ensures var t := Finalized(s, event, v).value;
            t.results == s.results && t.revision == s.revision && t.known == s.known && t.findings == s.findings
                && t.join == s.join
  {
    hide Addressed, SameEvents;
  }

  /** In every run the record of a branch is the result given last for it, with its verdict, and the
      revision counts the results. */
  lemma {:induction false} RunKeepsLast(s: Snapshot, inputs: seq<Input>)
    requires Opened(s) && Run(s, inputs).Some?
    ensures Kept(Run(s, inputs).value, inputs)
  {
    hide Step;
    if |inputs| == 0 {
      hide ValidRequired, JoinOf;
    } else {
      hide Opened, Kept;
      RunKeepsLast(s, inputs[..|inputs| - 1]);
      KeptStep(Run(s, inputs[..|inputs| - 1]).value, inputs);
    }
  }

  /** A review is finalized exactly once it is complete, on its own revision, status and terms, by
      the list of the events of its records; the finalization then says so. */
  lemma FinalizationIff(s: Snapshot, event: Uuid, v: FinalPayload)
    ensures Step(s, Finalizing(event, v)).Some? <==>
            && s.finalization.None? && event.Valid() && v.review.Valid() && s.join.complete && v.status == s.join.status
            && (v.subject, v.epoch, v.branchPolicyRevision)
                 == (s.terms.subject, s.terms.epoch, s.terms.branchPolicyRevision)
            && v.expectedRevision == s.revision && v.resultEvents != [] && Listed(v.resultEvents)
            && v.evidence != [] && Listed(v.evidence)
            && (s.terms.topologyBound ==>
                  (v.scope, v.profile, v.candidate, v.topology)
                  == (s.terms.scope, s.terms.profile, s.terms.candidate, s.terms.topology))
            && (forall id :: multiset(v.resultEvents)[id] == |set b | b in s.records && s.records[b].event == id|)
    ensures Step(s, Finalizing(event, v)).Some? ==>
              var t := Step(s, Finalizing(event, v)).value;
              && t.finalization.Some? && t == s.(finalization := t.finalization)
              && var f := t.finalization.value;
              && (f.event, f.revision, f.status, f.evidence) == (event, s.revision, s.join.status, v.evidence)
              && multiset(f.resultEvents) == multiset(v.resultEvents)
              && (f.scope, f.profile, f.candidate, f.topology) == (v.scope, v.profile, v.candidate, v.topology)
  {
    ListedIff(v.resultEvents);
    ListedIff(v.evidence);
    hide ValidSet, Listed, Uuid.Valid, Canonical;
    assert SameEvents(s.records, v.resultEvents) <==>
           forall id :: multiset(v.resultEvents)[id] == |set b | b in s.records && s.records[b].event == id| by {
      assert forall id :: Carriers(s.records, id) == set b | b in s.records && s.records[b].event == id;
    }
    hide SameEvents;
  }
}
