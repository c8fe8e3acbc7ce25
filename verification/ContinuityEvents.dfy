/** Exactly which events a team's continuity record accepts, and what each leaves, on the fields of
    the record and of the event. See kernel/continuity.go.
 */
module ContinuityEvents {
  import opened Orders
  import opened Ids
  import opened Continuity

  /** The event stands at the record's next revision and names its revision, epoch and evidence. */
  ghost predicate Follows(s: Snapshot, e: Event) {
    && e.aggregate.System? && e.revision == s.revision + 1 && e.id.Valid()
    && !e.body.OtherBody? && e.body.expectedRevision == s.revision && e.body.expectedEpoch == s.epoch
    && e.body.initiator.Valid() && Listed(e.body.evidence) && 0 < |e.body.evidence| < 65
  }

  /** Valid ids, none twice. */
  ghost predicate Listed(ids: seq<Uuid>) {
    (forall i :: 0 <= i < |ids| ==> ids[i].Valid()) && (forall i, j :: 0 <= i < j < |ids| ==> ids[i] != ids[j])
  }

  lemma ListedIff(ids: seq<Uuid>, least: nat, most: nat)
    ensures ValidUnique(ids, least, most) <==> Listed(ids) && least <= |ids| <= most
  {
    hide Uuid.Valid;
  }

  lemma FollowsIff(s: Snapshot, e: Event)
    ensures Follows(s, e) <==> e.aggregate.System? && e.revision == s.revision + 1 && e.id.Valid() && Current(s, e.body)
  {
    hide Uuid.Valid, Listed, ValidUnique;
    if !e.body.OtherBody? {
      ListedIff(e.body.evidence, 1, 64);
    }
  }

  lemma AcceptedIff(s: Snapshot, e: Event)
    requires Valid(s)
    ensures Apply(s, e).Some? <==>
            e.aggregate.System? && e.revision == s.revision + 1 && e.id.Valid() && Branch(s, e.body).Some?
    ensures Apply(s, e).Some? ==>
              Apply(s, e) == Some(Branch(s, e.body).value.(revision := s.revision + 1, last := e.id))
  {
    hide Branch, Uuid.Valid, Digest.Valid, ValidUnique;
    if Branch(s, e.body).Some? && e.aggregate.System? && e.revision == s.revision + 1 {
      FinalCheckIffEventId(s, e);
    }
  }

  /** Quiescing an ACTIVE team for a known reason, with a deadline and a plan, closes admission and
      opens the next epoch with the executions in flight. */
  lemma QuiescenceIff(s: Snapshot, e: Event)
    requires Valid(s) && e.body.QuiescenceRequested?
    ensures Apply(s, e).Some? <==>
            var b := e.body;
            && Follows(s, e) && s.control.Active? && b.nextEpoch == s.epoch + 1 && Listed(b.inFlight)
               && |b.inFlight| <= 1024
            && b.reason.value in {"HOST_MAINTENANCE", "LID_CLOSE", "OPERATOR_REQUEST", "POWER_EVENT", "ENERGY_POLICY"}
            && b.deadline.Some? && b.plan.Valid()
    ensures Apply(s, e).Some? ==>
              var t := Apply(s, e).value;
              && multiset(t.inFlight) == multiset(e.body.inFlight)
              && t == s.(control := Quiescing, epoch := s.epoch + 1, open := false, inFlight := t.inFlight,
                         unresolved := [],
                         revision := s.revision + 1, last := e.id)
  {
    hide Valid;
    AcceptedIff(s, e);
    FollowsIff(s, e);
    ListedIff(e.body.inFlight, 0, 1024);
    hide Apply, Follows, Current, Listed, ValidUnique, Uuid.Valid, Digest.Valid, Canonical;
    assert e.body.reason == Text(e.body.reason.value);
  }

  /** A complete record of what became of one execution. */
  ghost predicate Documented(r: SuspensionRecord) {
    && r.execution.Valid() && r.actor.Valid() && r.fencing != 0 && r.provider.Valid()
    && Listed(r.evidence) && 0 < |r.evidence| < 65 && (r.result.Some? ==> r.result.value.Valid())
    && (|| (r.disposition.CancelOnSuspend? && r.outcome in {Cancelled, Unknown})
        || (r.disposition.CompleteQuarantined? && r.outcome in {TerminalCaptured, Unknown})
        || (r.disposition.DetachAndReconcile? && r.outcome in {Detached, Unknown}))
  }

  lemma SuspensionIff(r: SuspensionRecord)
    ensures r.Valid() <==> Documented(r)
  {
    ListedIff(r.evidence, 1, 64);
    hide Uuid.Valid, Digest.Valid, Actor.Valid, ValidUnique, Listed;
  }

  /** Suspending after the quiescence it names, with one complete record for each execution in
      flight, and as unresolved exactly those that detached or whose outcome is unknown. */
  lemma SuspendedIff(s: Snapshot, e: Event)
    requires Valid(s) && e.body.SuspendedRecorded?
    ensures Apply(s, e).Some? <==>
            var b := e.body;
            && Follows(s, e) && s.control.Quiescing? && b.request == s.last && b.allRecorded
            && (forall r :: r in b.records ==> Documented(r))
            && multiset(Recorded(b.records)) == multiset(s.inFlight)
            && Listed(b.unresolved) && |b.unresolved| <= 1024
               && multiset(b.unresolved) == multiset(LeftUnresolved(b.records))
    ensures Apply(s, e).Some? ==>
              var t := Apply(s, e).value;
              && multiset(t.unresolved) == multiset(e.body.unresolved)
              && t == s.(control := Suspended, unresolved := t.unresolved, revision := s.revision + 1, last := e.id)
  {
    hide Valid, Apply, Follows, Current, Listed, ValidUnique, Uuid.Valid, SuspensionRecord.Valid, Documented, Canonical,
         Recorded, LeftUnresolved;
    var b := e.body;
    AcceptedIff(s, e);
    FollowsIff(s, e);
    ListedIff(b.unresolved, 0, 1024);
    CanonicalIffPermutation(Recorded(b.records), s.inFlight);
    CanonicalIffPermutation(b.unresolved, LeftUnresolved(b.records));
    forall r: SuspensionRecord ensures r.Valid() <==> Documented(r) {
      SuspensionIff(r);
    }
  }

  /** Reconciling a suspended team starts from exactly its unresolved executions. */
  lemma ReconciliationIff(s: Snapshot, e: Event)
    requires Valid(s) && e.body.ReconciliationStarted?
    ensures Apply(s, e).Some? <==>
            var b := e.body;
            && Follows(s, e) && s.control.Suspended? && multiset(b.unresolved) == multiset(s.unresolved)
            && b.trigger.value in {"HOST_RECOVERY", "OPERATOR_REQUEST", "WAKE"} && b.provider.Valid()
    ensures Apply(s, e).Some? ==>
              Apply(s, e) == Some(s.(control := Reconciling, revision := s.revision + 1, last := e.id))
  {
    hide Valid;
    AcceptedIff(s, e);
    FollowsIff(s, e);
    CanonicalIffPermutation(e.body.unresolved, s.unresolved);
    hide Apply, Follows, Current, Uuid.Valid, Digest.Valid, Canonical;
    assert e.body.trigger == Text(e.body.trigger.value);
  }

  /** An outage is recorded in every state that it names, and leaves all its executions to
      reconcile in the next epoch. */
  lemma OutageIff(s: Snapshot, e: Event)
    requires Valid(s) && e.body.OutageRecorded?
    ensures Apply(s, e).Some? <==>
            var b := e.body;
            && Follows(s, e) && b.previous == s.control && b.nextEpoch == s.epoch + 1 && Listed(b.inFlight)
               && |b.inFlight| <= 1024
            && b.detectedAt.Some? && (b.lastDurable.Some? ==> b.lastDurable.value.Valid())
            && b.kind.value in {"HOST_SLEEP", "HOST_RESTART", "NETWORK_PARTITION", "PROCESS_LOSS", "UNKNOWN"}
    ensures Apply(s, e).Some? ==>
              var t := Apply(s, e).value;
              && multiset(t.inFlight) == multiset(e.body.inFlight) && t.unresolved == t.inFlight
              && t == s.(control := Reconciling, epoch := s.epoch + 1, open := false, inFlight := t.inFlight,
                         unresolved := t.unresolved, revision := s.revision + 1, last := e.id)
  {
    hide Valid;
    AcceptedIff(s, e);
    FollowsIff(s, e);
    ListedIff(e.body.inFlight, 0, 1024);
    hide Apply, Follows, Current, Listed, ValidUnique, Uuid.Valid, Digest.Valid, Canonical;
    assert e.body.kind == Text(e.body.kind.value);
  }

  /** A complete record of one reconciled execution. */
  ghost predicate Settled(r: ReconciliationRecord) {
    && r.execution.Valid() && r.state.Valid() && Listed(r.evidence) && 0 < |r.evidence| < 65
    && r.outcome in {ReconciledBlocked, ConfirmedCancelled, HumanRequired, RejectedLateResult, Superseded,
                     EvidenceCaptured}
  }

  lemma SettledIff(r: ReconciliationRecord)
    ensures r.Valid() <==> Settled(r)
  {
    ListedIff(r.evidence, 1, 64);
    hide Uuid.Valid, Digest.Valid, ValidUnique, Listed;
  }

  /** Admission reopens exactly when every check is done and every unresolved execution is settled,
      one record each. */
  lemma ResumeIff(s: Snapshot, e: Event)
    requires Valid(s) && e.body.Resumed?
    ensures Apply(s, e).Some? <==>
            var b := e.body;
            && Follows(s, e) && s.control.Reconciling? && b.healthy && b.outbox && b.changes && b.reopen
            && (forall r :: r in b.reconciled ==> Settled(r))
            && multiset(Reconciled(b.reconciled)) == multiset(s.unresolved)
    ensures Apply(s, e).Some? ==>
              Apply(s, e) == Some(s.(control := Active, open := true, inFlight := [], unresolved := [],
                                     revision := s.revision + 1,
                                     last := e.id))
  {
    hide Valid, Apply, Follows, Current, Uuid.Valid, ReconciliationRecord.Valid, Settled, Canonical, Reconciled;
    AcceptedIff(s, e);
    FollowsIff(s, e);
    CanonicalIffPermutation(Reconciled(e.body.reconciled), s.unresolved);
    forall r: ReconciliationRecord ensures r.Valid() <==> Settled(r) {
      SettledIff(r);
    }
  }

  /** A configuration is accepted exactly for the current revision, with a positive epoch and policy
      and a known posture; the record then starts ACTIVE and open at that epoch, with nothing in
      flight. */
  lemma ConfigurationIff(c: Configuration, event: Uuid, revision: nat)
    ensures Configure(c, event, revision).Some? <==>
            && revision == c.expectedRevision + 1 && 0 !in {c.epoch, c.policyRevision} && event.Valid()
            && c.policyDigest.Valid() && c.health.Valid() && c.posture in {Continuous, PlannedSuspendCapable}
    ensures Configure(c, event, revision).Some? ==>
              Configure(c, event, revision).value ==
              Snapshot(revision, c.posture, Active, c.epoch, true, c.policyRevision, c.policyDigest, c.health, [], [],
                       event)
  {
    NoneUnique();
    hide ValidUnique, Uuid.Valid, Digest.Valid;
  }

  // ------------------------------------------------------------------
  // The policy model.
  // ------------------------------------------------------------------

  /** The policy model accepts exactly the steps of the cycle, at the epoch they name, and otherwise
      reports the state as it is; work and results pass exactly while admission is open at their own
      epoch. */
  lemma PolicyIff(control: Control, epoch: nat, open: bool, unresolved: seq<Uuid>, a: PolicyAction)
    ensures var r := EvaluatePolicy(control, epoch, open, unresolved, a);
            && (a.RequestQuiescence? ==> (r.accepted <==> control == Active && a.nextEpoch == epoch + 1))
            && (a.RecordSuspended? ==> (r.accepted <==> control == Quiescing && a.allRecorded))
            && (a.BeginReconciliation? ==> (r.accepted <==> control == Suspended && a.presented == epoch))
            && (a.RecordOutage? ==> (r.accepted <==> a.nextEpoch == epoch + 1))
            && (a.Resume? ==>
                  (r.accepted <==>
                     && control == Reconciling && a.presented == epoch && a.healthy && a.outbox && a.changes
                     && multiset(unresolved) == multiset(a.reconciledIds)))
            && (a.AdmitDispatch? || a.AdmitResult? ==> (r.accepted <==> open && a.presented == epoch))
            && (a.ObserveContinuous? ==> (r.accepted <==> a.healthy)) && (a.OtherPolicyAction? ==> !r.accepted)
            && (!r.accepted && r.control.Some? ==> r.control.value == control)
            && (!r.accepted && r.epoch.Some? ==> r.epoch.value == epoch)
  {
    if a.Resume? {
      CanonicalIffPermutation(unresolved, a.reconciledIds);
    }
    hide Canonical;
  }
}
