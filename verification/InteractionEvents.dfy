/** Exactly which events a human interaction accepts, and what each leaves, on the fields of the
    interaction and of the event. See kernel/human_interaction.go.
 */
module InteractionEvents {
  import opened Orders
  import opened Ids
  import opened HumanInteraction

  /** The event is for this interaction, at its next revision and current question. */
  predicate Follows(s: Interaction, e: Event) {
    && e.aggregate == AggregateRef(AggregateKind.HumanInteraction, s.terms.id) && e.revision == s.revision + 1
    && !e.body.OtherBody? && e.body.interaction == s.terms.id
    && e.body.expectedRevision == s.revision && e.body.question == s.terms.question
  }

  predicate Live(s: Interaction) {
    s.phase in {Open, Collecting, Satisfied}
  }

  lemma SelectedIs(s: Interaction, p: Principal, r: Recipient)
    requires Valid(s) && r in s.terms.recipients && r.principal == p
    ensures Selected(s.terms.recipients, p) == Some(r)
  {
    hide Uuid.Valid, Digest.Valid, DeliveriesValid, ResponsesValid, PhaseValid;
    assert r.Valid();
    var k :| 0 <= k < |s.terms.recipients| && s.terms.recipients[k] == r;
    var found := Selected(s.terms.recipients, p).value;
    DistinctImage(Person, s.terms.recipients, found, r);
  }

  // ------------------------------------------------------------------
  // Deliveries.
  // ------------------------------------------------------------------

  /** A delivery of the question itself, or of a rendering shown to be equivalent, to a recipient
      over their own binding, under a new id and event. */
  ghost predicate Delivers(s: Interaction, e: Event) {
    && Follows(s, e) && e.body.DeliveryRecorded? && Live(s) && e.id.Valid()
    && var b := e.body;
    && (exists r :: r in s.terms.recipients && r.principal == b.recipient && r.binding == b.binding)
    && b.canonical == s.terms.questionDigest && b.delivery.Valid() && b.adapter.Valid() && b.rendered.Valid()
       && b.channel.Valid()
    && b.attemptedAt.Some? && b.outcome in {Delivered, DeliveryFailed, DeliveryUnknown}
    && (if b.presenter.Some? then b.presenter.value.Valid() && b.presenterExecution.Some?
        && b.presenterExecution.value.Valid()
        else b.presenterExecution.None?)
    && (if b.equivalence.Some? then b.equivalence.value.Valid() else b.rendered == b.canonical)
    && (forall d :: d in s.deliveries ==> d.id != b.delivery && d.event != e.id)
  }

  lemma DeliveryIff(s: Interaction, e: Event)
    requires Valid(s) && e.body.DeliveryRecorded?
    ensures Apply(s, e).Some? <==> Delivers(s, e)
    ensures Apply(s, e).Some? ==>
              var b := e.body;
              Apply(s, e) == Some(s.(revision := s.revision + 1, phase := if s.phase.Open? then Collecting else s.phase,
                                     deliveries := s.deliveries + [Delivery(b.delivery, e.id, b.recipient, b.binding,
                                                                            b.outcome)]))
  {
    hide Valid;
    var b := e.body;
    RunningIff(s);
    RecipientIff(s, b.recipient, b.binding);
    MapHas(DeliveryId, s.deliveries, b.delivery);
    MapHas(DeliveryEvent, s.deliveries, e.id);
    hide Selected, Map, Uuid.Valid, Digest.Valid, Actor.Valid;
    if Branch(s, e).Some? && WellPlaced(s, e) {
      FinalCheckIffEventId(s, e);
    }
  }

  predicate WellPlaced(s: Interaction, e: Event) {
    e.aggregate.kind.HumanInteraction? && e.aggregate.id == s.terms.id && e.revision == s.revision + 1
  }

  lemma RunningIff(s: Interaction)
    requires Valid(s)
    ensures Running(s) <==> Live(s)
  {
    hide TermsValid, DeliveriesValid, ResponsesValid, PolicySatisfied;
  }

  lemma RecipientIff(s: Interaction, p: Principal, binding: Uuid)
    requires Valid(s)
    ensures (var r := Selected(s.terms.recipients, p); r.Some? && r.value.binding == binding)
            <==> exists r :: r in s.terms.recipients && r.principal == p && r.binding == binding
  {
    hide Valid;
    if r :| r in s.terms.recipients && r.principal == p && r.binding == binding {
      SelectedIs(s, p, r);
    }
  }

  lemma MapHas<T, U>(f: T -> U, s: seq<T>, y: U)
    ensures y in Map(f, s) <==> exists x :: x in s && f(x) == y
  {
    if x :| x in s && f(x) == y {
      MapIn(f, s, x);
    }
  }

  // ------------------------------------------------------------------
  // Responses.
  // ------------------------------------------------------------------

  /** An answer of a recipient, in their own profile and role, to a delivery that reached them, with
      an artifact and under an event of its own, from someone who has not answered yet. */
  ghost predicate Responds(s: Interaction, e: Event) {
    && Follows(s, e) && e.body.ResponseRecorded? && Live(s) && e.id.Valid()
    && var b := e.body;
    && (exists r :: r in s.terms.recipients && r.principal == b.respondent && r.profile == b.profile
                    && r.profileRevision == b.profileRevision && r.role == b.role)
    && (exists d :: d in s.deliveries && d.id == b.delivery && d.event == b.deliveryEvent && d.recipient == b.respondent
                    && d.outcome.Delivered?)
    && b.specification == s.terms.specification && b.authentication.Valid() && b.artifact.Valid()
       && b.credential.Valid()
    && b.channel.Valid() && b.respondedAt.Some? && b.classification in {Answer, Decline, RequestClarification}
    && b.asserted in {AdvisoryOnly, AuthorityIfAuthorized, EvidenceOnly}
    && (forall x :: x in s.responses ==> x.respondent != b.respondent && x.artifact != b.artifact && x.event != e.id)
  }

  lemma RespondentIff(s: Interaction, b: Body)
    requires Valid(s) && b.ResponseRecorded?
    ensures (var r := Selected(s.terms.recipients, b.respondent);
             r.Some? && r.value.profile == b.profile && r.value.profileRevision == b.profileRevision
                 && r.value.role == b.role)
            <==> exists r :: r in s.terms.recipients && r.principal == b.respondent && r.profile == b.profile
                             && r.profileRevision == b.profileRevision && r.role == b.role
  {
    hide Valid;
    if r :| r in s.terms.recipients && r.principal == b.respondent && r.profile == b.profile
            && r.profileRevision == b.profileRevision && r.role == b.role {
      SelectedIs(s, b.respondent, r);
    }
  }

  lemma RecipientFacts(s: Interaction, r: Recipient)
    requires Valid(s) && r in s.terms.recipients
    ensures r.principal.kind.Human? && r.profile.Valid() && r.profileRevision > 0 && r.role.Valid()
            && s.terms.specification.Valid()
  {
    hide Uuid.Valid, Digest.Valid, DeliveriesValid, ResponsesValid, PhaseValid;
  }

  lemma DeliveryFacts(s: Interaction, d: Delivery)
    requires Valid(s) && d in s.deliveries
    ensures d.id.Valid() && d.event.Valid()
  {
    hide Uuid.Valid, Digest.Valid, TermsValid, ResponsesValid, PhaseValid, Map, Selected;
    assert DeliveryValid(s.terms, d);
  }

  lemma ParsesIff(s: Interaction, e: Event)
    requires Valid(s) && Responds(s, e)
    ensures ResponseParses(e.body, e.id)
  {
    hide Valid, Uuid.Valid, Digest.Valid;
    var b := e.body;
    var r :| r in s.terms.recipients && r.principal == b.respondent && r.profile == b.profile
             && r.profileRevision == b.profileRevision && r.role == b.role;
    RecipientFacts(s, r);
    var d :| d in s.deliveries && d.id == b.delivery && d.event == b.deliveryEvent && d.recipient == b.respondent
             && d.outcome.Delivered?;
    DeliveryFacts(s, d);
  }

  /** How many answers meet the policy. */
  predicate Enough(t: Terms, answers: nat) {
    match t.policy.kind
    case ExactOne => |t.recipients| == 1 && answers == 1
    case AnyOne => answers > 0
    case All => answers == |t.recipients|
    case Quorum => answers >= t.policy.quorum
    case OtherPolicy(_) => false
  }

  lemma ResponseIff(s: Interaction, e: Event)
    requires Valid(s) && e.body.ResponseRecorded?
    ensures Apply(s, e).Some? <==> Responds(s, e)
  {
    hide Valid;
    var b := e.body;
    RunningIff(s);
    RespondentIff(s, b);
    MapHas(ResponseEvent, s.responses, e.id);
    hide Selected, Map, Uuid.Valid, Digest.Valid, InsertionSort, PolicySatisfied;
    if Responds(s, e) {
      ParsesIff(s, e);
    }
    hide ResponseParses;
    if ResponseAccepted(s, b, e.id) && WellPlaced(s, e) {
      assert Branch(s, e).Some?;
      FinalCheckIffEventId(s, e);
      AcceptedParts(s, b, e.id);
    }
  }

  lemma AcceptedParts(s: Interaction, b: Body, event: Uuid)
    requires b.ResponseRecorded? && ResponseAccepted(s, b, event)
    ensures event.Valid() && b.authentication.Valid() && b.artifact.Valid() && b.credential.Valid() && b.channel.Valid()
    ensures b.respondedAt.Some? && b.classification in {Answer, Decline, RequestClarification}
    ensures b.asserted in {AdvisoryOnly, AuthorityIfAuthorized, EvidenceOnly}
  {
    hide Uuid.Valid, Digest.Valid, Selected;
  }

  /** An accepted response joins the others in the order of respondents, and the interaction is
      SATISFIED exactly when there are enough. */
  lemma ResponseLeaves(s: Interaction, e: Event)
    requires Valid(s) && e.body.ResponseRecorded? && Apply(s, e).Some?
    ensures var b, t := e.body, Apply(s, e).value;
            && t.terms == s.terms && t.deliveries == s.deliveries && t.revision == s.revision + 1
            && multiset(t.responses) == multiset(s.responses) +
               multiset{Response(e.id, b.respondent, b.profile, b.profileRevision, b.role, b.authentication, b.delivery,
                                 b.artifact,
                                 b.specification)}
            && (forall i, j :: 0 <= i < j < |t.responses| ==>
                Less(t.responses[i].respondent.id, t.responses[j].respondent.id))
            && t.phase == (if Enough(s.terms, |t.responses|) then Satisfied else Collecting)
  {
    var b, t := e.body, Apply(s, e).value;
    var more := s.responses + [RecordOf(b, e.id)];
    assert Valid(t) && t.responses == InsertionSort(EarlierRespondent, more) by {
      hide Valid, ResponseAccepted, InsertionSort, PolicySatisfied;
    }
    assert t == s.(responses := t.responses, revision := s.revision + 1,
                   phase := if PolicySatisfied(s.terms, t.responses) then Satisfied else Collecting) by {
      hide Valid, ResponseAccepted, InsertionSort, PolicySatisfied;
    }
    EarlierWeakOrder();
    InsertionSorted(EarlierRespondent, more);
    hide InsertionSort, StrictWeakOrder, Valid, Apply;
    AnsweredSize(t);
    forall i, j | 0 <= i < j < |t.responses| ensures Less(t.responses[i].respondent.id, t.responses[j].respondent.id) {
      assert !EarlierRespondent(t.responses[j], t.responses[i]);
      PeopleDiffer(t, i, j);
      LessTotal(t.responses[i].respondent.id, t.responses[j].respondent.id);
    }
  }

  lemma PeopleDiffer(t: Interaction, i: nat, j: nat)
    requires Valid(t) && i < j < |t.responses|
    ensures t.responses[i].respondent.id != t.responses[j].respondent.id
  {
    hide TermsValid, DeliveriesValid, PhaseValid, ResponseValid;
    assert Map(RespondentPerson, t.responses)[i] != Map(RespondentPerson, t.responses)[j];
  }

  // ------------------------------------------------------------------
  // Closing and expiry.
  // ------------------------------------------------------------------

  /** What the closing may resolve: the declared effect, or under authority an authorized effect
      with its evidence. */
  predicate Resolves(declared: Effect, b: Body)
    requires b.ClosedRecorded?
  {
    || (declared in {AdvisoryOnly, EvidenceOnly} && b.resolved == declared && b.authorization.None?)
    || (declared.AuthorityIfAuthorized? && b.resolved.EvidenceOnly? && b.authorization.None?)
    || (declared.AuthorityIfAuthorized? && b.resolved.AuthorizedEffect? && b.authorization.Some?
        && b.authorization.value.Valid() && b.authorization.value in b.evidence)
  }

  /** A satisfied interaction closes exactly on the list of all its responses, with reasons,
      evidence and an effect it may resolve to. */
  ghost predicate Closes(s: Interaction, e: Event) {
    && Follows(s, e) && e.body.ClosedRecorded? && s.phase.Satisfied?
    && var b := e.body;
    && b.satisfied && b.outcomeSatisfied && b.closedAt.Some? && b.closedBy.Valid()
    && |s.responses| <= 64 && multiset(b.acceptedEvents) == multiset(Map(ResponseEvent, s.responses))
    && multiset(b.acceptedRespondents) == multiset(Map(Respondent, s.responses))
    && 0 < |b.reasons| < 65 && (forall i :: 0 <= i < |b.reasons| ==> 0 < |b.reasons[i].value| < 4097)
    && (forall i, j :: 0 <= i < j < |b.reasons| ==> b.reasons[i] != b.reasons[j])
    && 0 < |b.evidence| < 65 && (forall i :: 0 <= i < |b.evidence| ==> b.evidence[i].Valid())
    && (forall i, j :: 0 <= i < j < |b.evidence| ==> b.evidence[i] != b.evidence[j])
    && Resolves(s.terms.effect, b)
  }

  lemma ClosingIff(s: Interaction, e: Event)
    requires Valid(s) && e.body.ClosedRecorded?
    ensures Apply(s, e).Some? <==> Closes(s, e)
    ensures Apply(s, e).Some? ==> Apply(s, e) == Some(s.(phase := Closed, revision := s.revision + 1))
  {
    hide Valid;
    var b := e.body;
    ExactIffListed(s, b.acceptedEvents, b.acceptedRespondents);
    if s.phase.Satisfied? {
      SatisfiedAnswered(s);
      SatisfiedMet(s);
    }
    ResolvesIff(s.terms.effect, b);
    hide ExactAccepted, Map, Uuid.Valid, ResolvedEffect, Resolves, PolicySatisfied;
    assert (forall x :: x in b.reasons ==> 1 <= |x.value| <= 4096) <==>
           (forall i :: 0 <= i < |b.reasons| ==> 0 < |b.reasons[i].value| < 4097);
    if Branch(s, e).Some? && WellPlaced(s, e) {
      FinalCheckIffEventId(s, e);
    }
  }

  lemma SatisfiedMet(s: Interaction)
    requires Valid(s) && s.phase.Satisfied?
    ensures PolicySatisfied(s.terms, s.responses)
  {
    hide TermsValid, DeliveriesValid, ResponsesValid, PolicySatisfied;
  }

  lemma ResolvesIff(declared: Effect, b: Body)
    requires b.ClosedRecorded?
    ensures Resolves(declared, b) <==> ResolvedEffect(declared, b.resolved, b.authorization, b.evidence)
  {
    hide Uuid.Valid;
  }

  /** A live interaction expires exactly at or after its deadline, by its timeout policy, and never
      as consent. */
  lemma ExpiryIff(s: Interaction, e: Event)
    requires Valid(s) && e.body.ExpiredRecorded?
    ensures Apply(s, e).Some? <==>
            var b := e.body;
            && Follows(s, e) && Live(s) && s.terms.deadline.Some? && b.deadline == s.terms.deadline
            && s.terms.deadline.value <= b.expiredAt && !b.silenceIsConsent && b.outcomeKnown
               && b.timeout == s.terms.timeout
    ensures Apply(s, e).Some? ==> Apply(s, e) == Some(s.(phase := Expired, revision := s.revision + 1))
  {
    hide Valid;
    RunningIff(s);
    Dated(s);
    if Branch(s, e).Some? && WellPlaced(s, e) {
      FinalCheckIffEventId(s, e);
    }
  }

  lemma Dated(s: Interaction)
    requires Valid(s)
    ensures s.terms.deadline.Some?
  {
    hide Uuid.Valid, Digest.Valid, DeliveriesValid, ResponsesValid, PhaseValid, People;
  }

  // ------------------------------------------------------------------
  // Terms.
  // ------------------------------------------------------------------

  /** The terms an interaction may be opened with. */
  ghost predicate Sound(t: Terms) {
    && t.id.Valid() && t.subject.Valid() && 0 !in {t.subjectEpoch, t.subjectRevision, t.question, t.policyRevision}
    && t.questionDigest.Valid() && t.specification.Valid() && t.disclosure.Valid() && t.policyDigest.Valid()
    && t.purpose in {Advisory, AuthorizedDecision, Evidentiary, Clarification, AcceptanceFeedback}
    && t.effect in {AdvisoryOnly, AuthorityIfAuthorized, EvidenceOnly} && t.confidentialityKnown && t.deadline.Some?
    && t.timeout.kind.Policy? && t.timeout.Valid() && t.origin.Valid()
    && (t.predecessor.Some? ==> t.predecessor.value.Valid() && t.predecessor.value != t.id)
    && (t.origin.kind.Human? ==> t.originActor.None? && t.originExecution.None?)
    && (t.origin.kind.ActorPrincipal? ==>
          t.originActor.Some? && t.originExecution.Some? && t.originActor.value.fqn == t.origin.id)
    && (match t.policy.kind
        case ExactOne => |t.recipients| == 1 && t.policy.quorum == 0
        case AnyOne => t.recipients != [] && t.policy.quorum == 0
        case All => t.recipients != [] && t.policy.quorum == 0
        case Quorum => 1 <= t.policy.quorum <= |t.recipients|
        case OtherPolicy(_) => false)
    && (forall i :: 0 <= i < |t.recipients| ==> Reachable(t.recipients[i]))
    && (forall i, j :: 0 <= i < j < |t.recipients| ==> t.recipients[i].principal.id != t.recipients[j].principal.id)
  }

  ghost predicate Reachable(r: Recipient) {
    && r.principal.kind.Human? && 1 <= |r.principal.id| <= 256 && r.profile.Valid() && r.profileRevision != 0
    && r.profileDigest.Valid() && r.role.Valid() && r.binding.Valid()
  }

  lemma TermsIff(t: Terms)
    ensures TermsValid(t) <==> Sound(t)
  {
    hide Uuid.Valid, Digest.Valid;
    var people := People(t.recipients);
    assert forall i :: 0 <= i < |people| ==> people[i] == Text(t.recipients[i].principal.id);
    assert (forall r :: r in t.recipients ==> r.Valid()) <==>
        (forall i :: 0 <= i < |t.recipients| ==> Reachable(t.recipients[i])) by {
      assert forall i :: 0 <= i < |t.recipients| ==> (t.recipients[i].Valid() <==> Reachable(t.recipients[i]));
    }
    hide Recipient.Valid, Reachable, Map;
  }

  /** A recipient who has not been reached can be: a delivery and then an answer are accepted, under
      any new ids. */
  lemma AnyoneCanAnswer(s: Interaction, r: Recipient, id: Uuid, answer: Uuid, artifact: Digest)
    returns (delivered: Event, answered: Event)
    requires Valid(s) && Live(s) && r in s.terms.recipients && id.Valid() && answer.Valid() && artifact.Valid()
    requires forall d :: d in s.deliveries ==> d.id != id && d.event != id
    requires forall x :: x in s.responses ==> x.respondent != r.principal && x.artifact != artifact && x.event != answer
    ensures Apply(s, delivered).Some? && Apply(Apply(s, delivered).value, answered).Some?
    ensures exists x :: x in Apply(Apply(s, delivered).value, answered).value.responses && x.respondent == r.principal
  {
    hide Valid, Apply, Uuid.Valid, Digest.Valid;
    var place := AggregateRef(AggregateKind.HumanInteraction, s.terms.id);
    var q, d := s.terms.question, s.terms.questionDigest;
    QuestionValid(s);
    RecipientFacts(s, r);
    delivered := Event(id, place, s.revision + 1,
                       DeliveryRecorded(s.terms.id, s.revision, q, id, r.principal, r.binding, d, d, d, None, None,
                                        None, Delivered,
                                        Some(0), d));
    DeliveryIff(s, delivered);
    var t := Apply(s, delivered).value;
    ApplyValid(s, delivered);
    answered := Event(answer, place, t.revision + 1,
                      ResponseRecorded(s.terms.id, t.revision, q, r.principal, r.profile, r.profileRevision, r.role, id,
                                       id, id,
                                       artifact, s.terms.specification, Answer, AdvisoryOnly, artifact, artifact,
                                           Some(0)));
    assert t.deliveries[|s.deliveries|] in t.deliveries;
    ResponseIff(t, answered);
    ResponseLeaves(t, answered);
    var u := Apply(t, answered).value;
    var x := RecordOf(answered.body, answer);
    assert x in multiset(u.responses);
  }

  lemma QuestionValid(s: Interaction)
    requires Valid(s)
    ensures s.terms.questionDigest.Valid()
  {
    hide Uuid.Valid, Digest.Valid, DeliveriesValid, ResponsesValid, PhaseValid, People;
  }

  lemma ApplyValid(s: Interaction, e: Event)
    requires Apply(s, e).Some?
    ensures Valid(Apply(s, e).value)
  {
    hide Valid, Branch;
  }
}
