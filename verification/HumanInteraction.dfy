/** Human interactions: a question put to selected people, its deliveries and responses.
    See kernel/human_interaction.go.
 */
module HumanInteraction {
  import opened Orders
  import opened Ids

  datatype Phase = Open | Collecting | Satisfied | Closed | Expired | OtherPhase(name: string)

  datatype PolicyKind = ExactOne | AnyOne | All | Quorum | OtherPolicy(name: string)

  datatype Policy = Policy(kind: PolicyKind, quorum: nat) {
    predicate Valid(selected: nat) {
      match kind
      case ExactOne => selected == 1 && quorum == 0
      case AnyOne => selected > 0 && quorum == 0
      case All => selected > 0 && quorum == 0
      case Quorum => 0 < quorum <= selected
      case OtherPolicy(_) => false
    }
  }

  datatype Recipient = Recipient(principal: Principal, profile: Uuid, profileRevision: nat, profileDigest: Digest,
                                 role: Uuid, binding: Uuid) {
    predicate Valid() {
      && principal.kind.Human? && principal.Valid() && profile.Valid() && profileRevision > 0 && profileDigest.Valid()
      && role.Valid() && binding.Valid()
    }
  }

  datatype DeliveryOutcome = Delivered | DeliveryFailed | DeliveryUnknown | OtherDelivery(name: string)

  datatype Delivery = Delivery(id: Uuid, event: Uuid, recipient: Principal, binding: Uuid, outcome: DeliveryOutcome)

  datatype Response = Response(
    event: Uuid, respondent: Principal, profile: Uuid, profileRevision: nat, role: Uuid, authentication: Uuid,
    delivery: Uuid, artifact: Digest, specification: Digest)

  datatype Purpose = Advisory | AuthorizedDecision | Evidentiary | Clarification | AcceptanceFeedback
      | OtherPurpose(name: string)

  datatype Effect = AdvisoryOnly | AuthorityIfAuthorized | EvidenceOnly | AuthorizedEffect | OtherEffect(name: string)

  predicate ValidEffect(e: Effect) {
    e.AdvisoryOnly? || e.AuthorityIfAuthorized? || e.EvidenceOnly?
  }

  /** What the opening of the interaction fixes for good. */
  datatype Terms = Terms(
    id: Uuid, subject: AggregateRef, subjectEpoch: nat, subjectRevision: nat, question: nat, questionDigest: Digest,
    specification: Digest, origin: Principal, originActor: Option<Actor>, originExecution: Option<Execution>,
    recipients: seq<Recipient>, policy: Policy, purpose: Purpose, effect: Effect, confidentialityKnown: bool,
    deadline: Option<int>, timeout: Principal, disclosure: Digest, policyRevision: nat, policyDigest: Digest,
    predecessor: Option<Uuid>)

  datatype Interaction = Interaction(terms: Terms, revision: nat, phase: Phase, deliveries: seq<Delivery>,
                                     responses: seq<Response>)

  // ------------------------------------------------------------------
  // Validity.
  // ------------------------------------------------------------------

  /** An identity within the interaction is the text of a principal's id. */
  function PersonOf(p: Principal): Text {
    Text(p.id)
  }

  function Person(r: Recipient): Text {
    PersonOf(r.principal)
  }

  function People(recipients: seq<Recipient>): seq<Text> {
    Map(Person, recipients)
  }

  predicate TermsValid(t: Terms) {
    && t.id.Valid() && t.subject.Valid() && t.subjectEpoch > 0 && t.subjectRevision > 0 && t.question > 0
    && t.questionDigest.Valid() && t.specification.Valid() && t.origin.Valid() && t.policy.Valid(|t.recipients|)
    && !t.purpose.OtherPurpose? && ValidEffect(t.effect) && t.confidentialityKnown && t.deadline.Some?
    && t.timeout.kind.Policy? && t.timeout.Valid() && t.disclosure.Valid() && t.policyRevision > 0
       && t.policyDigest.Valid()
    && (t.predecessor.Some? ==> t.predecessor.value.Valid() && t.predecessor.value != t.id)
    && (t.origin.kind.Human? ==> t.originActor.None? && t.originExecution.None?)
    && (t.origin.kind.ActorPrincipal? ==>
        t.originActor.Some? && t.originExecution.Some? && t.origin.id == t.originActor.value.fqn)
    && (forall r :: r in t.recipients ==> r.Valid())
    && Distinct(People(t.recipients))
  }

  /** Selected: the first recipient with that principal. */
  function Selected(recipients: seq<Recipient>, p: Principal): (r: Option<Recipient>)
    ensures r.Some? <==> p.kind.Human? && exists k :: 0 <= k < |recipients| && recipients[k].principal == p
    ensures r.Some? ==> r.value in recipients && r.value.principal == p
  {
    if !p.kind.Human? || |recipients| == 0 then None
    else if recipients[0].principal == p then Some(recipients[0])
    else
      assert forall k :: 0 < k < |recipients| ==> recipients[k] == recipients[1..][k - 1];
      Selected(recipients[1..], p)
  }

  predicate DeliveryValid(t: Terms, d: Delivery) {
    && d.id.Valid() && d.event.Valid() && !d.outcome.OtherDelivery?
    && var r := Selected(t.recipients, d.recipient);
    && r.Some? && r.value.binding == d.binding
  }

  predicate DeliveredTo(deliveries: seq<Delivery>, id: Uuid, p: Principal) {
    exists d :: d in deliveries && d.id == id && d.recipient == p && d.outcome.Delivered?
  }

  predicate ResponseValid(t: Terms, deliveries: seq<Delivery>, x: Response) {
    && x.event.Valid() && x.authentication.Valid() && x.delivery.Valid() && x.artifact.Valid()
       && x.specification == t.specification
    && DeliveredTo(deliveries, x.delivery, x.respondent)
    && var r := Selected(t.recipients, x.respondent);
    && r.Some? && r.value.profile == x.profile && r.value.profileRevision == x.profileRevision && r.value.role == x.role
  }

  function DeliveryId(d: Delivery): Uuid {
    d.id
  }

  function DeliveryEvent(d: Delivery): Uuid {
    d.event
  }

  function ResponseEvent(x: Response): Uuid {
    x.event
  }

  function Respondent(x: Response): Principal {
    x.respondent
  }

  function RespondentPerson(x: Response): Text {
    PersonOf(x.respondent)
  }

  function Artifact(x: Response): Digest {
    x.artifact
  }

  predicate DeliveriesValid(t: Terms, ds: seq<Delivery>) {
    (forall d :: d in ds ==> DeliveryValid(t, d)) && Distinct(Map(DeliveryId, ds)) && Distinct(Map(DeliveryEvent, ds))
  }

  predicate ResponsesValid(t: Terms, ds: seq<Delivery>, xs: seq<Response>) {
    && (forall x :: x in xs ==> ResponseValid(t, ds, x))
    && Distinct(Map(ResponseEvent, xs)) && Distinct(Map(RespondentPerson, xs)) && Distinct(Map(Artifact, xs))
  }

  /** ResponsePolicySatisfied, on the number of people selected and the number who answered. */
  predicate Meets(policy: Policy, selected: nat, answered: nat) {
    match policy.kind
    case ExactOne => selected == 1 && answered == 1
    case AnyOne => answered >= 1
    case All => answered == selected
    case Quorum => answered >= policy.quorum
    case OtherPolicy(_) => false
  }

  function Answered(xs: seq<Response>): set<Text> {
    set p | p in Map(RespondentPerson, xs)
  }

  predicate PolicySatisfied(t: Terms, xs: seq<Response>) {
    Meets(t.policy, |t.recipients|, |Answered(xs)|)
  }

  predicate PhaseValid(s: Interaction) {
    match s.phase
    case Open => |s.deliveries| == 0 && |s.responses| == 0
    case Collecting => !PolicySatisfied(s.terms, s.responses)
    case Satisfied => PolicySatisfied(s.terms, s.responses)
    case Closed => PolicySatisfied(s.terms, s.responses)
    case Expired => true
    case OtherPhase(_) => false
  }

  predicate Valid(s: Interaction) {
    && s.revision > 0 && TermsValid(s.terms) && DeliveriesValid(s.terms, s.deliveries)
    && ResponsesValid(s.terms, s.deliveries, s.responses) && PhaseValid(s)
  }

  // ------------------------------------------------------------------
  // Events.
  // ------------------------------------------------------------------

  datatype Classification = Answer | Decline | RequestClarification | OtherClassification(name: string)

  datatype Body =
    | DeliveryRecorded(
        interaction: Uuid, expectedRevision: nat, question: nat, delivery: Uuid, recipient: Principal, binding: Uuid,
        adapter: Digest, canonical: Digest, rendered: Digest, presenter: Option<Actor>,
        presenterExecution: Option<Uuid>, equivalence: Option<Uuid>, outcome: DeliveryOutcome, attemptedAt: Option<int>,
        channel: Digest)
    | ResponseRecorded(
        interaction: Uuid, expectedRevision: nat, question: nat, respondent: Principal, profile: Uuid,
        profileRevision: nat, role: Uuid, authentication: Uuid, delivery: Uuid, deliveryEvent: Uuid, artifact: Digest,
        specification: Digest, classification: Classification, asserted: Effect, credential: Digest, channel: Digest,
        respondedAt: Option<int>)
    | ClosedRecorded(
        interaction: Uuid, expectedRevision: nat, question: nat, acceptedEvents: seq<Uuid>,
        acceptedRespondents: seq<Principal>, satisfied: bool, outcomeSatisfied: bool, resolved: Effect,
        authorization: Option<Uuid>, closedAt: Option<int>, closedBy: Principal, reasons: seq<Text>,
        evidence: seq<Uuid>)
    | ExpiredRecorded(
        interaction: Uuid, expectedRevision: nat, question: nat, deadline: Option<int>, expiredAt: int,
        silenceIsConsent: bool, outcomeKnown: bool, timeout: Principal)
    | OtherBody

  datatype Event = Event(id: Uuid, aggregate: AggregateRef, revision: nat, body: Body)

  predicate Addressed(s: Interaction, b: Body) {
    !b.OtherBody? && b.interaction == s.terms.id && b.expectedRevision == s.revision && b.question == s.terms.question
  }

  predicate Running(s: Interaction) {
    !s.phase.Closed? && !s.phase.Expired?
  }

  predicate DeliveryAccepted(s: Interaction, b: Body) {
    && b.DeliveryRecorded? && Running(s) && Addressed(s, b) && b.canonical == s.terms.questionDigest
       && b.delivery.Valid()
    && b.adapter.Valid() && b.rendered.Valid() && b.channel.Valid() && b.attemptedAt.Some? && !b.outcome.OtherDelivery?
    && (b.presenter.None? <==> b.presenterExecution.None?)
    && (b.presenter.Some? ==> b.presenter.value.Valid() && b.presenterExecution.value.Valid())
    && (b.equivalence.Some? ==> b.equivalence.value.Valid())
    && (b.rendered != b.canonical ==> b.equivalence.Some?)
    && b.delivery !in Map(DeliveryId, s.deliveries)
    && var r := Selected(s.terms.recipients, b.recipient);
    && r.Some? && r.value.binding == b.binding
  }

  function RecordOf(b: Body, event: Uuid): Response
    requires b.ResponseRecorded?
  {
    Response(event, b.respondent, b.profile, b.profileRevision, b.role, b.authentication, b.delivery, b.artifact,
             b.specification)
  }

  /** humanResponseFromPayload */
  predicate ResponseParses(b: Body, event: Uuid) {
    && b.ResponseRecorded? && b.respondent.kind.Human? && event.Valid() && b.profile.Valid() && b.profileRevision > 0
    && b.role.Valid() && b.authentication.Valid() && b.delivery.Valid() && b.deliveryEvent.Valid() && b.artifact.Valid()
    && b.specification.Valid() && !b.classification.OtherClassification? && ValidEffect(b.asserted)
       && b.credential.Valid()
    && b.channel.Valid() && b.respondedAt.Some?
  }

  predicate ResponseAccepted(s: Interaction, b: Body, event: Uuid) {
    && ResponseParses(b, event) && Running(s) && Addressed(s, b) && b.specification == s.terms.specification
    && (exists d ::
          d in s.deliveries && d.id == b.delivery && d.event == b.deliveryEvent && d.recipient == b.respondent
          && d.outcome.Delivered?)
    && (forall x :: x in s.responses ==> x.respondent != b.respondent && x.artifact != b.artifact)
    && var r := Selected(s.terms.recipients, b.respondent);
    && r.Some? && r.value.profile == b.profile && r.value.profileRevision == b.profileRevision && r.value.role == b.role
  }

  /** exactAcceptedHumanResponses, as checked. */
  predicate ExactAccepted(xs: seq<Response>, events: seq<Uuid>, respondents: seq<Principal>) {
    && |xs| > 0 && |events| == |xs| && |respondents| == |xs| && ValidUnique(events, 1, 64)
    && (forall e :: e in events ==> e in Map(ResponseEvent, xs))
    && (forall p :: p in respondents ==> p.kind.Human? && p.Valid() && p in Map(Respondent, xs))
    && Distinct(respondents)
  }

  /** validResolvedHumanEffect */
  predicate ResolvedEffect(declared: Effect, resolved: Effect, authorization: Option<Uuid>, evidence: seq<Uuid>) {
    match declared
    case AdvisoryOnly => resolved.AdvisoryOnly? && authorization.None?
    case EvidenceOnly => resolved.EvidenceOnly? && authorization.None?
    case AuthorityIfAuthorized =>
      if resolved.EvidenceOnly? then authorization.None?
      else
        resolved.AuthorizedEffect? && authorization.Some? && authorization.value.Valid()
        && authorization.value in evidence
    case _ => false
  }

  predicate CloseAccepted(s: Interaction, b: Body) {
    && b.ClosedRecorded? && s.phase.Satisfied? && PolicySatisfied(s.terms, s.responses) && b.satisfied
       && Addressed(s, b)
    && b.outcomeSatisfied && b.closedAt.Some? && b.closedBy.Valid()
    && 1 <= |b.reasons| <= 64 && (forall x :: x in b.reasons ==> 1 <= |x.value| <= 4096) && Distinct(b.reasons)
    && ValidUnique(b.evidence, 1, 64) && ExactAccepted(s.responses, b.acceptedEvents, b.acceptedRespondents)
    && ResolvedEffect(s.terms.effect, b.resolved, b.authorization, b.evidence)
  }

  predicate ExpiryAccepted(s: Interaction, b: Body) {
    && b.ExpiredRecorded? && Running(s) && Addressed(s, b) && b.deadline == s.terms.deadline
    && (s.terms.deadline.Some? ==> b.expiredAt >= s.terms.deadline.value) && !b.silenceIsConsent && b.outcomeKnown
    && b.timeout == s.terms.timeout
  }

  /** sort.Slice by respondent id. */
  predicate EarlierRespondent(a: Response, b: Response) {
    Less(a.respondent.id, b.respondent.id)
  }

  /** The branch checks: the interaction before its revision moves. */
  function Branch(s: Interaction, e: Event): Option<Interaction> {
    match e.body
    case DeliveryRecorded(_, _, _, delivery, recipient, binding, _, _, _, _, _, _, outcome, _, _) =>
      if DeliveryAccepted(s, e.body) then
        Some(s.(deliveries := s.deliveries + [Delivery(delivery, e.id, recipient, binding, outcome)],
                phase := if s.phase.Open? then Collecting else s.phase))
      else None
    case ResponseRecorded(_, _, _, _, _, _, _, _, _, _, _, _, _, _, _, _, _) =>
      if ResponseAccepted(s, e.body, e.id) then
        var responses := InsertionSort(EarlierRespondent, s.responses + [RecordOf(e.body, e.id)]);
        Some(s.(responses := responses, phase := if PolicySatisfied(s.terms, responses) then Satisfied else Collecting))
      else None
    case ClosedRecorded(_, _, _, _, _, _, _, _, _, _, _, _, _) => if CloseAccepted(s, e.body)
        then Some(s.(phase := Closed)) else None
    case ExpiredRecorded(_, _, _, _, _, _, _, _) => if ExpiryAccepted(s, e.body) then Some(s.(phase := Expired))
        else None
    case OtherBody => None
  }

  /** ApplyHumanInteractionEvent: None is a rejection. */
  function Apply(s: Interaction, e: Event): Option<Interaction> {
    if !Valid(s) || !e.aggregate.kind.HumanInteraction? || e.aggregate.id != s.terms.id || e.revision != s.revision + 1
    then None
    else
      var b := Branch(s, e);
      if b.None? then None
      else
        var next := b.value.(revision := s.revision + 1);
        if Valid(next) then Some(next) else None
  }

  // ------------------------------------------------------------------
  // The final validity check.
  // ------------------------------------------------------------------

  lemma DeliveryFinalCheck(s: Interaction, e: Event)
    requires Valid(s) && DeliveryAccepted(s, e.body)
    ensures Valid(Branch(s, e).value.(revision := s.revision + 1)) <==>
              e.id.Valid() && e.id !in Map(DeliveryEvent, s.deliveries)
  {
    hide Uuid.Valid, Digest.Valid, Actor.Valid, TermsValid, Map, Selected;
    var next := Branch(s, e).value;
    var d := next.deliveries[|s.deliveries|];
    AppendDistinct(DeliveryId, s.deliveries, d);
    AppendDistinct(DeliveryEvent, s.deliveries, d);
    assert forall x :: x in next.deliveries <==> x in s.deliveries || x == d;
    assert DeliveryValid(s.terms, d) <==> e.id.Valid();
    assert next.responses == s.responses;
    ResponsesStay(s.terms, s.deliveries, d, s.responses);
    DeliveryPhase(s, next);
  }

  lemma ResponsesStay(t: Terms, ds: seq<Delivery>, d: Delivery, xs: seq<Response>)
    requires ResponsesValid(t, ds, xs)
    ensures ResponsesValid(t, ds + [d], xs)
  {
    hide Uuid.Valid, Digest.Valid, Map, Selected;
    forall x | x in xs ensures ResponseValid(t, ds + [d], x) {
      assert DeliveredTo(ds, x.delivery, x.respondent);
      var y :| y in ds && y.id == x.delivery && y.recipient == x.respondent && y.outcome.Delivered?;
      assert y in ds + [d];
    }
  }

  lemma DeliveryPhase(s: Interaction, next: Interaction)
    requires Valid(s) && Running(s) && next.terms == s.terms && next.responses == s.responses
    requires next.phase == if s.phase.Open? then Collecting else s.phase
    ensures PhaseValid(next)
  {
    hide Uuid.Valid, Digest.Valid, DeliveriesValid, ResponsesValid;
    if s.phase.Open? {
      assert Answered(s.responses) == {};
    }
  }

  /** Validity of the responses does not depend on their order. */
  lemma ResponsesPermute(t: Terms, ds: seq<Delivery>, a: seq<Response>, b: seq<Response>)
    requires multiset(a) == multiset(b)
    ensures ResponsesValid(t, ds, a) <==> ResponsesValid(t, ds, b)
    ensures Answered(a) == Answered(b)
  {
    SameElements(a, b);
    MapPermutation(ResponseEvent, a, b);
    MapPermutation(RespondentPerson, a, b);
    MapPermutation(Artifact, a, b);
    DistinctPermutation(Map(ResponseEvent, a), Map(ResponseEvent, b));
    DistinctPermutation(Map(RespondentPerson, a), Map(RespondentPerson, b));
    DistinctPermutation(Map(Artifact, a), Map(Artifact, b));
    SameElements(Map(RespondentPerson, a), Map(RespondentPerson, b));
    hide Map, ResponseValid;
  }

  lemma FreshPerson(t: Terms, ds: seq<Delivery>, xs: seq<Response>, x: Response)
    requires ResponsesValid(t, ds, xs) && x.respondent.kind.Human?
    requires forall y :: y in xs ==> y.respondent != x.respondent && y.artifact != x.artifact
    ensures PersonOf(x.respondent) !in Map(RespondentPerson, xs) && x.artifact !in Map(Artifact, xs)
  {
    hide Uuid.Valid, Digest.Valid;
    forall i | 0 <= i < |xs| ensures PersonOf(xs[i].respondent) != PersonOf(x.respondent) {
      assert ResponseValid(t, ds, xs[i]);
    }
  }

  /** One more response keeps the list valid exactly when its event id is new. */
  lemma ResponseAdded(t: Terms, ds: seq<Delivery>, xs: seq<Response>, x: Response)
    requires ResponsesValid(t, ds, xs) && ResponseValid(t, ds, x) && x.respondent.kind.Human?
    requires forall y :: y in xs ==> y.respondent != x.respondent && y.artifact != x.artifact
    ensures ResponsesValid(t, ds, xs + [x]) <==> x.event !in Map(ResponseEvent, xs)
  {
    hide ResponseValid;
    FreshPerson(t, ds, xs, x);
    hide Map;
    AppendDistinct(ResponseEvent, xs, x);
    AppendDistinct(RespondentPerson, xs, x);
    AppendDistinct(Artifact, xs, x);
    assert forall y :: y in xs + [x] <==> y in xs || y == x;
  }

  lemma ResponseFinalCheck(s: Interaction, e: Event)
    requires Valid(s) && ResponseAccepted(s, e.body, e.id)
    ensures Valid(Branch(s, e).value.(revision := s.revision + 1)) <==> e.id !in Map(ResponseEvent, s.responses)
  {
    hide Uuid.Valid, Digest.Valid, TermsValid, DeliveriesValid, ResponsesValid, ResponseValid, Selected, InsertionSort,
         Map;
    var next := Branch(s, e).value;
    var x := RecordOf(e.body, e.id);
    ResponsesPermute(s.terms, s.deliveries, s.responses + [x], next.responses);
    NewResponseValid(s, e);
    ResponseAdded(s.terms, s.deliveries, s.responses, x);
    hide ResponseAccepted;
  }

  lemma NewResponseValid(s: Interaction, e: Event)
    requires ResponseAccepted(s, e.body, e.id)
    ensures ResponseValid(s.terms, s.deliveries, RecordOf(e.body, e.id))
  {
    hide Uuid.Valid, Digest.Valid;
  }

  lemma EarlierWeakOrder()
    ensures StrictWeakOrder(EarlierRespondent)
  {
    forall x, y | EarlierRespondent(x, y) ensures !EarlierRespondent(y, x) {
      LessAsymmetric(x.respondent.id, y.respondent.id);
    }
    forall x, y, z | !EarlierRespondent(y, x) && !EarlierRespondent(z, y) ensures !EarlierRespondent(z, x) {
      LessNegativelyTransitive(x.respondent.id, y.respondent.id, z.respondent.id);
    }
  }

  /** People are distinct, so however the sort orders ties the response list is determined. */
  lemma ResponseOrderDetermined(xs: seq<Response>, sorted: seq<Response>)
    requires Distinct(Map(RespondentPerson, xs)) && multiset(sorted) == multiset(xs)
             && Sorted(EarlierRespondent, sorted)
    ensures sorted == InsertionSort(EarlierRespondent, xs)
  {
    EarlierWeakOrder();
    forall x, y | x in xs && y in xs && !EarlierRespondent(x, y) && !EarlierRespondent(y, x) ensures x == y {
      LessTotal(x.respondent.id, y.respondent.id);
      DistinctImage(RespondentPerson, xs, x, y);
    }
    assert NoTies(EarlierRespondent, xs);
    SortIsInsertionSort(EarlierRespondent, xs, sorted);
  }

  /** When the final re-check of a transition that passed its branch checks can refuse it:
      only for a malformed or reused delivery event id, or a reused response event id. */
  predicate EventIdFits(s: Interaction, e: Event) {
    match e.body
    case DeliveryRecorded(_, _, _, _, _, _, _, _, _, _, _, _, _, _, _) => e.id.Valid()
        && e.id !in Map(DeliveryEvent, s.deliveries)
    case ResponseRecorded(_, _, _, _, _, _, _, _, _, _, _, _, _, _, _, _, _) => e.id !in Map(ResponseEvent, s.responses)
    case _ => true
  }

  lemma FinalCheckIffEventId(s: Interaction, e: Event)
    requires Valid(s) && e.aggregate.kind.HumanInteraction? && e.aggregate.id == s.terms.id
             && e.revision == s.revision + 1
    requires Branch(s, e).Some?
    ensures Apply(s, e).Some? <==> EventIdFits(s, e)
  {
    hide TermsValid, DeliveriesValid, ResponsesValid, DeliveryAccepted, ResponseAccepted, ExactAccepted, Map,
         InsertionSort;
    match e.body
    case DeliveryRecorded(_, _, _, _, _, _, _, _, _, _, _, _, _, _, _) => DeliveryFinalCheck(s, e);
    case ResponseRecorded(_, _, _, _, _, _, _, _, _, _, _, _, _, _, _, _, _) => ResponseFinalCheck(s, e);
    case _ =>
  }

  // ------------------------------------------------------------------
  // The response policy.
  // ------------------------------------------------------------------

  lemma AnsweredWithin(s: Interaction)
    requires Valid(s)
    ensures Answered(s.responses) <= (set p | p in People(s.terms.recipients))
    ensures |Answered(s.responses)| <= |s.terms.recipients|
  {
    hide Uuid.Valid, Digest.Valid, DeliveriesValid, PhaseValid;
    var people := People(s.terms.recipients);
    forall i | 0 <= i < |s.responses| ensures PersonOf(s.responses[i].respondent) in people {
      assert ResponseValid(s.terms, s.deliveries, s.responses[i]);
      var r := Selected(s.terms.recipients, s.responses[i].respondent).value;
      MapIn(Person, s.terms.recipients, r);
    }
    DistinctSize(people);
    SubsetSize(Answered(s.responses), set p | p in people);
  }

  /** Accepted answers are never taken back, and a satisfied policy stays satisfied. */
  lemma PolicyMonotone(s: Interaction, e: Event)
    requires Apply(s, e).Some?
    ensures var t := Apply(s, e).value;
            && t.terms == s.terms && Answered(s.responses) <= Answered(t.responses)
            && (PolicySatisfied(s.terms, s.responses) ==> PolicySatisfied(t.terms, t.responses))
  {
    var t := Apply(s, e).value;
    AnswersGrow(s, e);
    AnsweredWithin(t);
    SubsetSize(Answered(s.responses), Answered(t.responses));
    AnsweredWithin(s);
    hide Valid, Apply, Answered;
  }

  lemma AnswersGrow(s: Interaction, e: Event)
    requires Apply(s, e).Some?
    ensures Valid(s) && Valid(Apply(s, e).value) && Apply(s, e).value.terms == s.terms
    ensures Answered(s.responses) <= Answered(Apply(s, e).value.responses)
  {
    hide Valid, DeliveryAccepted, ResponseAccepted, CloseAccepted, ExpiryAccepted, InsertionSort, PolicySatisfied, Map;
    var t := Apply(s, e).value;
    if e.body.ResponseRecorded? {
      var x := RecordOf(e.body, e.id);
      var more := s.responses + [x];
      assert multiset(t.responses) == multiset(more);
      MapPermutation(RespondentPerson, more, t.responses);
      SameElements(Map(RespondentPerson, more), Map(RespondentPerson, t.responses));
      assert Map(RespondentPerson, more) == Map(RespondentPerson, s.responses) + [RespondentPerson(x)];
    }
  }

  function Run(s: Interaction, events: seq<Event>): Option<Interaction> {
    if |events| == 0 then Some(s)
    else
      var before := Run(s, events[..|events| - 1]);
      if before.None? then None else Apply(before.value, events[|events| - 1])
  }

  /** Over any run: a policy once satisfied stays satisfied. */
  lemma {:induction false} PolicyStaysSatisfied(s: Interaction, events: seq<Event>)
    requires Valid(s) && Run(s, events).Some? && PolicySatisfied(s.terms, s.responses)
    ensures var t := Run(s, events).value;
            PolicySatisfied(t.terms, t.responses) && Answered(s.responses) <= Answered(t.responses)
  {
    hide Apply, Valid, Answered, PolicySatisfied;
    if |events| == 0 {
    } else {
      var n := |events| - 1;
      PolicyStaysSatisfied(s, events[..n]);
      PolicyMonotone(Run(s, events[..n]).value, events[n]);
    }
  }

  datatype PolicyResult = RecipientMismatch | Unsatisfied | PolicyMet

  /** EvaluateHumanResponsePolicy */
  function EvaluateResponsePolicy(policy: Policy, selected: seq<Text>, accepted: seq<Text>): PolicyResult {
    var selectedSet := set p | p in selected;
    var acceptedSet := set p | p in accepted;
    if exists p :: p in accepted && p !in selected then RecipientMismatch
    else if Meets(policy, |selectedSet|, |acceptedSet|) then PolicyMet
    else Unsatisfied
  }

  /** The two implementations of the response policy agree on every valid interaction. */
  lemma PolicyAgrees(s: Interaction)
    requires Valid(s)
    ensures EvaluateResponsePolicy(s.terms.policy, People(s.terms.recipients), Map(RespondentPerson, s.responses))
            == if PolicySatisfied(s.terms, s.responses) then PolicyMet else Unsatisfied
  {
    hide Uuid.Valid, Digest.Valid, DeliveriesValid, ResponsesValid, PhaseValid, Meets, Map;
    AnsweredWithin(s);
    DistinctSize(People(s.terms.recipients));
    forall p | p in Map(RespondentPerson, s.responses) ensures p in People(s.terms.recipients) {
      assert p in Answered(s.responses);
    }
  }

  // ------------------------------------------------------------------
  // Closing.
  // ------------------------------------------------------------------

  lemma RespondentsDistinct(xs: seq<Response>)
    requires Distinct(Map(RespondentPerson, xs))
    ensures Distinct(Map(Respondent, xs))
  {
    forall i, j | 0 <= i < j < |xs| ensures Map(Respondent, xs)[i] != Map(Respondent, xs)[j] {
      assert Map(RespondentPerson, xs)[i] != Map(RespondentPerson, xs)[j];
    }
  }

  /** The closing event is accepted exactly when it lists the accepted responses, event by
      event and person by person, and there are at most 64 of them. */
  lemma ExactIffListed(s: Interaction, events: seq<Uuid>, respondents: seq<Principal>)
    requires Valid(s)
    ensures ExactAccepted(s.responses, events, respondents) <==>
            && 1 <= |s.responses| <= 64
            && multiset(events) == multiset(Map(ResponseEvent, s.responses))
            && multiset(respondents) == multiset(Map(Respondent, s.responses))
  {
    var xs := s.responses;
    var es, ps := Map(ResponseEvent, xs), Map(Respondent, xs);
    assert Distinct(es) && Distinct(ps) by { hide Uuid.Valid, Digest.Valid, Map; RespondentsDistinct(xs); }
    if ExactAccepted(xs, events, respondents) {
      hide Valid, Uuid.Valid, Map;
      DistinctInside(events, es);
      DistinctInside(respondents, ps);
    }
    if 1 <= |xs| <= 64 && multiset(events) == multiset(es) && multiset(respondents) == multiset(ps) {
      ListedIsExact(s, events, respondents);
    }
  }

  lemma ListedIsExact(s: Interaction, events: seq<Uuid>, respondents: seq<Principal>)
    requires Valid(s) && 1 <= |s.responses| <= 64
    requires Distinct(Map(ResponseEvent, s.responses)) && Distinct(Map(Respondent, s.responses))
    requires multiset(events) == multiset(Map(ResponseEvent, s.responses))
    requires multiset(respondents) == multiset(Map(Respondent, s.responses))
    ensures ExactAccepted(s.responses, events, respondents)
  {
    var es, ps := Map(ResponseEvent, s.responses), Map(Respondent, s.responses);
    ListedValid(s);
    hide Valid, Uuid.Valid, Map, Principal.Valid;
    SameSize(events, es);
    SameSize(respondents, ps);
    SameElements(events, es);
    SameElements(respondents, ps);
    DistinctPermutation(events, es);
    DistinctPermutation(respondents, ps);
    forall i | 0 <= i < |events| ensures events[i].Valid() {
      assert events[i] in es;
    }
  }

  lemma ListedValid(s: Interaction)
    requires Valid(s)
    ensures forall e :: e in Map(ResponseEvent, s.responses) ==> e.Valid()
    ensures forall p :: p in Map(Respondent, s.responses) ==> p.kind.Human? && p.Valid()
  {
    hide Uuid.Valid, Digest.Valid, DeliveriesValid, PhaseValid;
    forall i | 0 <= i < |s.responses| ensures s.responses[i].event.Valid() && s.responses[i].respondent.kind.Human?
        && s.responses[i].respondent.Valid() {
      assert ResponseValid(s.terms, s.deliveries, s.responses[i]);
      assert Selected(s.terms.recipients, s.responses[i].respondent).value.Valid();
    }
  }

  /** CLOSED: the policy is met, the closing event lists exactly the accepted responses, and
      each of them answers a delivery that reached that same person. */
  lemma ClosedIsExact(s: Interaction, e: Event)
    requires Apply(s, e).Some? && e.body.ClosedRecorded?
    ensures var t := Apply(s, e).value;
            && t.phase.Closed? && PolicySatisfied(t.terms, t.responses) && t.responses == s.responses
            && multiset(e.body.acceptedEvents) == multiset(Map(ResponseEvent, t.responses))
            && multiset(e.body.acceptedRespondents) == multiset(Map(Respondent, t.responses))
            && (forall x :: x in t.responses ==> DeliveredTo(t.deliveries, x.delivery, x.respondent))
  {
    hide TermsValid, DeliveriesValid, Uuid.Valid, Digest.Valid, Map, PolicySatisfied;
    ExactIffListed(s, e.body.acceptedEvents, e.body.acceptedRespondents);
    forall x | x in s.responses ensures DeliveredTo(s.deliveries, x.delivery, x.respondent) {
      assert ResponseValid(s.terms, s.deliveries, x);
    }
  }

  /** The closing event that lists every response. */
  function ClosingEvent(s: Interaction): Event
    requires |s.responses| > 0
  {
    Event(s.terms.id, AggregateRef(AggregateKind.HumanInteraction, s.terms.id), s.revision + 1,
          ClosedRecorded(s.terms.id, s.revision, s.terms.question, Map(ResponseEvent, s.responses),
                         Map(Respondent, s.responses), true, true,
                         if s.terms.effect.AdvisoryOnly? then AdvisoryOnly else EvidenceOnly, None, Some(0),
                         s.terms.timeout, [Text("answered")], [s.responses[0].event]))
  }

  ghost predicate Closable(s: Interaction) {
    exists e: Event :: e.body.ClosedRecorded? && Apply(s, e).Some?
  }

  lemma SatisfiedAnswered(s: Interaction)
    requires Valid(s) && s.phase.Satisfied?
    ensures |s.responses| > 0 && s.terms.timeout.Valid() && ValidEffect(s.terms.effect)
  {
    hide Uuid.Valid, Digest.Valid, DeliveriesValid, ResponsesValid;
    AnsweredSize(s);
  }

  lemma ClosingAccepted(s: Interaction)
    requires Valid(s) && s.phase.Satisfied? && 1 <= |s.responses| <= 64
    ensures Apply(s, ClosingEvent(s)).Some?
  {
    var b := ClosingEvent(s).body;
    SatisfiedAnswered(s);
    ExactIffListed(s, b.acceptedEvents, b.acceptedRespondents);
    assert ValidUnique(b.evidence, 1, 64) by {
      ListedValid(s);
      hide Valid, Uuid.Valid;
      assert s.responses[0].event == Map(ResponseEvent, s.responses)[0];
    }
    hide TermsValid, DeliveriesValid, ResponsesValid, Uuid.Valid, ExactAccepted, Map, ValidUnique, PolicySatisfied;
  }

  /** An interaction can be closed exactly when it is SATISFIED with at most 64 responses; under
      an ALL policy that is a bound on the people asked. */
  lemma ClosableIff(s: Interaction)
    requires Valid(s)
    ensures Closable(s) <==> s.phase.Satisfied? && |s.responses| <= 64
    ensures s.terms.policy.kind.All? && s.phase.Satisfied? ==> (Closable(s) <==> |s.terms.recipients| <= 64)
  {
    AnsweredSize(s);
    assert s.terms.policy.kind.All? && s.phase.Satisfied? ==> |s.responses| == |s.terms.recipients| by {
      hide TermsValid, DeliveriesValid, ResponsesValid, Answered;
    }
    if s.phase.Satisfied? && |s.responses| <= 64 {
      SatisfiedAnswered(s);
      ClosingAccepted(s);
    }
    forall e: Event | e.body.ClosedRecorded? && Apply(s, e).Some? ensures s.phase.Satisfied? && |s.responses| <= 64 {
      ClosingNeeds(s, e);
    }
  }

  lemma ClosingNeeds(s: Interaction, e: Event)
    requires e.body.ClosedRecorded? && Apply(s, e).Some?
    ensures s.phase.Satisfied? && |s.responses| <= 64
  {
    hide TermsValid, DeliveriesValid, ResponsesValid, Uuid.Valid, Digest.Valid, Map, PolicySatisfied;
    ExactIffListed(s, e.body.acceptedEvents, e.body.acceptedRespondents);
  }

  /** With at most 64 recipients, every SATISFIED interaction that any run reaches can be
      closed. */
  lemma {:induction false} SmallAlwaysClosable(s: Interaction, events: seq<Event>)
    requires Valid(s) && |s.terms.recipients| <= 64 && Run(s, events).Some?
    ensures Valid(Run(s, events).value) && Run(s, events).value.terms == s.terms
    ensures Run(s, events).value.phase.Satisfied? ==> Closable(Run(s, events).value)
  {
    hide Apply, Valid, Closable;
    if |events| == 0 {
      assert Run(s, events).value == s;
    } else {
      var n := |events| - 1;
      SmallAlwaysClosable(s, events[..n]);
      AnswersGrow(Run(s, events[..n]).value, events[n]);
    }
    var t := Run(s, events).value;
    AnsweredWithin(t);
    AnsweredSize(t);
    ClosableIff(t);
  }

  lemma AnsweredSize(s: Interaction)
    requires Valid(s)
    ensures |Answered(s.responses)| == |s.responses|
  {
    hide Uuid.Valid, Digest.Valid, Map;
    DistinctSize(Map(RespondentPerson, s.responses));
  }

  /** CLOSED and EXPIRED accept nothing more. */
  lemma TerminalAbsorbs(s: Interaction, e: Event)
    requires s.phase.Closed? || s.phase.Expired?
    ensures Apply(s, e).None?
  {
    hide Valid;
  }
}
