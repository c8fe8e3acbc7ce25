/** Event sourcing: the state evolveState computes from a command (kernel/evaluator.go) and the
    state FoldAggregate rebuilds from the events (kernel/fold.go), over whole runs.

    A payload is a parsed datatype; the event carries the command's payload unchanged. The
    gate below holds what Evaluate checks about identity, existence, target kind and
    reopening; everything else Evaluate checks only refuses more commands.
 */
module EventSourcing {
  import opened Orders
  import opened Ids
  import L = Lifecycle
  import C = Continuity
  import H = HumanInteraction

  datatype CommandType =
    | StoryCreate | StoryAuthorize | StoryBeginPlanning | StoryActivate | StoryRequestCompletion
    | StoryRequestAcceptance
    | StoryApproveRelease
    | TaskCreate | TaskMarkReady | TaskActivate | TaskRequestCompletion | TaskAcquireOwnership | TaskReleaseOwnership
    | TaskHandoff | TaskForceReassign | TaskAuthorizeAssignment | TaskBindScope | TaskBindBudget | TaskBindProfile
    | TaskDispatch
    | WorkBlock | WorkUnblock | WorkReopen | WorkClose | WorkCreateSuccessor
    | RecordCorrect | ProjectionRecordFault
    | SystemBindOperatorRole | SystemConfigureContinuity | SystemRequestQuiescence | SystemRecordSuspended
    | SystemRecordOutage | SystemBeginReconciliation | SystemResume
    | ParticipantBindProfile | ParticipantRevoke
    | InteractionOpen | InteractionRecordDelivery | InteractionRespond | InteractionClose | InteractionExpire

  datatype EventType =
    | StoryCreated | StoryAuthorized | StoryPlanningStarted | StoryActivated | StoryCompleted | StoryAccepted
    | StoryReleaseApproved
    | TaskCreated | TaskReadied | TaskActivated | TaskCompleted | TaskOwnershipAcquired | TaskOwnershipReleased
    | TaskHandedOff | TaskForceReassigned | TaskAssignmentAuthorized | TaskScopeBound | TaskBudgetBound
    | TaskProfileBound
    | TaskDispatched
    | WorkBlocked | WorkUnblocked | WorkReopened | WorkClosed | WorkSuccessorCreated
    | RecordCorrected | ProjectionFaultRecorded
    | SystemOperatorRoleBound | SystemContinuityConfigured | SystemQuiescenceRequested | SystemSuspended
    | SystemOutageRecorded | SystemReconciliationStarted | SystemResumed
    | ParticipantProfileBound | ParticipantRevoked
    | InteractionOpened | InteractionDeliveryRecorded | InteractionResponseRecorded | InteractionClosed
    | InteractionExpired

  /** sound stands for the rest of the profile's own validity rule, content for its other fields. */
  datatype Role = Role(binding: Uuid, replaced: Option<Uuid>, content: Text, sound: bool)

  datatype Profile = Profile(participant: Principal, content: Text, sound: bool)

  datatype Participant = Participant(participant: Principal, revision: nat, content: Text, active: bool)

  datatype Payload =
    | Nothing
    | RolePayload(expectedRevision: nat, role: Role)
    | ConfigurePayload(configuration: C.Configuration)
    | ProfilePayload(expectedRevision: nat, profile: Profile)
    | OpenPayload(terms: H.Terms)
    | OwnershipPayload(owner: Actor, version: nat)
    | ReassignmentPayload(prior: Actor, next: Actor, version: nat)
    | ReopenPayload(priorEpoch: nat, scope: Option<nat>, carryOwner: bool)
    | ContinuityPayload(continuity: C.Body)
    | InteractionPayload(interaction: H.Body)

  datatype Command = Command(kind: CommandType, target: AggregateRef, payload: Payload)

  datatype Event = Event(kind: EventType, id: Uuid, aggregate: AggregateRef, revision: nat, epoch: nat,
                         payload: Payload)

  datatype Ownership = Ownership(owner: Option<Actor>, version: nat, assignedBy: Option<Uuid>)

  datatype State = State(
    aggregate: AggregateRef, revision: nat, epoch: nat, scope: nat, phase: L.Phase, condition: L.Condition,
    ownership: Ownership, role: Option<Role>, participant: Option<Participant>, interaction: Option<H.Interaction>,
    continuity: Option<C.Snapshot>)

  // ------------------------------------------------------------------
  // The tables.
  // ------------------------------------------------------------------

  /** The catalogue's one event of each command. */
  function Emits(c: CommandType): EventType {
    match c
    case StoryCreate => StoryCreated
    case StoryAuthorize => StoryAuthorized
    case StoryBeginPlanning => StoryPlanningStarted
    case StoryActivate => StoryActivated
    case StoryRequestCompletion => StoryCompleted
    case StoryRequestAcceptance => StoryAccepted
    case StoryApproveRelease => StoryReleaseApproved
    case TaskCreate => TaskCreated
    case TaskMarkReady => TaskReadied
    case TaskActivate => TaskActivated
    case TaskRequestCompletion => TaskCompleted
    case TaskAcquireOwnership => TaskOwnershipAcquired
    case TaskReleaseOwnership => TaskOwnershipReleased
    case TaskHandoff => TaskHandedOff
    case TaskForceReassign => TaskForceReassigned
    case TaskAuthorizeAssignment => TaskAssignmentAuthorized
    case TaskBindScope => TaskScopeBound
    case TaskBindBudget => TaskBudgetBound
    case TaskBindProfile => TaskProfileBound
    case TaskDispatch => TaskDispatched
    case WorkBlock => WorkBlocked
    case WorkUnblock => WorkUnblocked
    case WorkReopen => WorkReopened
    case WorkClose => WorkClosed
    case WorkCreateSuccessor => WorkSuccessorCreated
    case RecordCorrect => RecordCorrected
    case ProjectionRecordFault => ProjectionFaultRecorded
    case SystemBindOperatorRole => SystemOperatorRoleBound
    case SystemConfigureContinuity => SystemContinuityConfigured
    case SystemRequestQuiescence => SystemQuiescenceRequested
    case SystemRecordSuspended => SystemSuspended
    case SystemRecordOutage => SystemOutageRecorded
    case SystemBeginReconciliation => SystemReconciliationStarted
    case SystemResume => SystemResumed
    case ParticipantBindProfile => ParticipantProfileBound
    case ParticipantRevoke => ParticipantRevoked
    case InteractionOpen => InteractionOpened
    case InteractionRecordDelivery => InteractionDeliveryRecorded
    case InteractionRespond => InteractionResponseRecorded
    case InteractionClose => InteractionClosed
    case InteractionExpire => InteractionExpired
  }

  /** The catalogue's target kinds. */
  predicate Targets(c: CommandType, kind: AggregateKind) {
    match c
    case StoryCreate | StoryAuthorize | StoryBeginPlanning | StoryActivate | StoryRequestCompletion
       | StoryRequestAcceptance
       | StoryApproveRelease => kind.Story?
    case TaskCreate | TaskMarkReady | TaskActivate | TaskRequestCompletion | TaskAcquireOwnership | TaskReleaseOwnership
       | TaskHandoff | TaskForceReassign | TaskAuthorizeAssignment | TaskBindScope | TaskBindBudget | TaskBindProfile
       | TaskDispatch => kind.Task?
    case WorkBlock | WorkUnblock | WorkReopen | WorkClose | WorkCreateSuccessor => kind.Story? || kind.Task?
    case RecordCorrect => kind.Story? || kind.Task? || kind.Evidence? || kind.System?
    case ProjectionRecordFault | SystemBindOperatorRole | SystemConfigureContinuity | SystemRequestQuiescence
       | SystemRecordSuspended | SystemRecordOutage | SystemBeginReconciliation | SystemResume => kind.System?
    case ParticipantBindProfile | ParticipantRevoke => kind.HumanParticipant?
    case InteractionOpen | InteractionRecordDelivery | InteractionRespond | InteractionClose | InteractionExpire =>
      kind.HumanInteraction?
  }

  /** commandLifecycleAction */
  function CommandAction(c: CommandType): Option<L.Action> {
    match c
    case StoryAuthorize => Some(L.Authorize)
    case StoryBeginPlanning => Some(L.BeginPlanning)
    case StoryActivate => Some(L.Activate)
    case TaskActivate => Some(L.Activate)
    case StoryRequestCompletion => Some(L.Complete)
    case TaskRequestCompletion => Some(L.Complete)
    case StoryRequestAcceptance => Some(L.Accept)
    case TaskMarkReady => Some(L.MarkReady)
    case WorkBlock => Some(L.Block)
    case WorkUnblock => Some(L.Unblock)
    case WorkReopen => Some(L.Reopen)
    case WorkClose => Some(L.Close)
    case _ => None
  }

  /** eventLifecycleAction */
  function EventAction(e: EventType): Option<L.Action> {
    match e
    case StoryAuthorized => Some(L.Authorize)
    case StoryPlanningStarted => Some(L.BeginPlanning)
    case StoryActivated => Some(L.Activate)
    case TaskActivated => Some(L.Activate)
    case StoryCompleted => Some(L.Complete)
    case TaskCompleted => Some(L.Complete)
    case StoryAccepted => Some(L.Accept)
    case TaskReadied => Some(L.MarkReady)
    case WorkBlocked => Some(L.Block)
    case WorkUnblocked => Some(L.Unblock)
    case WorkReopened => Some(L.Reopen)
    case WorkClosed => Some(L.Close)
    case _ => None
  }

  /** eventOwnershipCommand */
  function EventOwnershipCommand(e: EventType): Option<CommandType> {
    match e
    case TaskOwnershipAcquired => Some(TaskAcquireOwnership)
    case TaskOwnershipReleased => Some(TaskReleaseOwnership)
    case TaskHandedOff => Some(TaskHandoff)
    case TaskForceReassigned => Some(TaskForceReassign)
    case _ => None
  }

  predicate ContinuityEvent(e: EventType) {
    e.SystemQuiescenceRequested? || e.SystemSuspended? || e.SystemOutageRecorded? || e.SystemReconciliationStarted?
        || e.SystemResumed?
  }

  predicate InteractionEvent(e: EventType) {
    e.InteractionDeliveryRecorded? || e.InteractionResponseRecorded? || e.InteractionClosed? || e.InteractionExpired?
  }

  /** The synthetic event type evolveState uses, from its own table. */
  function SyntheticEvent(c: CommandType): Option<EventType> {
    match c
    case SystemRequestQuiescence => Some(SystemQuiescenceRequested)
    case SystemRecordSuspended => Some(SystemSuspended)
    case SystemRecordOutage => Some(SystemOutageRecorded)
    case SystemBeginReconciliation => Some(SystemReconciliationStarted)
    case SystemResume => Some(SystemResumed)
    case InteractionRecordDelivery => Some(InteractionDeliveryRecorded)
    case InteractionRespond => Some(InteractionResponseRecorded)
    case InteractionClose => Some(InteractionClosed)
    case InteractionExpire => Some(InteractionExpired)
    case _ => None
  }

  /** The switch tables of the two code paths agree through the catalogue. */
  lemma TablesAgree(c: CommandType)
    ensures EventAction(Emits(c)) == CommandAction(c)
    ensures EventOwnershipCommand(Emits(c)) ==
            if c in {TaskAcquireOwnership, TaskReleaseOwnership, TaskHandoff, TaskForceReassign} then Some(c) else None
    ensures SyntheticEvent(c).Some? <==> ContinuityEvent(Emits(c)) || InteractionEvent(Emits(c))
    ensures SyntheticEvent(c).Some? ==> SyntheticEvent(c).value == Emits(c)
  {
  }

  // ------------------------------------------------------------------
  // Parts both code paths share.
  // ------------------------------------------------------------------

  /** A continuity payload read as the given event: a payload of another shape is refused. */
  function ContinuityBody(e: EventType, p: Payload): C.Body {
    if p.ContinuityPayload? &&
       match e
       case SystemQuiescenceRequested => p.continuity.QuiescenceRequested?
       case SystemSuspended => p.continuity.SuspendedRecorded?
       case SystemOutageRecorded => p.continuity.OutageRecorded?
       case SystemReconciliationStarted => p.continuity.ReconciliationStarted?
       case SystemResumed => p.continuity.Resumed?
       case _ => false
    then p.continuity else C.OtherBody
  }

  function InteractionBody(e: EventType, p: Payload): H.Body {
    if p.InteractionPayload? &&
       match e
       case InteractionDeliveryRecorded => p.interaction.DeliveryRecorded?
       case InteractionResponseRecorded => p.interaction.ResponseRecorded?
       case InteractionClosed => p.interaction.ClosedRecorded?
       case InteractionExpired => p.interaction.ExpiredRecorded?
       case _ => false
    then p.interaction else H.OtherBody
  }

  function ApplyContinuity(s: C.Snapshot, e: EventType, id: Uuid, aggregate: AggregateRef, revision: nat,
                           p: Payload): Option<C.Snapshot> {
    C.Apply(s, C.Event(id, aggregate.kind, revision, ContinuityBody(e, p)))
  }

  function ApplyInteraction(s: H.Interaction, e: EventType, id: Uuid, aggregate: AggregateRef, revision: nat,
                            p: Payload): Option<H.Interaction> {
    H.Apply(s, H.Event(id, aggregate, revision, InteractionBody(e, p)))
  }

  /** OperatorRoleFromPayload */
  function ParseRole(p: Payload): Option<Role> {
    if p.RolePayload? && p.role.sound then Some(p.role) else None
  }

  /** HumanParticipantFromPayload */
  function ParseParticipant(p: Payload, revision: nat): Option<Participant> {
    if p.ProfilePayload? && p.profile.participant.kind.Human? && p.expectedRevision + 1 == revision && p.profile.sound
    then Some(Participant(p.profile.participant, revision, p.profile.content, true)) else None
  }

  function ParseConfiguration(p: Payload, id: Uuid, revision: nat): Option<C.Snapshot> {
    if p.ConfigurePayload? then C.Configure(p.configuration, id, revision) else None
  }

  /** HumanInteractionFromOpenPayload at revision 1. */
  function ParseInteraction(p: Payload): Option<H.Interaction> {
    if p.OpenPayload? && H.Valid(H.Interaction(p.terms, 1, H.Open, [], []))
    then Some(H.Interaction(p.terms, 1, H.Open, [], [])) else None
  }

  /** applyOwnership: None is a rejection. */
  function ApplyOwnership(c: CommandType, p: Payload, o: Ownership, id: Uuid): Option<Ownership> {
    match c
    case TaskAcquireOwnership =>
      if p.OwnershipPayload? && p.owner.Valid() && o.owner.None? && p.version == o.version
      then Some(Ownership(Some(p.owner), o.version + 1, Some(id))) else None
    case TaskReleaseOwnership =>
      if p.OwnershipPayload? && p.owner.Valid() && o.owner == Some(p.owner) && p.version == o.version
      then Some(Ownership(None, o.version + 1, None)) else None
    case TaskHandoff => Reassign(p, o, id)
    case TaskForceReassign => Reassign(p, o, id)
    case TaskActivate =>
      if p.OwnershipPayload? && p.owner.Valid() && o.owner == Some(p.owner) && p.version == o.version then Some(o)
      else None
    case _ => Some(o)
  }

  function Reassign(p: Payload, o: Ownership, id: Uuid): Option<Ownership> {
    if p.ReassignmentPayload? && p.prior.Valid() && p.next.Valid() && o.owner == Some(p.prior) && p.version == o.version
    then Some(Ownership(Some(p.next), o.version + 1, Some(id))) else None
  }

  function ModelOf(kind: AggregateKind): L.Model {
    if kind.Task? then L.TaskModel else L.StoryModel
  }

  function LifecycleStep(s: State, action: Option<L.Action>): Option<State> {
    if action.None? then Some(s)
    else
      var r := L.Step(ModelOf(s.aggregate.kind), L.State(s.phase, s.condition, s.epoch), action.value);
      if r.None? then None else Some(s.(phase := r.value.phase, condition := r.value.condition, epoch := r.value.epoch))
  }

  function Fresh(aggregate: AggregateRef, phase: L.Phase): State {
    State(aggregate, 1, 1, 1, phase, L.Runnable, Ownership(None, 0, None), None, None, None, None)
  }

  // ------------------------------------------------------------------
  // evolveState
  // ------------------------------------------------------------------

  /** commandCreatesAggregate */
  predicate Creates(c: Command) {
    match c.kind
    case StoryCreate => true
    case TaskCreate => true
    case InteractionOpen => true
    case ParticipantBindProfile => c.payload.ProfilePayload? && c.payload.expectedRevision == 0
    case SystemBindOperatorRole => c.payload.RolePayload? && c.payload.expectedRevision == 0
    case SystemConfigureContinuity => c.payload.ConfigurePayload? && c.payload.configuration.expectedRevision == 0
    case _ => false
  }

  function EvolveCreation(c: Command, id: Uuid): Option<State> {
    var s := Fresh(c.target, if c.target.kind.Task? then L.Planned else L.Draft);
    match c.kind
    case StoryCreate => Some(s)
    case TaskCreate => Some(s)
    case SystemBindOperatorRole =>
      var role := ParseRole(c.payload);
      if role.None? then None else Some(s.(role := role))
    case SystemConfigureContinuity =>
      var continuity := ParseConfiguration(c.payload, id, 1);
      if continuity.None? then None else Some(s.(continuity := continuity))
    case ParticipantBindProfile =>
      var participant := ParseParticipant(c.payload, 1);
      if participant.None? then None else Some(s.(participant := participant))
    case InteractionOpen =>
      var interaction := ParseInteraction(c.payload);
      if interaction.None? || interaction.value.terms.id != c.target.id then None
      else Some(s.(interaction := interaction))
    case _ => None
  }

  /** terminalCommandProhibited */
  predicate Prohibited(c: CommandType, phase: L.Phase) {
    && (phase.Completed? || phase.Accepted? || phase.Closed?)
    && match c
       case WorkReopen | WorkCreateSuccessor | RecordCorrect => false
       case StoryRequestAcceptance | StoryApproveRelease => !phase.Completed?
       case _ => true
  }

  /** The reopening part: new scope, and the owner dropped unless carried. */
  function EvolveReopening(c: Command, s: State): State {
    if !c.kind.WorkReopen? then s
    else
      var scoped := if c.payload.ReopenPayload? && c.payload.scope.Some? then s.(scope := c.payload.scope.value) else s;
      if c.payload.ReopenPayload? && c.payload.carryOwner then scoped
      else scoped.(ownership := s.ownership.(owner := None, assignedBy := None))
  }

  function EvolveDomain(c: Command, s: State, id: Uuid): Option<State> {
    var revision := s.revision + 1;
    if SyntheticEvent(c.kind).Some? then
      var e := SyntheticEvent(c.kind).value;
      if s.continuity.Some? then
        var next := ApplyContinuity(s.continuity.value, e, id, c.target, revision, c.payload);
        if next.None? then None else Some(s.(continuity := next))
      else if s.interaction.Some? then
        var next := ApplyInteraction(s.interaction.value, e, id, c.target, revision, c.payload);
        if next.None? then None else Some(s.(interaction := next))
      else Some(s)
    else
      match c.kind
      case ParticipantBindProfile =>
        var next := ParseParticipant(c.payload, revision);
        if next.None? || s.participant.None? || next.value.participant != s.participant.value.participant then None
        else Some(s.(participant := next))
      case ParticipantRevoke =>
        if s.participant.None? || !s.participant.value.active then None
        else Some(s.(participant := Some(s.participant.value.(active := false, revision := revision))))
      case SystemBindOperatorRole =>
        var next := ParseRole(c.payload);
        if next.None? || s.role.None? || next.value.replaced != Some(s.role.value.binding) then None
        else Some(s.(role := next))
      case SystemConfigureContinuity =>
        var next := ParseConfiguration(c.payload, id, revision);
        if next.None? || (s.continuity.Some? && !s.continuity.value.control.Active?) then None
        else Some(s.(continuity := next))
      case _ => Some(s)
  }

  /** evolveState on an existing aggregate: None is a rejection. */
  function EvolveExisting(c: Command, s: State, id: Uuid): Option<State> {
    if s.aggregate != c.target || Prohibited(c.kind, s.phase) then None
    else
      var moved := LifecycleStep(s, CommandAction(c.kind));
      if moved.None? then None
      else
        var reopened := EvolveReopening(c, moved.value);
        var owned := ApplyOwnership(c.kind, c.payload, reopened.ownership, id);
        if owned.None? then None
        else
          var next := EvolveDomain(c, reopened.(ownership := owned.value), id);
          if next.None? then None else Some(next.value.(revision := s.revision + 1))
  }

  function EvolveState(c: Command, s: Option<State>, id: Uuid): Option<State> {
    if c.kind.StoryCreate? || c.kind.TaskCreate? || Creates(c) then EvolveCreation(c, id)
    else if s.None? then None
    else EvolveExisting(c, s.value, id)
  }

  /** What Evaluate checks before evolving, as far as the state goes. */
  predicate Gate(c: Command, s: Option<State>, id: Uuid) {
    && id.Valid() && c.target.Valid() && Targets(c.kind, c.target.kind)
    && (Creates(c) <==> s.None?)
    && (c.kind.WorkReopen? && s.Some? ==>
          && c.payload.ReopenPayload? && c.payload.priorEpoch == s.value.epoch
          && c.payload.scope.Some? && c.payload.scope.value > s.value.scope)
  }

  function Decide(c: Command, s: Option<State>, id: Uuid): Option<State> {
    if Gate(c, s, id) then EvolveState(c, s, id) else None
  }

  /** The event of an accepted command. */
  function Emitted(c: Command, next: State, id: Uuid): Event {
    Event(Emits(c.kind), id, c.target, next.revision, next.epoch, c.payload)
  }

  // ------------------------------------------------------------------
  // FoldAggregate
  // ------------------------------------------------------------------

  datatype Folded = NoEvents | Corrupt | Rebuilt(state: State)

  function FoldCreation(e: Event): Option<State> {
    match e.kind
    case StoryCreated => Some(Fresh(AggregateRef(Story, e.aggregate.id), L.Draft))
    case TaskCreated => Some(Fresh(AggregateRef(Task, e.aggregate.id), L.Planned))
    case SystemOperatorRoleBound =>
      var role := ParseRole(e.payload);
      if role.None? then None else Some(Fresh(AggregateRef(System, e.aggregate.id), L.Draft).(role := role))
    case SystemContinuityConfigured =>
      var continuity := ParseConfiguration(e.payload, e.id, 1);
      if continuity.None? then None
      else Some(Fresh(AggregateRef(System, e.aggregate.id), L.Draft).(continuity := continuity))
    case ParticipantProfileBound =>
      var participant := ParseParticipant(e.payload, 1);
      if participant.None? then None
      else Some(Fresh(AggregateRef(HumanParticipant, e.aggregate.id), L.Draft).(participant := participant))
    case InteractionOpened =>
      var interaction := ParseInteraction(e.payload);
      if interaction.None? || interaction.value.terms.id != e.aggregate.id then None
      else Some(Fresh(AggregateRef(HumanInteraction, e.aggregate.id), L.Draft).(interaction := interaction))
    case _ => None
  }

  /** The continuity and interaction part of foldEvent. */
  function FoldMachines(s: State, e: Event): Option<State> {
    if s.continuity.Some? && ContinuityEvent(e.kind) then
      var next := ApplyContinuity(s.continuity.value, e.kind, e.id, e.aggregate, e.revision, e.payload);
      if next.None? then None else FoldInteraction(s.(continuity := next), e)
    else FoldInteraction(s, e)
  }

  function FoldInteraction(s: State, e: Event): Option<State> {
    if s.interaction.Some? && InteractionEvent(e.kind) then
      var next := ApplyInteraction(s.interaction.value, e.kind, e.id, e.aggregate, e.revision, e.payload);
      if next.None? then None else Some(s.(interaction := next))
    else Some(s)
  }

  /** The bindings and the scope part of foldEvent. */
  function FoldBindings(s: State, e: Event): Option<State> {
    match e.kind
    case ParticipantProfileBound =>
      var next := ParseParticipant(e.payload, e.revision);
      if next.None? || s.participant.None? || next.value.participant != s.participant.value.participant then None
      else Some(s.(participant := next))
    case ParticipantRevoked =>
      if s.participant.None? || !s.participant.value.active then None
      else Some(s.(participant := Some(s.participant.value.(active := false, revision := e.revision))))
    case SystemOperatorRoleBound =>
      var next := ParseRole(e.payload);
      if next.None? || s.role.None? || next.value.replaced != Some(s.role.value.binding) then None
      else Some(s.(role := next))
    case SystemContinuityConfigured =>
      var next := ParseConfiguration(e.payload, e.id, e.revision);
      if next.None? || (s.continuity.Some? && !s.continuity.value.control.Active?) then None
      else Some(s.(continuity := next))
    case WorkReopened =>
      if !e.payload.ReopenPayload? || e.payload.scope.None? || e.payload.scope.value <= s.scope then None
      else Some(s.(scope := e.payload.scope.value))
    case _ => Some(s)
  }

  function FoldOwnership(s: State, e: Event): Option<State> {
    var c := EventOwnershipCommand(e.kind);
    if c.None? then Some(s)
    else
      var o := ApplyOwnership(c.value, e.payload, s.ownership, e.id);
      if o.None? then None else Some(s.(ownership := o.value))
  }

  /** Everything foldEvent does before ownership. */
  function FoldCore(s: State, e: Event): Option<State> {
    var a := FoldMachines(s, e);
    if a.None? then None
    else
      var b := FoldBindings(a.value, e);
      if b.None? then None else LifecycleStep(b.value, EventAction(e.kind))
  }

  /** foldEvent: None is an error. */
  function FoldEvent(s: State, e: Event): Option<State> {
    var c := FoldCore(s, e);
    if c.None? then None else FoldOwnership(c.value, e)
  }

  predicate WellPlaced(e: Event, aggregate: AggregateRef, revision: nat) {
    e.aggregate == aggregate && e.revision == revision && e.id.Valid()
  }

  /** FoldAggregate on the first n events. */
  function FoldUpTo(events: seq<Event>, n: nat): Folded
    requires n <= |events|
  {
    if n == 0 then NoEvents
    else
      var e := events[n - 1];
      var before := FoldUpTo(events, n - 1);
      if before.Corrupt? || !WellPlaced(e, events[0].aggregate, n) then Corrupt
      else
        var next := if before.NoEvents? then FoldCreation(e) else FoldEvent(before.state, e);
        if next.None? || next.value.epoch != e.epoch then Corrupt else Rebuilt(next.value.(revision := n))
  }

  function Fold(events: seq<Event>): Folded {
    FoldUpTo(events, |events|)
  }
}
