/** What a run of accepted commands leaves in an aggregate, read off the commands and their
    payloads alone: owner, ownership version, epoch, scope, bindings. See kernel/evaluator.go and
    kernel/fold.go.
 */
module StateHistory {
  import opened Orders
  import opened Ids
  import L = Lifecycle
  import C = Continuity
  import H = HumanInteraction
  import opened EventSourcing
  import opened EventRuns

  // ------------------------------------------------------------------
  // Reading the commands.
  // ------------------------------------------------------------------

  predicate ChangesOwnership(c: Command) {
    c.kind in {TaskAcquireOwnership, TaskReleaseOwnership, TaskHandoff, TaskForceReassign}
  }

  predicate Reassigns(c: Command) {
    c.kind in {TaskHandoff, TaskForceReassign} && c.payload.ReassignmentPayload?
  }

  predicate Acquires(c: Command) {
    c.kind.TaskAcquireOwnership? && c.payload.OwnershipPayload?
  }

  predicate Reopens(c: Command) {
    c.kind.WorkReopen? && c.payload.ReopenPayload?
  }

  /** The owner named by the last command that names or removes one, and the event that did. A
      reopening that does not carry the owner removes it from the evolved state only. */
  function OwnerAfter(cs: seq<(Command, Uuid)>, evolved: bool): Option<(Actor, Uuid)> {
    if |cs| == 0 then None
    else
      var (c, id) := cs[|cs| - 1];
      if Acquires(c) then Some((c.payload.owner, id))
      else if Reassigns(c) then Some((c.payload.next, id))
      else if c.kind.TaskReleaseOwnership? then None
      else if evolved && Reopens(c) && !c.payload.carryOwner then None
      else OwnerAfter(cs[..|cs| - 1], evolved)
  }

  function OwnershipCommands(cs: seq<(Command, Uuid)>): nat {
    if |cs| == 0 then 0
    else OwnershipCommands(cs[..|cs| - 1]) + (if ChangesOwnership(cs[|cs| - 1].0) then 1 else 0)
  }

  function Reopenings(cs: seq<(Command, Uuid)>): nat {
    if |cs| == 0 then 0 else Reopenings(cs[..|cs| - 1]) + (if Reopens(cs[|cs| - 1].0) then 1 else 0)
  }

  /** The scope revision the last reopening names. */
  function ScopeAfter(cs: seq<(Command, Uuid)>): nat {
    if |cs| == 0 then 1
    else
      var c := cs[|cs| - 1].0;
      if Reopens(c) && c.payload.scope.Some? then c.payload.scope.value else ScopeAfter(cs[..|cs| - 1])
  }

  /** The role bound last. */
  function RoleAfter(cs: seq<(Command, Uuid)>): Option<Role> {
    if |cs| == 0 then None
    else
      var c := cs[|cs| - 1].0;
      if c.kind.SystemBindOperatorRole? && c.payload.RolePayload? then Some(c.payload.role)
      else RoleAfter(cs[..|cs| - 1])
  }

  /** The profile bound last, inactive once it was revoked. */
  function ParticipantAfter(cs: seq<(Command, Uuid)>): Option<Participant> {
    if |cs| == 0 then None
    else
      var c, before := cs[|cs| - 1].0, ParticipantAfter(cs[..|cs| - 1]);
      if c.kind.ParticipantBindProfile? && c.payload.ProfilePayload?
      then Some(Participant(c.payload.profile.participant, |cs|, c.payload.profile.content, true))
      else if c.kind.ParticipantRevoke? && before.Some? then Some(before.value.(active := false, revision := |cs|))
      else before
  }

  ghost predicate Owned(o: Ownership, cs: seq<(Command, Uuid)>, evolved: bool) {
    && o.version == OwnershipCommands(cs)
    && (OwnerAfter(cs, evolved).None? ==> o.owner.None? && o.assignedBy.None?)
    && (OwnerAfter(cs, evolved).Some? ==>
          o.owner == Some(OwnerAfter(cs, evolved).value.0) && o.assignedBy == Some(OwnerAfter(cs, evolved).value.1))
  }

  ghost predicate Recorded(s: State, cs: seq<(Command, Uuid)>) {
    && s.revision == |cs| && s.epoch == 1 + Reopenings(cs) && s.scope == ScopeAfter(cs)
    && s.role == RoleAfter(cs) && s.participant == ParticipantAfter(cs)
  }

  // ------------------------------------------------------------------
  // One command.
  // ------------------------------------------------------------------

  /** What an ownership command asks of the current owner and version. */
  ghost predicate OwnershipFits(c: Command, o: Ownership) {
    match c.kind
    case TaskAcquireOwnership =>
      c.payload.OwnershipPayload? && c.payload.owner.Valid() && o.owner.None? && c.payload.version == o.version
    case TaskReleaseOwnership =>
      c.payload.OwnershipPayload? && c.payload.owner.Valid() && o.owner == Some(c.payload.owner)
      && c.payload.version == o.version
    case TaskActivate =>
      c.payload.OwnershipPayload? && c.payload.owner.Valid() && o.owner == Some(c.payload.owner)
      && c.payload.version == o.version
    case TaskHandoff =>
      c.payload.ReassignmentPayload? && c.payload.prior.Valid() && c.payload.next.Valid()
      && o.owner == Some(c.payload.prior) && c.payload.version == o.version
    case TaskForceReassign =>
      c.payload.ReassignmentPayload? && c.payload.prior.Valid() && c.payload.next.Valid()
      && o.owner == Some(c.payload.prior) && c.payload.version == o.version
    case _ => true
  }

  /** An accepted command found the owner it names, and leaves the owner it gives. */
  lemma OwnershipOfStep(c: Command, s: State, id: Uuid)
    requires StateOk(s) && Decide(c, Some(s), id).Some?
    ensures OwnershipFits(c, s.ownership)
    ensures var o, p := Decide(c, Some(s), id).value.ownership, s.ownership;
            && (Acquires(c) ==> o == Ownership(Some(c.payload.owner), p.version + 1, Some(id)))
            && (Reassigns(c) ==> o == Ownership(Some(c.payload.next), p.version + 1, Some(id)))
            && (c.kind.TaskReleaseOwnership? ==> o == Ownership(None, p.version + 1, None))
            && (Reopens(c) && !c.payload.carryOwner ==> o == Ownership(None, p.version, None))
            && (Reopens(c) && c.payload.carryOwner ==> o == p)
            && (!ChangesOwnership(c) && !Reopens(c) ==> o == p)
  {
    hide Uuid.Valid, ParseConfiguration, ParseInteraction, ParseParticipant, ParseRole, ApplyContinuity,
         ApplyInteraction, L.Step, Actor.Valid;
  }

  /** Of a task that is neither completed, accepted nor closed, an ownership command is accepted
      exactly when it fits. */
  lemma OwnershipAcceptedIff(c: Command, s: State, id: Uuid)
    requires ChangesOwnership(c) && c.target == s.aggregate && c.target.Valid() && c.target.kind.Task? && id.Valid()
    requires s.phase !in {L.Completed, L.Accepted, L.Closed}
    ensures Decide(c, Some(s), id).Some? <==> OwnershipFits(c, s.ownership)
  {
    hide Uuid.Valid, Actor.Valid;
  }

  /** An accepted command moves the other fields as its payload says. */
  lemma FieldsOfStep(c: Command, s: State, id: Uuid)
    requires StateOk(s) && Decide(c, Some(s), id).Some?
    ensures var t := Decide(c, Some(s), id).value;
            && t.revision == s.revision + 1 && t.epoch == s.epoch + (if Reopens(c) then 1 else 0)
            && t.scope == (if Reopens(c) && c.payload.scope.Some? then c.payload.scope.value else s.scope)
            && t.role == (if c.kind.SystemBindOperatorRole? && c.payload.RolePayload? then Some(c.payload.role)
                          else s.role)
  {
    hide Uuid.Valid, ParseConfiguration, ParseInteraction, ParseParticipant, ApplyContinuity, ApplyInteraction,
         Actor.Valid, ApplyOwnership;
  }

  lemma ParticipantOfStep(c: Command, s: State, id: Uuid)
    requires StateOk(s) && Decide(c, Some(s), id).Some?
    ensures var t := Decide(c, Some(s), id).value;
            if c.kind.ParticipantBindProfile? then
              && c.payload.ProfilePayload?
              && t.participant == Some(Participant(c.payload.profile.participant, s.revision + 1,
                                                   c.payload.profile.content, true))
            else if c.kind.ParticipantRevoke? then
              && s.participant.Some? && s.participant.value.active
              && t.participant == Some(s.participant.value.(active := false, revision := s.revision + 1))
            else t.participant == s.participant
  {
    hide Uuid.Valid, ParseConfiguration, ParseInteraction, ParseRole, ApplyContinuity, ApplyInteraction, L.Step,
         Actor.Valid, ApplyOwnership;
  }

  /** A created aggregate is unowned, in its first epoch, with what its payload bound. */
  lemma FieldsOfCreation(c: Command, id: Uuid)
    requires Decide(c, None, id).Some?
    ensures var s := Decide(c, None, id).value;
            && s.ownership == Ownership(None, 0, None) && Recorded(s, [(c, id)]) && !ChangesOwnership(c) && !Reopens(c)
  {
    hide Uuid.Valid, ParseConfiguration, ParseInteraction;
    OneCommand([(c, id)]);
  }

  /** The history of a single command. */
  lemma OneCommand(cs: seq<(Command, Uuid)>)
    requires |cs| == 1
    ensures var c := cs[0].0;
            && Reopenings(cs) == (if Reopens(c) then 1 else 0)
            && ScopeAfter(cs) == (if Reopens(c) && c.payload.scope.Some? then c.payload.scope.value else 1)
            && RoleAfter(cs) == (if c.kind.SystemBindOperatorRole? && c.payload.RolePayload? then Some(c.payload.role)
                                 else None)
            && ParticipantAfter(cs) ==
               (if c.kind.ParticipantBindProfile? && c.payload.ProfilePayload?
                then Some(Participant(c.payload.profile.participant, 1, c.payload.profile.content, true)) else None)
    ensures !ChangesOwnership(cs[0].0) && !Reopens(cs[0].0) ==>
              Owned(Ownership(None, 0, None), cs, true) && Owned(Ownership(None, 0, None), cs, false)
  {
    assert cs[..0] == [];
    assert OwnerAfter(cs[..0], true).None? && OwnerAfter(cs[..0], false).None?;
    assert ParticipantAfter(cs[..0]).None? && RoleAfter(cs[..0]).None?;
  }

  // ------------------------------------------------------------------
  // Every run.
  // ------------------------------------------------------------------

  lemma OwnedNext(o: Ownership, p: Ownership, cs: seq<(Command, Uuid)>)
    requires |cs| > 0 && Owned(p, cs[..|cs| - 1], true) && OwnershipFits(cs[|cs| - 1].0, p)
    requires cs[|cs| - 1].0.kind.WorkReopen? ==> Reopens(cs[|cs| - 1].0)
    requires var (c, id) := cs[|cs| - 1];
             && (Acquires(c) ==> o == Ownership(Some(c.payload.owner), p.version + 1, Some(id)))
             && (Reassigns(c) ==> o == Ownership(Some(c.payload.next), p.version + 1, Some(id)))
             && (c.kind.TaskReleaseOwnership? ==> o == Ownership(None, p.version + 1, None))
             && (Reopens(c) && !c.payload.carryOwner ==> o == Ownership(None, p.version, None))
             && (Reopens(c) && c.payload.carryOwner ==> o == p)
             && (!ChangesOwnership(c) && !Reopens(c) ==> o == p)
    ensures Owned(o, cs, true)
  {
    hide Actor.Valid;
  }

  lemma ReopeningShape(c: Command, s: State, id: Uuid)
    requires Decide(c, Some(s), id).Some?
    ensures c.kind.WorkReopen? ==> Reopens(c)
  {
    hide Uuid.Valid, EvolveState;
  }

  lemma RecordedNext(s: State, t: State, cs: seq<(Command, Uuid)>)
    requires |cs| > 1 && Recorded(s, cs[..|cs| - 1]) && StateOk(s)
    requires Decide(cs[|cs| - 1].0, Some(s), cs[|cs| - 1].1) == Some(t)
    ensures Recorded(t, cs)
  {
    hide Decide, StateOk;
    FieldsOfStep(cs[|cs| - 1].0, s, cs[|cs| - 1].1);
    ParticipantOfStep(cs[|cs| - 1].0, s, cs[|cs| - 1].1);
  }

  lemma RunParts(cs: seq<(Command, Uuid)>)
    requires |cs| > 1 && Run(cs).Ran?
    ensures var n := |cs| - 1;
            && Run(cs[..n]).Ran? && Run(cs[..n]).state.Some? && StateOk(Run(cs[..n]).state.value)
            && Run(cs).state == Decide(cs[n].0, Run(cs[..n]).state, cs[n].1) && Run(cs).state.Some?
            && Run(cs).events == Run(cs[..n]).events + [Emitted(cs[n].0, Run(cs).state.value, cs[n].1)]
  {
    hide Decide, StateOk, Matches, Track;
    RunMatches(cs[..|cs| - 1]);
  }

  lemma RunOne(cs: seq<(Command, Uuid)>)
    requires |cs| == 1 && Run(cs).Ran?
    ensures Run(cs).state == Decide(cs[0].0, None, cs[0].1) && Run(cs).state.Some?
  {
    hide Decide;
    assert cs[..0] == [];
  }

  /** The state of every run, read off its commands: the owner is the one named last, the version
      counts the ownership commands, the epoch the reopenings, and the scope, the role and the
      participant are those named last. */
  lemma {:induction false} RunIsHistory(cs: seq<(Command, Uuid)>)
    requires |cs| > 0 && Run(cs).Ran?
    ensures Run(cs).state.Some?
    ensures Owned(Run(cs).state.value.ownership, cs, true) && Recorded(Run(cs).state.value, cs)
  {
    var n := |cs| - 1;
    var (c, id) := cs[n];
    if n == 0 {
      RunOne(cs);
      FieldsOfCreation(c, id);
      OneCommand(cs);
      hide Decide, Recorded, Run, Owned;
      assert cs == [(c, id)];
    } else {
      RunParts(cs);
      hide Run, Decide, Recorded, StateOk, OwnershipFits;
      RunIsHistory(cs[..n]);
      var s := Run(cs[..n]).state.value;
      OwnershipOfStep(c, s, id);
      ReopeningShape(c, s, id);
      OwnedNext(Run(cs).state.value.ownership, s.ownership, cs);
      RecordedNext(s, Run(cs).state.value, cs);
    }
  }

  /** Over every run: whoever acts on ownership named the current owner and version. */
  lemma RunFinds(cs: seq<(Command, Uuid)>)
    requires |cs| > 1 && Run(cs).Ran?
    ensures var c, before := cs[|cs| - 1].0, OwnerAfter(cs[..|cs| - 1], true);
            && (Acquires(c) ==> before.None?)
            && (Reassigns(c) ==> before.Some? && before.value.0 == c.payload.prior)
            && (c.kind in {TaskReleaseOwnership, TaskActivate} ==>
                  c.payload.OwnershipPayload? && before.Some? && before.value.0 == c.payload.owner)
            && (ChangesOwnership(c) ==>
                  && (c.payload.OwnershipPayload? || c.payload.ReassignmentPayload?)
                  && c.payload.version == OwnershipCommands(cs[..|cs| - 1]))
  {
    hide Run, Decide, StateOk, Recorded, OwnershipFits, Owned, OwnerAfter, OwnershipCommands;
    var n := |cs| - 1;
    RunParts(cs);
    RunIsHistory(cs[..n]);
    var o := Run(cs[..n]).state.value.ownership;
    OwnershipOfStep(cs[n].0, Run(cs[..n]).state.value, cs[n].1);
    FitsOwned(cs[n].0, o, cs[..n]);
  }

  lemma FitsOwned(c: Command, o: Ownership, cs: seq<(Command, Uuid)>)
    requires Owned(o, cs, true) && OwnershipFits(c, o)
    ensures var before := OwnerAfter(cs, true);
            && (Acquires(c) ==> before.None?)
            && (Reassigns(c) ==> before.Some? && before.value.0 == c.payload.prior)
            && (c.kind in {TaskReleaseOwnership, TaskActivate} ==>
                  c.payload.OwnershipPayload? && before.Some? && before.value.0 == c.payload.owner)
            && (ChangesOwnership(c) ==>
                  && (c.payload.OwnershipPayload? || c.payload.ReassignmentPayload?)
                  && c.payload.version == OwnershipCommands(cs))
  {
    hide Actor.Valid, OwnerAfter, OwnershipCommands;
  }

  // ------------------------------------------------------------------
  // The folded state.
  // ------------------------------------------------------------------

  lemma CoreKeepsOwnership(s: State, e: Event)
    requires FoldCore(s, e).Some?
    ensures FoldCore(s, e).value.ownership == s.ownership
  {
    hide ApplyContinuity, ApplyInteraction, ParseConfiguration, ParseParticipant, ParseRole, L.Step;
  }

  lemma OwnershipOfFold(c: Command, f: State, e: Event)
    requires FoldEvent(f, e).Some? && e.kind == Emits(c.kind) && e.payload == c.payload
    ensures var o, p := FoldEvent(f, e).value.ownership, f.ownership;
            && (c.kind.TaskAcquireOwnership? ==>
                  Acquires(c) && p.owner.None? && o == Ownership(Some(c.payload.owner), p.version + 1, Some(e.id)))
            && (c.kind in {TaskHandoff, TaskForceReassign} ==>
                  Reassigns(c) && p.owner == Some(c.payload.prior)
                  && o == Ownership(Some(c.payload.next), p.version + 1, Some(e.id)))
            && (c.kind.TaskReleaseOwnership? ==> o == Ownership(None, p.version + 1, None))
            && (!ChangesOwnership(c) ==> o == p)
  {
    hide FoldCore, Actor.Valid;
    CoreKeepsOwnership(f, e);
  }

  lemma FoldParts(cs: seq<(Command, Uuid)>)
    requires |cs| > 1 && Run(cs).Ran? && Fold(Run(cs).events).Rebuilt?
    ensures Run(cs).state.Some?
    ensures var n := |cs| - 1;
            var e := Emitted(cs[n].0, Run(cs).state.value, cs[n].1);
            && Run(cs[..n]).Ran? && Fold(Run(cs[..n]).events).Rebuilt?
            && FoldEvent(Fold(Run(cs[..n]).events).state, e).Some?
            && Fold(Run(cs).events).state.ownership == FoldEvent(Fold(Run(cs[..n]).events).state, e).value.ownership
  {
    hide Run, Decide, FoldEvent, StateOk, Track, Fold, WellPlaced, Matches;
    var n := |cs| - 1;
    RunParts(cs);
    RunMatches(cs[..n]);
    var events, e := Run(cs[..n]).events, Emitted(cs[n].0, Run(cs).state.value, cs[n].1);
    NextPlaced(Run(cs[..n]), cs[n].0, cs[n].1);
    FoldLast(events, e);
    MatchesNonempty(Run(cs[..n]), Track(cs[..n]));
  }

  lemma MatchesNonempty(r: Outcome, standing: Standing)
    requires r.Ran? && r.state.Some? && Matches(r, standing)
    ensures !Fold(r.events).NoEvents?
  {
    hide Fold, Diverged;
  }

  /** The folded ownership of every run whose stream is not corrupt: the owner named last, also
      across a reopening that dropped it. */
  lemma {:induction false} FoldIsHistory(cs: seq<(Command, Uuid)>)
    requires |cs| > 0 && Run(cs).Ran? && Fold(Run(cs).events).Rebuilt?
    ensures Owned(Fold(Run(cs).events).state.ownership, cs, false)
  {
    hide Decide, Recorded, Run, Fold, FoldEvent;
    var n := |cs| - 1;
    var (c, id) := cs[n];
    if n == 0 {
      hide Owned;
      RunOne(cs);
      FieldsOfCreation(c, id);
      FoldOne(cs);
      OneCommand(cs);
    } else {
      FoldParts(cs);
      FoldIsHistory(cs[..n]);
      OwnershipOfFold(c, Fold(Run(cs[..n]).events).state, Emitted(c, Run(cs).state.value, id));
    }
  }

  lemma FoldOne(cs: seq<(Command, Uuid)>)
    requires |cs| == 1 && Run(cs).Ran?
    ensures Run(cs).state.Some? && Fold(Run(cs).events) == Rebuilt(Run(cs).state.value)
  {
    hide Run, Fold, DropsOwner;
    RunMatches(cs);
    assert Track(cs).Agrees? by {
      assert cs[..0] == [];
      EmptyRun();
    }
  }

  // ------------------------------------------------------------------
  // Phase and condition.
  // ------------------------------------------------------------------

  /** The phase a command leads to, if it moves the phase. */
  function PhaseGiven(c: CommandType): Option<L.Phase> {
    match c
    case StoryAuthorize | TaskMarkReady => Some(L.Ready)
    case StoryBeginPlanning => Some(L.Planning)
    case StoryActivate | TaskActivate | WorkReopen => Some(L.Active)
    case StoryRequestCompletion | TaskRequestCompletion => Some(L.Completed)
    case StoryRequestAcceptance => Some(L.Accepted)
    case WorkClose => Some(L.Closed)
    case _ => None
  }

  /** The phases a command is accepted in. */
  function PhasesFor(c: CommandType, kind: AggregateKind): set<L.Phase> {
    match c
    case StoryAuthorize => {L.Draft}
    case StoryBeginPlanning => {L.Ready}
    case StoryActivate => {L.Planning}
    case TaskMarkReady => {L.Planned}
    case TaskActivate => {L.Ready}
    case StoryRequestCompletion | TaskRequestCompletion => {L.Active}
    case StoryRequestAcceptance => {L.Completed}
    case StoryApproveRelease => UNFINISHED + {L.Completed}
    case WorkReopen => if kind.Task? then {L.Completed} else {L.Completed, L.Accepted}
    case WorkCreateSuccessor | RecordCorrect => UNFINISHED + {L.Completed, L.Accepted, L.Closed}
    case _ => UNFINISHED
  }

  const UNFINISHED := {L.Draft, L.Planned, L.Ready, L.Planning, L.Active}

  function PhaseAfter(cs: seq<(Command, Uuid)>): L.Phase {
    if |cs| == 0 then L.Draft
    else
      var c := cs[|cs| - 1].0;
      if PhaseGiven(c.kind).Some? then PhaseGiven(c.kind).value
      else if c.kind.TaskCreate? then L.Planned
      else PhaseAfter(cs[..|cs| - 1])
  }

  function ConditionAfter(cs: seq<(Command, Uuid)>): L.Condition {
    if |cs| == 0 then L.Runnable
    else
      var c := cs[|cs| - 1].0;
      if c.kind.WorkBlock? then L.Blocked else if c.kind.WorkUnblock? then L.Runnable
          else ConditionAfter(cs[..|cs| - 1])
  }

  /** An accepted command found the aggregate in a phase and condition it is meant for, and leaves
      the phase and condition it gives. */
  lemma PhaseOfStep(c: Command, s: State, id: Uuid)
    requires StateOk(s) && Decide(c, Some(s), id).Some?
    ensures s.phase in PhasesFor(c.kind, s.aggregate.kind)
    ensures (c.kind.WorkBlock? ==> s.condition.Runnable?) && (c.kind.WorkUnblock? ==> s.condition.Blocked?)
    ensures var t := Decide(c, Some(s), id).value;
            && t.phase == (if PhaseGiven(c.kind).Some? then PhaseGiven(c.kind).value else s.phase)
            && t.condition == (if c.kind.WorkBlock? then L.Blocked else if c.kind.WorkUnblock? then L.Runnable
                               else s.condition)
  {
    hide Decide;
    PhaseFound(c, s, id);
    LifecycleMoves(c, s, id);
    LifecycleGives(c.kind, s);
  }

  /** Only the lifecycle part of a command moves phase and condition. */
  lemma LifecycleMoves(c: Command, s: State, id: Uuid)
    requires Decide(c, Some(s), id).Some?
    ensures var moved := LifecycleStep(s, CommandAction(c.kind));
            && moved.Some? && Decide(c, Some(s), id).value.phase == moved.value.phase
            && Decide(c, Some(s), id).value.condition == moved.value.condition
  {
    hide Uuid.Valid, ParseConfiguration, ParseInteraction, ParseParticipant, ParseRole, ApplyContinuity,
         ApplyInteraction,
         Actor.Valid, ApplyOwnership, LifecycleStep;
  }

  lemma LifecycleGives(c: CommandType, s: State)
    requires LifecycleStep(s, CommandAction(c)).Some?
    ensures (c.WorkBlock? ==> s.condition.Runnable?) && (c.WorkUnblock? ==> s.condition.Blocked?)
    ensures var t := LifecycleStep(s, CommandAction(c)).value;
            && t.phase == (if PhaseGiven(c).Some? then PhaseGiven(c).value else s.phase)
            && t.condition == (if c.WorkBlock? then L.Blocked else if c.WorkUnblock? then L.Runnable else s.condition)
  {
  }

  lemma PhaseFound(c: Command, s: State, id: Uuid)
    requires Decide(c, Some(s), id).Some?
    ensures s.phase in PhasesFor(c.kind, s.aggregate.kind)
  {
    hide Uuid.Valid, EvolveReopening, EvolveDomain, ApplyOwnership;
    assert s.phase in UNFINISHED || s.phase in {L.Completed, L.Accepted, L.Closed};
    assert !Prohibited(c.kind, s.phase);
  }

  /** A command that moves only the lifecycle is accepted exactly in its phases, blocking and
      unblocking in their condition. */
  lemma PhaseAcceptedIff(c: Command, s: State, id: Uuid)
    requires c.target == s.aggregate && c.target.Valid() && id.Valid() && Targets(c.kind, c.target.kind)
    requires c.kind in {StoryAuthorize, StoryBeginPlanning, StoryActivate, StoryRequestCompletion,
                        StoryRequestAcceptance,
                        TaskMarkReady, TaskRequestCompletion, WorkBlock, WorkUnblock, WorkClose}
    ensures Decide(c, Some(s), id).Some? <==>
            && s.phase in PhasesFor(c.kind, s.aggregate.kind)
            && (c.kind.WorkBlock? ==> s.condition.Runnable?) && (c.kind.WorkUnblock? ==> s.condition.Blocked?)
  {
    hide Uuid.Valid, ParseConfiguration, ParseInteraction, ParseParticipant, ParseRole, ApplyContinuity,
         ApplyInteraction, Actor.Valid;
  }

  /** A reopening is accepted exactly in its phases, for the current epoch and a larger scope. */
  lemma ReopeningAcceptedIff(c: Command, s: State, id: Uuid)
    requires c.kind.WorkReopen? && c.target == s.aggregate && c.target.Valid() && id.Valid()
    requires s.aggregate.kind in {AggregateKind.Story, AggregateKind.Task}
    ensures Decide(c, Some(s), id).Some? <==>
            && s.phase in PhasesFor(c.kind, s.aggregate.kind) && c.payload.ReopenPayload?
            && c.payload.priorEpoch == s.epoch && c.payload.scope.Some? && s.scope < c.payload.scope.value
  {
    hide Uuid.Valid, Actor.Valid;
  }

  lemma PhaseOfCreation(c: Command, id: Uuid)
    requires Decide(c, None, id).Some?
    ensures var s := Decide(c, None, id).value;
            && s.phase == PhaseAfter([(c, id)]) && s.condition == ConditionAfter([(c, id)])
  {
    hide Uuid.Valid, ParseConfiguration, ParseInteraction, ParseParticipant, ParseRole;
    assert [(c, id)][..0] == [];
    assert PhaseAfter([(c, id)][..0]) == L.Draft && ConditionAfter([(c, id)][..0]) == L.Runnable;
  }

  /** Over every run the phase is the one the last command that moves it gives, the condition the one
      of the last blocking or unblocking. */
  lemma {:induction false} RunIsPhased(cs: seq<(Command, Uuid)>)
    requires |cs| > 0 && Run(cs).Ran?
    ensures Run(cs).state.Some? && Run(cs).state.value.phase == PhaseAfter(cs)
    ensures Run(cs).state.value.condition == ConditionAfter(cs)
  {
    hide Run, Decide, StateOk;
    var n := |cs| - 1;
    var (c, id) := cs[n];
    if n == 0 {
      RunOne(cs);
      PhaseOfCreation(c, id);
      assert cs == [(c, id)];
    } else {
      RunParts(cs);
      RunIsPhased(cs[..n]);
      PhaseOfStep(c, Run(cs[..n]).state.value, id);
      NotCreated(c, Run(cs[..n]).state.value, id);
    }
  }

  lemma NotCreated(c: Command, s: State, id: Uuid)
    requires Decide(c, Some(s), id).Some?
    ensures !c.kind.TaskCreate? && !c.kind.StoryCreate?
  {
    hide Uuid.Valid, EvolveState;
  }

  // ------------------------------------------------------------------
  // Bindings, continuity and interactions.
  // ------------------------------------------------------------------

  /** Rebinding a role is accepted exactly when it is sound and names the binding it replaces. */
  lemma RoleAcceptedIff(c: Command, s: State, id: Uuid)
    requires c.kind.SystemBindOperatorRole? && c.payload.RolePayload? && c.payload.expectedRevision > 0
    requires c.target == s.aggregate && c.target.Valid() && id.Valid() && c.target.kind.System? && s.phase.Draft?
    ensures Decide(c, Some(s), id).Some? <==>
            c.payload.role.sound && s.role.Some? && c.payload.role.replaced == Some(s.role.value.binding)
  {
    hide Uuid.Valid, ParseConfiguration, ParseInteraction, ParseParticipant, ApplyContinuity, ApplyInteraction, L.Step,
         Actor.Valid;
  }

  /** Rebinding a profile is accepted exactly when it is sound, of the same human participant and
      made at the current revision; revoking it exactly while it is active. */
  lemma ProfileAcceptedIff(c: Command, s: State, id: Uuid)
    requires c.target == s.aggregate && c.target.Valid() && id.Valid() && c.target.kind.HumanParticipant?
             && s.phase.Draft?
    ensures c.kind.ParticipantBindProfile? && c.payload.ProfilePayload? && c.payload.expectedRevision > 0 ==>
              (Decide(c, Some(s), id).Some? <==>
                 && c.payload.profile.sound && c.payload.profile.participant.kind.Human? && s.participant.Some?
                 && c.payload.expectedRevision == s.revision
                    && c.payload.profile.participant == s.participant.value.participant)
    ensures c.kind.ParticipantRevoke? ==>
              (Decide(c, Some(s), id).Some? <==> s.participant.Some? && s.participant.value.active)
  {
    hide Uuid.Valid, ParseConfiguration, ParseInteraction, ParseRole, ApplyContinuity, ApplyInteraction, L.Step,
         Actor.Valid;
  }

  /** A command that drives a machine changes nothing else. */
  lemma MachineStep(c: Command, s: State, id: Uuid)
    requires SyntheticEvent(c.kind).Some? && c.target == s.aggregate && c.target.Valid() && id.Valid()
    requires Targets(c.kind, c.target.kind) && s.phase.Draft?
    ensures var d := EvolveDomain(c, s, id);
            Decide(c, Some(s), id) == if d.None? then None else Some(d.value.(revision := s.revision + 1))
  {
    hide Uuid.Valid, EvolveDomain, Actor.Valid, L.Step;
    assert s.(ownership := s.ownership) == s;
  }

  /** An interaction command is accepted exactly when the interaction takes its payload as the event
      it stands for, at the next revision, and then leaves that interaction. */
  lemma InteractionAcceptedIff(c: Command, s: State, id: Uuid)
    requires c.target == s.aggregate && c.target.Valid() && id.Valid() && c.target.kind.HumanInteraction?
    requires s.phase.Draft? && s.interaction.Some? && s.continuity.None? && c.payload.InteractionPayload?
    requires match c.kind
             case InteractionRecordDelivery => c.payload.interaction.DeliveryRecorded?
             case InteractionRespond => c.payload.interaction.ResponseRecorded?
             case InteractionClose => c.payload.interaction.ClosedRecorded?
             case InteractionExpire => c.payload.interaction.ExpiredRecorded?
             case _ => false
    ensures var next := H.Apply(s.interaction.value, H.Event(id, s.aggregate, s.revision + 1, c.payload.interaction));
            && (Decide(c, Some(s), id).Some? <==> next.Some?)
            && (next.Some? ==> Decide(c, Some(s), id).value == s.(interaction := next, revision := s.revision + 1))
  {
    hide Decide, Uuid.Valid, H.Apply, C.Apply;
    MachineStep(c, s, id);
  }

  /** The same of continuity commands; reconfiguring is accepted exactly in ACTIVE. */
  lemma ContinuityAcceptedIff(c: Command, s: State, id: Uuid)
    requires c.target == s.aggregate && c.target.Valid() && id.Valid() && c.target.kind.System?
    requires s.phase.Draft? && s.continuity.Some? && c.payload.ContinuityPayload?
    requires match c.kind
             case SystemRequestQuiescence => c.payload.continuity.QuiescenceRequested?
             case SystemRecordSuspended => c.payload.continuity.SuspendedRecorded?
             case SystemRecordOutage => c.payload.continuity.OutageRecorded?
             case SystemBeginReconciliation => c.payload.continuity.ReconciliationStarted?
             case SystemResume => c.payload.continuity.Resumed?
             case _ => false
    ensures var next := C.Apply(s.continuity.value,
                                C.Event(id, AggregateKind.System, s.revision + 1, c.payload.continuity));
            && (Decide(c, Some(s), id).Some? <==> next.Some?)
            && (next.Some? ==> Decide(c, Some(s), id).value == s.(continuity := next, revision := s.revision + 1))
  {
    hide Decide, Uuid.Valid, H.Apply, C.Apply;
    MachineStep(c, s, id);
  }

  lemma ReconfigurationAcceptedIff(c: Command, s: State, id: Uuid)
    requires c.target == s.aggregate && c.target.Valid() && id.Valid() && c.target.kind.System? && s.phase.Draft?
    requires c.kind.SystemConfigureContinuity? && c.payload.ConfigurePayload?
             && c.payload.configuration.expectedRevision > 0
    ensures var next := C.Configure(c.payload.configuration, id, s.revision + 1);
            && (Decide(c, Some(s), id).Some? <==>
                next.Some? && (s.continuity.Some? ==> s.continuity.value.control.Active?))
            && (Decide(c, Some(s), id).Some? ==>
                Decide(c, Some(s), id).value == s.(continuity := next, revision := s.revision + 1))
  {
    hide Uuid.Valid, ParseInteraction, ParseParticipant, ParseRole, H.Apply, C.Apply, C.Configure, L.Step, Actor.Valid;
  }

  // ------------------------------------------------------------------
  // Creation, and what folding checks of any stream.
  // ------------------------------------------------------------------

  /** An aggregate is created exactly by the command for its kind, with a payload at revision zero
      that is sound. */
  lemma CreationIff(c: Command, id: Uuid)
    ensures Decide(c, None, id).Some? <==>
            && id.Valid() && c.target.Valid()
            && (|| (c.kind.StoryCreate? && c.target.kind.Story?)
                || (c.kind.TaskCreate? && c.target.kind.Task?)
                || (&& c.kind.SystemBindOperatorRole? && c.target.kind.System? && c.payload.RolePayload?
                    && c.payload.expectedRevision == 0 && c.payload.role.sound)
                || (&& c.kind.SystemConfigureContinuity? && c.target.kind.System? && c.payload.ConfigurePayload?
                    && c.payload.configuration.expectedRevision == 0
                       && C.Configure(c.payload.configuration, id, 1).Some?)
                || (&& c.kind.ParticipantBindProfile? && c.target.kind.HumanParticipant? && c.payload.ProfilePayload?
                    && c.payload.expectedRevision == 0 && c.payload.profile.sound
                       && c.payload.profile.participant.kind.Human?)
                || (&& c.kind.InteractionOpen? && c.target.kind.HumanInteraction? && c.payload.OpenPayload?
                    && c.payload.terms.id == c.target.id && H.TermsValid(c.payload.terms)))
  {
    hide Uuid.Valid, C.Configure;
    if c.payload.OpenPayload? {
      OpenValid(c.payload.terms);
    }
    hide H.Valid, H.TermsValid;
  }

  lemma OpenValid(t: H.Terms)
    ensures H.Valid(H.Interaction(t, 1, H.Open, [], [])) <==> H.TermsValid(t)
  {
    hide H.TermsValid;
  }

  /** A stream that folds is one aggregate's, numbered from one without a gap, with valid event
      ids, and carries at each event the epoch the fold has reached. */
  lemma {:induction false} FoldChecks(events: seq<Event>, n: nat)
    requires 0 < n <= |events| && FoldUpTo(events, n).Rebuilt?
    ensures FoldUpTo(events, n).state.revision == n && FoldUpTo(events, n).state.epoch == events[n - 1].epoch
    ensures forall i :: 0 <= i < n ==>
              events[i].aggregate == events[0].aggregate && events[i].revision == i + 1 && events[i].id.Valid()
  {
    hide FoldCreation, FoldEvent, Uuid.Valid;
    if n == 1 {
      assert FoldUpTo(events, 0) == NoEvents;
    } else {
      assert FoldUpTo(events, n - 1).Rebuilt? by { FoldNonempty(events, n - 1); }
      FoldChecks(events, n - 1);
    }
  }

  lemma FoldNonempty(events: seq<Event>, n: nat)
    requires 0 < n <= |events|
    ensures !FoldUpTo(events, n).NoEvents?
  {
    hide FoldCreation, FoldEvent, WellPlaced;
  }
}
