/** FoldAggregate as the source runs it: a loop over the events that updates one aggregate in
    place (kernel/fold.go), proved to compute EventSourcing.Fold.
 */
module EventFold {
  import opened Orders
  import opened Ids
  import L = Lifecycle
  import C = Continuity
  import H = HumanInteraction
  import opened EventSourcing

  class Aggregate {
    const reference: AggregateRef
    var revision: nat
    var epoch: nat
    var scope: nat
    var phase: L.Phase
    var condition: L.Condition
    var ownership: Ownership
    var role: Option<Role>
    var participant: Option<Participant>
    var interaction: Option<H.Interaction>
    var continuity: Option<C.Snapshot>

    ghost function Value(): State
      reads this
    {
      State(reference, revision, epoch, scope, phase, condition, ownership, role, participant, interaction, continuity)
    }

    constructor (initial: State)
      ensures Value() == initial
    {
      reference := initial.aggregate;
      revision, epoch, scope := initial.revision, initial.epoch, initial.scope;
      phase, condition, ownership := initial.phase, initial.condition, initial.ownership;
      role, participant, interaction, continuity := initial.role, initial.participant, initial.interaction,
          initial.continuity;
    }

    method FoldStateMachines(e: Event) returns (ok: bool)
      modifies this
      ensures ok <==> FoldMachines(old(Value()), e).Some?
      ensures ok ==> Value() == FoldMachines(old(Value()), e).value
    {
      hide ApplyContinuity, ApplyInteraction;
      if continuity.Some? && ContinuityEvent(e.kind) {
        var next := ApplyContinuity(continuity.value, e.kind, e.id, e.aggregate, e.revision, e.payload);
        if next.None? {
          return false;
        }
        continuity := next;
      }
      if interaction.Some? && InteractionEvent(e.kind) {
        var next := ApplyInteraction(interaction.value, e.kind, e.id, e.aggregate, e.revision, e.payload);
        if next.None? {
          return false;
        }
        interaction := next;
      }
      ok := true;
    }

    method FoldBoundParts(e: Event) returns (ok: bool)
      modifies this
      ensures ok <==> FoldBindings(old(Value()), e).Some?
      ensures ok ==> Value() == FoldBindings(old(Value()), e).value
    {
      hide ParseParticipant, ParseRole, ParseConfiguration;
      if e.kind.ParticipantProfileBound? {
        var next := ParseParticipant(e.payload, e.revision);
        if next.None? || participant.None? || next.value.participant != participant.value.participant {
          return false;
        }
        participant := next;
      }
      if e.kind.ParticipantRevoked? {
        if participant.None? || !participant.value.active {
          return false;
        }
        participant := Some(participant.value.(active := false, revision := e.revision));
      }
      if e.kind.SystemOperatorRoleBound? {
        var next := ParseRole(e.payload);
        if next.None? || role.None? || next.value.replaced != Some(role.value.binding) {
          return false;
        }
        role := next;
      }
      if e.kind.SystemContinuityConfigured? {
        var next := ParseConfiguration(e.payload, e.id, e.revision);
        if next.None? || (continuity.Some? && !continuity.value.control.Active?) {
          return false;
        }
        continuity := next;
      }
      if e.kind.WorkReopened? {
        if !e.payload.ReopenPayload? || e.payload.scope.None? || e.payload.scope.value <= scope {
          return false;
        }
        scope := e.payload.scope.value;
      }
      ok := true;
    }

    method FoldLifecycle(e: Event) returns (ok: bool)
      modifies this
      ensures ok <==> LifecycleStep(old(Value()), EventAction(e.kind)).Some?
      ensures ok ==> Value() == LifecycleStep(old(Value()), EventAction(e.kind)).value
    {
      hide L.Step;
      var action := EventAction(e.kind);
      if action.None? {
        return true;
      }
      var initial := L.State(phase, condition, epoch);
      var next, rejected := L.ApplyLifecycleActions(ModelOf(reference.kind), initial, [action.value]);
      SingleAction(ModelOf(reference.kind), initial, action.value);
      if rejected {
        return false;
      }
      phase, condition, epoch := next.phase, next.condition, next.epoch;
      ok := true;
    }

    method FoldOwner(e: Event) returns (ok: bool)
      modifies this
      ensures ok <==> FoldOwnership(old(Value()), e).Some?
      ensures ok ==> Value() == FoldOwnership(old(Value()), e).value
    {
      hide ApplyOwnership;
      var c := EventOwnershipCommand(e.kind);
      if c.Some? {
        var next := ApplyOwnership(c.value, e.payload, ownership, e.id);
        if next.None? {
          return false;
        }
        ownership := next.value;
      }
      ok := true;
    }

    /** foldEvent: on an error the aggregate may be half updated, and the caller drops it. */
    method Fold(e: Event) returns (ok: bool)
      modifies this
      ensures ok <==> FoldEvent(old(Value()), e).Some?
      ensures ok ==> Value() == FoldEvent(old(Value()), e).value
    {
      hide FoldMachines, FoldBindings, LifecycleStep, FoldOwnership;
      ok := FoldStateMachines(e);
      if ok {
        ok := FoldBoundParts(e);
      }
      if ok {
        ok := FoldLifecycle(e);
      }
      if ok {
        ok := FoldOwner(e);
      }
    }
  }

  lemma SingleAction(model: L.Model, s: L.State, action: L.Action)
    ensures L.Run(model, s, [action]) == L.Step(model, s, action)
  {
    assert [action][..0] == [];
  }

  lemma {:induction false} CorruptStays(events: seq<Event>, n: nat)
    requires n <= |events| && FoldUpTo(events, n).Corrupt?
    ensures Fold(events).Corrupt?
    decreases |events| - n
  {
    hide FoldEvent, FoldCreation, WellPlaced;
    if n == |events| {
    } else {
      CorruptStays(events, n + 1);
    }
  }

  method FoldAggregate(events: seq<Event>) returns (r: Folded)
    ensures r == Fold(events)
  {
    hide FoldEvent, FoldCreation, WellPlaced;
    if |events| == 0 {
      return NoEvents;
    }
    var state: Aggregate? := null;
    for n := 0 to |events|
      invariant state == null <==> n == 0
      invariant state != null ==> fresh(state) && FoldUpTo(events, n) == Rebuilt(state.Value())
    {
      var e := events[n];
      if !WellPlaced(e, events[0].aggregate, n + 1) {
        CorruptStays(events, n + 1);
        return Corrupt;
      }
      if n == 0 {
        var first := FoldCreation(e);
        if first.None? {
          CorruptStays(events, n + 1);
          return Corrupt;
        }
        state := new Aggregate(first.value);
      } else {
        var ok := state.Fold(e);
        if !ok {
          CorruptStays(events, n + 1);
          return Corrupt;
        }
      }
      state.revision := n + 1;
      if e.epoch != state.epoch {
        CorruptStays(events, n + 1);
        return Corrupt;
      }
    }
    r := Rebuilt(State(state.reference, state.revision, state.epoch, state.scope, state.phase, state.condition,
                       state.ownership,
                       state.role, state.participant, state.interaction, state.continuity));
  }
}
