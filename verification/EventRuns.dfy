/** Whole runs of accepted commands: when folding the emitted events gives the state that was
    evolved, and what happens when it does not.
 */
module EventRuns {
  import opened Orders
  import opened Ids
  import L = Lifecycle
  import C = Continuity
  import H = HumanInteraction
  import opened EventSourcing

  /** The state and the events of a run, unless some command of it is refused. */
  datatype Outcome = Refused | Ran(state: Option<State>, events: seq<Event>)

  function Run(cs: seq<(Command, Uuid)>): Outcome {
    if |cs| == 0 then Ran(None, [])
    else
      var before := Run(cs[..|cs| - 1]);
      if before.Refused? then Refused
      else
        var (c, id) := cs[|cs| - 1];
        var next := Decide(c, before.state, id);
        if next.None? then Refused else Ran(next, before.events + [Emitted(c, next.value, id)])
  }

  // ------------------------------------------------------------------
  // What every evolved state satisfies.
  // ------------------------------------------------------------------

  ghost predicate StateOk(s: State) {
    && (s.continuity.Some? ==> s.aggregate.kind.System?)
    && (s.interaction.Some? ==> s.aggregate.kind.HumanInteraction?)
    && (s.ownership.owner.None? ==> s.ownership.assignedBy.None?)
  }

  lemma CreationOk(c: Command, id: Uuid)
    requires Decide(c, None, id).Some?
    ensures var s := Decide(c, None, id).value;
            StateOk(s) && s.revision == 1 && s.epoch == 1 && s.aggregate == c.target && s.ownership.owner.None?
  {
    hide Uuid.Valid, ParseConfiguration, ParseInteraction, ParseParticipant, ParseRole;
  }

  lemma ExistingOk(c: Command, s: State, id: Uuid)
    requires StateOk(s) && Decide(c, Some(s), id).Some?
    ensures var t := Decide(c, Some(s), id).value;
            StateOk(t) && t.revision == s.revision + 1 && t.aggregate == s.aggregate == c.target
  {
    hide Uuid.Valid, ParseConfiguration, ParseInteraction, ParseParticipant, ParseRole, ApplyContinuity,
         ApplyInteraction, L.Step, Actor.Valid;
  }

  // ------------------------------------------------------------------
  // One step.
  // ------------------------------------------------------------------

  /** A reopening that drops an owner: the one thing folding does not do. */
  predicate DropsOwner(c: Command, s: State) {
    c.kind.WorkReopen? && !(c.payload.ReopenPayload? && c.payload.carryOwner) && s.ownership.owner.Some?
  }

  lemma CreationAgrees(c: Command, id: Uuid)
    requires Decide(c, None, id).Some?
    ensures FoldCreation(Emitted(c, Decide(c, None, id).value, id)) == Decide(c, None, id)
  {
    hide Uuid.Valid, ParseConfiguration, ParseInteraction, ParseParticipant, ParseRole;
    assert c.target == AggregateRef(c.target.kind, c.target.id);
  }

  /** Apart from ownership and revision, folding the event does what evolving did. */
  lemma CoreAgrees(c: Command, s: State, id: Uuid)
    requires StateOk(s) && Decide(c, Some(s), id).Some?
    ensures var t := Decide(c, Some(s), id).value;
            FoldCore(s, Emitted(c, t, id)) == Some(t.(ownership := s.ownership, revision := s.revision))
  {
    hide Uuid.Valid, ParseConfiguration, ParseInteraction, ParseParticipant, ParseRole, ApplyContinuity,
         ApplyInteraction, L.Step, Actor.Valid;
    TablesAgree(c.kind);
  }

  lemma MachinesFrame(s: State, o: Ownership, e: Event)
    ensures FoldMachines(s.(ownership := o), e) == var r := FoldMachines(s, e); if r.None? then None
              else Some(r.value.(ownership := o))
  {
    hide ApplyContinuity, ApplyInteraction;
  }

  lemma BindingsFrame(s: State, o: Ownership, e: Event)
    ensures FoldBindings(s.(ownership := o), e) == var r := FoldBindings(s, e); if r.None? then None
              else Some(r.value.(ownership := o))
  {
    hide ParseConfiguration, ParseParticipant, ParseRole;
  }

  /** Folding neither reads nor changes ownership outside its ownership part. */
  lemma CoreFrame(s: State, o: Ownership, e: Event)
    ensures FoldCore(s.(ownership := o), e) == var r := FoldCore(s, e); if r.None? then None
              else Some(r.value.(ownership := o))
  {
    hide FoldMachines, FoldBindings, L.Step, EventAction;
    MachinesFrame(s, o, e);
    var a := FoldMachines(s, e);
    if a.Some? {
      BindingsFrame(a.value, o, e);
    }
  }

  /** How ownership evolves on an existing aggregate. */
  lemma OwnershipEvolves(c: Command, s: State, id: Uuid)
    requires StateOk(s) && Decide(c, Some(s), id).Some?
    ensures var t := Decide(c, Some(s), id).value;
            && (DropsOwner(c, s) ==> t.ownership == s.ownership.(owner := None, assignedBy := None))
            && (!DropsOwner(c, s) ==> ApplyOwnership(c.kind, c.payload, s.ownership, id) == Some(t.ownership))
  {
    hide Uuid.Valid, ParseConfiguration, ParseInteraction, ParseParticipant, ParseRole, ApplyContinuity,
         ApplyInteraction, L.Step, Actor.Valid;
  }

  lemma OwnershipFolds(c: Command, o: Ownership, id: Uuid)
    requires ApplyOwnership(c.kind, c.payload, o, id).Some?
    ensures var e := EventOwnershipCommand(Emits(c.kind));
            ApplyOwnership(c.kind, c.payload, o, id).value == if e.Some?
                then ApplyOwnership(e.value, c.payload, o, id).value else o
    ensures var e := EventOwnershipCommand(Emits(c.kind)); e.Some? ==> e.value == c.kind
  {
    hide Actor.Valid;
    TablesAgree(c.kind);
  }

  /** Without a dropped owner the event folds to the evolved state; with one, the fold keeps
      the owner that evolving dropped. */
  lemma StepAgrees(c: Command, s: State, id: Uuid)
    requires StateOk(s) && Decide(c, Some(s), id).Some?
    ensures var t := Decide(c, Some(s), id).value;
            var f := FoldEvent(s, Emitted(c, t, id));
            f == Some(t.(revision := s.revision, ownership := if DropsOwner(c, s) then s.ownership else t.ownership))
  {
    hide Decide, FoldCore, ApplyOwnership, StateOk;
    CoreAgrees(c, s, id);
    OwnershipEvolves(c, s, id);
    if !DropsOwner(c, s) {
      OwnershipFolds(c, s.ownership, id);
    }
  }

  /** The folded state still shows an owner that the evolved state dropped. */
  ghost predicate Diverged(f: State, s: State) {
    f == s.(ownership := f.ownership) && s.ownership.owner.None? && f.ownership.owner.Some?
        && f.ownership.version == s.ownership.version
  }

  /** Once diverged: acquiring ownership makes the stream corrupt, and nothing else mends it. */
  lemma DivergedStep(c: Command, f: State, s: State, id: Uuid)
    requires StateOk(s) && Diverged(f, s) && Decide(c, Some(s), id).Some?
    ensures var t := Decide(c, Some(s), id).value;
            var g := FoldEvent(f, Emitted(c, t, id));
            if c.kind.TaskAcquireOwnership? then g.None?
            else g.Some? && Diverged(g.value.(revision := t.revision), t)
  {
    var t := Decide(c, Some(s), id).value;
    var e := Emitted(c, t, id);
    hide Decide, FoldCore, StateOk;
    CoreAgrees(c, s, id);
    CoreFrame(s, f.ownership, e);
    OwnershipEvolves(c, s, id);
    assert s.(ownership := f.ownership) == f;
    hide Actor.Valid;
    TablesAgree(c.kind);
  }

  // ------------------------------------------------------------------
  // Whole runs.
  // ------------------------------------------------------------------

  datatype Standing = Agrees | Differs | Broken

  /** Agrees until an owner is dropped; from then on it differs, and breaks at the next
      acquisition. */
  function NextStanding(standing: Standing, c: Command, s: State): Standing {
    match standing
    case Agrees => if DropsOwner(c, s) then Differs else Agrees
    case Differs => if c.kind.TaskAcquireOwnership? then Broken else Differs
    case Broken => Broken
  }

  function Track(cs: seq<(Command, Uuid)>): Standing {
    if |cs| == 0 then Agrees
    else
      var n := |cs| - 1;
      var before := Run(cs[..n]);
      if before.Ran? && before.state.Some? then NextStanding(Track(cs[..n]), cs[n].0, before.state.value)
      else Track(cs[..n])
  }

  /** What folding the events of a run gives, by the run's standing. */
  ghost predicate Matches(r: Outcome, standing: Standing)
    requires r.Ran? && r.state.Some?
  {
    match standing
    case Agrees => Fold(r.events) == Rebuilt(r.state.value)
    case Differs => Fold(r.events).Rebuilt? && Diverged(Fold(r.events).state, r.state.value)
    case Broken => Fold(r.events) == Corrupt
  }

  ghost predicate Placed(r: Outcome) {
    && r.Ran? && r.state.Some? && StateOk(r.state.value) && |r.events| > 0 && r.state.value.revision == |r.events|
    && r.events[0].aggregate == r.state.value.aggregate
  }

  lemma {:induction false} FoldPrefix(events: seq<Event>, e: Event, n: nat)
    requires n <= |events|
    ensures FoldUpTo(events + [e], n) == FoldUpTo(events, n)
  {
    hide FoldEvent, FoldCreation, WellPlaced;
    if n == 0 {
    } else {
      FoldPrefix(events, e, n - 1);
      assert (events + [e])[n - 1] == events[n - 1] && (events + [e])[0] == events[0];
    }
  }

  lemma FirstStep(c: Command, id: Uuid)
    requires Decide(c, None, id).Some?
    ensures var s := Decide(c, None, id).value;
            var r := Ran(Some(s), [Emitted(c, s, id)]);
            Placed(r) && Matches(r, Agrees)
  {
    CreationOk(c, id);
    CreationAgrees(c, id);
    var s := Decide(c, None, id).value;
    var e := Emitted(c, s, id);
    assert id.Valid();
    hide Decide, StateOk, FoldCreation, Uuid.Valid;
    assert FoldUpTo([e], 0) == NoEvents;
    assert FoldUpTo([e], 1) == Rebuilt(s.(revision := 1));
  }

  /** Folding one event more. */
  lemma FoldLast(events: seq<Event>, e: Event)
    requires |events| > 0 && WellPlaced(e, events[0].aggregate, |events| + 1)
    ensures Fold(events).Corrupt? ==> Fold(events + [e]).Corrupt?
    ensures Fold(events).Rebuilt? ==>
              var next := FoldEvent(Fold(events).state, e);
              Fold(events + [e]) == if next.None? || next.value.epoch != e.epoch then Corrupt
                  else Rebuilt(next.value.(revision := |events| + 1))
  {
    hide FoldEvent, FoldCreation, WellPlaced;
    FoldPrefix(events, e, |events|);
    assert (events + [e])[|events|] == e && (events + [e])[0] == events[0];
  }

  lemma NextPlaced(r: Outcome, c: Command, id: Uuid)
    requires Placed(r) && Decide(c, r.state, id).Some?
    ensures var t := Decide(c, r.state, id).value;
            var e := Emitted(c, t, id);
            Placed(Ran(Some(t), r.events + [e])) && WellPlaced(e, r.events[0].aggregate, |r.events| + 1)
  {
    ExistingOk(c, r.state.value, id);
    assert id.Valid();
    hide StateOk, EvolveState, Uuid.Valid;
    var t := Decide(c, r.state, id).value;
    var e := Emitted(c, t, id);
    assert (r.events + [e])[0] == r.events[0];
  }

  lemma NextStep(r: Outcome, standing: Standing, c: Command, id: Uuid)
    requires Placed(r) && Matches(r, standing) && Decide(c, r.state, id).Some?
    ensures var t := Decide(c, r.state, id).value;
            var q := Ran(Some(t), r.events + [Emitted(c, t, id)]);
            Placed(q) && Matches(q, NextStanding(standing, c, r.state.value))
  {
    var s := r.state.value;
    var t := Decide(c, r.state, id).value;
    var e := Emitted(c, t, id);
    ExistingOk(c, s, id);
    NextPlaced(r, c, id);
    FoldLast(r.events, e);
    hide Decide, StateOk, FoldEvent, WellPlaced, Fold, DropsOwner;
    match standing
    case Agrees =>
      StepAgrees(c, s, id);
      if DropsOwner(c, s) {
        DroppedDiverges(c, s, id);
      }
    case Differs => DivergedStep(c, Fold(r.events).state, s, id);
    case Broken =>
  }

  lemma DroppedDiverges(c: Command, s: State, id: Uuid)
    requires StateOk(s) && Decide(c, Some(s), id).Some? && DropsOwner(c, s)
    ensures var t := Decide(c, Some(s), id).value; Diverged(t.(ownership := s.ownership), t)
  {
    hide Decide, StateOk;
    OwnershipEvolves(c, s, id);
  }

  lemma {:induction false} RunMatches(cs: seq<(Command, Uuid)>)
    requires |cs| > 0 && Run(cs).Ran?
    ensures Placed(Run(cs)) && Matches(Run(cs), Track(cs))
  {
    hide Decide, Placed, Matches, DropsOwner;
    var n := |cs| - 1;
    var before := Run(cs[..n]);
    if n == 0 {
      assert cs[..n] == [];
      assert before.events + [Emitted(cs[n].0, Run(cs).state.value, cs[n].1)]
          == [Emitted(cs[n].0, Run(cs).state.value, cs[n].1)];
      FirstStep(cs[n].0, cs[n].1);
    } else {
      RunMatches(cs[..n]);
      assert before.state.Some? by { PlacedState(before); }
      NextStep(before, Track(cs[..n]), cs[n].0, cs[n].1);
    }
  }

  lemma PlacedState(r: Outcome)
    requires Placed(r)
    ensures r.Ran? && r.state.Some?
  {
  }

  /** No command of the run drops an owner: each reopening carries the owner or finds none. */
  ghost predicate OwnersKept(cs: seq<(Command, Uuid)>) {
    forall i :: 0 <= i < |cs| ==> KeepsOwner(Run(cs[..i]), cs[i].0)
  }

  ghost predicate KeepsOwner(before: Outcome, c: Command) {
    before.Ran? && before.state.Some? ==> !DropsOwner(c, before.state.value)
  }

  lemma {:induction false} TrackIffKept(cs: seq<(Command, Uuid)>)
    ensures Track(cs).Agrees? <==> OwnersKept(cs)
  {
    hide Run, DropsOwner;
    if |cs| == 0 {
    } else {
      var n := |cs| - 1;
      TrackIffKept(cs[..n]);
      assert forall i :: 0 <= i < n ==> cs[..n][..i] == cs[..i];
      if OwnersKept(cs) {
        assert KeepsOwner(Run(cs[..n]), cs[n].0);
        forall i | 0 <= i < |cs[..n]| ensures KeepsOwner(Run(cs[..n][..i]), cs[..n][i].0) {
          assert KeepsOwner(Run(cs[..i]), cs[i].0);
        }
      }
      if OwnersKept(cs[..n]) && KeepsOwner(Run(cs[..n]), cs[n].0) {
        forall i | 0 <= i < |cs| ensures KeepsOwner(Run(cs[..i]), cs[i].0) {
          if i < n {
            assert KeepsOwner(Run(cs[..n][..i]), cs[..n][i].0);
          }
        }
      }
    }
  }

  /** Folding the events of a run from scratch gives exactly the evolved state if and only if
      every reopening of the run carries the owner forward or finds none. */
  lemma FoldMatchesIff(cs: seq<(Command, Uuid)>)
    requires |cs| > 0 && Run(cs).Ran?
    ensures Run(cs).state.Some?
    ensures Fold(Run(cs).events) == Rebuilt(Run(cs).state.value) <==> OwnersKept(cs)
  {
    hide Run, OwnersKept, Track, Fold;
    RunMatches(cs);
    TrackIffKept(cs);
  }

  /** When an owner was dropped, folding never comes back to the evolved state: it keeps
      showing the old owner, and from the next acquisition on the stream counts as corrupt. */
  lemma FoldAfterDrop(cs: seq<(Command, Uuid)>)
    requires |cs| > 0 && Run(cs).Ran? && !OwnersKept(cs)
    ensures Run(cs).state.Some?
    ensures Fold(Run(cs).events) == Corrupt ||
            (Fold(Run(cs).events).Rebuilt? && Diverged(Fold(Run(cs).events).state, Run(cs).state.value))
    ensures Track(cs).Broken? <==> Fold(Run(cs).events) == Corrupt
  {
    hide Run, OwnersKept, Track, Fold, Diverged;
    RunMatches(cs);
    TrackIffKept(cs);
  }

  // ------------------------------------------------------------------
  // A run that drops an owner.
  // ------------------------------------------------------------------

  /** Create, acquire, ready, activate, complete and reopen a task without carrying its owner. */
  function DroppingRun(task: AggregateRef, owner: Actor, id: Uuid): seq<(Command, Uuid)> {
    [(Command(TaskCreate, task, Nothing), id),
     (Command(TaskAcquireOwnership, task, OwnershipPayload(owner, 0)), id),
     (Command(TaskMarkReady, task, Nothing), id),
     (Command(TaskActivate, task, OwnershipPayload(owner, 1)), id),
     (Command(TaskRequestCompletion, task, Nothing), id),
     (Command(WorkReopen, task, ReopenPayload(1, Some(2), false)), id)]
  }

  lemma RunNext(cs: seq<(Command, Uuid)>, n: nat, s: Option<State>, events: seq<Event>)
    requires n < |cs| && Run(cs[..n]) == Ran(s, events) && Decide(cs[n].0, s, cs[n].1).Some?
    ensures var t := Decide(cs[n].0, s, cs[n].1).value;
            Run(cs[..n + 1]) == Ran(Some(t), events + [Emitted(cs[n].0, t, cs[n].1)])
  {
    hide Decide;
    assert cs[..n + 1][..n] == cs[..n];
  }

  /** The states of that run. */
  function DroppingState(task: AggregateRef, owner: Actor, id: Uuid, n: nat): State {
    var s := Fresh(task, L.Planned);
    var owned := s.(revision := n, ownership := Ownership(Some(owner), 1, Some(id)));
    if n <= 1 then s
    else if n == 2 then owned
    else if n == 3 then owned.(phase := L.Ready)
    else if n == 4 then owned.(phase := L.Active)
    else if n == 5 then owned.(phase := L.Completed)
    else owned.(phase := L.Active, epoch := 2, scope := 2, ownership := Ownership(None, 1, None))
  }

  lemma DroppingStep(task: AggregateRef, owner: Actor, id: Uuid, n: nat)
    requires task.kind.Task? && task.Valid() && owner.Valid() && id.Valid() && n < 6
    ensures Decide(DroppingRun(task, owner, id)[n].0, if n == 0 then None else Some(DroppingState(task, owner, id, n)),
                   id)
            == Some(DroppingState(task, owner, id, n + 1))
  {
    hide Uuid.Valid, Actor.Valid, ParseConfiguration, ParseInteraction, ParseParticipant, ParseRole, ApplyContinuity,
         ApplyInteraction, Emits;
  }

  lemma {:induction false} DroppingPrefix(task: AggregateRef, owner: Actor, id: Uuid, n: nat)
    requires task.kind.Task? && task.Valid() && owner.Valid() && id.Valid() && n <= 6
    ensures var r := Run(DroppingRun(task, owner, id)[..n]);
            r.Ran? && r.state == if n == 0 then None else Some(DroppingState(task, owner, id, n))
  {
    hide Uuid.Valid, Actor.Valid, Decide, DroppingState, Run;
    var cs := DroppingRun(task, owner, id);
    if n == 0 {
      assert cs[..0] == [];
      EmptyRun();
    } else {
      DroppingPrefix(task, owner, id, n - 1);
      DroppingStep(task, owner, id, n - 1);
      RunNext(cs, n - 1, Run(cs[..n - 1]).state, Run(cs[..n - 1]).events);
    }
  }

  /** Every step of that run is accepted, and folding its events does not give its state. */
  lemma DroppingRunDiverges(task: AggregateRef, owner: Actor, id: Uuid)
    requires task.kind.Task? && task.Valid() && owner.Valid() && id.Valid()
    ensures var r := Run(DroppingRun(task, owner, id));
            r.Ran? && r.state.Some? && Fold(r.events).Rebuilt? && Fold(r.events).state != r.state.value
            && r.state.value.ownership.owner.None? && Fold(r.events).state.ownership.owner.Some?
  {
    hide Uuid.Valid, Actor.Valid, Run, Fold;
    var cs := DroppingRun(task, owner, id);
    DroppingPrefix(task, owner, id, 5);
    DroppingPrefix(task, owner, id, 6);
    assert cs[..6] == cs;
    Dropped(cs, DroppingState(task, owner, id, 5), DroppingState(task, owner, id, 6));
  }

  lemma EmptyRun()
    ensures Run([]) == Ran(None, [])
  {
  }

  lemma Dropped(cs: seq<(Command, Uuid)>, s: State, t: State)
    requires |cs| > 1 && Run(cs).Ran? && Run(cs).state == Some(t)
    requires var n := |cs| - 1; Run(cs[..n]).Ran? && Run(cs[..n]).state == Some(s) && DropsOwner(cs[n].0, s)
    requires OwnersKept(cs[..|cs| - 1])
    ensures Fold(Run(cs).events).Rebuilt? && Diverged(Fold(Run(cs).events).state, t)
  {
    hide Run, Fold, OwnersKept;
    var n := |cs| - 1;
    TrackIffKept(cs[..n]);
    RunMatches(cs);
  }

  // ------------------------------------------------------------------
  // Continuity and the aggregate's revision.
  // ------------------------------------------------------------------

  ghost predicate ContinuityBehind(s: State) {
    s.continuity.Some? && s.continuity.value.revision < s.revision
  }

  /** A continuity record that is behind its aggregate's revision accepts no continuity event,
      and outside ACTIVE it cannot be reconfigured either. */
  lemma BehindStays(c: Command, s: State, id: Uuid)
    requires ContinuityBehind(s) && !s.continuity.value.control.Active? && Decide(c, Some(s), id).Some?
    ensures var t := Decide(c, Some(s), id).value; t.continuity == s.continuity && ContinuityBehind(t)
  {
    hide Uuid.Valid, ParseConfiguration, ParseInteraction, ParseParticipant, ParseRole, ApplyInteraction, L.Step,
         Actor.Valid, C.Branch, C.Valid;
  }

  /** The state after further commands, unless one of them is refused. */
  function Continue(s: State, cs: seq<(Command, Uuid)>): Option<State> {
    if |cs| == 0 then Some(s)
    else
      var before := Continue(s, cs[..|cs| - 1]);
      if before.None? then None else Decide(cs[|cs| - 1].0, before, cs[|cs| - 1].1)
  }

  /** Admission can never reopen: the record stays as it is over every continuation. */
  lemma {:induction false} StuckForEver(s: State, cs: seq<(Command, Uuid)>)
    requires ContinuityBehind(s) && !s.continuity.value.control.Active? && Continue(s, cs).Some?
    ensures Continue(s, cs).value.continuity == s.continuity && ContinuityBehind(Continue(s, cs).value)
  {
    hide Decide;
    if |cs| == 0 {
    } else {
      var n := |cs| - 1;
      StuckForEver(s, cs[..n]);
      BehindStays(cs[n].0, Continue(s, cs[..n]).value, cs[n].1);
    }
  }

  /** Which commands keep a continuity record level with its aggregate: exactly those that
      write it. Any other command accepted on the system aggregate leaves it behind. */
  lemma LevelIffWritten(c: Command, s: State, id: Uuid)
    requires s.continuity.Some? && s.continuity.value.revision == s.revision && Decide(c, Some(s), id).Some?
    ensures var t := Decide(c, Some(s), id).value;
            t.continuity.Some? &&
            (ContinuityBehind(t) <==> !(c.kind.SystemConfigureContinuity? || SyntheticEvent(c.kind).Some?))
  {
    hide Uuid.Valid, ParseInteraction, ParseParticipant, ParseRole, ApplyInteraction, L.Step, Actor.Valid, C.Branch,
         C.Valid;
  }

  /** A correction recorded while the team is quiescing, suspended or reconciling is accepted,
      and after it no run of commands ever reopens admission. */
  lemma CorrectionWedges(s: State, id: Uuid, cs: seq<(Command, Uuid)>)
    requires s.aggregate.kind.System? && s.aggregate.Valid() && id.Valid() && s.phase.Draft?
    requires s.continuity.Some? && s.continuity.value.revision == s.revision && C.Valid(s.continuity.value)
    requires !s.continuity.value.control.Active?
    ensures var t := Decide(Command(RecordCorrect, s.aggregate, Nothing), Some(s), id);
            && t.Some?
            && (Continue(t.value, cs).Some? ==>
                  var u := Continue(t.value, cs).value; u.continuity.Some? && !u.continuity.value.open)
  {
    var c := Command(RecordCorrect, s.aggregate, Nothing);
    assert Decide(c, Some(s), id).Some? by { hide Uuid.Valid, C.Valid; }
    LevelIffWritten(c, s, id);
    assert Decide(c, Some(s), id).value.continuity == s.continuity by { hide Uuid.Valid, C.Valid; }
    assert !s.continuity.value.open by { hide Uuid.Valid, Digest.Valid; }
    hide Decide, C.Valid, Uuid.Valid;
    if Continue(Decide(c, Some(s), id).value, cs).Some? {
      StuckForEver(Decide(c, Some(s), id).value, cs);
    }
  }

  // ------------------------------------------------------------------
  // When admission can still reopen.
  // ------------------------------------------------------------------

  function OutageCommand(s: State, id: Uuid, who: Principal): Command
    requires s.continuity.Some?
  {
    var c := s.continuity.value;
    Command(SystemRecordOutage, s.aggregate,
            ContinuityPayload(C.OutageRecorded(c.revision, c.epoch, c.epoch + 1, c.control, [], Some(0),
                                               Text("UNKNOWN"), None, who, [id])))
  }

  function ResumeCommand(s: State, id: Uuid, who: Principal): Command
    requires s.continuity.Some?
  {
    var c := s.continuity.value;
    Command(SystemResume, s.aggregate,
            ContinuityPayload(C.Resumed(c.revision, c.epoch, [], true, true, true, true, who, [id])))
  }

  /** A system aggregate whose continuity record is level with it. */
  ghost predicate Level(s: State) {
    && s.aggregate.kind.System? && s.aggregate.Valid() && s.phase.Draft?
    && s.continuity.Some? && C.Valid(s.continuity.value) && s.continuity.value.revision == s.revision
  }

  lemma OneId(id: Uuid)
    requires id.Valid()
    ensures ValidUnique([id], 1, 64)
  {
    hide Uuid.Valid;
  }

  lemma OutageAccepted(s: State, id: Uuid, initiator: Principal)
    requires Level(s) && id.Valid() && initiator.Valid()
    ensures var t := Decide(OutageCommand(s, id, initiator), Some(s), id);
            t.Some? && Level(t.value) && t.value.continuity.value.control.Reconciling?
                && t.value.continuity.value.unresolved == []
  {
    hide Uuid.Valid, Digest.Valid, ValidUnique;
    OneId(id);
    C.NoneUnique();
    assert Canonical([]) == [];
  }

  lemma ResumeAccepted(s: State, id: Uuid, initiator: Principal)
    requires Level(s) && id.Valid() && initiator.Valid() && s.continuity.value.control.Reconciling?
             && s.continuity.value.unresolved == []
    ensures var t := Decide(ResumeCommand(s, id, initiator), Some(s), id);
            t.Some? && t.value.continuity.Some? && t.value.continuity.value.open
  {
    hide Uuid.Valid, Digest.Valid, ValidUnique;
    OneId(id);
    C.NoneUnique();
    assert C.Reconciled([]) == [];
  }

  ghost predicate CanReopen(s: State) {
    exists cs :: Continue(s, cs).Some? && Continue(s, cs).value.continuity.Some?
        && Continue(s, cs).value.continuity.value.open
  }

  /** From a system state outside ACTIVE some further commands reopen admission if and only if
      no command has left the continuity record behind. */
  lemma ReopensIffLevel(s: State, id: Uuid, initiator: Principal)
    requires s.aggregate.kind.System? && s.aggregate.Valid() && s.phase.Draft? && id.Valid() && initiator.Valid()
    requires s.continuity.Some? && C.Valid(s.continuity.value) && s.continuity.value.revision <= s.revision
    requires !s.continuity.value.control.Active?
    ensures CanReopen(s) <==> s.continuity.value.revision == s.revision
  {
    assert !s.continuity.value.open by { hide Uuid.Valid, Digest.Valid; }
    hide Decide, Uuid.Valid, C.Valid, OutageCommand, ResumeCommand;
    if Level(s) {
      OutageAccepted(s, id, initiator);
      var first := (OutageCommand(s, id, initiator), id);
      var t := Decide(first.0, Some(s), id).value;
      ResumeAccepted(t, id, initiator);
      var cs := [first, (ResumeCommand(t, id, initiator), id)];
      assert cs[..1] == [first] && [first][..0] == [];
      assert Continue(s, [first]) == Some(t);
      assert Continue(s, cs).Some?;
    } else {
      forall cs | Continue(s, cs).Some? ensures Continue(s, cs).value.continuity == s.continuity {
        StuckForEver(s, cs);
      }
    }
  }

  /** What every reachable state keeps of its system aggregate and continuity record. */
  ghost predicate SystemOk(s: State) {
    && (s.aggregate.kind.System? ==> s.aggregate.Valid() && s.phase.Draft?)
    && (s.continuity.Some? ==>
          s.aggregate.kind.System? && C.Valid(s.continuity.value) && s.continuity.value.revision <= s.revision)
  }

  lemma SystemOkCreated(c: Command, id: Uuid)
    requires Decide(c, None, id).Some?
    ensures SystemOk(Decide(c, None, id).value)
  {
    hide Uuid.Valid, ParseInteraction, ParseParticipant, ParseRole, C.Valid;
  }

  lemma SystemOkStep(c: Command, s: State, id: Uuid)
    requires StateOk(s) && SystemOk(s) && Decide(c, Some(s), id).Some?
    ensures SystemOk(Decide(c, Some(s), id).value)
  {
    hide Uuid.Valid, ParseInteraction, ParseParticipant, ParseRole, ApplyInteraction, L.Step, Actor.Valid, C.Branch,
         C.Valid;
  }

  lemma {:induction false} SystemOkRun(cs: seq<(Command, Uuid)>)
    requires Run(cs).Ran? && Run(cs).state.Some?
    ensures StateOk(Run(cs).state.value) && SystemOk(Run(cs).state.value)
  {
    hide Decide, SystemOk, StateOk;
    var n := |cs| - 1;
    var before := Run(cs[..n]).state;
    if before.None? {
      CreationOk(cs[n].0, cs[n].1);
      SystemOkCreated(cs[n].0, cs[n].1);
    } else {
      SystemOkRun(cs[..n]);
      ExistingOk(cs[n].0, before.value, cs[n].1);
      SystemOkStep(cs[n].0, before.value, cs[n].1);
    }
  }

  /** After any run that left admission closed, some further commands reopen it if and only if
      the continuity record is level with the aggregate's revision. */
  lemma ReopensIff(cs: seq<(Command, Uuid)>, id: Uuid, initiator: Principal)
    requires Run(cs).Ran? && Run(cs).state.Some? && id.Valid() && initiator.Valid()
    requires var c := Run(cs).state.value.continuity; c.Some? && !c.value.control.Active?
    ensures CanReopen(Run(cs).state.value) <==> !ContinuityBehind(Run(cs).state.value)
  {
    hide Run, CanReopen, Uuid.Valid, C.Valid;
    SystemOkRun(cs);
    ReopensIffLevel(Run(cs).state.value, id, initiator);
  }
}
