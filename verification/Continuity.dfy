/** Team continuity: the power-epoch protocol of kernel/continuity.go and its refinement of
    the policy model in kernel/operator_continuity_models.go.
 */
module Continuity {
  import opened Orders
  import opened Ids

  datatype Control = Active | Quiescing | Suspended | Reconciling | OtherControl(name: string)

  datatype Posture = Continuous | PlannedSuspendCapable | OtherPosture(name: string)

  datatype Snapshot = Snapshot(
    revision: nat, posture: Posture, control: Control, epoch: nat, open: bool, policyRevision: nat,
    policyDigest: Digest, health: Digest, inFlight: seq<Uuid>, unresolved: seq<Uuid>, last: Uuid)

  datatype Disposition = CancelOnSuspend | CompleteQuarantined | DetachAndReconcile | OtherDisposition(name: string)

  datatype SuspensionOutcome = Cancelled | TerminalCaptured | Detached | Unknown | OtherSuspension(name: string)

  datatype SuspensionRecord = SuspensionRecord(
    execution: Uuid, actor: Actor, fencing: nat, provider: Digest, disposition: Disposition, outcome: SuspensionOutcome,
    result: Option<Uuid>, evidence: seq<Uuid>)
  {
    predicate Valid() {
      && execution.Valid() && actor.Valid() && fencing > 0 && provider.Valid() && ValidUnique(evidence, 1, 64)
      && (result.Some? ==> result.value.Valid())
      && match disposition
         case CancelOnSuspend => outcome.Cancelled? || outcome.Unknown?
         case CompleteQuarantined => outcome.TerminalCaptured? || outcome.Unknown?
         case DetachAndReconcile => outcome.Detached? || outcome.Unknown?
         case OtherDisposition(_) => false
    }

    predicate Unresolved() {
      outcome.Detached? || outcome.Unknown?
    }
  }

  datatype ReconciliationOutcome =
    | ReconciledBlocked | ConfirmedCancelled | HumanRequired | RejectedLateResult | Superseded | EvidenceCaptured
    | OtherReconciliation(name: string)

  datatype ReconciliationRecord = ReconciliationRecord(execution: Uuid, outcome: ReconciliationOutcome, state: Digest,
                                                       evidence: seq<Uuid>) {
    predicate Valid() {
      execution.Valid() && state.Valid() && ValidUnique(evidence, 1, 64) && !outcome.OtherReconciliation?
    }
  }

  predicate Valid(s: Snapshot) {
    && s.revision > 0 && s.epoch > 0 && s.policyRevision > 0 && s.policyDigest.Valid() && s.health.Valid()
       && s.last.Valid()
    && ValidUnique(s.inFlight, 0, 1024) && ValidUnique(s.unresolved, 0, 1024) && !s.posture.OtherPosture?
    && match s.control
       case Active => s.open && |s.unresolved| == 0
       case OtherControl(_) => false
       case _ => !s.open
  }

  /** TeamContinuityFromConfigurePayload */
  datatype Configuration = Configuration(
    expectedRevision: nat, epoch: nat, posture: Posture, policyRevision: nat, policyDigest: Digest, health: Digest)

  function Configure(c: Configuration, event: Uuid, revision: nat): Option<Snapshot> {
    var s := Snapshot(revision, c.posture, Active, c.epoch, true, c.policyRevision, c.policyDigest, c.health, [], [],
                      event);
    if c.expectedRevision + 1 == revision && Valid(s) then Some(s) else None
  }

  const QUIESCENCE_REASONS :=
    {Text("HOST_MAINTENANCE"), Text("LID_CLOSE"), Text("OPERATOR_REQUEST"), Text("POWER_EVENT"), Text("ENERGY_POLICY")}
  const TRIGGERS := {Text("HOST_RECOVERY"), Text("OPERATOR_REQUEST"), Text("WAKE")}
  const OUTAGES :=
    {Text("HOST_SLEEP"), Text("HOST_RESTART"), Text("NETWORK_PARTITION"), Text("PROCESS_LOSS"), Text("UNKNOWN")}

  datatype Body =
    | QuiescenceRequested(
        expectedRevision: nat, expectedEpoch: nat, nextEpoch: nat, inFlight: seq<Uuid>, reason: Text,
        initiator: Principal, deadline: Option<int>, plan: Digest, evidence: seq<Uuid>)
    | SuspendedRecorded(
        expectedRevision: nat, expectedEpoch: nat, allRecorded: bool, request: Uuid, records: seq<SuspensionRecord>,
        unresolved: seq<Uuid>, initiator: Principal, evidence: seq<Uuid>)
    | ReconciliationStarted(
        expectedRevision: nat, expectedEpoch: nat, unresolved: seq<Uuid>, trigger: Text, provider: Digest,
        initiator: Principal, evidence: seq<Uuid>)
    | OutageRecorded(
        expectedRevision: nat, expectedEpoch: nat, nextEpoch: nat, previous: Control, inFlight: seq<Uuid>,
        detectedAt: Option<int>, kind: Text, lastDurable: Option<Uuid>, initiator: Principal, evidence: seq<Uuid>)
    | Resumed(
        expectedRevision: nat, expectedEpoch: nat, reconciled: seq<ReconciliationRecord>, healthy: bool, outbox: bool,
        changes: bool, reopen: bool, initiator: Principal, evidence: seq<Uuid>)
    | OtherBody

  datatype Event = Event(id: Uuid, aggregate: AggregateKind, revision: nat, body: Body)

  function Recorded(records: seq<SuspensionRecord>): seq<Uuid> {
    if |records| == 0 then [] else Recorded(records[..|records| - 1]) + [records[|records| - 1].execution]
  }

  function LeftUnresolved(records: seq<SuspensionRecord>): seq<Uuid> {
    if |records| == 0 then []
    else
      var last := records[|records| - 1];
      LeftUnresolved(records[..|records| - 1]) + (if last.Unresolved() then [last.execution] else [])
  }

  function Reconciled(records: seq<ReconciliationRecord>): seq<Uuid> {
    if |records| == 0 then [] else Reconciled(records[..|records| - 1]) + [records[|records| - 1].execution]
  }

  predicate Current(s: Snapshot, e: Body) {
    !e.OtherBody? && e.expectedRevision == s.revision && e.expectedEpoch == s.epoch && e.initiator.Valid()
        && ValidUnique(e.evidence, 1, 64)
  }

  /** The branch checks of ApplyContinuityEvent: the snapshot before its revision moves. */
  function Branch(s: Snapshot, e: Body): Option<Snapshot> {
    match e
    case QuiescenceRequested(_, _, nextEpoch, inFlight, reason, _, deadline, plan, _) =>
      if && s.control.Active? && Current(s, e) && nextEpoch == s.epoch + 1 && ValidUnique(inFlight, 0, 1024)
         && reason in QUIESCENCE_REASONS && deadline.Some? && plan.Valid()
      then Some(s.(control := Quiescing, epoch := nextEpoch, open := false, inFlight := Canonical(inFlight),
                   unresolved := []))
      else None
    case SuspendedRecorded(_, _, allRecorded, request, records, unresolved, _, _) =>
      if && s.control.Quiescing? && Current(s, e) && request == s.last && allRecorded
          && ValidUnique(unresolved, 0, 1024)
         && (forall r :: r in records ==> r.Valid())
         && SameIds(Recorded(records), s.inFlight) && SameIds(unresolved, LeftUnresolved(records))
      then Some(s.(control := Suspended, unresolved := Canonical(unresolved)))
      else None
    case ReconciliationStarted(_, _, unresolved, trigger, provider, _, _) =>
      if s.control.Suspended? && Current(s, e) && SameIds(unresolved, s.unresolved) && trigger in TRIGGERS
          && provider.Valid()
      then Some(s.(control := Reconciling))
      else None
    case OutageRecorded(_, _, nextEpoch, previous, inFlight, detectedAt, kind, lastDurable, _, _) =>
      if && Current(s, e) && nextEpoch == s.epoch + 1 && previous == s.control && ValidUnique(inFlight, 0, 1024)
         && detectedAt.Some? && kind in OUTAGES && (lastDurable.Some? ==> lastDurable.value.Valid())
      then
        Some(s.(control := Reconciling, epoch := nextEpoch, open := false, inFlight := Canonical(inFlight),
                unresolved := Canonical(inFlight)))
      else None
    case Resumed(_, _, reconciled, healthy, outbox, changes, reopen, _, _) =>
      if && s.control.Reconciling? && Current(s, e) && healthy && outbox && changes && reopen
         && (forall r :: r in reconciled ==> r.Valid()) && SameIds(Reconciled(reconciled), s.unresolved)
      then Some(s.(control := Active, open := true, inFlight := [], unresolved := []))
      else None
    case OtherBody => None
  }

  /** ApplyContinuityEvent: None is a rejection. */
  function Apply(s: Snapshot, e: Event): Option<Snapshot> {
    if !Valid(s) || !e.aggregate.System? || e.revision != s.revision + 1 then None
    else
      var b := Branch(s, e.body);
      if b.None? then None
      else
        var next := b.value.(revision := s.revision + 1, last := e.id);
        if Valid(next) then Some(next) else None
  }

  // ------------------------------------------------------------------
  // The loops the transitions use.
  // ------------------------------------------------------------------

  /** canonicalUUIDs */
  method CanonicalUuids(values: seq<Uuid>) returns (sorted: seq<Uuid>)
    ensures sorted == Canonical(values)
  {
    BeforeWeakOrder();
    sorted := SortSlice(values, Before);
    SortedIsCanonical(values, sorted);
  }

  method SameElementwise(a: seq<Uuid>, b: seq<Uuid>) returns (same: bool)
    ensures same <==> a == b
  {
    if |a| != |b| {
      return false;
    }
    for i := 0 to |a|
      invariant forall k :: 0 <= k < i ==> a[k] == b[k]
    {
      if a[i] != b[i] {
        return false;
      }
    }
    same := true;
  }

  /** sameUUIDSet compares with multiplicity. */
  method SameUuidSet(left: seq<Uuid>, right: seq<Uuid>) returns (same: bool)
    ensures same <==> multiset(left) == multiset(right)
    ensures same <==> SameIds(left, right)
  {
    hide Canonical;
    var a := CanonicalUuids(left);
    var b := CanonicalUuids(right);
    CanonicalIffPermutation(left, right);
    same := SameElementwise(a, b);
  }

  /** The loop over suspension records. */
  method CollectSuspension(records: seq<SuspensionRecord>)
    returns (ok: bool, recorded: seq<Uuid>, unresolved: seq<Uuid>)
    ensures ok <==> forall r :: r in records ==> r.Valid()
    ensures ok ==> recorded == Recorded(records) && unresolved == LeftUnresolved(records)
  {
    recorded, unresolved := [], [];
    for n := 0 to |records|
      invariant forall i :: 0 <= i < n ==> records[i].Valid()
      invariant recorded == Recorded(records[..n]) && unresolved == LeftUnresolved(records[..n])
    {
      var record := records[n];
      if !record.Valid() {
        return false, recorded, unresolved;
      }
      assert records[..n + 1][..n] == records[..n];
      recorded := recorded + [record.execution];
      if record.Unresolved() {
        unresolved := unresolved + [record.execution];
      }
    }
    assert records[..|records|] == records;
    ok := true;
  }

  // ------------------------------------------------------------------
  // One step.
  // ------------------------------------------------------------------

  lemma CanonicalUnique(ids: seq<Uuid>, least: nat, most: nat)
    requires ValidUnique(ids, least, most)
    ensures ValidUnique(Canonical(ids), least, most)
  {
    hide Uuid.Valid;
    SameElements(ids, Canonical(ids));
    DistinctIffMultiset(ids);
    DistinctIffMultiset(Canonical(ids));
    forall i | 0 <= i < |Canonical(ids)| ensures Canonical(ids)[i].Valid() {
      assert Canonical(ids)[i] in ids;
    }
  }

  /** A transition that passes its branch checks is rejected by the final validity check
      exactly when its event id is malformed. */
  lemma FinalCheckIffEventId(s: Snapshot, e: Event)
    requires Valid(s) && e.aggregate.System? && e.revision == s.revision + 1 && Branch(s, e.body).Some?
    ensures Apply(s, e).Some? <==> e.id.Valid()
  {
    hide Uuid.Valid, Digest.Valid, ValidUnique, SuspensionRecord.Valid, ReconciliationRecord.Valid, SameIds;
    assert ValidUnique([], 0, 1024) by { NoneUnique(); }
    match e.body
    case QuiescenceRequested(_, _, _, inFlight, _, _, _, _, _) => CanonicalUnique(inFlight, 0, 1024);
    case SuspendedRecorded(_, _, _, _, _, unresolved, _, _) => CanonicalUnique(unresolved, 0, 1024);
    case OutageRecorded(_, _, _, _, inFlight, _, _, _, _, _) => CanonicalUnique(inFlight, 0, 1024);
    case _ =>
  }

  lemma NoneUnique()
    ensures ValidUnique([], 0, 1024)
  {
  }

  /** What one accepted event does to the power epoch: it never falls, and it rises by one
      exactly when admission closes or an outage is recorded. */
  lemma StepEpoch(s: Snapshot, e: Event)
    requires Apply(s, e).Some?
    ensures var t := Apply(s, e).value;
            && Valid(t)
            && t.epoch == s.epoch + (if (s.open && !t.open) || e.body.OutageRecorded? then 1 else 0)
            && (t.open <==> t.control.Active?)
  {
    hide Uuid.Valid, Digest.Valid, ValidUnique, SuspensionRecord.Valid, ReconciliationRecord.Valid, SameIds;
  }

  // ------------------------------------------------------------------
  // Admission and fencing over whole runs.
  // ------------------------------------------------------------------

  datatype Dispatch = DispatchWork | AcceptResult

  datatype Admission = Accepted | StaleEpoch | LateResult | AdmissionClosed

  /** EvaluateContinuityAdmission */
  function EvaluateAdmission(epoch: nat, open: bool, action: Dispatch, presented: nat): Admission {
    if presented != epoch then (if action.AcceptResult? then LateResult else StaleEpoch)
    else if !open then AdmissionClosed
    else Accepted
  }

  predicate Admits(s: Snapshot, action: Dispatch, presented: nat) {
    EvaluateAdmission(s.epoch, s.open, action, presented).Accepted?
  }

  function Run(s: Snapshot, events: seq<Event>): Option<Snapshot> {
    if |events| == 0 then Some(s)
    else
      var before := Run(s, events[..|events| - 1]);
      if before.None? then None else Apply(before.value, events[|events| - 1])
  }

  lemma {:induction false} RunSplit(s: Snapshot, events: seq<Event>, n: nat)
    requires n <= |events|
    ensures Run(s, events) == (var m := Run(s, events[..n]); if m.None? then None else Run(m.value, events[n..]))
  {
    hide Apply;
    if n == |events| {
      assert events[..n] == events;
    } else {
      var k := |events| - 1;
      RunSplit(s, events[..k], n);
      assert events[..k][..n] == events[..n] && events[..k][n..] == events[n..][..k - n];
    }
  }

  lemma {:induction false} EpochNeverFalls(s: Snapshot, events: seq<Event>)
    requires Valid(s) && Run(s, events).Some?
    ensures var t := Run(s, events).value;
            && Valid(t) && (t.open <==> t.control.Active?)
            && t.epoch >= s.epoch && (s.open && !t.open ==> t.epoch > s.epoch)
  {
    hide Apply, Uuid.Valid, Digest.Valid, ValidUnique;
    if |events| == 0 {
    } else {
      var n := |events| - 1;
      EpochNeverFalls(s, events[..n]);
      hide Valid;
      StepEpoch(Run(s, events[..n]).value, events[n]);
    }
  }

  /** Fencing: once admission has closed after being open at an epoch, no later state admits a
      dispatch or a result stamped with that epoch. */
  lemma Fencing(s: Snapshot, until: seq<Event>, after: seq<Event>, action: Dispatch)
    requires Valid(s) && s.open && Run(s, until + after).Some?
    requires Run(s, until).Some? && !Run(s, until).value.open
    ensures !Admits(Run(s, until + after).value, action, s.epoch)
  {
    hide Apply, Run, Valid;
    RunSplit(s, until + after, |until|);
    assert (until + after)[..|until|] == until && (until + after)[|until|..] == after;
    EpochNeverFalls(s, until);
    EpochNeverFalls(Run(s, until).value, after);
  }

  // ------------------------------------------------------------------
  // Reconfiguration.
  // ------------------------------------------------------------------

  /** A snapshot together with the epochs at which admission was open and which it has left,
      by closing or by moving to another epoch. */
  datatype History = History(snapshot: Snapshot, retired: set<nat>)

  function Advance(h: History, t: Snapshot): History {
    var left := h.snapshot.open && !(t.open && t.epoch == h.snapshot.epoch);
    History(t, if left then h.retired + {h.snapshot.epoch} else h.retired)
  }

  function RunHistory(h: History, events: seq<Event>): Option<History> {
    if |events| == 0 then Some(h)
    else
      var before := RunHistory(h, events[..|events| - 1]);
      if before.None? then None
      else
        var t := Apply(before.value.snapshot, events[|events| - 1]);
        if t.None? then None else Some(Advance(before.value, t.value))
  }

  /** No retired epoch is admitted. */
  ghost predicate Fenced(h: History) {
    h.snapshot.open ==> h.snapshot.epoch !in h.retired
  }

  ghost predicate AllBelow(h: History) {
    forall e :: e in h.retired ==> e < h.snapshot.epoch
  }

  lemma {:induction false} BelowStays(h: History, events: seq<Event>)
    requires Valid(h.snapshot) && AllBelow(h) && RunHistory(h, events).Some?
    ensures AllBelow(RunHistory(h, events).value) && Valid(RunHistory(h, events).value.snapshot)
  {
    hide Apply, Valid;
    if |events| == 0 {
    } else {
      var n := |events| - 1;
      BelowStays(h, events[..n]);
      StepEpoch(RunHistory(h, events[..n]).value.snapshot, events[n]);
    }
  }

  /** The four events of a cycle with nothing in flight. */
  function Cycle(s: Snapshot, initiator: Principal): seq<Event> {
    var evidence := [s.last];
    [Event(s.last, System, s.revision + 1,
           QuiescenceRequested(s.revision, s.epoch, s.epoch + 1, [], Text("LID_CLOSE"), initiator, Some(0), s.health,
                               evidence)),
     Event(s.last, System, s.revision + 2,
           SuspendedRecorded(s.revision + 1, s.epoch + 1, true, s.last, [], [], initiator, evidence)),
     Event(s.last, System, s.revision + 3,
           ReconciliationStarted(s.revision + 2, s.epoch + 1, [], Text("WAKE"), s.health, initiator, evidence)),
     Event(s.last, System, s.revision + 4,
           Resumed(s.revision + 3, s.epoch + 1, [], true, true, true, true, initiator, evidence))]
  }

  /** Where a cycle leads: active again, one epoch on. */
  function Cycled(s: Snapshot): Snapshot {
    s.(revision := s.revision + 4, epoch := s.epoch + 1, inFlight := [], unresolved := [])
  }

  lemma CycleRuns(h: History, initiator: Principal)
    requires Valid(h.snapshot) && h.snapshot.control.Active? && initiator.Valid()
    ensures RunHistory(h, Cycle(h.snapshot, initiator))
              == Some(History(Cycled(h.snapshot), h.retired + {h.snapshot.epoch}))
    ensures Valid(Cycled(h.snapshot)) && Cycled(h.snapshot).control.Active?
  {
    hide Uuid.Valid, Digest.Valid;
    var s, c := h.snapshot, Cycle(h.snapshot, initiator);
    var quiesced := s.(revision := s.revision + 1, control := Quiescing, epoch := s.epoch + 1, open := false,
                       inFlight := [], unresolved := []);
    assert Canonical([]) == [];
    assert ValidUnique([s.last], 1, 64);
    assert Apply(s, c[0]) == Some(quiesced);
    var suspended := quiesced.(revision := s.revision + 2, control := Suspended);
    assert Apply(quiesced, c[1]) == Some(suspended);
    var reconciling := suspended.(revision := s.revision + 3, control := Reconciling);
    assert Apply(suspended, c[2]) == Some(reconciling);
    assert Apply(reconciling, c[3]) == Some(Cycled(s));
    hide Apply, Valid;
    var a := History(quiesced, h.retired + {s.epoch});
    assert c[..4] == c && c[..3][..2] == c[..2] && c[..2][..1] == c[..1] && c[..1][..0] == [];
    assert RunHistory(h, c[..1]) == Some(a);
    assert RunHistory(h, c[..2]) == Some(a.(snapshot := suspended));
    assert RunHistory(h, c[..3]) == Some(a.(snapshot := reconciling));
  }

  lemma {:induction false} HistorySplit(h: History, a: seq<Event>, b: seq<Event>)
    requires RunHistory(h, a).Some?
    ensures RunHistory(h, a + b) == RunHistory(RunHistory(h, a).value, b)
  {
    hide Apply;
    if |b| == 0 {
      assert a + b == a;
    } else {
      var k := |b| - 1;
      HistorySplit(h, a, b[..k]);
      assert (a + b)[..|a| + k] == a + b[..k];
    }
  }

  /** From an active state every later epoch can be reached, active again. */
  lemma {:induction false} ReachEpoch(h: History, epoch: nat, initiator: Principal) returns (events: seq<Event>)
    requires Valid(h.snapshot) && h.snapshot.control.Active? && initiator.Valid() && h.snapshot.epoch <= epoch
    ensures var end := RunHistory(h, events);
            end.Some? && end.value.snapshot.open && end.value.snapshot.epoch == epoch && h.retired <= end.value.retired
    decreases epoch - h.snapshot.epoch
  {
    hide Apply;
    if h.snapshot.epoch == epoch {
      events := [];
    } else {
      var cycle := Cycle(h.snapshot, initiator);
      CycleRuns(h, initiator);
      var next := RunHistory(h, cycle).value;
      hide RunHistory, Cycle, Valid;
      var rest := ReachEpoch(next, epoch, initiator);
      HistorySplit(h, cycle, rest);
      events := cycle + rest;
    }
  }

  ghost predicate AlwaysFenced(h: History) {
    forall events :: RunHistory(h, events).Some? ==> Fenced(RunHistory(h, events).value)
  }

  /** The new epoch is above every retired one, and not below the open one. */
  ghost predicate Rises(h: History, c: Configuration) {
    (forall e :: e in h.retired ==> e < c.epoch) && (h.snapshot.open ==> h.snapshot.epoch <= c.epoch)
  }

  function Configured(h: History, c: Configuration, event: Uuid): Option<History> {
    var t := Configure(c, event, h.snapshot.revision + 1);
    if t.None? then None else Some(Advance(h, t.value))
  }

  lemma FencedIffBelow(g: History, initiator: Principal)
    requires Valid(g.snapshot) && g.snapshot.control.Active? && initiator.Valid()
    ensures AlwaysFenced(g) <==> AllBelow(g)
  {
    if AllBelow(g) {
      hide RunHistory, Valid;
      forall events | RunHistory(g, events).Some? ensures Fenced(RunHistory(g, events).value) {
        BelowStays(g, events);
      }
    } else {
      var e :| e in g.retired && e >= g.snapshot.epoch;
      var events := ReachEpoch(g, e, initiator);
      hide RunHistory;
      assert !Fenced(RunHistory(g, events).value);
    }
  }

  /** Reconfiguring installs whatever epoch the payload names. Fencing then holds for every
      continuation exactly when that epoch rises above the retired ones. */
  lemma ReconfigurationFencedIff(h: History, c: Configuration, event: Uuid, initiator: Principal)
    requires Configured(h, c, event).Some? && initiator.Valid()
    ensures AlwaysFenced(Configured(h, c, event).value) <==> Rises(h, c)
  {
    FencedIffBelow(Configured(h, c, event).value, initiator);
  }

  // ------------------------------------------------------------------
  // Runs that mix events and reconfigurations.
  // ------------------------------------------------------------------

  datatype Move = Observe(event: Event) | Reconfigure(configuration: Configuration, id: Uuid)

  /** A reconfiguration is accepted only in ACTIVE. */
  function MoveOn(h: History, m: Move): Option<History> {
    match m
    case Observe(e) => var t := Apply(h.snapshot, e); if t.None? then None else Some(Advance(h, t.value))
    case Reconfigure(c, id) => if h.snapshot.control.Active? then Configured(h, c, id) else None
  }

  function RunMoves(s: Snapshot, moves: seq<Move>): Option<History> {
    if |moves| == 0 then Some(History(s, {}))
    else
      var before := RunMoves(s, moves[..|moves| - 1]);
      if before.None? then None else MoveOn(before.value, moves[|moves| - 1])
  }

  lemma {:induction false} PrefixRuns(s: Snapshot, moves: seq<Move>, n: nat)
    requires n <= |moves| && RunMoves(s, moves).Some?
    ensures RunMoves(s, moves[..n]).Some?
    decreases |moves|
  {
    hide MoveOn;
    if n == |moves| {
      assert moves[..n] == moves;
    } else {
      assert moves[..|moves| - 1][..n] == moves[..n];
      PrefixRuns(s, moves[..|moves| - 1], n);
    }
  }

  /** The history after the first n moves. */
  ghost function HistoryAt(s: Snapshot, moves: seq<Move>, n: nat): History
    requires n <= |moves| && RunMoves(s, moves).Some?
  {
    PrefixRuns(s, moves, n);
    RunMoves(s, moves[..n]).value
  }

  lemma HistoryMoves(s: Snapshot, moves: seq<Move>, n: nat)
    requires n < |moves| && RunMoves(s, moves).Some?
    ensures MoveOn(HistoryAt(s, moves, n), moves[n]) == Some(HistoryAt(s, moves, n + 1))
  {
    hide MoveOn;
    PrefixRuns(s, moves, n);
    PrefixRuns(s, moves, n + 1);
    assert moves[..n + 1][..n] == moves[..n];
  }

  ghost predicate RisesAt(s: Snapshot, moves: seq<Move>, n: nat)
    requires n < |moves| && RunMoves(s, moves).Some?
  {
    moves[n].Reconfigure? ==> Rises(HistoryAt(s, moves, n), moves[n].configuration)
  }

  lemma MoveKeeps(h: History, m: Move)
    requires Valid(h.snapshot) && MoveOn(h, m).Some?
    ensures Valid(MoveOn(h, m).value.snapshot)
    ensures AllBelow(h) && (m.Reconfigure? ==> Rises(h, m.configuration)) ==> AllBelow(MoveOn(h, m).value)
  {
    match m
    case Observe(e) =>
      StepEpoch(h.snapshot, e);
      hide Apply, Valid;
    case Reconfigure(c, id) =>
      hide Uuid.Valid, Digest.Valid;
  }

  lemma {:induction false} HistoryValid(s: Snapshot, moves: seq<Move>, n: nat)
    requires Valid(s) && n <= |moves| && RunMoves(s, moves).Some?
    ensures Valid(HistoryAt(s, moves, n).snapshot)
    ensures (forall k :: 0 <= k < n ==> RisesAt(s, moves, k)) ==> AllBelow(HistoryAt(s, moves, n))
  {
    hide MoveOn, Valid, Rises;
    if n == 0 {
      assert HistoryAt(s, moves, 0) == History(s, {});
    } else {
      HistoryValid(s, moves, n - 1);
      HistoryMoves(s, moves, n - 1);
      MoveKeeps(HistoryAt(s, moves, n - 1), moves[n - 1]);
      if forall k :: 0 <= k < n ==> RisesAt(s, moves, k) {
        assert RisesAt(s, moves, n - 1);
      }
    }
  }

  lemma BelowFenced(h: History)
    requires Valid(h.snapshot) && AllBelow(h)
    ensures AlwaysFenced(h)
  {
    hide RunHistory, Valid;
    forall events | RunHistory(h, events).Some? ensures Fenced(RunHistory(h, events).value) {
      BelowStays(h, events);
    }
  }

  /** Over every run of events and reconfigurations: every state of the run stays fenced for all
      its continuations if and only if each reconfiguration rises above the epochs retired so
      far. */
  lemma FencedIffRising(s: Snapshot, moves: seq<Move>, initiator: Principal)
    requires Valid(s) && RunMoves(s, moves).Some? && initiator.Valid()
    ensures (forall n :: 0 <= n <= |moves| ==> AlwaysFenced(HistoryAt(s, moves, n)))
            <==> forall n :: 0 <= n < |moves| ==> RisesAt(s, moves, n)
  {
    hide RunMoves, Valid, AlwaysFenced, Rises, AllBelow;
    if forall n :: 0 <= n < |moves| ==> RisesAt(s, moves, n) {
      forall n | 0 <= n <= |moves| ensures AlwaysFenced(HistoryAt(s, moves, n)) {
        HistoryValid(s, moves, n);
        BelowFenced(HistoryAt(s, moves, n));
      }
    }
    if forall n :: 0 <= n <= |moves| ==> AlwaysFenced(HistoryAt(s, moves, n)) {
      forall n | 0 <= n < |moves| ensures RisesAt(s, moves, n) {
        if moves[n].Reconfigure? {
          HistoryMoves(s, moves, n);
          assert AlwaysFenced(HistoryAt(s, moves, n + 1));
          ReconfigurationFencedIff(HistoryAt(s, moves, n), moves[n].configuration, moves[n].id, initiator);
        }
      }
    }
  }

  // ------------------------------------------------------------------
  // An outage-free cycle accounts for every execution exactly once.
  // ------------------------------------------------------------------

  function SuspensionsOf(records: seq<SuspensionRecord>, id: Uuid): nat {
    if |records| == 0 then 0
    else SuspensionsOf(records[..|records| - 1], id) + (if records[|records| - 1].execution == id then 1 else 0)
  }

  /** Records of the execution that leave it detached or unknown. */
  function UnresolvedOf(records: seq<SuspensionRecord>, id: Uuid): nat {
    if |records| == 0 then 0
    else
      var last := records[|records| - 1];
      UnresolvedOf(records[..|records| - 1], id) + (if last.execution == id && last.Unresolved() then 1 else 0)
  }

  function ReconciliationsOf(records: seq<ReconciliationRecord>, id: Uuid): nat {
    if |records| == 0 then 0
    else ReconciliationsOf(records[..|records| - 1], id) + (if records[|records| - 1].execution == id then 1 else 0)
  }

  lemma {:induction false} SuspensionCounts(records: seq<SuspensionRecord>, id: Uuid)
    ensures multiset(Recorded(records))[id] == SuspensionsOf(records, id)
    ensures multiset(LeftUnresolved(records))[id] == UnresolvedOf(records, id) <= SuspensionsOf(records, id)
  {
    if |records| == 0 {
    } else {
      SuspensionCounts(records[..|records| - 1], id);
    }
  }

  lemma {:induction false} ReconciliationCounts(records: seq<ReconciliationRecord>, id: Uuid)
    ensures multiset(Reconciled(records))[id] == ReconciliationsOf(records, id)
  {
    if |records| == 0 {
    } else {
      ReconciliationCounts(records[..|records| - 1], id);
    }
  }

  /** The last four events are a quiescence, a suspension, a reconciliation and a resumption. */
  predicate EndsWithCycle(events: seq<Event>) {
    var n := |events|;
    && n >= 4 && events[n - 4].body.QuiescenceRequested? && events[n - 3].body.SuspendedRecorded?
    && events[n - 2].body.ReconciliationStarted? && events[n - 1].body.Resumed?
  }

  /** What an accepted event starts from and leads to. */
  lemma Steps(s: Snapshot, e: Event)
    requires Apply(s, e).Some?
    ensures var t := Apply(s, e).value;
            match e.body
            case QuiescenceRequested(_, _, nextEpoch, inFlight, _, _, _, _, _) =>
              s.control.Active? && t.control.Quiescing? && t.inFlight == Canonical(inFlight)
                  && nextEpoch == s.epoch + 1 == t.epoch
            case SuspendedRecorded(_, _, allRecorded, _, records, unresolved, _, _) =>
              && s.control.Quiescing? && t.control.Suspended? && t.unresolved == Canonical(unresolved)
                 && t.epoch == s.epoch
              && allRecorded && SameIds(Recorded(records), s.inFlight) && SameIds(unresolved, LeftUnresolved(records))
            case ReconciliationStarted(_, expectedEpoch, _, _, _, _, _) =>
              s.control.Suspended? && t.control.Reconciling? && t.unresolved == s.unresolved
                  && expectedEpoch == s.epoch == t.epoch
            case OutageRecorded(_, _, nextEpoch, _, inFlight, _, _, _, _, _) =>
              t.control.Reconciling? && nextEpoch == s.epoch + 1 == t.epoch && t.unresolved == Canonical(inFlight)
            case Resumed(_, expectedEpoch, reconciled, healthy, outbox, changes, _, _, _) =>
              && s.control.Reconciling? && t.control.Active? && SameIds(Reconciled(reconciled), s.unresolved)
                 && t.unresolved == []
              && expectedEpoch == s.epoch == t.epoch && healthy && outbox && changes
            case OtherBody => false
  {
    hide Valid, Uuid.Valid, Digest.Valid, ValidUnique, SuspensionRecord.Valid, ReconciliationRecord.Valid, SameIds,
         Canonical;
  }

  lemma RunLast(s: Snapshot, events: seq<Event>)
    requires |events| > 0 && Run(s, events).Some?
    ensures var before := Run(s, events[..|events| - 1]);
            before.Some? && Apply(before.value, events[|events| - 1]) == Run(s, events)
  {
  }

  /** Which event leads to a control state, in a run from ACTIVE. */
  lemma LastEvent(s: Snapshot, events: seq<Event>)
    requires s.control.Active? && Run(s, events).Some?
    ensures var t := Run(s, events).value;
            && (t.control.Quiescing? ==> |events| > 0 && events[|events| - 1].body.QuiescenceRequested?)
            && (t.control.Suspended? ==> |events| > 0 && events[|events| - 1].body.SuspendedRecorded?)
            && (t.control.Reconciling? ==>
                  |events| > 0 && (events[|events| - 1].body.ReconciliationStarted?
                                   || events[|events| - 1].body.OutageRecorded?))
  {
    hide Apply;
    if |events| > 0 {
      Steps(Run(s, events[..|events| - 1]).value, events[|events| - 1]);
    }
  }

  ghost predicate NoOutage(events: seq<Event>) {
    forall i :: 0 <= i < |events| ==> !events[i].body.OutageRecorded?
  }

  lemma {:induction false} CycleShape(s: Snapshot, events: seq<Event>)
    requires s.control.Active? && Run(s, events).Some? && NoOutage(events)
    requires |events| > 0 && events[|events| - 1].body.Resumed?
    ensures EndsWithCycle(events)
  {
    hide Apply, Run;
    var n := |events|;
    RunLast(s, events);
    Steps(Run(s, events[..n - 1]).value, events[n - 1]);
    LastEvent(s, events[..n - 1]);
    RunLast(s, events[..n - 1]);
    assert events[..n - 1][..n - 2] == events[..n - 2];
    Steps(Run(s, events[..n - 2]).value, events[n - 2]);
    LastEvent(s, events[..n - 2]);
    RunLast(s, events[..n - 2]);
    assert events[..n - 2][..n - 3] == events[..n - 3];
    Steps(Run(s, events[..n - 3]).value, events[n - 3]);
    LastEvent(s, events[..n - 3]);
  }

  /** One suspension record if the execution was in flight and none otherwise; one
      reconciliation record if that record left it detached or unknown and none otherwise. */
  ghost predicate AccountedFor(quiesce: Body, suspend: Body, resume: Body, id: Uuid) {
    && quiesce.QuiescenceRequested? && suspend.SuspendedRecorded? && resume.Resumed?
    && SuspensionsOf(suspend.records, id) == (if id in quiesce.inFlight then 1 else 0)
    && ReconciliationsOf(resume.reconciled, id) == UnresolvedOf(suspend.records, id) <= 1
  }

  /** Whenever admission reopens without an outage, the run ends with one whole cycle in which
      every execution in flight at the quiescence has exactly one suspension record, no other
      execution has any, and exactly the detached or unknown ones have one reconciliation
      record each. */
  lemma ResumeAccountsForAll(s: Snapshot, events: seq<Event>, id: Uuid)
    requires s.control.Active? && Run(s, events).Some? && NoOutage(events)
    requires |events| > 0 && events[|events| - 1].body.Resumed?
    ensures EndsWithCycle(events)
    ensures var n := |events|; AccountedFor(events[n - 4].body, events[n - 3].body, events[n - 1].body, id)
  {
    hide Apply, Run, AccountedFor;
    CycleShape(s, events);
    var n := |events|;
    var p, q, r, t := CycleStates(s, events);
    CycleAccounts(p, q, r, t, events[n - 4], events[n - 3], events[n - 2], events[n - 1], id);
  }

  lemma CycleAccounts(p: Snapshot, q: Snapshot, r: Snapshot, t: Snapshot, quiesce: Event, suspend: Event, start: Event,
                      resume: Event, id: Uuid)
    requires Apply(p, quiesce) == Some(q) && Apply(q, suspend) == Some(r) && Apply(r, start) == Some(t)
             && Apply(t, resume).Some?
    requires quiesce.body.QuiescenceRequested? && suspend.body.SuspendedRecorded?
    requires start.body.ReconciliationStarted? && resume.body.Resumed?
    ensures AccountedFor(quiesce.body, suspend.body, resume.body, id)
  {
    hide Apply, SuspensionsOf, UnresolvedOf, ReconciliationsOf, Recorded, LeftUnresolved, Reconciled, Canonical,
         SameIds;
    QuiescedUnique(p, quiesce);
    Steps(p, quiesce);
    Steps(q, suspend);
    Steps(r, start);
    Steps(t, resume);
    CycleCounts(quiesce.body.inFlight, suspend.body.records, suspend.body.unresolved, resume.body.reconciled, id);
  }

  /** The snapshots the last four events were applied to. */
  lemma CycleStates(s: Snapshot, events: seq<Event>) returns (p: Snapshot, q: Snapshot, r: Snapshot, t: Snapshot)
    requires |events| >= 4 && Run(s, events).Some?
    ensures var n := |events|;
            && Apply(p, events[n - 4]) == Some(q) && Apply(q, events[n - 3]) == Some(r)
            && Apply(r, events[n - 2]) == Some(t) && Apply(t, events[n - 1]).Some?
  {
    hide Apply, Run;
    var n := |events|;
    assert events[..n - 1][..n - 2] == events[..n - 2] && events[..n - 2][..n - 3] == events[..n - 3];
    assert events[..n - 3][..n - 4] == events[..n - 4];
    RunLast(s, events);
    RunLast(s, events[..n - 1]);
    RunLast(s, events[..n - 2]);
    RunLast(s, events[..n - 3]);
    p, q := Run(s, events[..n - 4]).value, Run(s, events[..n - 3]).value;
    r, t := Run(s, events[..n - 2]).value, Run(s, events[..n - 1]).value;
  }

  lemma QuiescedUnique(s: Snapshot, e: Event)
    requires Apply(s, e).Some? && e.body.QuiescenceRequested?
    ensures Distinct(e.body.inFlight)
  {
    hide Valid, Uuid.Valid, Digest.Valid;
  }

  lemma CycleCounts(inFlight: seq<Uuid>, records: seq<SuspensionRecord>, unresolved: seq<Uuid>,
                    reconciled: seq<ReconciliationRecord>, id: Uuid)
    requires Distinct(inFlight) && SameIds(Recorded(records), Canonical(inFlight))
    requires SameIds(unresolved, LeftUnresolved(records)) && SameIds(Reconciled(reconciled), Canonical(unresolved))
    ensures SuspensionsOf(records, id) == (if id in inFlight then 1 else 0)
    ensures ReconciliationsOf(reconciled, id) == UnresolvedOf(records, id) <= 1
  {
    CanonicalIffPermutation(Recorded(records), Canonical(inFlight));
    CanonicalIffPermutation(unresolved, LeftUnresolved(records));
    CanonicalIffPermutation(Reconciled(reconciled), Canonical(unresolved));
    SuspensionCounts(records, id);
    ReconciliationCounts(reconciled, id);
    DistinctIffMultiset(inFlight);
    hide Canonical, Recorded, LeftUnresolved, Reconciled, SuspensionsOf, UnresolvedOf, ReconciliationsOf;
    assert id in inFlight <==> multiset(inFlight)[id] > 0;
  }

  // ------------------------------------------------------------------
  // Refinement of the policy model.
  // ------------------------------------------------------------------

  datatype PolicyAction =
    | RequestQuiescence(nextEpoch: nat)
    | AdmitDispatch(presented: nat)
    | AdmitResult(presented: nat)
    | RecordSuspended(allRecorded: bool, recordedUnresolved: seq<Uuid>)
    | BeginReconciliation(presented: nat)
    | RecordOutage(nextEpoch: nat, known: seq<Uuid>)
    | Resume(presented: nat, reconciledIds: seq<Uuid>, healthy: bool, outbox: bool, changes: bool)
    | ObserveContinuous(healthy: bool)
    | OtherPolicyAction

  /** The fields the result reports; None is a field left out. */
  datatype PolicyResult = PolicyResult(
    accepted: bool, control: Option<Control>, epoch: Option<nat>, open: Option<bool>, unresolved: Option<seq<Uuid>>)

  /** EvaluateTeamContinuityPolicy on the control state, epoch, admission and unresolved ids. */
  function EvaluatePolicy(control: Control, epoch: nat, open: bool, unresolved: seq<Uuid>,
                          a: PolicyAction): PolicyResult {
    match a
    case RequestQuiescence(nextEpoch) =>
      if !control.Active? || nextEpoch != epoch + 1
      then PolicyResult(false, Some(control), Some(epoch), Some(open), None)
      else PolicyResult(true, Some(Quiescing), Some(nextEpoch), Some(false), None)
    case AdmitDispatch(presented) => PolicyResult(EvaluateAdmission(epoch, open, DispatchWork, presented).Accepted?,
                                                  None, None, None, None)
    case AdmitResult(presented) => PolicyResult(EvaluateAdmission(epoch, open, AcceptResult, presented).Accepted?, None,
                                                None, None, None)
    case RecordSuspended(allRecorded, recordedUnresolved) =>
      if !control.Quiescing? || !allRecorded then PolicyResult(false, Some(control), None, None, None)
      else PolicyResult(true, Some(Suspended), None, Some(false), Some(recordedUnresolved))
    case BeginReconciliation(presented) =>
      if !control.Suspended? || presented != epoch then PolicyResult(false, Some(control), None, None, None)
      else PolicyResult(true, Some(Reconciling), None, Some(false), Some(unresolved))
    case RecordOutage(nextEpoch, known) =>
      if nextEpoch != epoch + 1 then PolicyResult(false, Some(control), None, None, None)
      else PolicyResult(true, Some(Reconciling), Some(nextEpoch), Some(false), Some(known))
    case Resume(presented, reconciledIds, healthy, outbox, changes) =>
      if !control.Reconciling? || presented != epoch || !SameIds(unresolved, reconciledIds) || !healthy || !outbox
          || !changes
      then PolicyResult(false, Some(control), None, None, None)
      else PolicyResult(true, Some(Active), Some(epoch), Some(true), Some([]))
    case ObserveContinuous(healthy) => PolicyResult(healthy, None, None, None, None)
    case OtherPolicyAction => PolicyResult(false, None, None, None, None)
  }

  ghost function PolicyEvent(e: Body): PolicyAction {
    match e
    case QuiescenceRequested(_, _, nextEpoch, _, _, _, _, _, _) => RequestQuiescence(nextEpoch)
    case SuspendedRecorded(_, _, allRecorded, _, _, unresolved, _, _) => RecordSuspended(allRecorded, unresolved)
    case ReconciliationStarted(_, expectedEpoch, _, _, _, _, _) => BeginReconciliation(expectedEpoch)
    case OutageRecorded(_, _, nextEpoch, _, inFlight, _, _, _, _, _) => RecordOutage(nextEpoch, inFlight)
    case Resumed(_, expectedEpoch, reconciled, healthy, outbox, changes, _, _, _) =>
      Resume(expectedEpoch, Reconciled(reconciled), healthy, outbox, changes)
    case OtherBody => OtherPolicyAction
  }

  /** The result describes the snapshot: every reported field agrees, identifiers up to order,
      and a field left out did not change. */
  ghost predicate Describes(r: PolicyResult, s: Snapshot, t: Snapshot) {
    && r.accepted
    && r.control == Some(t.control)
    && t.epoch == (if r.epoch.Some? then r.epoch.value else s.epoch)
    && t.open == (if r.open.Some? then r.open.value else s.open)
    && (r.unresolved.Some? ==> multiset(t.unresolved) == multiset(r.unresolved.value))
  }

  /** Every accepted event is a step the policy model accepts, with the same outcome. */
  lemma Refines(s: Snapshot, e: Event)
    requires Apply(s, e).Some?
    ensures Describes(EvaluatePolicy(s.control, s.epoch, s.open, s.unresolved, PolicyEvent(e.body)), s,
                      Apply(s, e).value)
  {
    hide Apply, Valid, Canonical, Recorded, LeftUnresolved, Reconciled;
    Steps(s, e);
    StepEpoch(s, e);
  }
}
