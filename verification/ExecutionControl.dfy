/** The execution coordinator of application/execution_coordinator.go: any number of
    concurrent Start, Stop and Reconcile calls on one idempotency key over a
    compare-and-swap store.

    A call advances one external operation at a time, so any interleaving of calls is a run.
    A call may end at any point (an error, a cancelled context, a crash), a swap may be
    refused although its version matches, and a committed swap may be reported as committed,
    as a conflict or as an error. Whatever is proved here holds of a store that refuses for
    further reasons, as adapters/memory/execution_control.go does.
 */
module ExecutionControl {
  import opened Orders
  import opened Ids

  datatype State = PendingAuthorization | Authorized | Starting | Running | Stopping | Stopped | Rejected | Uncertain

  datatype Request = Request(actor: Actor, execution: Execution, runtime: Digest, key: string)

  datatype Seen = SeenRunning | SeenStopped | SeenOther

  datatype Observation = Observation(actor: Actor, execution: Execution, seen: Seen)

  datatype Record = Record(
    request: Request, command: Uuid, state: State, version: nat, applied: Option<bool>,
    observation: Option<Observation>, attempts: nat, uncertain: bool)

  /** observationMatches */
  predicate Matches(r: Request, o: Observation) {
    o.actor == r.actor && o.execution == r.execution
  }

  /** Why a call swaps. */
  datatype Goal = Authorize | ClaimStart | ClaimStop | ClaimReconcile | RecordEffect

  /** Where a call stands: the external operation it performs next. */
  datatype Call =
    | Ended
    | Preparing(candidate: Record)
    | Handling(record: Record)
    | Swapping(prior: Record, next: Record, goal: Goal)
    | Reloading(goal: Goal)
    | LoadingToStop
    | LoadingToReconcile
    | AtStart(record: Record)
    | AtStop(record: Record)
    | AtReconcile(record: Record)

  datatype Reply = Acknowledged | ConflictReported | ErrorReported

  datatype Action =
    | BeginStart(request: Request, command: Uuid)
    | BeginStop
    | BeginReconcile
    | EndCall
    | DoPrepare(acknowledged: bool)
    | DoHandle(applied: bool)
    | DoSwap(commit: bool, reply: Reply)
    | DoLoad
    | DoEngine(invoked: bool, observation: Option<Observation>)

  /** log lists every record ever committed under the key; its last element is the stored
      one. starts and reconciles record the engine calls made: reconciles holds the attempt
      number of each engine.Reconcile call. */
  datatype Coordination = Coordination(log: seq<Record>, calls: map<nat, Call>, starts: nat, reconciles: seq<nat>)

  function Stored(s: Coordination): Record
    requires |s.log| > 0
  {
    s.log[|s.log| - 1]
  }

  // ------------------------------------------------------------------
  // One step of one call.
  // ------------------------------------------------------------------

  function At(s: Coordination, w: nat): Call {
    if w in s.calls then s.calls[w] else Ended
  }

  function Go(s: Coordination, w: nat, c: Call): Coordination {
    s.(calls := s.calls[w := c])
  }

  /** advance: next always carries the following version. */
  function Swap(prior: Record, next: Record, goal: Goal): Call {
    Swapping(prior, next.(version := prior.version + 1), goal)
  }

  /** Start, once a record is in hand: claim it if it is authorized. */
  function ClaimIfAuthorized(r: Record): Call {
    if r.state.Authorized? then Swap(r, r.(state := Starting), ClaimStart) else Ended
  }

  function AfterPrepare(r: Record): Call {
    if r.state.PendingAuthorization? then Handling(r) else ClaimIfAuthorized(r)
  }

  function AfterHandle(r: Record, applied: bool): Call {
    Swap(r, r.(state := if applied then Authorized else Rejected, applied := Some(applied)), Authorize)
  }

  /** The swap succeeded. */
  function AfterClaim(next: Record, goal: Goal): Call {
    match goal
    case Authorize => ClaimIfAuthorized(next)
    case ClaimStart => AtStart(next)
    case ClaimStop => AtStop(next)
    case ClaimReconcile => AtReconcile(next)
    case RecordEffect => Ended
  }

  /** The swap conflicted and the current record was loaded: not claimed. */
  function AfterReload(current: Record, goal: Goal): Call {
    if goal.Authorize? then ClaimIfAuthorized(current) else Ended
  }

  function AfterLoadToStop(r: Record): Call {
    if r.state.Running? || r.state.Uncertain? then Swap(r, r.(state := Stopping), ClaimStop) else Ended
  }

  function AfterLoadToReconcile(r: Record, limit: nat): Call {
    if (r.state.Uncertain? || r.state.Starting? || r.state.Stopping?) && r.attempts < limit
    then Swap(r, r.(attempts := r.attempts + 1), ClaimReconcile) else Ended
  }

  /** recordEffect */
  function AfterEngine(r: Record, observation: Option<Observation>): Call {
    if observation.None? || !Matches(r.request, observation.value) then
      Swap(r, r.(state := Uncertain, uncertain := true), RecordEffect)
    else
      var next := r.(observation := observation, uncertain := false);
      match observation.value.seen
      case SeenRunning => Swap(r, next.(state := Running), RecordEffect)
      case SeenStopped => Swap(r, next.(state := Stopped), RecordEffect)
      case SeenOther => Swap(r, next.(state := Uncertain, uncertain := true), RecordEffect)
  }

  /** A step that does not fit where the call stands changes nothing. */
  function Step(s: Coordination, limit: nat, w: nat, a: Action): Coordination {
    match a
    case BeginStart(request, command) =>
      if w in s.calls then s
      else Go(s, w, Preparing(Record(request, command, PendingAuthorization, 1, None, None, 0, false)))
    case BeginStop => if w in s.calls then s else Go(s, w, LoadingToStop)
    case BeginReconcile => if w in s.calls then s else Go(s, w, LoadingToReconcile)
    case EndCall => Go(s, w, Ended)
    case DoPrepare(acknowledged) =>
      if !At(s, w).Preparing? then s
      else
        var candidate := At(s, w).candidate;
        if |s.log| == 0 then
          Go(s.(log := [candidate]), w, if acknowledged then AfterPrepare(candidate) else Ended)
        else if Stored(s).request != candidate.request || Stored(s).command != candidate.command then Go(s, w, Ended)
        else Go(s, w, AfterPrepare(Stored(s)))
    case DoHandle(applied) =>
      if !At(s, w).Handling? then s else Go(s, w, AfterHandle(At(s, w).record, applied))
    case DoSwap(commit, reply) =>
      if !At(s, w).Swapping? then s
      else
        var c := At(s, w);
        var matches := commit && |s.log| > 0 && Stored(s).version == c.prior.version;
        var t := if matches then s.(log := s.log + [c.next]) else s;
        (match reply
         case Acknowledged => if matches then Go(t, w, AfterClaim(c.next, c.goal)) else Go(t, w, Reloading(c.goal))
         case ConflictReported => Go(t, w, Reloading(c.goal))
         case ErrorReported => Go(t, w, Ended))
    case DoLoad =>
      if |s.log| == 0 then (if At(s, w) in {LoadingToStop, LoadingToReconcile}
                            || At(s, w).Reloading? then Go(s, w, Ended) else s)
      else
        (match At(s, w)
         case Reloading(goal) => Go(s, w, AfterReload(Stored(s), goal))
         case LoadingToStop => Go(s, w, AfterLoadToStop(Stored(s)))
         case LoadingToReconcile => Go(s, w, AfterLoadToReconcile(Stored(s), limit))
         case _ => s)
    case DoEngine(invoked, observation) =>
      var seen := if invoked then observation else None;
      match At(s, w)
      case AtStart(r) => Go(s.(starts := s.starts + if invoked then 1 else 0), w, AfterEngine(r, seen))
      case AtStop(r) => Go(s, w, AfterEngine(r, seen))
      case AtReconcile(r) => Go(s.(reconciles := s.reconciles + if invoked then [r.attempts] else []), w,
                                AfterEngine(r, seen))
      case _ => s
  }

  /** The system after a whole interleaving, starting from an empty store. */
  function Run(limit: nat, actions: seq<(nat, Action)>): Coordination {
    if |actions| == 0 then Coordination([], map[], 0, [])
    else
      var last := actions[|actions| - 1];
      Step(Run(limit, actions[..|actions| - 1]), limit, last.0, last.1)
  }

  // ------------------------------------------------------------------
  // The invariant.
  // ------------------------------------------------------------------

  /** validControlTransition of the in-memory store. */
  predicate ValidControlTransition(a: State, b: State) {
    match a
    case PendingAuthorization => b in {Authorized, Rejected}
    case Authorized => b == Starting
    case Starting => b in {Starting, Running, Stopped, Uncertain}
    case Running => b in {Stopping, Uncertain}
    case Stopping => b in {Stopping, Stopped, Running, Uncertain}
    case Uncertain => b in {Uncertain, Running, Stopped, Stopping}
    case _ => false
  }

  /** Everything after the start was claimed. */
  predicate Launched(state: State) {
    state in {Starting, Running, Stopping, Stopped, Uncertain}
  }

  /** A committed record is authorized before it is launched, RUNNING and STOPPED rest on an
      observation of this very execution, and the reconciliation budget is respected. */
  predicate Backed(r: Record, limit: nat) {
    && (r.state.PendingAuthorization? ==> r.applied.None?)
    && (r.state.Rejected? ==> r.applied == Some(false))
    && (r.state.Authorized? || Launched(r.state) ==> r.applied == Some(true))
    && (r.state.Running? ==>
          r.observation.Some? && Matches(r.request, r.observation.value) && r.observation.value.seen.SeenRunning?)
    && (r.state.Stopped? ==>
          r.observation.Some? && Matches(r.request, r.observation.value) && r.observation.value.seen.SeenStopped?)
    && r.attempts <= limit
  }

  /** What one swap changes. */
  predicate Succeeds(prior: Record, next: Record) {
    && next.version == prior.version + 1 && next.request == prior.request && next.command == prior.command
    && ValidControlTransition(prior.state, next.state)
    && prior.attempts <= next.attempts <= prior.attempts + 1
  }

  /** What a call may ask the store to do, by its purpose. */
  predicate Issued(prior: Record, next: Record, goal: Goal, limit: nat) {
    && Succeeds(prior, next) && Backed(next, limit)
    && match goal
       case Authorize => prior.state.PendingAuthorization? && next.attempts == prior.attempts
       case ClaimStart => prior.state.Authorized? && next.attempts == prior.attempts
       case ClaimStop => Launched(prior.state) && next.state.Stopping? && next.attempts == prior.attempts
       case ClaimReconcile => next.state in {Starting, Stopping, Uncertain} && Launched(prior.state)
           && next.attempts == prior.attempts + 1
       case RecordEffect => Launched(prior.state) && next.attempts == prior.attempts
  }

  ghost predicate Held(log: seq<Record>, r: Record) {
    1 <= r.version <= |log| && log[r.version - 1] == r
  }

  /** Every record a call holds was committed. */
  ghost predicate CallOk(log: seq<Record>, limit: nat, c: Call) {
    match c
    case Ended => true
    case Preparing(candidate) => candidate.state.PendingAuthorization? && candidate.version == 1
        && candidate.applied.None? && candidate.attempts == 0
    case Handling(r) => Held(log, r) && r.state.PendingAuthorization?
    case Swapping(prior, next, goal) => Held(log, prior) && Issued(prior, next, goal, limit)
    case Reloading(_) => true
    case LoadingToStop => true
    case LoadingToReconcile => true
    case AtStart(r) => Held(log, r) && r.state.Starting?
    case AtStop(r) => Held(log, r) && r.state.Stopping?
    case AtReconcile(r) => Held(log, r) && r.state in {Starting, Stopping, Uncertain} && r.attempts > 0
  }

  ghost predicate LogOk(log: seq<Record>, limit: nat) {
    && (forall i :: 0 <= i < |log| ==> log[i].version == i + 1 && Backed(log[i], limit))
    && (forall i :: 0 < i < |log| ==> Succeeds(log[i - 1], log[i]))
    && (|log| > 0 ==> log[0].state.PendingAuthorization? && log[0].attempts == 0)
  }

  ghost predicate CallsOk(s: Coordination, limit: nat) {
    forall w :: w in s.calls ==> CallOk(s.log, limit, s.calls[w])
  }

  /** engine.Start was, or is about to be, called: no second call can get there. */
  ghost predicate StartOnce(s: Coordination) {
    && s.starts <= 1
    && (s.starts == 1 ==> |s.log| > 0 && Launched(Stored(s).state))
    && (forall w :: w in s.calls && s.calls[w].AtStart? ==> s.starts == 0 && |s.log| > 0 && Launched(Stored(s).state))
    && (forall v, w :: v in s.calls && w in s.calls && s.calls[v].AtStart? && s.calls[w].AtStart? ==> v == w)
  }

  ghost predicate ReconcileOnce(s: Coordination) {
    && Distinct(s.reconciles)
    && (forall i :: 0 <= i < |s.reconciles| ==> |s.log| > 0 && 1 <= s.reconciles[i] <= Stored(s).attempts)
    && (forall w :: w in s.calls && s.calls[w].AtReconcile? ==>
          |s.log| > 0 && s.calls[w].record.attempts <= Stored(s).attempts
              && s.calls[w].record.attempts !in s.reconciles)
    && (forall v, w :: v in s.calls && w in s.calls && v != w && s.calls[v].AtReconcile? && s.calls[w].AtReconcile? ==>
          s.calls[v].record.attempts != s.calls[w].record.attempts)
  }

  ghost predicate Inv(s: Coordination, limit: nat) {
    LogOk(s.log, limit) && CallsOk(s, limit) && StartOnce(s) && ReconcileOnce(s)
  }

  // ------------------------------------------------------------------
  // Every step keeps it.
  // ------------------------------------------------------------------

  /** Moving a call to a point before its engine call. */
  lemma Quiet(s: Coordination, limit: nat, w: nat, c: Call)
    requires Inv(s, limit) && CallOk(s.log, limit, c) && !c.AtStart? && !c.AtReconcile?
    ensures Inv(Go(s, w, c), limit)
  {
    hide LogOk, CallOk;
  }

  lemma HeldLonger(log: seq<Record>, limit: nat, next: Record, c: Call)
    requires CallOk(log, limit, c)
    ensures CallOk(log + [next], limit, c)
  {
    hide Issued;
  }

  lemma LogGrows(log: seq<Record>, limit: nat, prior: Record, next: Record, goal: Goal)
    requires LogOk(log, limit) && Held(log, prior) && Issued(prior, next, goal, limit)
    requires log[|log| - 1].version == prior.version
    ensures LogOk(log + [next], limit) && Held(log + [next], next) && log[|log| - 1] == prior
  {
    var more := log + [next];
    hide Backed;
    assert log[|log| - 1] == prior;
    forall i | 0 < i < |more| ensures Succeeds(more[i - 1], more[i]) {
      if i < |log| {
        assert more[i - 1] == log[i - 1] && more[i] == log[i];
      }
    }
  }

  /** A committed swap, before its caller moves on. */
  lemma Commits(s: Coordination, limit: nat, w: nat)
    requires Inv(s, limit) && At(s, w).Swapping? && |s.log| > 0 && Stored(s).version == At(s, w).prior.version
    ensures Inv(Go(s.(log := s.log + [At(s, w).next]), w, Ended), limit)
    ensures At(s, w).prior == Stored(s)
  {
    var c := At(s, w);
    assert CallOk(s.log, limit, c);
    LogGrows(s.log, limit, c.prior, c.next, c.goal);
    var t := Go(s.(log := s.log + [c.next]), w, Ended);
    hide LogOk, CallOk, Backed;
    assert Stored(t) == c.next;
    forall v | v in t.calls ensures CallOk(t.log, limit, t.calls[v]) {
      if v == w {
        assert CallOk(t.log, limit, Ended) by { EndedOk(t.log, limit); }
      } else {
        HeldLonger(s.log, limit, c.next, s.calls[v]);
      }
    }
    assert Launched(c.prior.state) ==> Launched(c.next.state);
  }

  lemma EndedOk(log: seq<Record>, limit: nat)
    ensures CallOk(log, limit, Ended)
  {
  }

  /** A committed swap whose caller then moves on. */
  lemma Claims(s: Coordination, limit: nat, w: nat)
    requires Inv(s, limit) && At(s, w).Swapping? && |s.log| > 0 && Stored(s).version == At(s, w).prior.version
    ensures var c := At(s, w); Inv(Go(s.(log := s.log + [c.next]), w, AfterClaim(c.next, c.goal)), limit)
  {
    var c := At(s, w);
    Commits(s, limit, w);
    assert CallOk(s.log, limit, c);
    LogGrows(s.log, limit, c.prior, c.next, c.goal);
    var t := Go(s.(log := s.log + [c.next]), w, Ended);
    var after := AfterClaim(c.next, c.goal);
    assert Go(t, w, after) == Go(s.(log := s.log + [c.next]), w, after);
    assert CallOk(t.log, limit, after) by { hide Inv, LogOk; }
    match c.goal
    case ClaimStart => EntersStart(s, t, limit, w, c.next);
    case ClaimReconcile => EntersReconcile(s, t, limit, w, c.next);
    case _ => Quiet(t, limit, w, after);
  }

  lemma EntersStart(s: Coordination, t: Coordination, limit: nat, w: nat, next: Record)
    requires Inv(s, limit) && Inv(t, limit) && |s.log| > 0 && Stored(s).state.Authorized?
    requires t == Go(s.(log := s.log + [next]), w, Ended) && next.state.Starting? && CallOk(t.log, limit, AtStart(next))
    ensures Inv(Go(t, w, AtStart(next)), limit)
  {
    hide LogOk, CallOk;
    assert Stored(t) == next;
  }

  lemma EntersReconcile(s: Coordination, t: Coordination, limit: nat, w: nat, next: Record)
    requires Inv(s, limit) && Inv(t, limit) && |s.log| > 0 && next.attempts == Stored(s).attempts + 1
    requires t == Go(s.(log := s.log + [next]), w, Ended) && CallOk(t.log, limit, AtReconcile(next))
    ensures Inv(Go(t, w, AtReconcile(next)), limit)
  {
    hide LogOk, CallOk;
    assert Stored(t) == next;
  }

  lemma StoredHeld(s: Coordination, limit: nat)
    requires LogOk(s.log, limit) && |s.log| > 0
    ensures Held(s.log, Stored(s)) && Backed(Stored(s), limit)
  {
  }

  lemma PrepareInv(s: Coordination, limit: nat, w: nat, acknowledged: bool)
    requires Inv(s, limit)
    ensures Inv(Step(s, limit, w, DoPrepare(acknowledged)), limit)
  {
    if At(s, w).Preparing? {
      var candidate := At(s, w).candidate;
      assert CallOk(s.log, limit, At(s, w));
      if |s.log| == 0 {
        var t := s.(log := [candidate]);
        assert Inv(t, limit) by {
          forall v | v in t.calls ensures CallOk(t.log, limit, t.calls[v]) {
            HeldLonger(s.log, limit, candidate, s.calls[v]);
            assert s.log + [candidate] == t.log;
          }
        }
        Quiet(t, limit, w, AfterPrepare(candidate));
        Quiet(t, limit, w, Ended);
      } else {
        StoredHeld(s, limit);
        assert CallOk(s.log, limit, AfterPrepare(Stored(s))) by { hide Inv, LogOk; }
        Quiet(s, limit, w, AfterPrepare(Stored(s)));
        Quiet(s, limit, w, Ended);
      }
    }
  }

  lemma HandleInv(s: Coordination, limit: nat, w: nat, applied: bool)
    requires Inv(s, limit)
    ensures Inv(Step(s, limit, w, DoHandle(applied)), limit)
  {
    if At(s, w).Handling? {
      var r := At(s, w).record;
      assert CallOk(s.log, limit, At(s, w));
      assert Backed(r, limit);
      assert CallOk(s.log, limit, AfterHandle(r, applied)) by { hide Inv, LogOk; }
      Quiet(s, limit, w, AfterHandle(r, applied));
    }
  }

  lemma SwapInv(s: Coordination, limit: nat, w: nat, commit: bool, reply: Reply)
    requires Inv(s, limit)
    ensures Inv(Step(s, limit, w, DoSwap(commit, reply)), limit)
  {
    hide Inv, AfterClaim;
    if At(s, w).Swapping? {
      var c := At(s, w);
      if commit && |s.log| > 0 && Stored(s).version == c.prior.version {
        Claims(s, limit, w);
        Commits(s, limit, w);
        var t := s.(log := s.log + [c.next]);
        assert Go(Go(t, w, Ended), w, Reloading(c.goal)) == Go(t, w, Reloading(c.goal));
        Quiet(Go(t, w, Ended), limit, w, Reloading(c.goal));
      } else {
        Quiet(s, limit, w, Reloading(c.goal));
        Quiet(s, limit, w, Ended);
      }
    }
  }

  lemma LoadInv(s: Coordination, limit: nat, w: nat)
    requires Inv(s, limit)
    ensures Inv(Step(s, limit, w, DoLoad), limit)
  {
    Quiet(s, limit, w, Ended);
    if |s.log| > 0 {
      StoredHeld(s, limit);
      var r := Stored(s);
      hide Inv, LogOk;
      match At(s, w)
      case Reloading(goal) => Quiet(s, limit, w, AfterReload(r, goal));
      case LoadingToStop => Quiet(s, limit, w, AfterLoadToStop(r));
      case LoadingToReconcile => Quiet(s, limit, w, AfterLoadToReconcile(r, limit));
      case _ =>
    }
  }

  lemma EngineOk(log: seq<Record>, limit: nat, r: Record, observation: Option<Observation>)
    requires LogOk(log, limit) && Held(log, r) && r.state in {Starting, Stopping, Uncertain}
    ensures CallOk(log, limit, AfterEngine(r, observation)) && AfterEngine(r, observation).Swapping?
  {
    assert Backed(r, limit);
    hide LogOk;
  }

  lemma EngineInv(s: Coordination, limit: nat, w: nat, invoked: bool, observation: Option<Observation>)
    requires Inv(s, limit)
    ensures Inv(Step(s, limit, w, DoEngine(invoked, observation)), limit)
  {
    var seen := if invoked then observation else None;
    var c := At(s, w);
    if c.AtStart? || c.AtStop? || c.AtReconcile? {
      assert CallOk(s.log, limit, c);
      EngineOk(s.log, limit, c.record, seen);
      Quiet(s, limit, w, AfterEngine(c.record, seen));
      if invoked && c.AtStart? {
        StartCounted(s, limit, w, AfterEngine(c.record, seen));
      }
      if invoked && c.AtReconcile? {
        ReconcileCounted(s, limit, w, AfterEngine(c.record, seen));
      }
      hide Inv, AfterEngine;
      assert s.reconciles + [] == s.reconciles;
    }
  }

  lemma StartCounted(s: Coordination, limit: nat, w: nat, c: Call)
    requires Inv(s, limit) && At(s, w).AtStart? && c.Swapping? && Inv(Go(s, w, c), limit)
    ensures Inv(Go(s.(starts := s.starts + 1), w, c), limit)
  {
    hide LogOk, CallOk, ReconcileOnce;
    assert ReconcileOnce(Go(s.(starts := s.starts + 1), w, c)) by {
      SameReconciles(Go(s, w, c), Go(s.(starts := s.starts + 1), w, c));
    }
  }

  lemma SameReconciles(s: Coordination, t: Coordination)
    requires ReconcileOnce(s) && s.log == t.log && s.calls == t.calls && s.reconciles == t.reconciles
    ensures ReconcileOnce(t)
  {
  }

  lemma ReconcileCounted(s: Coordination, limit: nat, w: nat, c: Call)
    requires Inv(s, limit) && At(s, w).AtReconcile? && c.Swapping? && Inv(Go(s, w, c), limit)
    ensures Inv(Go(s.(reconciles := s.reconciles + [At(s, w).record.attempts]), w, c), limit)
  {
    assert CallOk(s.log, limit, At(s, w));
    hide LogOk, CallOk;
  }

  lemma StepInv(s: Coordination, limit: nat, w: nat, a: Action)
    requires Inv(s, limit)
    ensures Inv(Step(s, limit, w, a), limit)
  {
    hide Inv;
    match a
    case BeginStart(request, command) =>
      Quiet(s, limit, w, Preparing(Record(request, command, PendingAuthorization, 1, None, None, 0, false)));
    case BeginStop => Quiet(s, limit, w, LoadingToStop);
    case BeginReconcile => Quiet(s, limit, w, LoadingToReconcile);
    case EndCall => Quiet(s, limit, w, Ended);
    case DoPrepare(acknowledged) => PrepareInv(s, limit, w, acknowledged);
    case DoHandle(applied) => HandleInv(s, limit, w, applied);
    case DoSwap(commit, reply) => SwapInv(s, limit, w, commit, reply);
    case DoLoad => LoadInv(s, limit, w);
    case DoEngine(invoked, observation) => EngineInv(s, limit, w, invoked, observation);
  }

  lemma {:induction false} ReachableInv(limit: nat, actions: seq<(nat, Action)>)
    ensures Inv(Run(limit, actions), limit)
  {
    if |actions| == 0 {
    } else {
      var n := |actions| - 1;
      ReachableInv(limit, actions[..n]);
      hide Inv, Step;
      StepInv(Run(limit, actions[..n]), limit, actions[n].0, actions[n].1);
    }
  }

  // ------------------------------------------------------------------
  // What it gives, over every interleaving.
  // ------------------------------------------------------------------

  /** engine.Start is called at most once, and only after the authorization was applied. */
  lemma StartsAtMostOnce(limit: nat, actions: seq<(nat, Action)>)
    ensures var s := Run(limit, actions);
            s.starts <= 1 && (s.starts == 1 ==>
                              |s.log| > 0 && Launched(Stored(s).state) && Stored(s).applied == Some(true))
  {
    hide Run, CallsOk, ReconcileOnce;
    ReachableInv(limit, actions);
  }

  lemma {:induction false} DistinctWithin(s: seq<nat>, bound: nat)
    requires Distinct(s) && forall i :: 0 <= i < |s| ==> 1 <= s[i] <= bound
    ensures |s| <= bound
    decreases bound
  {
    if |s| == 0 {
    } else {
      assert 1 <= s[0] <= bound;
      if k :| 0 <= k < |s| && s[k] == bound {
        var rest := s[..k] + s[k + 1..];
        assert forall i :: 0 <= i < |rest| ==> rest[i] == s[if i < k then i else i + 1];
        DistinctWithin(rest, bound - 1);
      } else {
        DistinctWithin(s, bound - 1);
      }
    }
  }

  /** engine.Reconcile is called at most MaxReconciliations times. */
  lemma ReconcilesBounded(limit: nat, actions: seq<(nat, Action)>)
    ensures |Run(limit, actions).reconciles| <= limit
  {
    hide Run, CallsOk, StartOnce;
    ReachableInv(limit, actions);
    var s := Run(limit, actions);
    DistinctWithin(s.reconciles, if |s.log| > 0 then Stored(s).attempts else 0);
  }

  /** Versions grow by exactly one for each committed change, and every change the
      coordinator commits is one the store's transition table allows. */
  lemma VersionsCountCommits(limit: nat, actions: seq<(nat, Action)>, i: nat)
    requires i < |Run(limit, actions).log|
    ensures var log := Run(limit, actions).log;
            && log[i].version == i + 1
            && (i > 0 ==>
                  ValidControlTransition(log[i - 1].state, log[i].state) && log[i].request == log[i - 1].request)
  {
    hide Run, CallsOk, StartOnce, ReconcileOnce;
    ReachableInv(limit, actions);
  }

  lemma LogOnlyGrows(s: Coordination, limit: nat, w: nat, a: Action)
    requires Inv(s, limit)
    ensures |s.log| <= |Step(s, limit, w, a).log| && Step(s, limit, w, a).log[..|s.log|] == s.log
  {
    hide LogOk, CallsOk, StartOnce, ReconcileOnce;
  }

  lemma {:induction false} LogPrefix(limit: nat, actions: seq<(nat, Action)>, n: nat)
    requires n <= |actions|
    ensures |Run(limit, actions[..n]).log| <= |Run(limit, actions).log|
    ensures Run(limit, actions).log[..|Run(limit, actions[..n]).log|] == Run(limit, actions[..n]).log
  {
    hide Inv, Step;
    if n == |actions| {
      assert actions[..n] == actions;
    } else {
      var m := |actions| - 1;
      LogPrefix(limit, actions[..m], n);
      assert actions[..m][..n] == actions[..n];
      ReachableInv(limit, actions[..m]);
      LogOnlyGrows(Run(limit, actions[..m]), limit, actions[m].0, actions[m].1);
    }
  }

  lemma TerminalIsLast(log: seq<Record>, limit: nat, k: nat)
    requires LogOk(log, limit) && 0 < k <= |log| && log[k - 1].state in {Stopped, Rejected}
    ensures k == |log|
  {
    var i := if k < |log| then k else 0;
    assert i == 0 || Succeeds(log[i - 1], log[i]);
  }

  /** STOPPED and REJECTED are final: whatever calls are still in flight, with whatever stale
      observations, nothing is committed after them. */
  lemma TerminalAbsorbs(limit: nat, actions: seq<(nat, Action)>, n: nat)
    requires n <= |actions|
    requires var s := Run(limit, actions[..n]); |s.log| > 0 && Stored(s).state in {Stopped, Rejected}
    ensures Run(limit, actions).log == Run(limit, actions[..n]).log
    ensures Stored(Run(limit, actions[..n])).state.Rejected? ==> Run(limit, actions).starts == 0
  {
    hide Run, CallsOk, ReconcileOnce;
    LogPrefix(limit, actions, n);
    ReachableInv(limit, actions);
    var a, b := Run(limit, actions[..n]), Run(limit, actions);
    var k := |a.log|;
    assert b.log[k - 1] == b.log[..k][k - 1] == a.log[k - 1];
    TerminalIsLast(b.log, limit, k);
  }
}
