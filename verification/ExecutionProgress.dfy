/** What one answered Start, Stop or Reconcile call does, and what the stored record means. See
    application/execution_coordinator.go.
 */
module ExecutionProgress {
  import opened Orders
  import opened Ids
  import opened ExecutionControl

  function Steps(s: Coordination, limit: nat, w: nat, actions: seq<Action>): Coordination
    decreases |actions|
  {
    if |actions| == 0 then s else Steps(Step(s, limit, w, actions[0]), limit, w, actions[1..])
  }

  function Alone(w: nat, actions: seq<Action>): seq<(nat, Action)> {
    seq(|actions|, i requires 0 <= i < |actions| => (w, actions[i]))
  }

  lemma {:induction false} RunSteps(limit: nat, before: seq<(nat, Action)>, w: nat, actions: seq<Action>)
    ensures Run(limit, before + Alone(w, actions)) == Steps(Run(limit, before), limit, w, actions)
    decreases |actions|
  {
    hide Step, Run;
    if |actions| == 0 {
      assert before + Alone(w, actions) == before;
    } else {
      RunOne(limit, before, w, actions[0]);
      RunSteps(limit, before + [(w, actions[0])], w, actions[1..]);
      assert before + [(w, actions[0])] + Alone(w, actions[1..]) == before + Alone(w, actions);
    }
  }

  lemma RunOne(limit: nat, before: seq<(nat, Action)>, w: nat, a: Action)
    ensures Run(limit, before + [(w, a)]) == Step(Run(limit, before), limit, w, a)
  {
    hide Step;
    assert (before + [(w, a)])[..|before|] == before;
  }

  lemma TwoSteps(s: Coordination, limit: nat, w: nat, ops: seq<Action>)
    requires |ops| >= 2
    ensures Steps(s, limit, w, ops) == Steps(Step(Step(s, limit, w, ops[0]), limit, w, ops[1]), limit, w, ops[2..])
  {
    hide Step;
    assert ops[1..][1..] == ops[2..];
  }

  // ------------------------------------------------------------------
  // What the engine's answer is recorded as.
  // ------------------------------------------------------------------

  /** The state an answer leads to: RUNNING or STOPPED only when the engine observed exactly that of
      the very actor and execution asked for; otherwise UNCERTAIN. */
  function Observed(r: Record, answer: Option<Observation>): State {
    if answer.None? || answer.value.actor != r.request.actor || answer.value.execution != r.request.execution
        then Uncertain
    else
      match answer.value.seen
      case SeenRunning => Running
      case SeenStopped => Stopped
      case SeenOther => Uncertain
  }

  /** The record as it is stored after an engine call. */
  ghost predicate Notes(r: Record, next: Record, answer: Option<Observation>) {
    && next.state == Observed(r, answer) && next.uncertain == next.state.Uncertain?
    && next.version == r.version + 1 && next.request == r.request && next.command == r.command
    && next.applied == r.applied && next.attempts == r.attempts
    && (next.state in {Running, Stopped} ==> next.observation == answer)
    && (answer.None? ==> next.observation == r.observation)
  }

  /** The engine call of a Start, a Stop or a Reconcile followed by the swap that records it: the
      engine is called once, and the record notes its answer. */
  lemma EngineNotes(s: Coordination, limit: nat, w: nat, answer: Option<Observation>)
    requires |s.log| > 0 && At(s, w) in {AtStart(Stored(s)), AtStop(Stored(s)), AtReconcile(Stored(s))}
    ensures var t := Steps(s, limit, w, [DoEngine(true, answer), DoSwap(true, Acknowledged)]);
            && |t.log| == |s.log| + 1 && t.log[..|s.log|] == s.log && Notes(Stored(s), Stored(t), answer)
            && At(t, w).Ended?
            && t.starts == s.starts + (if At(s, w).AtStart? then 1 else 0)
            && t.reconciles == s.reconciles + (if At(s, w).AtReconcile? then [Stored(s).attempts] else [])
  {
    var ops := [DoEngine(true, answer), DoSwap(true, Acknowledged)];
    TwoSteps(s, limit, w, ops);
    assert ops[2..] == [];
    var u := Step(s, limit, w, ops[0]);
    assert At(u, w).Swapping? && At(u, w).goal.RecordEffect? && At(u, w).prior == Stored(s) && u.log == s.log;
  }

  // ------------------------------------------------------------------
  // One answered call.
  // ------------------------------------------------------------------

  function Fresh(request: Request, command: Uuid): Record {
    Record(request, command, PendingAuthorization, 1, None, None, 0, false)
  }

  /** A first Start whose authorization is applied. */
  function StartOperations(request: Request, command: Uuid): seq<Action> {
    [BeginStart(request, command), DoPrepare(true), DoHandle(true), DoSwap(true, Acknowledged),
     DoSwap(true, Acknowledged)]
  }

  function Claimed(request: Request, command: Uuid): Record {
    Record(request, command, Starting, 3, Some(true), None, 0, false)
  }

  lemma StartClaims(s: Coordination, limit: nat, w: nat, request: Request, command: Uuid)
    requires s.log == [] && w !in s.calls
    ensures var t := Steps(s, limit, w, StartOperations(request, command));
            && |t.log| == 3 && Stored(t) == Claimed(request, command) && At(t, w) == AtStart(Stored(t))
            && t.starts == s.starts && t.reconciles == s.reconciles
  {
    var ops := StartOperations(request, command);
    var s1 := Step(s, limit, w, ops[0]);
    var s2 := Step(s1, limit, w, ops[1]);
    assert s2.log == [Fresh(request, command)] && At(s2, w) == Handling(Fresh(request, command));
    var s3 := Step(s2, limit, w, ops[2]);
    var s4 := Step(s3, limit, w, ops[3]);
    assert |s4.log| == 2 && Stored(s4).state.Authorized? && Stored(s4).version == 2;
    var s5 := Step(s4, limit, w, ops[4]);
    assert |s5.log| == 3 && Stored(s5) == Claimed(request, command);
    hide Step;
    FiveSteps(s, limit, w, ops);
  }

  lemma FiveSteps(s: Coordination, limit: nat, w: nat, ops: seq<Action>)
    requires |ops| == 5
    ensures Steps(s, limit, w, ops) ==
            Step(Step(Step(Step(Step(s, limit, w, ops[0]), limit, w, ops[1]), limit, w, ops[2]), limit, w, ops[3]),
                 limit, w, ops[4])
  {
    hide Step;
    TwoSteps(s, limit, w, ops);
    var s2 := Step(Step(s, limit, w, ops[0]), limit, w, ops[1]);
    TwoSteps(s2, limit, w, ops[2..]);
    assert ops[2..][2..] == ops[4..];
    var s4 := Step(Step(s2, limit, w, ops[2]), limit, w, ops[3]);
    assert ops[4..][0] == ops[4] && ops[4..][1..] == [];
    assert Steps(s4, limit, w, ops[4..]) == Steps(Step(s4, limit, w, ops[4]), limit, w, []);
  }

  lemma {:induction false} StepsSplit(s: Coordination, limit: nat, w: nat, a: seq<Action>, b: seq<Action>)
    ensures Steps(s, limit, w, a + b) == Steps(Steps(s, limit, w, a), limit, w, b)
    decreases |a|
  {
    hide Step;
    if |a| == 0 {
      assert a + b == b;
    } else {
      assert (a + b)[1..] == a[1..] + b;
      StepsSplit(Step(s, limit, w, a[0]), limit, w, a[1..], b);
    }
  }

  /** An answered first Start: the authorization is recorded, the engine is started exactly once
      with the record claimed, and its answer is noted. */
  lemma StartRuns(s: Coordination, limit: nat, w: nat, request: Request, command: Uuid, answer: Option<Observation>)
    requires s.log == [] && w !in s.calls
    ensures var t := Steps(s, limit, w,
                           StartOperations(request, command) + [DoEngine(true, answer), DoSwap(true, Acknowledged)]);
            && t.starts == s.starts + 1 && |t.log| == 4 && Notes(Claimed(request, command), Stored(t), answer)
            && t.log[0] == Fresh(request, command) && t.log[1].state.Authorized? && At(t, w).Ended?
  {
    StartClaims(s, limit, w, request, command);
    var t := Steps(s, limit, w, StartOperations(request, command));
    FirstRecords(s, limit, w, request, command);
    hide Steps, Step, Notes;
    StepsSplit(s, limit, w, StartOperations(request, command), [DoEngine(true, answer), DoSwap(true, Acknowledged)]);
    EngineNotes(t, limit, w, answer);
    var u := Steps(t, limit, w, [DoEngine(true, answer), DoSwap(true, Acknowledged)]);
    assert u.log[0] == u.log[..3][0] && u.log[1] == u.log[..3][1];
  }

  /** In any interleaving in which nothing is stored yet, a new Start call that is answered starts
      the engine, once and for all. */
  lemma StartHappens(limit: nat, before: seq<(nat, Action)>, w: nat, request: Request, command: Uuid,
                     answer: Option<Observation>)
    requires Run(limit, before).log == [] && w !in Run(limit, before).calls
    ensures var ops := StartOperations(request, command) + [DoEngine(true, answer), DoSwap(true, Acknowledged)];
            var t := Run(limit, before + Alone(w, ops));
            t.starts == 1 && |t.log| == 4 && Notes(Claimed(request, command), Stored(t), answer)
  {
    hide Run, Step, Steps, Notes, Inv;
    var ops := StartOperations(request, command) + [DoEngine(true, answer), DoSwap(true, Acknowledged)];
    StartRuns(Run(limit, before), limit, w, request, command, answer);
    RunSteps(limit, before, w, ops);
    StartsAtMostOnce(limit, before + Alone(w, ops));
  }

  lemma FirstRecords(s: Coordination, limit: nat, w: nat, request: Request, command: Uuid)
    requires s.log == [] && w !in s.calls
    ensures var t := Steps(s, limit, w, StartOperations(request, command));
            |t.log| == 3 && t.log[0] == Fresh(request, command) && t.log[1].state.Authorized?
  {
    var ops := StartOperations(request, command);
    var s2 := Step(Step(s, limit, w, ops[0]), limit, w, ops[1]);
    assert s2.log == [Fresh(request, command)] && At(s2, w) == Handling(Fresh(request, command));
    var s4 := Step(Step(s2, limit, w, ops[2]), limit, w, ops[3]);
    assert |s4.log| == 2 && s4.log[0] == s2.log[0] && s4.log[1].state.Authorized?;
    var s5 := Step(s4, limit, w, ops[4]);
    assert s5.log[..2] == s4.log && |s5.log| == 3;
    assert s5.log[0] == s5.log[..2][0] && s5.log[1] == s5.log[..2][1];
    hide Step;
    FiveSteps(s, limit, w, ops);
  }

  /** A refused authorization is recorded as REJECTED, and the call ends without the engine. */
  lemma RefusalRejects(s: Coordination, limit: nat, w: nat)
    requires |s.log| > 0 && At(s, w) == Handling(Stored(s))
    ensures var t := Steps(s, limit, w, [DoHandle(false), DoSwap(true, Acknowledged)]);
            && |t.log| == |s.log| + 1 && Stored(t).state.Rejected? && Stored(t).applied == Some(false)
            && t.starts == s.starts && At(t, w).Ended?
  {
    var ops := [DoHandle(false), DoSwap(true, Acknowledged)];
    TwoSteps(s, limit, w, ops);
    assert ops[2..] == [];
  }

  /** A Start under a key that another request or command holds ends without a change. */
  lemma OtherStartRefused(s: Coordination, limit: nat, w: nat, request: Request, command: Uuid, acknowledged: bool)
    requires |s.log| > 0 && w !in s.calls && (Stored(s).request != request || Stored(s).command != command)
    ensures var t := Steps(s, limit, w, [BeginStart(request, command), DoPrepare(acknowledged)]);
            t.log == s.log && t.starts == s.starts && At(t, w).Ended?
  {
    var ops := [BeginStart(request, command), DoPrepare(acknowledged)];
    TwoSteps(s, limit, w, ops);
    assert ops[2..] == [];
  }

  /** The same Start again takes up the stored record where it is. */
  lemma SameStartResumes(s: Coordination, limit: nat, w: nat)
    requires |s.log| > 0 && w !in s.calls
    ensures var r := Stored(s);
            var t := Steps(s, limit, w, [BeginStart(r.request, r.command), DoPrepare(true)]);
            && t.log == s.log && t.starts == s.starts
            && (r.state.PendingAuthorization? ==> At(t, w) == Handling(r))
            && (r.state.Authorized? ==>
                  At(t, w) == Swapping(r, r.(state := Starting, version := r.version + 1), ClaimStart))
            && (!r.state.PendingAuthorization? && !r.state.Authorized? ==> At(t, w).Ended?)
  {
    var ops := [BeginStart(Stored(s).request, Stored(s).command), DoPrepare(true)];
    TwoSteps(s, limit, w, ops);
    assert ops[2..] == [];
  }

  /** Stop claims exactly a RUNNING or UNCERTAIN execution, and Reconcile exactly one whose outcome
      is open and whose attempts are not used up; both end without a change otherwise. */
  lemma StopAndReconcileClaim(s: Coordination, limit: nat, w: nat, stop: bool)
    requires |s.log| > 0 && w !in s.calls
    ensures var r := Stored(s);
            var t := Steps(s, limit, w,
                           [if stop then BeginStop else BeginReconcile, DoLoad, DoSwap(true, Acknowledged)]);
            var may := if stop then r.state in {Running, Uncertain}
                       else r.state in {Uncertain, Starting, Stopping} && r.attempts < limit;
            && t.starts == s.starts && t.reconciles == s.reconciles
            && (!may ==> t.log == s.log && At(t, w).Ended?)
            && (may ==>
                  && |t.log| == |s.log| + 1
                  && Stored(t) == (if stop then r.(state := Stopping, version := r.version + 1)
                                   else r.(attempts := r.attempts + 1, version := r.version + 1))
                  && At(t, w) == if stop then AtStop(Stored(t)) else AtReconcile(Stored(t)))
  {
    var ops := [if stop then BeginStop else BeginReconcile, DoLoad, DoSwap(true, Acknowledged)];
    TwoSteps(s, limit, w, ops);
    assert ops[2..] == [ops[2]] && ops[2..][1..] == [];
    var s2 := Step(Step(s, limit, w, ops[0]), limit, w, ops[1]);
    assert Steps(s2, limit, w, ops[2..]) == Steps(Step(s2, limit, w, ops[2]), limit, w, []);
  }

  // ------------------------------------------------------------------
  // What a committed record means.
  // ------------------------------------------------------------------

  /** Over every interleaving: a record is REJECTED only after a refused authorization, launched only
      after an applied one, and RUNNING or STOPPED only on an observation of that very actor and
      execution in that state. */
  lemma RecordsMean(limit: nat, actions: seq<(nat, Action)>, i: nat)
    requires i < |Run(limit, actions).log|
    ensures var r := Run(limit, actions).log[i];
            && (r.state.PendingAuthorization? ==> r.applied.None?)
            && (r.state.Rejected? ==> r.applied == Some(false))
            && (r.state in {Authorized, Starting, Running, Stopping, Stopped, Uncertain} ==> r.applied == Some(true))
            && (r.state in {Running, Stopped} ==>
                  && r.observation.Some? && r.observation.value.actor == r.request.actor
                  && r.observation.value.execution == r.request.execution
                  && r.observation.value.seen == if r.state.Running? then SeenRunning else SeenStopped)
            && r.attempts <= limit
    ensures i > 0 ==>
              var r, p := Run(limit, actions).log[i], Run(limit, actions).log[i - 1];
              p.attempts <= r.attempts <= p.attempts + 1 && r.command == p.command
  {
    hide Run, CallsOk, StartOnce, ReconcileOnce;
    ReachableInv(limit, actions);
  }
}
