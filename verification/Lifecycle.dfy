/** The story and task lifecycle tables of kernel/lifecycle.go. */
module Lifecycle {
  import opened Orders

  datatype Phase = Draft | Planned | Ready | Planning | Active | Completed | Accepted | Closed

  datatype Condition = Runnable | Blocked

  datatype Model = StoryModel | TaskModel

  datatype Action = Authorize | BeginPlanning | MarkReady | Activate | Complete | Accept | Block | Unblock | Reopen
      | Close

  datatype State = State(phase: Phase, condition: Condition, epoch: nat)

  /** lifecycleTransition */
  function Transition(model: Model, phase: Phase, action: Action): Option<Phase> {
    match (model, phase, action)
    case (StoryModel, Draft, Authorize) => Some(Ready)
    case (StoryModel, Ready, BeginPlanning) => Some(Planning)
    case (StoryModel, Planning, Activate) => Some(Active)
    case (StoryModel, Active, Complete) => Some(Completed)
    case (StoryModel, Completed, Accept) => Some(Accepted)
    case (TaskModel, Planned, MarkReady) => Some(Ready)
    case (TaskModel, Ready, Activate) => Some(Active)
    case (TaskModel, Active, Complete) => Some(Completed)
    case _ => None
  }

  /** applyLifecycleAction: None is a rejection. */
  function Step(model: Model, s: State, action: Action): Option<State> {
    match action
    case Block => if s.condition.Runnable? && !s.phase.Closed? then Some(s.(condition := Blocked)) else None
    case Unblock => if s.condition.Blocked? && !s.phase.Closed? then Some(s.(condition := Runnable)) else None
    case Reopen =>
      if s.phase.Completed? || (model.StoryModel? && s.phase.Accepted?)
      then Some(s.(phase := Active, epoch := s.epoch + 1)) else None
    case Close => if s.phase.Closed? then None else Some(s.(phase := Closed))
    case _ =>
      var next := Transition(model, s.phase, action);
      if next.Some? then Some(s.(phase := next.value)) else None
  }

  /** The state after every action was accepted, if every action was. */
  function Run(model: Model, s: State, actions: seq<Action>): Option<State> {
    if |actions| == 0 then Some(s)
    else
      var before := Run(model, s, actions[..|actions| - 1]);
      if before.None? then None else Step(model, before.value, actions[|actions| - 1])
  }

  lemma RunStep(model: Model, s: State, actions: seq<Action>, n: nat)
    requires n < |actions|
    ensures Run(model, s, actions[..n + 1]) ==
            var before := Run(model, s, actions[..n]);
            if before.None? then None else Step(model, before.value, actions[n])
  {
    assert actions[..n + 1][..n] == actions[..n];
  }

  lemma {:induction false} RunPrefix(model: Model, s: State, actions: seq<Action>, n: nat)
    requires n <= |actions| && Run(model, s, actions).Some?
    ensures Run(model, s, actions[..n]).Some?
    decreases |actions| - n
  {
    if n < |actions| {
      RunPrefix(model, s, actions, n + 1);
      RunStep(model, s, actions, n);
    } else {
      assert actions[..n] == actions;
    }
  }

  ghost predicate StoppedBefore(model: Model, s: State, actions: seq<Action>, stop: State) {
    exists n :: 0 <= n < |actions| && Run(model, s, actions[..n]) == Some(stop) && Step(model, stop, actions[n]).None?
  }

  /** ApplyLifecycleActions stops at the first rejected action and keeps the state before it. */
  method ApplyLifecycleActions(model: Model, initial: State, actions: seq<Action>)
    returns (state: State, rejected: bool)
    ensures rejected <==> Run(model, initial, actions).None?
    ensures !rejected ==> Run(model, initial, actions) == Some(state)
    ensures rejected ==> StoppedBefore(model, initial, actions, state)
  {
    state := initial;
    for n := 0 to |actions|
      invariant Run(model, initial, actions[..n]) == Some(state)
    {
      RunStep(model, initial, actions, n);
      var next := Step(model, state, actions[n]);
      if next.None? {
        if Run(model, initial, actions).Some? {
          RunPrefix(model, initial, actions, n + 1);
          assert false;
        }
        return state, true;
      }
      state := next.value;
    }
    assert actions[..|actions|] == actions;
    rejected := false;
  }

  function Count(actions: seq<Action>, a: Action): nat {
    if |actions| == 0 then 0 else Count(actions[..|actions| - 1], a) + (if actions[|actions| - 1] == a then 1 else 0)
  }

  /** Over every accepted run the epoch counts reopenings, and completions and reopenings
      alternate: the work is completed now exactly when one completion is not yet reopened. */
  lemma {:induction false} EpochCountsReopenings(model: Model, s: State, actions: seq<Action>)
    requires Run(model, s, actions).Some?
    ensures var r := Run(model, s, actions).value;
            && r.epoch == s.epoch + Count(actions, Reopen)
            && (Close !in actions && !s.phase.Closed? ==>
                  Count(actions, Complete) + (if s.phase in {Completed, Accepted} then 1 else 0) ==
                  Count(actions, Reopen) + (if r.phase in {Completed, Accepted} then 1 else 0))
            && (s.phase.Closed? ==> r.phase.Closed?)
            && (Close !in actions && !s.phase.Closed? ==> !r.phase.Closed?)
  {
    if |actions| == 0 {
    } else {
      var n := |actions| - 1;
      EpochCountsReopenings(model, s, actions[..n]);
      assert actions == actions[..n] + [actions[n]];
    }
  }
}
