/** The agent loop and the effect ledger together: runners that crash and restart at any point
    over one journal, and a mutation gateway that crashes and restarts at any point over one
    ledger.
 */
module EndToEnd {
  import opened Orders
  import opened Ids
  import opened Journal
  import A = AgentRun
  import B = AgentRunBounds
  import E = Effects

  datatype Whole = Whole(run: A.Machine, shop: E.Workshop)

  datatype Action = RunnerAction(runner: nat, action: A.Action) | EffectAction(effect: E.Action)

  /** How a stored result appears as a tool's output. */
  type Encoding = E.Outcome -> Json

  function KeyOf(c: Settings, call: CallId): E.Key {
    E.Key(c.invocation, call)
  }

  /** The call a looping runner is about to perform, if it is an effect. */
  function PendingEffect(c: Settings, r: A.Runner): Option<Call> {
    if !r.Looping? then None
    else
      var p := Replay(c, r.entries);
      if p.None? || |p.value.outstanding| == 0 then None
      else
        var call := p.value.outstanding[0];
        if c.handles(call.name) && !A.IsFinal(c, call) then Some(call) else None
  }

  /** The gateway handed this outcome back for this call. */
  predicate HandedBack(s: E.Workshop, k: E.Key, encode: Encoding, output: Json) {
    exists i :: 0 <= i < |s.returned| && s.returned[i].0 == k && encode(s.returned[i].1) == output
  }

  /** What a runner learns about an effect comes from the gateway: an output it handed back, or
      an error with a text. */
  predicate Honest(c: Settings, encode: Encoding, s: Whole, w: nat, world: A.World) {
    var call := PendingEffect(c, A.At(s.run, w));
    call.Some? ==>
      && (world.toolError.Some? ==> !world.toolError.value.Empty())
      && (world.toolError.None? || world.applied ==> HandedBack(s.shop, KeyOf(c, call.value.id), encode, world.output))
  }

  function Step(c: Settings, encode: Encoding, s: Whole, a: Action): Whole {
    match a
    case RunnerAction(w, x) => if x.Act? && !Honest(c, encode, s, w, x.world) then s
        else s.(run := A.Step(c, s.run, w, x))
    case EffectAction(x) => s.(shop := E.Step(s.shop, x))
  }

  function Run(c: Settings, encode: Encoding, host: E.Host, actions: seq<Action>): Whole {
    if |actions| == 0 then Whole(A.Machine([], map[]), E.Run(host, []))
    else Step(c, encode, Run(c, encode, host, actions[..|actions| - 1]), actions[|actions| - 1])
  }

  // ------------------------------------------------------------------
  // The invariant.
  // ------------------------------------------------------------------

  /** A recorded effect output is the one the ledger stores for that call. */
  predicate Backed(c: Settings, encode: Encoding, s: E.Workshop, p: Payload) {
    p.ToolDone? && c.handles(p.result.name) && p.result.name != c.finalTool && p.result.error.Empty() ==>
      var k := KeyOf(c, p.result.call);
      k in s.ledger && s.ledger[k].result.Some? && encode(s.ledger[k].result.value) == p.result.output
  }

  ghost predicate JournalBacked(c: Settings, encode: Encoding, s: Whole) {
    forall i :: 0 <= i < |s.run.journal| ==> Backed(c, encode, s.shop, s.run.journal[i].payload)
  }

  ghost predicate RunnersBacked(c: Settings, encode: Encoding, s: Whole) {
    forall w :: w in s.run.runners && s.run.runners[w].Appending? ==>
        Backed(c, encode, s.shop, s.run.runners[w].payload)
  }

  ghost predicate Inv(c: Settings, encode: Encoding, s: Whole) {
    A.Inv(c, s.run) && E.Inv(s.shop) && JournalBacked(c, encode, s) && RunnersBacked(c, encode, s)
  }

  lemma DecisionBacked(c: Settings, encode: Encoding, s: Whole, w: nat, world: A.World)
    requires E.Inv(s.shop) && Honest(c, encode, s, w, world) && A.At(s.run, w).Looping?
    ensures var r := A.At(s.run, w);
            var p := A.Decide(c, r.reconcile, r.entries, world);
            p.Some? ==> Backed(c, encode, s.shop, p.value)
  {
    var r := A.At(s.run, w);
    var p := A.Decide(c, r.reconcile, r.entries, world);
    if p.Some? && p.value.ToolDone? && c.handles(p.value.result.name) && p.value.result.name != c.finalTool
        && p.value.result.error.Empty() {
      DecidedFrom(c, r, world);
      assert E.ReceiptsOk(s.shop);
      hide E.Inv, Replay, A.Decide;
      var k := KeyOf(c, p.value.result.call);
      var i :| 0 <= i < |s.shop.returned| && s.shop.returned[i].0 == k && encode(s.shop.returned[i].1) == world.output;
    }
  }

  /** An effect result without an error repeats what the gateway said. */
  lemma DecidedFrom(c: Settings, r: A.Runner, world: A.World)
    requires r.Looping?
    requires var p := A.Decide(c, r.reconcile, r.entries, world);
             && p.Some? && p.value.ToolDone? && c.handles(p.value.result.name) && p.value.result.name != c.finalTool
             && p.value.result.error.Empty()
    requires PendingEffect(c, r).Some? && world.toolError.Some? ==> !world.toolError.value.Empty()
    ensures var p := A.Decide(c, r.reconcile, r.entries, world).value;
            && PendingEffect(c, r).Some? && PendingEffect(c, r).value.id == p.result.call
               && p.result.output == world.output
            && (world.toolError.None? || world.applied)
  {
    hide Replay, A.FinalErrors, CompletionOk, A.LastSpoke;
  }

  lemma RunnerInv(c: Settings, encode: Encoding, s: Whole, w: nat, x: A.Action)
    requires Inv(c, encode, s)
    ensures Inv(c, encode, Step(c, encode, s, RunnerAction(w, x)))
  {
    if x.Act? && Honest(c, encode, s, w, x.world) && A.At(s.run, w).Looping? {
      DecisionBacked(c, encode, s, w, x.world);
    }
    A.StepInv(c, s.run, w, x);
    hide A.Inv, E.Inv, Honest, A.Decide, Backed;
    var t := Step(c, encode, s, RunnerAction(w, x));
    if x.Append? && A.At(s.run, w).Appending? {
      assert Backed(c, encode, s.shop, A.At(s.run, w).payload);
    }
  }

  lemma EffectInv(c: Settings, encode: Encoding, s: Whole, x: E.Action)
    requires Inv(c, encode, s)
    ensures Inv(c, encode, Step(c, encode, s, EffectAction(x)))
  {
    E.StepInv(s.shop, x);
    var t := E.Step(s.shop, x);
    forall k | k in s.shop.ledger && s.shop.ledger[k].result.Some? ensures k in t.ledger
        && t.ledger[k] == s.shop.ledger[k] {
      E.ResultStays(s.shop, x, k);
    }
    hide E.Step, E.Inv, A.Inv;
    forall p: Payload | Backed(c, encode, s.shop, p) ensures Backed(c, encode, t, p) {
    }
  }

  lemma {:induction false} ReachableInv(c: Settings, encode: Encoding, host: E.Host, actions: seq<Action>)
    ensures Inv(c, encode, Run(c, encode, host, actions))
  {
    if |actions| == 0 {
      E.ReachableInv(host, []);
      A.ReachableInv(c, []);
    } else {
      var n := |actions| - 1;
      ReachableInv(c, encode, host, actions[..n]);
      hide Inv;
      match actions[n]
      case RunnerAction(w, x) => RunnerInv(c, encode, Run(c, encode, host, actions[..n]), w, x);
      case EffectAction(x) => EffectInv(c, encode, Run(c, encode, host, actions[..n]), x);
    }
  }

  /** Across any interleaving, crash and restart: each call reaches the host at most once, has at
      most one recorded result, and a recorded effect output is the one result the ledger ever
      stores for that call. */
  lemma AtMostOnce(c: Settings, encode: Encoding, host: E.Host, actions: seq<Action>, call: CallId)
    ensures var s := Run(c, encode, host, actions);
            && s.shop.executed[KeyOf(c, call)] <= 1
            && Distinct(DoneIds(s.run.journal))
            && forall i :: 0 <= i < |s.run.journal| ==> Backed(c, encode, s.shop, s.run.journal[i].payload)
  {
    ReachableInv(c, encode, host, actions);
    var s := Run(c, encode, host, actions);
    assert A.Grown(c, s.run.journal) by { hide A.Grown, E.Inv; }
    assert s.shop.executed[KeyOf(c, call)] <= 1 by { hide A.Inv; }
    hide Run, A.Grown, Distinct, Backed, E.Inv, A.Inv;
    if |s.run.journal| > 0 {
      B.ResultsOnce(c, s.run.journal);
    } else {
      assert DoneIds(s.run.journal) == [];
      B.NothingDone();
    }
  }
}
