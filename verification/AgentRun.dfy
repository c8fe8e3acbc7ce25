/** Runner.Run and ReconcilePendingEffects (agentruntime/runtime.go): any number of runners
    over one append-only journal, each advancing one external operation at a time, each able
    to stop at any point.
 */
module AgentRun {
  import opened Orders
  import opened Ids
  import opened Journal

  // ------------------------------------------------------------------
  // What a runner decides to append.
  // ------------------------------------------------------------------

  /** What the outside world answers: the recalled context, the model's completion, a tool's
      output or error, Finalize's error text, ValidateFinalResult's error, a reconciled output. */
  datatype World = World(
    context: Context, completion: Completion, uncertain: bool, output: Json, toolError: Option<Text>,
    finalizeError: Text, validationError: Option<Text>, applied: bool)

  const NOT_VALID := Context(Text(""), Text(""), Text("INVALID_RESPONSE"))

  function StartOf(c: Settings, w: World): Start {
    Start(c.digest, c.prompt, c.system, c.finalTool, c.authority, if ContextOk(w.context) then w.context else NOT_VALID)
  }

  /** finalSubmissionErrors */
  function FinalErrors(c: Settings, entries: seq<Entry>): nat {
    if |entries| == 0 then 0
    else
      var p := entries[|entries| - 1].payload;
      FinalErrors(c, entries[..|entries| - 1]) +
      (if p.ToolDone? && p.result.name == c.finalTool && !p.result.error.Empty() then 1 else 0)
  }

  method FinalSubmissionErrors(c: Settings, entries: seq<Entry>) returns (count: nat)
    ensures count == FinalErrors(c, entries)
  {
    count := 0;
    for n := 0 to |entries|
      invariant count == FinalErrors(c, entries[..n])
    {
      assert entries[..n + 1][..n] == entries[..n];
      var p := entries[n].payload;
      if p.ToolDone? && p.result.name == c.finalTool && !p.result.error.Empty() {
        count := count + 1;
      }
    }
    assert entries[..|entries|] == entries;
  }

  predicate IsFinal(c: Settings, call: Call) {
    !c.finalTool.Empty() && call.name == c.finalTool
  }

  /** A pending call of the final tool. */
  function DecideFinal(c: Settings, call: Call, w: World): Option<Payload> {
    var text := c.finalize(call.arguments);
    var error := if text.None? then Some(w.finalizeError) else w.validationError;
    if error.Some? then
      if c.maxFinalSubmissions <= 1 then None else Some(ToolDone(Result(call.id, call.name, NULL, error.value)))
    else Some(Finished(text.value))
  }

  /** A pending call of any other tool. */
  function DecideTool(call: Call, w: World): Option<Payload> {
    if w.uncertain then None
    else if w.toolError.Some? then Some(ToolDone(Result(call.id, call.name, NULL, w.toolError.value)))
    else if !w.output.valid then None
    else Some(ToolDone(Result(call.id, call.name, w.output, Text(""))))
  }

  predicate LastSpoke(c: Settings, entries: seq<Entry>, p: Progress) {
    && |entries| > 0 && p.turns > 0 && c.finalTool.Empty()
    && entries[|entries| - 1].payload.ModelTurn? && |entries[|entries| - 1].payload.completion.calls| == 0
  }

  /** Nothing pending: stop, finish, or ask the model. */
  function DecideTurn(c: Settings, entries: seq<Entry>, p: Progress, w: World): Option<Payload> {
    if !c.finalTool.Empty() && c.maxFinalSubmissions > 1 && FinalErrors(c, entries) >= c.maxFinalSubmissions then None
    else if LastSpoke(c, entries, p) then Some(Finished(entries[|entries| - 1].payload.completion.text))
    else if c.maxTurns > 0 && p.turns >= c.maxTurns then None
    else if !CompletionOk(w.completion, c.finalTool) then None
    else Some(ModelTurn(w.completion))
  }

  /** One iteration of Run's loop: the payload it appends next, None when it returns. */
  function DecideRun(c: Settings, entries: seq<Entry>, w: World): Option<Payload> {
    if |entries| == 0 then Some(Started(StartOf(c, w)))
    else
      var r := Replay(c, entries);
      if r.None? || r.value.complete.Some? then None
      else if |r.value.outstanding| > 0 then
        var call := r.value.outstanding[0];
        if IsFinal(c, call) then DecideFinal(c, call, w) else DecideTool(call, w)
      else DecideTurn(c, entries, r.value, w)
  }

  /** One iteration of ReconcilePendingEffects. */
  function DecideReconcile(c: Settings, entries: seq<Entry>, w: World): Option<Payload> {
    if |entries| == 0 then None
    else
      var r := Replay(c, entries);
      if r.None? || r.value.complete.Some? || |r.value.outstanding| == 0 then None
      else
        var call := r.value.outstanding[0];
        if !c.handles(call.name) || !w.applied || !w.output.valid then None
        else Some(ToolDone(Result(call.id, call.name, w.output, Text(""))))
  }

  function Decide(c: Settings, reconcile: bool, entries: seq<Entry>, w: World): Option<Payload> {
    if reconcile then DecideReconcile(c, entries, w) else DecideRun(c, entries, w)
  }

  // ------------------------------------------------------------------
  // The machine.
  // ------------------------------------------------------------------

  /** Where a runner stands: the external operation it performs next. */
  datatype Runner =
    | Ended
    | Loading(reconcile: bool)
    | Looping(reconcile: bool, entries: seq<Entry>)
    | Appending(reconcile: bool, entries: seq<Entry>, payload: Payload)
    | Reloading(reconcile: bool, entries: seq<Entry>, payload: Payload)

  datatype Machine = Machine(journal: seq<Entry>, runners: map<nat, Runner>)

  datatype Action =
    | Begin(reconcile: bool)
    | End
    | Load
    | Act(world: World)
    | Append(commit: bool, acknowledged: bool)
    | Reload

  function At(m: Machine, w: nat): Runner {
    if w in m.runners then m.runners[w] else Ended
  }

  function Go(m: Machine, w: nat, r: Runner): Machine {
    m.(runners := m.runners[w := r])
  }

  function LastSequence(entries: seq<Entry>): nat {
    if |entries| == 0 then 0 else entries[|entries| - 1].sequence
  }

  function NextEntry(c: Settings, entries: seq<Entry>, payload: Payload): Entry {
    Entry(c.invocation, LastSequence(entries) + 1, payload)
  }

  /** The runner found its entry in the journal: it returns after Finished, else goes on. */
  function Continue(reconcile: bool, entries: seq<Entry>, payload: Payload): Runner {
    if payload.Finished? then Ended else Looping(reconcile, entries)
  }

  /** A step that does not fit where the runner stands changes nothing. */
  function Step(c: Settings, m: Machine, w: nat, a: Action): Machine {
    match a
    case Begin(reconcile) => if w in m.runners then m else Go(m, w, Loading(reconcile))
    case End => Go(m, w, Ended)
    case Load => if At(m, w).Loading? then Go(m, w, Looping(At(m, w).reconcile, m.journal)) else m
    case Act(world) =>
      if !At(m, w).Looping? then m
      else
        var r := At(m, w);
        var payload := Decide(c, r.reconcile, r.entries, world);
        Go(m, w, if payload.None? then Ended else Appending(r.reconcile, r.entries, payload.value))
    case Append(commit, acknowledged) =>
      if !At(m, w).Appending? then m
      else
        var r := At(m, w);
        var e := NextEntry(c, r.entries, r.payload);
        var commits := commit && LastSequence(m.journal) == LastSequence(r.entries);
        var n := if commits then m.(journal := m.journal + [e]) else m;
        Go(n, w, if commits && acknowledged then Continue(r.reconcile, r.entries + [e], r.payload)
                 else Reloading(r.reconcile, r.entries, r.payload))
    case Reload =>
      if !At(m, w).Reloading? then m
      else
        var r := At(m, w);
        if |m.journal| > |r.entries| && m.journal[|r.entries|].sequence == LastSequence(r.entries) + 1
            && m.journal[|r.entries|].payload == r.payload
        then Go(m, w, Continue(r.reconcile, m.journal, r.payload)) else Go(m, w, Ended)
  }

  function Run(c: Settings, actions: seq<(nat, Action)>): Machine {
    if |actions| == 0 then Machine([], map[])
    else
      var last := actions[|actions| - 1];
      Step(c, Run(c, actions[..|actions| - 1]), last.0, last.1)
  }

  // ------------------------------------------------------------------
  // Every reachable journal was grown one decision at a time.
  // ------------------------------------------------------------------

  ghost predicate Decided(c: Settings, entries: seq<Entry>, payload: Payload) {
    exists reconcile: bool, w: World :: Decide(c, reconcile, entries, w) == Some(payload)
  }

  ghost predicate Grown(c: Settings, entries: seq<Entry>) {
    forall n :: 0 <= n < |entries| ==> GrownAt(c, entries, n)
  }

  ghost predicate GrownAt(c: Settings, entries: seq<Entry>, n: nat)
    requires n < |entries|
  {
    entries[n] == Entry(c.invocation, n + 1, entries[n].payload) && Decided(c, entries[..n], entries[n].payload)
  }

  ghost predicate RunnerOk(c: Settings, journal: seq<Entry>, r: Runner) {
    match r
    case Ended => true
    case Loading(_) => true
    case Looping(_, entries) => entries <= journal
    case Appending(_, entries, payload) => entries <= journal && Decided(c, entries, payload)
    case Reloading(_, entries, _) => entries <= journal
  }

  ghost predicate Inv(c: Settings, m: Machine) {
    Grown(c, m.journal) && forall w :: w in m.runners ==> RunnerOk(c, m.journal, m.runners[w])
  }

  lemma GrownSequence(c: Settings, entries: seq<Entry>)
    requires Grown(c, entries)
    ensures LastSequence(entries) == |entries|
  {
    if |entries| > 0 {
      assert GrownAt(c, entries, |entries| - 1);
    }
  }

  lemma GrownPrefix(c: Settings, entries: seq<Entry>, n: nat)
    requires Grown(c, entries) && n <= |entries|
    ensures Grown(c, entries[..n])
  {
    hide Decided;
    forall k | 0 <= k < n ensures GrownAt(c, entries[..n], k) {
      assert GrownAt(c, entries, k);
      assert entries[..n][..k] == entries[..k];
    }
  }

  lemma GrownMore(c: Settings, entries: seq<Entry>, payload: Payload)
    requires Grown(c, entries) && Decided(c, entries, payload)
    ensures Grown(c, entries + [NextEntry(c, entries, payload)])
  {
    hide Decided;
    GrownSequence(c, entries);
    var more := entries + [NextEntry(c, entries, payload)];
    forall k | 0 <= k < |more| ensures GrownAt(c, more, k) {
      assert more[..k] == entries[..k];
      if k < |entries| {
        assert GrownAt(c, entries, k);
      } else {
        assert entries[..k] == entries;
      }
    }
  }

  lemma PrefixSequence(c: Settings, journal: seq<Entry>, entries: seq<Entry>)
    requires Grown(c, journal) && entries <= journal
    ensures LastSequence(entries) == |entries| && LastSequence(journal) == |journal|
    ensures |entries| == |journal| ==> entries == journal
  {
    GrownSequence(c, journal);
    GrownPrefix(c, journal, |entries|);
    assert journal[..|entries|] == entries;
    GrownSequence(c, entries);
  }

  lemma StepInv(c: Settings, m: Machine, w: nat, a: Action)
    requires Inv(c, m)
    ensures Inv(c, Step(c, m, w, a))
    ensures m.journal <= Step(c, m, w, a).journal && |Step(c, m, w, a).journal| <= |m.journal| + 1
  {
    var r := At(m, w);
    if a.Append? && r.Appending? {
      AppendInv(c, m, w, a.commit, a.acknowledged);
    } else {
      hide Grown;
      if a.Act? && r.Looping? {
        var payload := Decide(c, r.reconcile, r.entries, a.world);
        assert payload.Some? ==> Decided(c, r.entries, payload.value);
        hide Decide;
      }
    }
  }

  lemma AppendInv(c: Settings, m: Machine, w: nat, commit: bool, acknowledged: bool)
    requires Inv(c, m) && At(m, w).Appending?
    ensures var n := Step(c, m, w, Append(commit, acknowledged));
            Inv(c, n) && m.journal <= n.journal && |n.journal| <= |m.journal| + 1
  {
    var r := At(m, w);
    assert RunnerOk(c, m.journal, r);
    PrefixSequence(c, m.journal, r.entries);
    if LastSequence(m.journal) == LastSequence(r.entries) {
      GrownMore(c, m.journal, r.payload);
    }
    hide Grown, Decided;
  }

  lemma {:induction false} ReachableInv(c: Settings, actions: seq<(nat, Action)>)
    ensures Inv(c, Run(c, actions))
  {
    if |actions| == 0 {
    } else {
      var n := |actions| - 1;
      ReachableInv(c, actions[..n]);
      hide Inv, Step;
      StepInv(c, Run(c, actions[..n]), actions[n].0, actions[n].1);
    }
  }

  // ------------------------------------------------------------------
  // Every journal grown that way is reached.
  // ------------------------------------------------------------------

  lemma RunAppend(c: Settings, actions: seq<(nat, Action)>, w: nat, a: Action)
    ensures Run(c, actions + [(w, a)]) == Step(c, Run(c, actions), w, a)
  {
    hide Step;
    assert (actions + [(w, a)])[..|actions|] == actions;
  }

  /** A new runner loads the journal, decides, appends one entry and is acknowledged. */
  lemma OneEntry(c: Settings, actions: seq<(nat, Action)>, w: nat, reconcile: bool, world: World)
    returns (more: seq<(nat, Action)>)
    requires var m := Run(c, actions); w !in m.runners && Decide(c, reconcile, m.journal, world).Some?
    ensures var m := Run(c, actions);
            && Run(c, more).journal
               == m.journal + [NextEntry(c, m.journal, Decide(c, reconcile, m.journal, world).value)]
            && Run(c, more).runners.Keys == m.runners.Keys + {w}
  {
    hide Decide, Run;
    var begun := actions + [(w, Begin(reconcile))];
    var loaded := begun + [(w, Load)];
    var decided := loaded + [(w, Act(world))];
    more := decided + [(w, Append(true, true))];
    RunAppend(c, actions, w, Begin(reconcile));
    RunAppend(c, begun, w, Load);
    RunAppend(c, loaded, w, Act(world));
    RunAppend(c, decided, w, Append(true, true));
  }

  lemma {:induction false} ReachesGrown(c: Settings, journal: seq<Entry>) returns (actions: seq<(nat, Action)>)
    requires Grown(c, journal)
    ensures Run(c, actions).journal == journal
    ensures forall w :: w in Run(c, actions).runners ==> w < |journal|
  {
    if |journal| == 0 {
      actions := [];
    } else {
      var n := |journal| - 1;
      GrownPrefix(c, journal, n);
      GrownSequence(c, journal[..n]);
      assert GrownAt(c, journal, n);
      var reconcile, w :| Decide(c, reconcile, journal[..n], w) == Some(journal[n].payload);
      hide Decide, Run, Grown;
      var before := ReachesGrown(c, journal[..n]);
      actions := OneEntry(c, before, n, reconcile, w);
      assert journal == journal[..n] + [journal[n]];
    }
  }

  /** Exactly the journals grown one decision at a time are left by some interleaving. */
  lemma ReachedIffGrown(c: Settings, journal: seq<Entry>)
    ensures (exists actions :: Run(c, actions).journal == journal) <==> Grown(c, journal)
  {
    if Grown(c, journal) {
      var actions := ReachesGrown(c, journal);
    }
    forall actions | Run(c, actions).journal == journal ensures Grown(c, journal) {
      ReachableInv(c, actions);
      hide Grown, Run, RunnerOk;
    }
  }

  // ------------------------------------------------------------------
  // Runner.append over a journal whose acknowledgements can be lost.
  // ------------------------------------------------------------------

  /** A compare-and-append journal. What the network does, and what other runners append in the
      meantime, is decided outside. */
  class JournalStore {
    const c: Settings
    var entries: seq<Entry>

    constructor (settings: Settings)
      ensures c == settings && entries == []
    {
      c := settings;
      entries := [];
    }

    /** Append commits only right after the expected sequence; acknowledged says whether the
        caller learns of it. */
    method CompareAndAppend(expected: nat, payload: Payload, reachable: bool, acknowledged: bool)
      returns (ok: bool, ghost committed: bool)
      modifies this
      ensures committed <==> reachable && LastSequence(old(entries)) == expected
      ensures entries == old(entries) + (if committed then [Entry(c.invocation, expected + 1, payload)] else [])
      ensures ok <==> committed && acknowledged
    {
      committed := reachable && LastSequence(entries) == expected;
      if reachable && LastSequence(entries) == expected {
        entries := entries + [Entry(c.invocation, expected + 1, payload)];
        ok := acknowledged;
      } else {
        ok := false;
      }
    }

    /** Runner.append: on an error it reads the journal again, and takes an entry found in its
        place with the same content for its own. It commits at most one entry, in the place
        after the entries it started from, and reports success only when that place holds it. */
    method AppendOnce(local: seq<Entry>, payload: Payload, reachable: bool, acknowledged: bool, others: seq<Entry>,
                      loads: bool)
      returns (current: Option<seq<Entry>>, ghost committed: bool)
      requires local <= entries && LastSequence(local) == |local| && LastSequence(entries) == |entries|
      modifies this
      ensures entries == old(entries) + (if committed then [NextEntry(c, local, payload)] else [])
                         + (if reachable && acknowledged && committed then [] else others)
      ensures committed ==> old(entries) == local
      ensures current.Some? ==>
                && local <= current.value <= entries && |current.value| > |local|
                && current.value[|local|].payload == payload && current.value[|local|].sequence == |local| + 1
      ensures committed && loads ==> current.Some?
    {
      var ok;
      ok, committed := CompareAndAppend(LastSequence(local), payload, reachable, acknowledged);
      if ok {
        return Some(local + [NextEntry(c, local, payload)]), committed;
      }
      entries := entries + others;
      if !loads {
        return None, committed;
      }
      var reread := entries;
      if |reread| > |local| {
        var last := reread[|local|];
        if last.sequence == LastSequence(local) + 1 && last.payload == payload {
          return Some(reread), committed;
        }
      }
      return None, committed;
    }
  }
}
