/** What each entry of the turn journal records: the final tool's verdict, a tool's own output or
    error, the model's own turn, over every run. See agentruntime/runtime.go.
 */
module AgentDecisions {
  import opened Orders
  import opened Ids
  import opened Journal
  import opened AgentRun

  /** The call a runner that read these entries handles next. */
  ghost predicate Pends(c: Settings, entries: seq<Entry>, call: Call) {
    && Replay(c, entries).Some? && Replay(c, entries).value.complete.None?
    && |Replay(c, entries).value.outstanding| > 0 && Replay(c, entries).value.outstanding[0] == call
  }

  lemma PendsNonempty(c: Settings, entries: seq<Entry>, call: Call)
    requires Pends(c, entries, call)
    ensures |entries| > 0
  {
  }

  /** A final submission finishes exactly when it is finalized and then not refused; a failure is
      recorded with its own text exactly when more than one submission is allowed; otherwise
      nothing is appended. */
  lemma FinalDecision(c: Settings, entries: seq<Entry>, call: Call, w: World)
    requires Pends(c, entries, call) && !c.finalTool.Empty() && call.name == c.finalTool
    ensures var d, f, v := Decide(c, false, entries, w), c.finalize(call.arguments), w.validationError;
            && (forall t :: d == Some(Finished(t)) <==> f == Some(t) && v.None?)
            && (forall e :: d == Some(ToolDone(Result(call.id, call.name, NULL, e))) <==>
                  c.maxFinalSubmissions > 1 && ((f.None? && e == w.finalizeError) || (f.Some? && v == Some(e))))
            && (d.None? <==> c.maxFinalSubmissions <= 1 && (f.None? || v.Some?))
  {
    PendsNonempty(c, entries, call);
    hide Replay;
  }

  /** The result of any other tool is the one it gave: its error, or its output when that is JSON;
      an uncertain outcome appends nothing. */
  lemma ToolDecision(c: Settings, entries: seq<Entry>, call: Call, w: World)
    requires Pends(c, entries, call) && (c.finalTool.Empty() || call.name != c.finalTool)
    ensures var d := Decide(c, false, entries, w);
            && (w.uncertain ==> d.None?)
            && (!w.uncertain && w.toolError.Some? ==>
                  d == Some(ToolDone(Result(call.id, call.name, NULL, w.toolError.value))))
            && (!w.uncertain && w.toolError.None? && w.output.valid ==>
                  d == Some(ToolDone(Result(call.id, call.name, w.output, Text("")))))
            && (!w.uncertain && w.toolError.None? && !w.output.valid ==> d.None?)
  {
    PendsNonempty(c, entries, call);
    hide Replay;
  }

  /** Reconciling records an output only of an effect that the ledger shows applied. */
  lemma ReconcileDecision(c: Settings, entries: seq<Entry>, call: Call, w: World)
    requires Pends(c, entries, call)
    ensures var d := Decide(c, true, entries, w);
            && (d.Some? <==> c.handles(call.name) && w.applied && w.output.valid)
            && (d.Some? ==> d.value == ToolDone(Result(call.id, call.name, w.output, Text(""))))
  {
    PendsNonempty(c, entries, call);
    hide Replay;
  }

  /** With nothing pending: a spoken answer is finished with its own text, otherwise the model's
      own valid completion is appended, unless a limit is reached. */
  lemma TurnDecision(c: Settings, entries: seq<Entry>, w: World)
    requires |entries| > 0 && Replay(c, entries).Some? && Replay(c, entries).value.complete.None?
    requires Replay(c, entries).value.outstanding == []
    ensures var d, last := Decide(c, false, entries, w), entries[|entries| - 1].payload;
            var turns := Replay(c, entries).value.turns;
            var used := !c.finalTool.Empty() && c.maxFinalSubmissions > 1
                && FinalErrors(c, entries) >= c.maxFinalSubmissions;
            var spoke := c.finalTool.Empty() && turns > 0 && last.ModelTurn? && last.completion.calls == [];
            && Decide(c, true, entries, w).None?
            && (forall t :: d == Some(Finished(t)) <==> !used && spoke && t == last.completion.text)
            && (forall x :: d == Some(ModelTurn(x)) <==>
                  && !used && !spoke && (c.maxTurns == 0 || turns < c.maxTurns)
                  && x == w.completion && CompletionOk(x, c.finalTool))
  {
    hide Replay, CompletionOk, FinalErrors;
  }

  /** The first entry records the runner's own settings, and the recalled context only if it is
      well formed. */
  lemma StartDecision(c: Settings, w: World)
    ensures Decide(c, true, [], w).None?
    ensures Decide(c, false, [], w).Some? && Decide(c, false, [], w).value.Started?
    ensures var s := Decide(c, false, [], w).value.start;
            && s.digest == c.digest && s.prompt == c.prompt && s.system == c.system && s.finalTool == c.finalTool
            && s.authority == c.authority
            && (Recallable(w.context) ==> s.context == w.context)
            && (!Recallable(w.context) ==> s.context == Context(Text(""), Text(""), Text("INVALID_RESPONSE")))
  {
  }

  /** A context that may be recalled: bounded, with a status, and marked available if it says
      anything. */
  predicate Recallable(x: Context) {
    && 0 < |x.status.value| < 65 && |x.trace.value| < 65 && |x.block.value| < 4097
    && (x.block == Text("") || x.status == Text("AVAILABLE"))
  }

  /** Replay takes up a journal only for the request, prompts, final tool and authority it was
      started with, and with a context that could have been recalled. */
  lemma {:induction false} SameSettings(c: Settings, entries: seq<Entry>)
    requires Replay(c, entries).Some?
    ensures |entries| > 0 && entries[0].payload.Started? && entries[0].invocation == c.invocation
    ensures var s := entries[0].payload.start;
            && s.digest == c.digest && s.prompt == c.prompt && s.system == c.system && s.finalTool == c.finalTool
            && s.authority == c.authority && (s.context.status == Text("") ==> s.context.block == Text(""))
            && (s.context.status != Text("") ==> Recallable(s.context))
  {
    var n := |entries| - 1;
    if n == 0 {
    } else {
      hide ReplayStep, StartOk, Recallable;
      SameSettings(c, entries[..n]);
    }
  }

  // ------------------------------------------------------------------
  // The transcript the model sees.
  // ------------------------------------------------------------------

  /** What one entry adds. */
  function Spoken(p: Payload): seq<Message> {
    match p
    case ModelTurn(r) => [Message(AssistantRole, r.text, r.calls, None, Text(""))]
    case ToolDone(r) =>
      [Message(ToolRole, if r.error == Text("") then Text(r.output.text) else Text("\"" + r.error.value + "\""), [],
               Some(r.call), r.name)]
    case _ => []
  }

  function SpokenUpTo(entries: seq<Entry>): seq<Message> {
    if |entries| == 0 then [] else SpokenUpTo(entries[..|entries| - 1]) + Spoken(entries[|entries| - 1].payload)
  }

  /** The transcript: the system prompt if there is one, the prompt with what was recalled, then
      every turn and every result in order. */
  lemma {:induction false} TranscriptReads(c: Settings, entries: seq<Entry>)
    requires Replay(c, entries).Some?
    ensures entries[0].payload.Started?
    ensures var block := entries[0].payload.start.context.block;
            var recalled := if block == Text("") then "" else RECALLED + block.value;
            var user := Message(UserRole, Text(c.prompt.value + recalled), [], None, Text(""));
            var system := if c.system == Text("") then [] else [Message(SystemRole, c.system, [], None, Text(""))];
            Replay(c, entries).value.messages == system + [user] + SpokenUpTo(entries)
  {
    var n := |entries| - 1;
    if n == 0 {
      assert entries[..0] == [] && SpokenUpTo(entries[..0]) == [];
      assert SpokenUpTo(entries) == [];
      var block := entries[0].payload.start.context.block;
      assert c.prompt.value + "" == c.prompt.value;
      assert c.prompt.value + RECALLED + block.value == c.prompt.value + (RECALLED + block.value);
      assert block.Empty() <==> block == Text("");
      assert c.system.Empty() <==> c.system == Text("");
      hide StartOk, RECALLED;
    } else {
      TranscriptReads(c, entries[..n]);
      StepSpeaks(c, Replay(c, entries[..n]).value, entries[n].payload);
      hide ReplayStep, StartOk, Spoken;
    }
  }

  lemma StepSpeaks(c: Settings, p: Progress, payload: Payload)
    requires ReplayStep(c, p, payload).Some?
    ensures ReplayStep(c, p, payload).value.messages == p.messages + Spoken(payload)
  {
    hide CompletionOk, CallIds;
  }

  // ------------------------------------------------------------------
  // After a lost acknowledgement.
  // ------------------------------------------------------------------

  /** A runner that was not told whether its entry was committed reads the journal again, and goes
      on exactly when its own entry stands in its own place. */
  lemma ReloadIff(c: Settings, m: Machine, w: nat)
    requires At(m, w).Reloading?
    ensures var r, t := At(m, w), Step(c, m, w, Reload);
            var n := |r.entries|;
            var mine := |m.journal| > n && m.journal[n].sequence == LastSequence(r.entries) + 1
                && m.journal[n].payload == r.payload;
            && t.journal == m.journal
            && (mine && !r.payload.Finished? ==> At(t, w) == Looping(r.reconcile, m.journal))
            && (!mine || r.payload.Finished? ==> At(t, w).Ended?)
  {
  }

  /** A committed entry whose acknowledgement was lost is found again, and the runner goes on from
      it as if it had been told. */
  lemma LostAcknowledgement(c: Settings, m: Machine, w: nat)
    requires At(m, w).Appending? && At(m, w).entries == m.journal
    ensures var told := Step(c, m, w, Append(true, true));
            var lost := Step(c, Step(c, m, w, Append(true, false)), w, Reload);
            told.journal == lost.journal && At(told, w) == At(lost, w)
  {
    hide Decide;
    var r := At(m, w);
    var lost := Step(c, m, w, Append(true, false));
    assert At(lost, w) == Reloading(r.reconcile, r.entries, r.payload);
    assert lost.journal == m.journal + [NextEntry(c, m.journal, r.payload)];
    ReloadIff(c, lost, w);
  }


  lemma CompleteDecidesNothing(c: Settings, entries: seq<Entry>, reconcile: bool, w: World)
    requires |entries| > 0 && (Replay(c, entries).None? || Replay(c, entries).value.complete.Some?)
    ensures Decide(c, reconcile, entries, w).None?
  {
    hide Replay;
  }

  // ------------------------------------------------------------------
  // Over every run, with the answers the outside actually gave.
  // ------------------------------------------------------------------

  /** Some runner decided on the payload, after reading the entries, from what the outside
      answered it in that very step of the run. */
  ghost predicate Enacted(c: Settings, actions: seq<(nat, Action)>, entries: seq<Entry>, payload: Payload) {
    exists k, reconcile :: EnactedAt(c, actions, entries, payload, k, reconcile)
  }

  ghost predicate EnactedAt(c: Settings, actions: seq<(nat, Action)>, entries: seq<Entry>, payload: Payload, k: int,
                            reconcile: bool) {
    && 0 <= k < |actions| && actions[k].1.Act?
    && At(Run(c, actions[..k]), actions[k].0) == Looping(reconcile, entries)
    && Decide(c, reconcile, entries, actions[k].1.world) == Some(payload)
  }

  ghost predicate AllEnacted(c: Settings, actions: seq<(nat, Action)>, m: Machine) {
    && (forall n :: 0 <= n < |m.journal| ==> Enacted(c, actions, m.journal[..n], m.journal[n].payload))
    && (forall w :: w in m.runners && m.runners[w].Appending? ==>
          Enacted(c, actions, m.runners[w].entries, m.runners[w].payload))
  }

  lemma EnactedMore(c: Settings, actions: seq<(nat, Action)>, a: (nat, Action), entries: seq<Entry>, payload: Payload)
    requires Enacted(c, actions, entries, payload)
    ensures Enacted(c, actions + [a], entries, payload)
  {
    hide Run, Decide;
    var k, reconcile :| EnactedAt(c, actions, entries, payload, k, reconcile);
    assert (actions + [a])[..k] == actions[..k];
    assert EnactedAt(c, actions + [a], entries, payload, k, reconcile);
  }

  lemma AllEnactedMore(c: Settings, actions: seq<(nat, Action)>, a: (nat, Action), m: Machine)
    requires AllEnacted(c, actions, m)
    ensures AllEnacted(c, actions + [a], m)
  {
    hide Enacted;
    forall n | 0 <= n < |m.journal| ensures Enacted(c, actions + [a], m.journal[..n], m.journal[n].payload) {
      EnactedMore(c, actions, a, m.journal[..n], m.journal[n].payload);
    }
    forall w | w in m.runners && m.runners[w].Appending?
      ensures Enacted(c, actions + [a], m.runners[w].entries, m.runners[w].payload)
    {
      EnactedMore(c, actions, a, m.runners[w].entries, m.runners[w].payload);
    }
  }

  lemma ActEnacts(c: Settings, actions: seq<(nat, Action)>, w: nat, world: World)
    requires AllEnacted(c, actions + [(w, Act(world))], Run(c, actions))
    ensures AllEnacted(c, actions + [(w, Act(world))], Step(c, Run(c, actions), w, Act(world)))
  {
    var m, more := Run(c, actions), actions + [(w, Act(world))];
    var r := At(m, w);
    if r.Looping? && Decide(c, r.reconcile, r.entries, world).Some? {
      assert more[..|actions|] == actions;
      assert EnactedAt(c, more, r.entries, Decide(c, r.reconcile, r.entries, world).value, |actions|, r.reconcile);
    }
    hide Run, Decide, EnactedAt;
  }

  lemma AppendEnacts(c: Settings, actions: seq<(nat, Action)>, m: Machine, w: nat, commit: bool, acknowledged: bool)
    requires Inv(c, m) && AllEnacted(c, actions, m)
    ensures AllEnacted(c, actions, Step(c, m, w, Append(commit, acknowledged)))
  {
    hide Enacted, Grown, Decided;
    var r, t := At(m, w), Step(c, m, w, Append(commit, acknowledged));
    if r.Appending? && t.journal != m.journal {
      assert RunnerOk(c, m.journal, r);
      PrefixSequence(c, m.journal, r.entries);
      assert r.entries == m.journal;
      forall n | 0 <= n < |t.journal| ensures Enacted(c, actions, t.journal[..n], t.journal[n].payload) {
        if n < |m.journal| {
          assert t.journal[..n] == m.journal[..n];
        } else {
          assert t.journal[..n] == m.journal;
        }
      }
    }
  }

  lemma {:induction false} RunEnacted(c: Settings, actions: seq<(nat, Action)>)
    ensures AllEnacted(c, actions, Run(c, actions))
  {
    if |actions| == 0 {
    } else {
      var n := |actions| - 1;
      RunEnacted(c, actions[..n]);
      ReachableInv(c, actions[..n]);
      var (w, a) := actions[n];
      assert actions == actions[..n] + [(w, a)];
      var m := Run(c, actions[..n]);
      hide Run, Inv;
      AllEnactedMore(c, actions[..n], (w, a), m);
      RunAppend(c, actions[..n], w, a);
      match a
      case Act(world) => ActEnacts(c, actions[..n], w, world);
      case Append(commit, acknowledged) => AppendEnacts(c, actions, m, w, commit, acknowledged);
      case _ => OtherEnacts(c, actions, m, w, a);
    }
  }

  lemma OtherEnacts(c: Settings, actions: seq<(nat, Action)>, m: Machine, w: nat, a: Action)
    requires AllEnacted(c, actions, m) && !a.Act? && !a.Append?
    ensures AllEnacted(c, actions, Step(c, m, w, a))
  {
    hide Enacted;
  }

  /** Where an entry of the journal comes from: the step of the run that decided on it. */
  lemma EntryEnacted(c: Settings, actions: seq<(nat, Action)>, n: nat) returns (k: nat, reconcile: bool)
    requires n < |Run(c, actions).journal|
    ensures var j := Run(c, actions).journal; EnactedAt(c, actions, j[..n], j[n].payload, k, reconcile)
  {
    RunEnacted(c, actions);
    var j := Run(c, actions).journal;
    assert Enacted(c, actions, j[..n], j[n].payload);
    k, reconcile :| EnactedAt(c, actions, j[..n], j[n].payload, k, reconcile);
  }

  /** In every run with a final tool, an entry that finishes it was appended after its pending
      call of that tool was finalized to that text and the validation did not refuse it. */
  lemma FinishedWasValidated(c: Settings, actions: seq<(nat, Action)>, n: nat) returns (k: nat, call: Call)
    requires n < |Run(c, actions).journal| && Run(c, actions).journal[n].payload.Finished? && !c.finalTool.Empty()
    ensures k < |actions| && actions[k].1.Act? && actions[k].1.world.validationError.None?
    ensures Pends(c, Run(c, actions).journal[..n], call) && call.name == c.finalTool
    ensures c.finalize(call.arguments) == Some(Run(c, actions).journal[n].payload.text)
  {
    var reconcile;
    k, reconcile := EntryEnacted(c, actions, n);
    var before := Run(c, actions).journal[..n];
    hide Run, Replay;
    call := FinishPends(c, before, reconcile, actions[k].1.world);
    FinalDecision(c, before, call, actions[k].1.world);
  }

  lemma FinishPends(c: Settings, entries: seq<Entry>, reconcile: bool, w: World) returns (call: Call)
    requires !c.finalTool.Empty() && Decide(c, reconcile, entries, w).Some?
    requires Decide(c, reconcile, entries, w).value.Finished?
    ensures !reconcile && Pends(c, entries, call) && call.name == c.finalTool
  {
    hide Replay, FinalErrors, CompletionOk;
    assert |entries| > 0;
    call := Replay(c, entries).value.outstanding[0];
  }

  /** The result is the tool's own, as the outside gave it to a runner. */
  ghost predicate Given(c: Settings, call: Call, r: Result, w: World) {
    && r.call == call.id && r.name == call.name
    && (|| (r.output == w.output && w.output.valid && r.error.Empty())
        || (r.output == NULL && !w.uncertain && w.toolError == Some(r.error)))
  }

  /** In every run, the result recorded for any other tool is the output or the error that the
      tool gave, for the call that was pending. */
  lemma ResultWasGiven(c: Settings, actions: seq<(nat, Action)>, n: nat) returns (k: nat, call: Call)
    requires n < |Run(c, actions).journal| && Run(c, actions).journal[n].payload.ToolDone?
    requires c.finalTool.Empty() || Run(c, actions).journal[n].payload.result.name != c.finalTool
    ensures k < |actions| && actions[k].1.Act?
    ensures Pends(c, Run(c, actions).journal[..n], call)
    ensures Given(c, call, Run(c, actions).journal[n].payload.result, actions[k].1.world)
  {
    var reconcile;
    k, reconcile := EntryEnacted(c, actions, n);
    var before := Run(c, actions).journal[..n];
    hide Run, Replay;
    call := DonePends(c, before, reconcile, actions[k].1.world);
    if reconcile {
      ReconcileDecision(c, before, call, actions[k].1.world);
    } else {
      ToolDecision(c, before, call, actions[k].1.world);
    }
  }

  lemma DonePends(c: Settings, entries: seq<Entry>, reconcile: bool, w: World) returns (call: Call)
    requires Decide(c, reconcile, entries, w).Some? && Decide(c, reconcile, entries, w).value.ToolDone?
    ensures Pends(c, entries, call) && call.name == Decide(c, reconcile, entries, w).value.result.name
  {
    hide Replay, FinalErrors, CompletionOk;
    assert |entries| > 0;
    call := Replay(c, entries).value.outstanding[0];
  }

  /** In every run, a result recorded for the final tool is the refusal, by Finalize or by the
      validation, that the outside gave; or, if that tool is itself an effect, the output of one that
      was reconciled. */
  lemma RefusalWasGiven(c: Settings, actions: seq<(nat, Action)>, n: nat) returns (k: nat, call: Call)
    requires n < |Run(c, actions).journal| && Run(c, actions).journal[n].payload.ToolDone?
    requires !c.finalTool.Empty() && Run(c, actions).journal[n].payload.result.name == c.finalTool
    ensures k < |actions| && actions[k].1.Act? && Pends(c, Run(c, actions).journal[..n], call)
    ensures call.name == c.finalTool && Run(c, actions).journal[n].payload.result.call == call.id
    ensures var r, w := Run(c, actions).journal[n].payload.result, actions[k].1.world;
            || (&& c.maxFinalSubmissions > 1 && r.output == NULL
                && (if c.finalize(call.arguments).None? then r.error == w.finalizeError
                    else w.validationError == Some(r.error)))
            || (c.handles(call.name) && w.applied && w.output.valid && r.output == w.output && r.error.Empty())
  {
    var reconcile;
    k, reconcile := EntryEnacted(c, actions, n);
    var before := Run(c, actions).journal[..n];
    hide Run, Replay;
    call := DonePends(c, before, reconcile, actions[k].1.world);
    ReconcileDecision(c, before, call, actions[k].1.world);
    FinalDecision(c, before, call, actions[k].1.world);
  }
}
