/** What the journals of Run and ReconcilePendingEffects satisfy: when replay accepts them, how
    many turns and failed submissions they hold.
 */
module AgentRunBounds {
  import opened Orders
  import opened Ids
  import opened Journal
  import opened AgentRun

  // ------------------------------------------------------------------
  // Facts about accepted journals.
  // ------------------------------------------------------------------

  /** A pending call of the final tool is the only pending call. */
  ghost predicate FinalAlone(c: Settings, p: Progress) {
    forall k :: 0 <= k < |p.outstanding| && IsFinal(c, p.outstanding[k]) ==> |p.outstanding| == 1
  }

  lemma StepFinalAlone(c: Settings, p: Progress, payload: Payload)
    requires FinalAlone(c, p) && ReplayStep(c, p, payload).Some?
    ensures FinalAlone(c, ReplayStep(c, p, payload).value)
  {
    hide Blank, Distinct, Map;
    var q := ReplayStep(c, p, payload).value;
    assert payload.ToolDone? ==> forall k :: 0 <= k < |q.outstanding| ==> q.outstanding[k] == p.outstanding[k + 1];
    assert payload.ModelTurn? ==> forall k :: 0 <= k < |q.outstanding| ==> q.outstanding[k] in payload.completion.calls;
  }

  lemma {:induction false} AcceptedFinalAlone(c: Settings, entries: seq<Entry>)
    requires Replay(c, entries).Some?
    ensures FinalAlone(c, Replay(c, entries).value)
  {
    hide ReplayStep, StartOk, Placed;
    if |entries| <= 1 {
    } else {
      AcceptedFinalAlone(c, entries[..|entries| - 1]);
      StepFinalAlone(c, Replay(c, entries[..|entries| - 1]).value, entries[|entries| - 1].payload);
    }
  }

  /** A plain-text answer waiting to be recorded is the last entry. */
  ghost predicate AnswerIsLast(c: Settings, entries: seq<Entry>, p: Progress) {
    && (p.complete.None? && p.finalText.Some? ==>
          LastSpoke(c, entries, p) && p.outstanding == []
              && p.finalText == Some(entries[|entries| - 1].payload.completion.text))
    && (LastSpoke(c, entries, p) ==> p.finalText.Some?)
  }

  lemma {:induction false} AcceptedAnswer(c: Settings, entries: seq<Entry>)
    requires Replay(c, entries).Some?
    ensures AnswerIsLast(c, entries, Replay(c, entries).value)
  {
    if |entries| > 1 {
      AcceptedAnswer(c, entries[..|entries| - 1]);
      hide StartOk, Placed, CompletionOk, CallIds;
    } else {
      hide StartOk, Placed, CompletionOk;
    }
  }

  function Turns(entries: seq<Entry>): nat {
    if |entries| == 0 then 0
    else Turns(entries[..|entries| - 1]) + (if entries[|entries| - 1].payload.ModelTurn? then 1 else 0)
  }

  lemma {:induction false} AcceptedTurns(c: Settings, entries: seq<Entry>)
    requires Replay(c, entries).Some?
    ensures Replay(c, entries).value.turns == Turns(entries)
  {
    if |entries| > 1 {
      AcceptedTurns(c, entries[..|entries| - 1]);
    } else {
      assert entries[..0] == [];
    }
    hide StartOk, Placed, CompletionOk, CallIds;
  }

  // ------------------------------------------------------------------
  // A decision extends an accepted journal, unless it repeats a call id.
  // ------------------------------------------------------------------

  predicate FreshCalls(p: Progress, payload: Payload) {
    payload.ModelTurn? ==> CallIds(payload.completion.calls) * p.seen == {}
  }

  lemma ToolDecisionSteps(c: Settings, p: Progress, payload: Payload)
    requires p.complete.None? && |p.outstanding| > 0 && payload.ToolDone?
    requires payload.result.call == p.outstanding[0].id && payload.result.name == p.outstanding[0].name
             && payload.result.output.valid
    ensures ReplayStep(c, p, payload).Some?
  {
  }

  lemma FinalDecisionSteps(c: Settings, p: Progress, w: World)
    requires p.complete.None? && |p.outstanding| > 0 && FinalAlone(c, p) && IsFinal(c, p.outstanding[0])
    requires DecideFinal(c, p.outstanding[0], w).Some?
    ensures ReplayStep(c, p, DecideFinal(c, p.outstanding[0], w).value).Some?
  {
  }

  lemma TurnDecisionSteps(c: Settings, entries: seq<Entry>, p: Progress, w: World)
    requires p.complete.None? && |p.outstanding| == 0 && AnswerIsLast(c, entries, p)
             && DecideTurn(c, entries, p, w).Some?
    ensures var payload := DecideTurn(c, entries, p, w).value;
            ReplayStep(c, p, payload).Some? <==> FreshCalls(p, payload)
  {
    hide CompletionOk, CallIds, FinalErrors;
  }

  lemma DecisionSteps(c: Settings, entries: seq<Entry>, reconcile: bool, w: World)
    requires |entries| > 0 && Decide(c, reconcile, entries, w).Some?
    ensures Replay(c, entries).Some? && Replay(c, entries).value.complete.None?
    ensures var payload := Decide(c, reconcile, entries, w).value;
            ReplayStep(c, Replay(c, entries).value, payload).Some? <==> FreshCalls(Replay(c, entries).value, payload)
  {
    hide Replay, ReplayStep, DecideTurn, FinalErrors;
    AcceptedFinalAlone(c, entries);
    AcceptedAnswer(c, entries);
    var p := Replay(c, entries).value;
    hide AnswerIsLast;
    if reconcile {
      ToolDecisionSteps(c, p, Decide(c, reconcile, entries, w).value);
    } else if |p.outstanding| == 0 {
      TurnDecisionSteps(c, entries, p, w);
    } else if IsFinal(c, p.outstanding[0]) {
      FinalDecisionSteps(c, p, w);
    } else {
      ToolDecisionSteps(c, p, Decide(c, reconcile, entries, w).value);
    }
  }

  lemma FirstAccepted(c: Settings, e: Entry)
    requires e == Entry(c.invocation, 1, e.payload) && Decided(c, [], e.payload)
    ensures Replay(c, [e]).Some? && e.payload.Started?
  {
    var reconcile, w :| Decide(c, reconcile, [], w) == Some(e.payload);
  }

  /** The journal before the last decision was accepted, and the whole one is accepted unless
      the last turn repeats a call id. */
  lemma GrownLast(c: Settings, entries: seq<Entry>)
    requires Grown(c, entries) && |entries| > 1
    ensures var n := |entries| - 1;
            && Replay(c, entries[..n]).Some? && Replay(c, entries[..n]).value.complete.None?
            && (Replay(c, entries).Some? <==> FreshCalls(Replay(c, entries[..n]).value, entries[n].payload))
  {
    var n := |entries| - 1;
    assert GrownAt(c, entries, n);
    var reconcile, w :| Decide(c, reconcile, entries[..n], w) == Some(entries[n].payload);
    assert !entries[n].payload.Malformed? by { NeverMalformed(c, reconcile, entries[..n], w); }
    DecisionSteps(c, entries[..n], reconcile, w);
    hide Decide, ReplayStep, Grown, FreshCalls, StartOk;
  }

  lemma NeverMalformed(c: Settings, reconcile: bool, entries: seq<Entry>, w: World)
    requires Decide(c, reconcile, entries, w).Some?
    ensures !Decide(c, reconcile, entries, w).value.Malformed?
  {
    hide Replay, FinalErrors, CompletionOk, LastSpoke;
  }

  /** Every journal the runners can leave is accepted by replay if and only if no call id
      occurs twice in it. */
  lemma AcceptedIffFresh(c: Settings, entries: seq<Entry>)
    requires Grown(c, entries) && |entries| > 0
    ensures Replay(c, entries).Some? <==> Distinct(CalledIds(entries))
  {
    var n := |entries| - 1;
    if n == 0 {
      assert GrownAt(c, entries, 0);
      assert entries == [entries[0]] && entries[..0] == [];
      FirstAccepted(c, entries[0]);
    } else {
      GrownLast(c, entries);
      if Replay(c, entries).Some? {
        hide Replay, Grown, CalledIds;
        ResultsFollowCalls(c, entries);
      } else {
        ResultsFollowCalls(c, entries[..n]);
        RepeatedIds(Replay(c, entries[..n]).value, CalledIds(entries[..n]), entries[n].payload.completion.calls);
        hide Replay, Grown;
      }
    }
  }

  lemma RepeatedIds(p: Progress, called: seq<CallId>, calls: seq<Call>)
    requires p.seen == (set x | x in called) && CallIds(calls) * p.seen != {}
    ensures !Distinct(called + Map(IdOf, calls))
  {
    var x :| x in CallIds(calls) * p.seen;
    var ids := Map(IdOf, calls);
    var i :| 0 <= i < |called| && called[i] == x;
    var j :| 0 <= j < |ids| && ids[j] == x;
    assert (called + ids)[i] == (called + ids)[|called| + j];
  }

  /** Run checks a new turn's ids only against each other, so a reused id is appended; from then
      on every runner stops and the journal never changes again. */
  lemma PoisonedIsFinal(c: Settings, m: Machine, w: nat, a: Action)
    requires Inv(c, m) && |m.journal| > 0 && Replay(c, m.journal).None?
    ensures Step(c, m, w, a).journal == m.journal
  {
    var r := At(m, w);
    if a.Append? && r.Appending? {
      assert RunnerOk(c, m.journal, r);
      PrefixSequence(c, m.journal, r.entries);
      if |r.entries| == |m.journal| {
        var reconcile, x :| Decide(c, reconcile, r.entries, x) == Some(r.payload);
        hide Grown;
      } else {
        hide Grown, Decided, Replay;
      }
    } else {
      hide Inv, Replay, Decide;
    }
  }

  // ------------------------------------------------------------------
  // Bounds.
  // ------------------------------------------------------------------

  lemma TurnDecidedWithin(c: Settings, entries: seq<Entry>, reconcile: bool, w: World)
    requires |entries| > 0 && Decide(c, reconcile, entries, w).Some?
             && Decide(c, reconcile, entries, w).value.ModelTurn?
    ensures Replay(c, entries).Some?
    ensures c.maxTurns > 0 ==> Replay(c, entries).value.turns < c.maxTurns
    ensures !c.finalTool.Empty() && c.maxFinalSubmissions > 1 ==> FinalErrors(c, entries) < c.maxFinalSubmissions
  {
    hide Replay, FinalErrors, CompletionOk, LastSpoke;
  }

  /** The model is never asked for more turns than a positive MaxTurns allows. */
  lemma {:induction false} TurnsBounded(c: Settings, entries: seq<Entry>)
    requires Grown(c, entries) && c.maxTurns > 0
    ensures Turns(entries) <= c.maxTurns
  {
    if |entries| == 0 {
    } else {
      var n := |entries| - 1;
      GrownPrefix(c, entries, n);
      TurnsBounded(c, entries[..n]);
      assert GrownAt(c, entries, n);
      var reconcile, w :| Decide(c, reconcile, entries[..n], w) == Some(entries[n].payload);
      if entries[n].payload.ModelTurn? && n > 0 {
        TurnDecidedWithin(c, entries[..n], reconcile, w);
        AcceptedTurns(c, entries[..n]);
      } else if n == 0 {
        FirstIsStart(c, reconcile, w);
        assert entries[..0] == [];
      }
      hide Decide, Grown, Replay;
    }
  }

  lemma FirstIsStart(c: Settings, reconcile: bool, w: World)
    requires Decide(c, reconcile, [], w).Some?
    ensures Decide(c, reconcile, [], w).value.Started?
  {
  }

  /** While a submission is pending, the budget is not used up. */
  ghost predicate WithinBudget(c: Settings, entries: seq<Entry>) {
    && FinalErrors(c, entries) <= c.maxFinalSubmissions
    && (Replay(c, entries).Some? && Replay(c, entries).value.complete.None? ==>
          forall k ::
            0 <= k < |Replay(c, entries).value.outstanding| && IsFinal(c, Replay(c, entries).value.outstanding[k]) ==>
            FinalErrors(c, entries) < c.maxFinalSubmissions)
  }

  lemma BudgetStep(c: Settings, entries: seq<Entry>)
    requires Grown(c, entries) && |entries| > 1 && c.maxFinalSubmissions > 1 && !c.finalTool.Empty()
    requires WithinBudget(c, entries[..|entries| - 1])
    ensures WithinBudget(c, entries)
  {
    var n := |entries| - 1;
    assert GrownAt(c, entries, n);
    var reconcile, w :| Decide(c, reconcile, entries[..n], w) == Some(entries[n].payload);
    GrownLast(c, entries);
    var p, payload := Replay(c, entries[..n]).value, entries[n].payload;
    DecisionSteps(c, entries[..n], reconcile, w);
    AcceptedFinalAlone(c, entries[..n]);
    if payload.ModelTurn? {
      TurnDecidedWithin(c, entries[..n], reconcile, w);
      hide Decide, Grown, CompletionOk, CallIds, StartOk;
    } else {
      if payload.ToolDone? {
        DoneNamesPending(c, reconcile, entries[..n], w);
        assert forall k :: 0 <= k < |p.outstanding[1..]| ==> p.outstanding[1..][k] == p.outstanding[k + 1];
      }
      hide Decide, Grown, CompletionOk, CallIds, StartOk;
    }
  }

  lemma DoneNamesPending(c: Settings, reconcile: bool, entries: seq<Entry>, w: World)
    requires |entries| > 0 && Decide(c, reconcile, entries, w).Some? && Decide(c, reconcile, entries, w).value.ToolDone?
    ensures Replay(c, entries).Some? && |Replay(c, entries).value.outstanding| > 0
    ensures Decide(c, reconcile, entries, w).value.result.name == Replay(c, entries).value.outstanding[0].name
  {
    hide Replay, FinalErrors, CompletionOk, LastSpoke;
  }

  lemma {:induction false} BudgetKept(c: Settings, entries: seq<Entry>)
    requires Grown(c, entries) && c.maxFinalSubmissions > 1 && !c.finalTool.Empty()
    ensures WithinBudget(c, entries)
  {
    var n := |entries| - 1;
    if n > 0 {
      GrownPrefix(c, entries, n);
      hide Grown, WithinBudget;
      BudgetKept(c, entries[..n]);
      BudgetStep(c, entries);
    } else if n == 0 {
      assert GrownAt(c, entries, 0);
      assert entries[..0] == [];
      var reconcile, w :| Decide(c, reconcile, [], w) == Some(entries[0].payload);
      FirstIsStart(c, reconcile, w);
      assert FinalErrors(c, entries) == FinalErrors(c, entries[..0]) == 0;
      assert Replay(c, entries).Some? ==> Replay(c, entries).value.outstanding == [];
      hide Decide, Grown, StartOk;
    }
  }

  /** With more than one submission allowed, no more than that many recorded failures occur. */
  lemma SubmissionsBounded(c: Settings, entries: seq<Entry>)
    requires Grown(c, entries) && c.maxFinalSubmissions > 1 && !c.finalTool.Empty()
    ensures FinalErrors(c, entries) <= c.maxFinalSubmissions
  {
    hide Grown;
    BudgetKept(c, entries);
  }

  /** Every result recorded for the final tool. */
  function Submissions(c: Settings, entries: seq<Entry>): nat {
    if |entries| == 0 then 0
    else
      var p := entries[|entries| - 1].payload;
      Submissions(c, entries[..|entries| - 1]) + (if p.ToolDone? && p.result.name == c.finalTool then 1 else 0)
  }

  ghost predicate ErrorsNamed(c: Settings, entries: seq<Entry>) {
    forall i :: 0 <= i < |entries| && entries[i].payload.ToolDone? && entries[i].payload.result.name == c.finalTool ==>
      !entries[i].payload.result.error.Empty()
  }

  /** The counted failures are all the recorded submissions exactly when each has an error text. */
  lemma {:induction false} AllCountedIff(c: Settings, entries: seq<Entry>)
    ensures FinalErrors(c, entries) <= Submissions(c, entries)
    ensures Submissions(c, entries) == FinalErrors(c, entries) <==> ErrorsNamed(c, entries)
  {
    if |entries| == 0 {
      assert Submissions(c, entries) == 0;
    } else {
      var n := |entries| - 1;
      AllCountedIff(c, entries[..n]);
      assert entries == entries[..n] + [entries[n]];
      NamedMore(c, entries);
    }
  }

  lemma NamedMore(c: Settings, entries: seq<Entry>)
    requires |entries| > 0
    ensures var n := |entries| - 1;
            ErrorsNamed(c, entries) <==>
              ErrorsNamed(c, entries[..n]) && ErrorsNamed(c, [entries[n]])
  {
    var n := |entries| - 1;
    assert [entries[n]][0] == entries[n];
    assert forall i :: 0 <= i < n ==> entries[..n][i] == entries[i];
  }

  /** When every failure carries an error text, failed submissions never exceed the limit. */
  lemma FailedSubmissionsBounded(c: Settings, entries: seq<Entry>)
    requires Grown(c, entries) && c.maxFinalSubmissions > 1 && !c.finalTool.Empty() && ErrorsNamed(c, entries)
    ensures Submissions(c, entries) <= c.maxFinalSubmissions
  {
    hide Grown;
    AllCountedIff(c, entries);
    SubmissionsBounded(c, entries);
  }

  // ------------------------------------------------------------------
  // The hypotheses are needed.
  // ------------------------------------------------------------------

  function Id(n: nat): CallId {
    CallId(seq(n + 1, _ => 'x'))
  }

  lemma IdsDiffer(m: nat, n: nat)
    requires m != n
    ensures Id(m) != Id(n)
  {
    assert |Id(m).text| == m + 1 && |Id(n).text| == n + 1;
  }

  function Submission(c: Settings, n: nat): Call {
    Call(Id(n), c.finalTool, NULL)
  }

  /** A start followed by k submissions refused with an empty error text. */
  function RefusedJournal(c: Settings, w: World, k: nat): seq<Entry> {
    if k == 0 then [Entry(c.invocation, 1, Started(StartOf(c, w)))]
    else
      RefusedJournal(c, w, k - 1)
      + [Entry(c.invocation, 2 * k, ModelTurn(Completion(Text(""), [Submission(c, k - 1)]))),
         Entry(c.invocation, 2 * k + 1, ToolDone(Result(Id(k - 1), c.finalTool, NULL, Text(""))))]
  }

  ghost predicate Refused(c: Settings, j: seq<Entry>, k: nat) {
    && |j| == 2 * k + 1 && Grown(c, j) && Replay(c, j).Some? && Submissions(c, j) == k && FinalErrors(c, j) == 0
    && var p := Replay(c, j).value;
    && p.outstanding == [] && p.complete.None? && p.finalText.None?
    && forall x :: x in p.seen ==> exists i :: 0 <= i < k && x == Id(i)
  }

  lemma {:induction false} RefusedGrown(c: Settings, w: World, k: nat)
    requires !c.finalTool.Empty() && c.maxFinalSubmissions > 1 && c.maxTurns == 0 && c.finalize(NULL).None?
    requires w.finalizeError == Text("")
    ensures Refused(c, RefusedJournal(c, w, k), k)
  {
    if k == 0 {
      RefusedStart(c, w);
    } else {
      RefusedGrown(c, w, k - 1);
      RefusedAgain(c, w, RefusedJournal(c, w, k - 1), k);
    }
  }

  /** An empty error text is not counted: for every k some run of Run leaves k refused
      submissions, whatever MaxFinalSubmissions says. */
  lemma EmptyErrorsUnbounded(c: Settings, w: World, k: nat) returns (actions: seq<(nat, Action)>)
    requires !c.finalTool.Empty() && c.maxFinalSubmissions > 1 && c.maxTurns == 0 && c.finalize(NULL).None?
    requires w.finalizeError == Text("")
    ensures Submissions(c, Run(c, actions).journal) == k && FinalErrors(c, Run(c, actions).journal) == 0
  {
    RefusedGrown(c, w, k);
    hide Run, Grown, Replay;
    actions := ReachesGrown(c, RefusedJournal(c, w, k));
  }

  lemma RefusedStart(c: Settings, w: World)
    requires !c.finalTool.Empty()
    ensures Refused(c, RefusedJournal(c, w, 0), 0)
  {
    var j := RefusedJournal(c, w, 0);
    assert Decide(c, false, [], w) == Some(j[0].payload);
    assert j[..0] == [];
    assert GrownAt(c, j, 0);
    FirstAccepted(c, j[0]);
  }

  lemma RefusedAgain(c: Settings, w: World, j: seq<Entry>, k: nat)
    requires k > 0 && Refused(c, j, k - 1) && !c.finalTool.Empty() && c.maxFinalSubmissions > 1 && c.maxTurns == 0
    requires c.finalize(NULL).None? && w.finalizeError == Text("")
    ensures Refused(c, j + [Entry(c.invocation, 2 * k, ModelTurn(Completion(Text(""), [Submission(c, k - 1)]))),
                            Entry(c.invocation, 2 * k + 1, ToolDone(Result(Id(k - 1), c.finalTool, NULL, Text(""))))],
                                k)
  {
    var call := Submission(c, k - 1);
    var turn := ModelTurn(Completion(Text(""), [call]));
    var done := ToolDone(Result(Id(k - 1), c.finalTool, NULL, Text("")));
    var a := j + [Entry(c.invocation, 2 * k, turn)];
    var b := a + [Entry(c.invocation, 2 * k + 1, done)];
    var p := Replay(c, j).value;
    var x := w.(completion := Completion(Text(""), [call]));
    assert a[..|j|] == j && b[..|a|] == a;
    assert CompletionOk(turn.completion, c.finalTool);
    assert Map(IdOf, [call]) == [Id(k - 1)];
    assert CallIds([call]) == {Id(k - 1)};
    forall i: nat | i < k - 1 ensures Id(i) != Id(k - 1) {
      IdsDiffer(i, k - 1);
    }
    assert CallIds([call]) * p.seen == {};
    assert Decide(c, false, j, x) == Some(turn);
    GrownMoreBy(c, j, turn, x);
    assert Replay(c, a) == ReplayStep(c, p, turn) && Replay(c, a).value.outstanding == [call];
    assert Decide(c, false, a, w) == Some(done);
    GrownMoreBy(c, a, done, w);
    assert Replay(c, b) == ReplayStep(c, Replay(c, a).value, done);
    assert j + [Entry(c.invocation, 2 * k, turn), Entry(c.invocation, 2 * k + 1, done)] == b;
  }

  lemma GrownMoreBy(c: Settings, j: seq<Entry>, payload: Payload, w: World)
    requires Grown(c, j) && Decide(c, false, j, w) == Some(payload)
    ensures Grown(c, j + [Entry(c.invocation, |j| + 1, payload)])
  {
    assert Decided(c, j, payload);
    GrownSequence(c, j);
    GrownMore(c, j, payload);
  }

  /** The smallest poisoned journal: a second turn that reuses the call id of the first. */
  function ReusingJournal(c: Settings, w: World, call: Call): seq<Entry> {
    [Entry(c.invocation, 1, Started(StartOf(c, w))),
     Entry(c.invocation, 2, ModelTurn(Completion(Text(""), [call]))),
     Entry(c.invocation, 3, ToolDone(Result(call.id, call.name, NULL, Text("")))),
     Entry(c.invocation, 4, ModelTurn(Completion(Text(""), [call])))]
  }

  /** Some run leaves these four entries, and replay refuses the journal. */
  lemma ReusedIdPoisons(c: Settings, w: World, call: Call) returns (actions: seq<(nat, Action)>)
    requires call.id.text != "" && !call.name.Empty() && call.arguments.valid && !IsFinal(c, call)
    requires c.maxTurns == 0 || c.maxTurns > 1
    requires w == w.(completion := Completion(Text(""), [call]), uncertain := false, toolError := None, output := NULL)
    ensures Run(c, actions).journal == ReusingJournal(c, w, call) && Replay(c, ReusingJournal(c, w, call)).None?
  {
    hide Run, Grown, Replay, ReusingJournal;
    ReusingGrown(c, w, call);
    actions := ReachesGrown(c, ReusingJournal(c, w, call));
  }

  lemma ReusingGrown(c: Settings, w: World, call: Call)
    requires call.id.text != "" && !call.name.Empty() && call.arguments.valid && !IsFinal(c, call)
    requires c.maxTurns == 0 || c.maxTurns > 1
    requires w == w.(completion := Completion(Text(""), [call]), uncertain := false, toolError := None, output := NULL)
    ensures Grown(c, ReusingJournal(c, w, call)) && Replay(c, ReusingJournal(c, w, call)).None?
  {
    var j := ReusingJournal(c, w, call);
    var turn, done := j[1].payload, j[2].payload;
    assert Map(IdOf, [call]) == [call.id];
    assert CompletionOk(turn.completion, c.finalTool);
    assert j[..0] == [] && j[..1] == [j[0]] && j[..2] == j[..1] + [j[1]] && j[..3] == j[..2] + [j[2]]
        && j == j[..3] + [j[3]];
    assert Grown(c, []);
    assert Decide(c, false, [], w) == Some(j[0].payload);
    GrownMoreBy(c, [], j[0].payload, w);
    assert [] + [j[0]] == [j[0]];
    FirstAccepted(c, j[0]) by { assert Decided(c, [], j[0].payload); }
    var p1 := Replay(c, j[..1]).value;
    assert p1.seen == {} && p1.turns == 0 && p1.outstanding == [] && p1.finalText.None? && p1.complete.None?;
    assert FinalErrors(c, j[..1]) == 0 by { assert j[..1][..0] == []; }
    assert Decide(c, false, j[..1], w) == Some(turn);
    GrownMoreBy(c, j[..1], turn, w);
    var p2 := Replay(c, j[..2]);
    assert p2 == ReplayStep(c, p1, turn) && p2.value.outstanding == [call] && p2.value.seen == {call.id};
    assert Decide(c, false, j[..2], w) == Some(done);
    GrownMoreBy(c, j[..2], done, w);
    var p3 := Replay(c, j[..3]);
    assert p3 == ReplayStep(c, p2.value, done) && p3.value.outstanding == [] && p3.value.seen == {call.id}
        && p3.value.turns == 1;
    assert FinalErrors(c, j[..2]) == FinalErrors(c, j[..1]) by { assert j[..2][..1] == j[..1]; }
    assert FinalErrors(c, j[..3]) == FinalErrors(c, j[..2]) by { assert j[..3][..2] == j[..2]; }
    assert Decide(c, false, j[..3], w) == Some(turn);
    GrownMoreBy(c, j[..3], turn, w);
    assert call.id in CallIds([call]) * p3.value.seen;
    assert ReplayStep(c, p3.value, turn).None?;
  }

  // ------------------------------------------------------------------
  // Over every interleaving and every crash.
  // ------------------------------------------------------------------

  /** Every journal that any interleaving of runners leaves is accepted by replay exactly when
      no call id was reused, and in any case holds at most one result for each call. */
  lemma ReachableJournals(c: Settings, actions: seq<(nat, Action)>)
    ensures var j := Run(c, actions).journal;
            && (|j| > 0 ==> (Replay(c, j).Some? <==> Distinct(CalledIds(j))))
            && Distinct(DoneIds(j))
            && (c.maxTurns > 0 ==> Turns(j) <= c.maxTurns)
            && (c.maxFinalSubmissions > 1 && !c.finalTool.Empty() ==> FinalErrors(c, j) <= c.maxFinalSubmissions)
  {
    ReachableInv(c, actions);
    var j := Run(c, actions).journal;
    assert Grown(c, j) by { hide Grown, RunnerOk; }
    hide Run, Inv, Grown, Distinct;
    if |j| > 0 {
      AcceptedIffFresh(c, j);
      ResultsOnce(c, j);
    } else {
      assert DoneIds(j) == [];
      NothingDone();
    }
    if c.maxTurns > 0 {
      TurnsBounded(c, j);
    }
    if c.maxFinalSubmissions > 1 && !c.finalTool.Empty() {
      SubmissionsBounded(c, j);
    }
  }

  lemma NothingDone()
    ensures Distinct<CallId>([])
  {
  }

  /** The last accepted prefix of a journal, which holds all of its results. */
  lemma AcceptedPart(c: Settings, j: seq<Entry>) returns (part: seq<Entry>)
    requires Grown(c, j) && |j| > 0
    ensures Replay(c, part).Some? && DoneIds(part) == DoneIds(j)
  {
    part := j;
    var n := |j| - 1;
    if n == 0 {
      assert GrownAt(c, j, 0) && j[..0] == [] && j == [j[0]];
      FirstAccepted(c, j[0]);
    } else {
      GrownLast(c, j);
      hide Replay, Grown;
      if Replay(c, j).None? {
        part := j[..n];
        assert j[n].payload.ModelTurn?;
        assert DoneIds(j) == DoneIds(part) + [];
      }
    }
  }

  lemma ResultsOnce(c: Settings, j: seq<Entry>)
    requires Grown(c, j) && |j| > 0
    ensures Distinct(DoneIds(j))
  {
    hide *;
    var part := AcceptedPart(c, j);
    OneResultPerCall(c, part);
  }
}
