/** What an effect call does when the outside answers, and why a call is stored as refused without
    having been tried. See agenttools/effects.go and agenttools/git_effects.go.
 */
module EffectProgress {
  import opened Orders
  import opened Ids
  import opened Journal
  import opened Effects

  // ------------------------------------------------------------------
  // A new call performs its effect.
  // ------------------------------------------------------------------

  /** The host is where the request starts from. */
  predicate Startable(t: Tool, h: Host, a: Attempt) {
    match t
    case Write(path, _, expected) =>
      if expected.None? then path !in h.files else path in h.files && h.files[path] == expected.value
    case Stage(_, head) => h.head == head
    case Commit(head, tree, _) => h.head == head && h.index == tree && a.sha !in h.commits && a.sha != head
  }

  /** The host after the effect, and nothing else changed. */
  function Effect(t: Tool, h: Host, a: Attempt): Host {
    match t
    case Write(path, desired, _) => Host(h.files[path := desired], h.head, h.index, h.commits)
    case Stage(_, _) => Host(h.files, h.head, a.index, h.commits)
    case Commit(head, tree, message) => Host(h.files, a.sha, h.index,
                                             h.commits[a.sha := CommitInfo(head, tree, message)])
  }

  function Success(t: Tool, a: Attempt): Outcome {
    match t
    case Write(_, desired, _) => Wrote(desired)
    case Stage(_, _) => Staged(a.index)
    case Commit(_, tree, _) => Committed(a.sha, tree)
  }

  /** The operations of a first execution, each of them answered. */
  function Operations(q: Request, a: Attempt, clean: bool, error: Text): seq<Action> {
    if q.tool.Write? then
      [Acquire(q, false), LookUp(true), Precheck(true), Reserve(true, true), Inspect(true, clean, error),
       Perform(a, error),
       Complete(true, true)]
    else
      [Acquire(q, false), Reserve(true, true), Measure(true, error), Perform(a, error), Complete(true, true)]
  }

  function Steps(s: Workshop, actions: seq<Action>): Workshop
    decreases |actions|
  {
    if |actions| == 0 then s else Steps(Step(s, actions[0]), actions[1..])
  }

  lemma {:induction false} RunSteps(host: Host, actions: seq<Action>, more: seq<Action>)
    ensures Run(host, actions + more) == Steps(Run(host, actions), more)
    decreases |more|
  {
    hide Step, Run;
    if |more| == 0 {
      assert actions + more == actions;
    } else {
      RunMore(host, actions, more[0]);
      RunSteps(host, actions + [more[0]], more[1..]);
      assert actions + [more[0]] + more[1..] == actions + more;
    }
  }

  /** What a first execution leaves: one call of the host, the effect, and its success stored and
      returned. */
  ghost predicate PerformedOnce(s: Workshop, t: Workshop, q: Request, a: Attempt) {
    && t.phase.Free? && t.executed == s.executed + multiset{q.key} && t.host == Effect(q.tool, s.host, a)
    && t.ledger == s.ledger[q.key := Record(q, Some(Success(q.tool, a)))]
    && t.returned == s.returned + [(q.key, Success(q.tool, a))]
  }

  lemma HashIs(h: Host, path: Text, expected: Option<Text>)
    ensures HashOf(h, path) == expected <==>
            if expected.None? then path !in h.files else path in h.files && h.files[path] == expected.value
  {
  }

  lemma WritePerforms(s: Workshop, q: Request, a: Attempt, clean: bool, error: Text)
    requires s.phase.Free? && q.key !in s.ledger && q.tool.Write? && Startable(q.tool, s.host, a) && a.applies
             && a.reported
    ensures PerformedOnce(s, Steps(s, Operations(q, a, clean, error)), q, a)
  {
    HashIs(s.host, q.tool.path, q.tool.expected);
    hide HashOf;
    var ops := Operations(q, a, clean, error);
    var reserved := s.(ledger := s.ledger[q.key := Record(q, None)]);
    var s1 := Step(s, ops[0]);
    assert s1 == s.(phase := LookingUp(q, false));
    var s2 := Step(s1, ops[1]);
    assert s2 == s.(phase := Prechecking(q));
    var s3 := Step(s2, ops[2]);
    assert s3 == s.(phase := Reserving(q));
    var s4 := Step(s3, ops[3]);
    assert s4 == reserved.(phase := Inspecting(q, true));
    var s5 := Step(s4, ops[4]);
    assert s5 == reserved.(phase := Performing(q, s.host.index));
    hide Step, Startable;
    Finishes(reserved, q, a, error);
    SevenSteps(s, ops);
  }

  /** Calling the host and storing what it reports. */
  lemma Finishes(s: Workshop, q: Request, a: Attempt, error: Text)
    requires q.key in s.ledger && s.ledger[q.key] == Record(q, None) && Startable(q.tool, s.host, a)
    requires a.applies && a.reported
    ensures var t := Step(Step(s.(phase := Performing(q, s.host.index)), Perform(a, error)), Complete(true, true));
            && t.phase.Free? && t.executed == s.executed + multiset{q.key} && t.host == Effect(q.tool, s.host, a)
            && t.ledger == s.ledger[q.key := Record(q, Some(Success(q.tool, a)))]
            && t.returned == s.returned + [(q.key, Success(q.tool, a))]
  {
    if q.tool.Write? {
      HashIs(s.host, q.tool.path, q.tool.expected);
    }
    var p := Step(s.(phase := Performing(q, s.host.index)), Perform(a, error));
    assert p.phase == Completing(q, Success(q.tool, a)) && p.ledger == s.ledger && p.returned == s.returned;
    assert p.host == Effect(q.tool, s.host, a) && p.executed == s.executed + multiset{q.key};
    hide PerformOn, ReportOf, InspectHost, Startable, Effect, Success;
  }

  lemma SevenSteps(s: Workshop, ops: seq<Action>)
    requires |ops| == 7
    ensures Steps(s, ops) == Step(Step(Step(Step(Step(Step(Step(s, ops[0]), ops[1]), ops[2]), ops[3]), ops[4]), ops[5]),
                                  ops[6])
  {
    hide Step;
    FiveSteps(Step(Step(s, ops[0]), ops[1]), ops[2..]);
    assert ops[1..][1..] == ops[2..];
  }

  lemma FiveSteps(s: Workshop, ops: seq<Action>)
    requires |ops| == 5
    ensures Steps(s, ops) == Step(Step(Step(Step(Step(s, ops[0]), ops[1]), ops[2]), ops[3]), ops[4])
  {
    hide Step;
    var a, b, c, d := ops[1..], ops[2..], ops[3..], ops[4..];
    assert a[1..] == b && b[1..] == c && c[1..] == d && d[1..] == [];
    var s1 := Step(s, ops[0]);
    var s2 := Step(s1, ops[1]);
    var s3 := Step(s2, ops[2]);
    var s4 := Step(s3, ops[3]);
    assert Steps(s, ops) == Steps(s1, a) == Steps(s2, b) == Steps(s3, c);
    assert Steps(s3, c) == Steps(s4, d) == Steps(Step(s4, ops[4]), []);
  }

  lemma GitPerforms(s: Workshop, q: Request, a: Attempt, clean: bool, error: Text)
    requires s.phase.Free? && q.key !in s.ledger && !q.tool.Write? && Startable(q.tool, s.host, a) && a.applies
             && a.reported
    ensures PerformedOnce(s, Steps(s, Operations(q, a, clean, error)), q, a)
  {
    var ops := Operations(q, a, clean, error);
    var reserved := s.(ledger := s.ledger[q.key := Record(q, None)]);
    var s1 := Step(s, ops[0]);
    assert s1 == s.(phase := Reserving(q));
    var s2 := Step(s1, ops[1]);
    assert s2 == reserved.(phase := Measuring(q));
    var s3 := Step(s2, ops[2]);
    assert s3 == reserved.(phase := Performing(q, s.host.index));
    hide Step, Startable;
    Finishes(reserved, q, a, error);
    FiveSteps(s, ops);
  }

  /** After any run: a call that is not in the ledger, started where its request expects the host
      to be and answered throughout, calls the host once, leaves exactly its effect there, and its
      success is stored and returned. All three tools. */
  lemma NewCallPerforms(host: Host, actions: seq<Action>, q: Request, a: Attempt, clean: bool, error: Text)
    requires var s := Run(host, actions); s.phase.Free? && q.key !in s.ledger && Startable(q.tool, s.host, a)
    requires a.applies && a.reported
    ensures var s, t := Run(host, actions), Run(host, actions + Operations(q, a, clean, error));
            PerformedOnce(s, t, q, a) && s.executed[q.key] == 0 && t.executed[q.key] == 1
  {
    hide Run, Steps, Step, Startable;
    RunSteps(host, actions, Operations(q, a, clean, error));
    if q.tool.Write? {
      WritePerforms(Run(host, actions), q, a, clean, error);
    } else {
      GitPerforms(Run(host, actions), q, a, clean, error);
    }
    ReachableInv(host, actions);
    NotInLedger(Run(host, actions), q.key);
  }

  lemma NotInLedger(s: Workshop, k: Key)
    requires Inv(s) && k !in s.ledger
    ensures s.executed[k] == 0
  {
    hide PhaseOk, ReceiptsOk;
  }

  // ------------------------------------------------------------------
  // A refusal without a try.
  // ------------------------------------------------------------------

  /** Some step of the run could not read the host for this request before calling it. */
  ghost predicate Unread(host: Host, actions: seq<Action>, q: Request) {
    exists k :: 0 <= k < |actions| && UnreadAt(Run(host, actions[..k]), actions[k], q)
  }

  ghost predicate UnreadAt(s: Workshop, a: Action, q: Request) {
    || (a.Inspect? && !a.readable && s.phase == Inspecting(q, true))
    || (a.Measure? && !a.readable && s.phase == Measuring(q))
  }

  /** Why a request may be refused without a call of the host. */
  ghost predicate Excused(host: Host, actions: seq<Action>, q: Request, h: Host) {
    Unread(host, actions, q) || (q.tool.Write? && !Startable(q.tool, h, Attempt(true, h.index, h.head, true, true)))
  }

  lemma UnreadMore(host: Host, actions: seq<Action>, a: Action, q: Request)
    requires Unread(host, actions, q)
    ensures Unread(host, actions + [a], q)
  {
    hide Run;
    var k :| 0 <= k < |actions| && UnreadAt(Run(host, actions[..k]), actions[k], q);
    assert (actions + [a])[..k] == actions[..k] && (actions + [a])[k] == actions[k];
  }

  lemma UnreadNow(host: Host, actions: seq<Action>, a: Action, q: Request)
    requires UnreadAt(Run(host, actions), a, q)
    ensures Unread(host, actions + [a], q)
  {
    hide Run;
    var k := |actions|;
    assert (actions + [a])[..k] == actions && (actions + [a])[k] == a;
  }

  /** Refusals without a try are excused, the one about to be stored and those stored. */
  ghost predicate RefusalsExcused(host: Host, actions: seq<Action>, s: Workshop) {
    && (s.phase.Judging? ==> s.executed[s.phase.request.key] > 0)
    && (s.phase.Completing? && s.phase.outcome.Refused? && s.executed[s.phase.request.key] == 0 ==>
          Excused(host, actions, s.phase.request, s.host))
    && (forall i :: 0 <= i < |s.receipts| ==> ReceiptExcused(host, actions, s, i))
  }

  ghost predicate ReceiptExcused(host: Host, actions: seq<Action>, s: Workshop, i: nat)
    requires i < |s.receipts|
  {
    var x := s.receipts[i];
    x.outcome.Refused? && s.executed[x.key] == 0 && x.key in s.ledger ==>
      Excused(host, actions, s.ledger[x.key].request, x.host)
  }

  lemma ExcusedMore(host: Host, actions: seq<Action>, a: Action, q: Request, h: Host)
    requires Excused(host, actions, q, h)
    ensures Excused(host, actions + [a], q, h)
  {
    hide Unread, Startable;
    if Unread(host, actions, q) {
      UnreadMore(host, actions, a, q);
    }
  }

  /** The step that leads to a refusal without a try is one that could not read, or that found the
      file different. */
  lemma RefusalArises(host: Host, actions: seq<Action>, s: Workshop, a: Action)
    requires s == Run(host, actions) && !s.phase.Completing?
    requires s.phase.Judging? ==> s.executed[s.phase.request.key] > 0
    requires var t := Step(s, a);
             t.phase.Completing? && t.phase.outcome.Refused? && t.executed[t.phase.request.key] == 0
    ensures var t := Step(s, a); Excused(host, actions + [a], t.phase.request, t.host)
  {
    hide Run, Unread;
    var t := Step(s, a);
    var q := t.phase.request;
    if a.Inspect? {
      assert s.phase.Inspecting? && t.host == s.host && s.phase.request == q;
      if !a.readable {
        DoneNotRefused(q.tool, s.host, a.clean);
        UnreadNow(host, actions, a, q);
      } else {
        DoneNotRefused(q.tool, s.host, a.clean);
        HashIs(s.host, q.tool.path, q.tool.expected);
      }
    } else if a.Measure? {
      UnreadNow(host, actions, a, q);
    } else {
      hide InspectHost, PerformOn, ReportOf, Excused;
    }
  }

  lemma DoneNotRefused(t: Tool, h: Host, clean: bool)
    ensures InspectHost(t, h, clean).Done? ==> !InspectHost(t, h, clean).outcome.Refused?
  {
  }

  /** No step takes back a call of the host or a stored request. */
  lemma StepKeeps(s: Workshop, a: Action)
    requires Inv(s)
    ensures var t := Step(s, a);
            && (forall k :: s.executed[k] <= t.executed[k])
            && (forall k :: k in s.ledger ==> k in t.ledger && t.ledger[k].request == s.ledger[k].request)
            && (t.phase.Judging? ==> t == s || t.executed[t.phase.request.key] > 0)
  {
    hide LedgerOk, ReceiptsOk, Fits, True, InspectHost, PerformOn, ReportOf;
  }

  lemma CompletingSteps(s: Workshop, a: Action)
    requires Inv(s)
    ensures var t := Step(s, a);
            && (s.phase.Completing? && t.phase.Completing? ==> t == s)
            && (t.receipts != s.receipts ==>
                  && s.phase.Completing? && t.executed == s.executed && !t.phase.Judging?
                  && t.receipts == s.receipts + [Receipt(s.phase.request.key, s.phase.outcome, s.host,
                                                         s.phase.request.key in s.changed)]
                  && s.phase.request.key in t.ledger && t.ledger[s.phase.request.key].request == s.phase.request)
  {
    hide LedgerOk, ReceiptsOk, Fits, True, InspectHost, PerformOn, ReportOf;
  }

  lemma OldReceipts(host: Host, actions: seq<Action>, s: Workshop, a: Action, i: nat)
    requires Inv(s) && RefusalsExcused(host, actions, s) && i < |s.receipts|
    requires i < |Step(s, a).receipts| && Step(s, a).receipts[i] == s.receipts[i]
    ensures ReceiptExcused(host, actions + [a], Step(s, a), i)
  {
    hide Step, PhaseOk, LedgerOk, Excused;
    StepKeeps(s, a);
    var t, x := Step(s, a), s.receipts[i];
    assert ReceiptExcused(host, actions, s, i);
    assert x.key in s.ledger && t.ledger[x.key].request == s.ledger[x.key].request;
    if x.outcome.Refused? && t.executed[x.key] == 0 {
      assert s.executed[x.key] <= t.executed[x.key];
      ExcusedMore(host, actions, a, s.ledger[x.key].request, x.host);
    }
  }

  lemma ExcusedStep(host: Host, actions: seq<Action>, a: Action)
    requires Inv(Run(host, actions)) && RefusalsExcused(host, actions, Run(host, actions))
    ensures RefusalsExcused(host, actions + [a], Step(Run(host, actions), a))
  {
    var s := Run(host, actions);
    var t := Step(s, a);
    hide Run, Inv, Excused;
    StepKeeps(s, a);
    CompletingSteps(s, a);
    if t.phase.Completing? && t.phase.outcome.Refused? && t.executed[t.phase.request.key] == 0 {
      if s.phase.Completing? {
        ExcusedMore(host, actions, a, s.phase.request, s.host);
      } else {
        RefusalArises(host, actions, s, a);
      }
    }
    hide Step;
    forall i | 0 <= i < |t.receipts| ensures ReceiptExcused(host, actions + [a], t, i) {
      if i < |s.receipts| {
        OldReceipts(host, actions, s, a, i);
      } else if s.phase.outcome.Refused? && s.executed[s.phase.request.key] == 0 {
        ExcusedMore(host, actions, a, s.phase.request, s.host);
      }
    }
  }

  lemma {:induction false} RunExcused(host: Host, actions: seq<Action>)
    ensures RefusalsExcused(host, actions, Run(host, actions))
  {
    if |actions| == 0 {
    } else {
      var n := |actions| - 1;
      RunExcused(host, actions[..n]);
      ReachableInv(host, actions[..n]);
      hide RefusalsExcused, Inv, Step;
      ExcusedStep(host, actions[..n], actions[n]);
      assert actions == actions[..n] + [actions[n]];
    }
  }

  /** Over every run: a refusal stored without a call of the host means that the host could not be
      read for that request, or that a file was not as it expected when the refusal was stored. */
  lemma UntriedRefusals(host: Host, actions: seq<Action>, i: nat)
    requires i < |Run(host, actions).receipts|
    ensures var s := Run(host, actions);
            var x := s.receipts[i];
            && x.key in s.ledger
            && (x.outcome.Refused? && s.executed[x.key] == 0 ==>
                  var q := s.ledger[x.key].request;
                  || Unread(host, actions, q)
                  || (q.tool.Write? &&
                      if q.tool.expected.None? then q.tool.path in x.host.files
                      else q.tool.path !in x.host.files || x.host.files[q.tool.path] != q.tool.expected.value))
  {
    hide Run, Unread, PhaseOk, LedgerOk;
    RunExcused(host, actions);
    ReachableInv(host, actions);
    assert ReceiptExcused(host, actions, Run(host, actions), i);
  }

  // ------------------------------------------------------------------
  // What may change the host, and what recovery finds.
  // ------------------------------------------------------------------

  /** The host changes only when the one call that reserved the request is performed, from where
      the request starts, and then by exactly its effect. */
  lemma ChangeIsTheEffect(s: Workshop, a: Action)
    requires Step(s, a).host != s.host
    ensures s.phase.Performing? && a.Perform? && a.attempt.applies
    ensures Startable(s.phase.request.tool, s.host, a.attempt)
    ensures Step(s, a).host == Effect(s.phase.request.tool, s.host, a.attempt)
    ensures Step(s, a).executed == s.executed + multiset{s.phase.request.key}
  {
    hide InspectHost, ReportOf;
    if s.phase.Performing? && s.phase.request.tool.Write? {
      HashIs(s.host, s.phase.request.tool.path, s.phase.request.tool.expected);
    }
  }

  /** A first execution that stops after the host was called and before anything was stored. */
  function Interrupted(q: Request, a: Attempt, clean: bool, error: Text): seq<Action> {
    var ops := Operations(q, a, clean, error);
    ops[..|ops| - 1] + [Stop]
  }

  function Recovery(q: Request, clean: bool, error: Text): seq<Action> {
    [Acquire(q, true), LookUp(true), Inspect(true, clean, error), Complete(true, true)]
  }

  /** A reserved call without a result is completed by reconciling exactly when the host shows its
      effect: the file, the clean index at that HEAD, or the commit. */
  lemma RecoveryCompletesIff(s: Workshop, q: Request, clean: bool, error: Text)
    requires s.phase.Free? && q.key in s.ledger && s.ledger[q.key] == Record(q, None)
    ensures var t := Steps(s, Recovery(q, clean, error));
            && t.host == s.host && t.executed == s.executed && t.phase.Free?
            && (Shown(q.tool, s.host, clean).Some? ==>
                  t.ledger == s.ledger[q.key := Record(q, Shown(q.tool, s.host, clean))]
                  && t.returned == s.returned + [(q.key, Shown(q.tool, s.host, clean).value)])
            && (Shown(q.tool, s.host, clean).None? ==> t.ledger == s.ledger && t.returned == s.returned)
  {
    var ops := Recovery(q, clean, error);
    ShownIsInspected(q.tool, s.host, clean);
    hide InspectHost, Shown, PerformOn, ReportOf;
    var s2 := Step(Step(s, ops[0]), ops[1]);
    assert s2 == s.(phase := Inspecting(q, false));
    FourSteps(s, ops);
  }

  /** The outcome the host itself shows. */
  function Shown(t: Tool, h: Host, clean: bool): Option<Outcome> {
    match t
    case Write(path, desired, _) => if path in h.files && h.files[path] == desired then Some(Wrote(desired)) else None
    case Stage(_, head) => if h.head == head && clean then Some(Staged(h.index)) else None
    case Commit(head, tree, message) =>
      if h.head != head && h.head in h.commits && h.commits[h.head] == CommitInfo(head, tree, message)
      then Some(Committed(h.head, tree)) else None
  }

  lemma ShownIsInspected(t: Tool, h: Host, clean: bool)
    ensures Shown(t, h, clean).Some? <==> InspectHost(t, h, clean).Done?
    ensures Shown(t, h, clean).Some? ==> InspectHost(t, h, clean).outcome == Shown(t, h, clean).value
  {
  }

  lemma FourSteps(s: Workshop, ops: seq<Action>)
    requires |ops| == 4
    ensures Steps(s, ops) == Step(Step(Step(Step(s, ops[0]), ops[1]), ops[2]), ops[3])
  {
    hide Step;
    var a, b, c := ops[1..], ops[2..], ops[3..];
    assert a[1..] == b && b[1..] == c && c[1..] == [];
    var s1 := Step(s, ops[0]);
    var s2 := Step(s1, ops[1]);
    var s3 := Step(s2, ops[2]);
    assert Steps(s, ops) == Steps(s1, a) == Steps(s2, b) == Steps(s3, c) == Steps(Step(s3, ops[3]), []);
  }

  /** After an error the host is looked at: an effect that is there is stored as a success, a host
      where the request still starts from as a failure, anything else stays open. */
  lemma JudgedByTheHost(s: Workshop, q: Request, index: Text, clean: bool, error: Text)
    requires s.phase == Judging(q, index)
    ensures var t := Step(s, Judge(true, clean, error));
            var still := if q.tool.Write? then HashOf(s.host, q.tool.path) == q.tool.expected
                         else s.host.head == q.tool.head && s.host.index == index;
            && t == s.(phase := t.phase)
            && (Shown(q.tool, s.host, clean).Some? ==> t.phase == Completing(q, Shown(q.tool, s.host, clean).value))
            && (Shown(q.tool, s.host, clean).None? && still ==> t.phase == Completing(q, Refused(error)))
            && (Shown(q.tool, s.host, clean).None? && !still ==> t.phase.Free?)
  {
    ShownIsInspected(q.tool, s.host, clean);
  }

  lemma EffectShows(t: Tool, h: Host, a: Attempt, clean: bool)
    requires Startable(t, h, a) && (t.Stage? ==> clean)
    ensures Shown(t, Effect(t, h, a), clean) == Some(Success(t, a))
  {
  }

  /** Where a first execution stands when it stops after the call of the host. */
  ghost predicate LeftOpen(s: Workshop, t: Workshop, q: Request, a: Attempt) {
    && t.phase.Free? && t.executed == s.executed + multiset{q.key} && t.host == Effect(q.tool, s.host, a)
    && t.ledger == s.ledger[q.key := Record(q, None)] && t.returned == s.returned
  }

  lemma PerformThenStop(s: Workshop, q: Request, a: Attempt, error: Text)
    requires Startable(q.tool, s.host, a) && a.applies
    ensures var t := Step(Step(s.(phase := Performing(q, s.host.index)), Perform(a, error)), Stop);
            && t.phase.Free? && t.executed == s.executed + multiset{q.key} && t.host == Effect(q.tool, s.host, a)
            && t.ledger == s.ledger && t.returned == s.returned
  {
    if q.tool.Write? {
      HashIs(s.host, q.tool.path, q.tool.expected);
    }
    hide ReportOf, InspectHost;
  }

  lemma StopsOpen(s: Workshop, q: Request, a: Attempt, clean: bool, error: Text)
    requires s.phase.Free? && q.key !in s.ledger && Startable(q.tool, s.host, a) && a.applies
    ensures LeftOpen(s, Steps(s, Interrupted(q, a, clean, error)), q, a)
  {
    var ops := Interrupted(q, a, clean, error);
    var reserved := s.(ledger := s.ledger[q.key := Record(q, None)]);
    if q.tool.Write? {
      HashIs(s.host, q.tool.path, q.tool.expected);
      var s3 := Step(Step(Step(s, ops[0]), ops[1]), ops[2]);
      assert s3 == s.(phase := Reserving(q));
      assert Step(Step(s3, ops[3]), ops[4]) == reserved.(phase := Performing(q, s.host.index));
      hide Step, Startable;
      PerformThenStop(reserved, q, a, error);
      SevenSteps(s, ops);
    } else {
      var s2 := Step(Step(s, ops[0]), ops[1]);
      assert s2 == reserved.(phase := Measuring(q));
      assert Step(s2, ops[2]) == reserved.(phase := Performing(q, s.host.index));
      hide Step, Startable;
      PerformThenStop(reserved, q, a, error);
      FiveSteps(s, ops);
    }
  }

  /** After any run: an execution that dies between the call of the host and the ledger is completed
      by reconciling it, with the success it would have returned and without a second call. */
  lemma CrashThenRecovery(host: Host, actions: seq<Action>, q: Request, a: Attempt, clean: bool, error: Text)
    requires var s := Run(host, actions); s.phase.Free? && q.key !in s.ledger && Startable(q.tool, s.host, a)
    requires a.applies && (q.tool.Stage? ==> clean)
    ensures var s := Run(host, actions);
            PerformedOnce(s, Run(host, actions + Interrupted(q, a, clean, error) + Recovery(q, clean, error)), q, a)
  {
    hide Run, Steps, Step, Startable, Shown, Effect, Success;
    var s := Run(host, actions);
    RunSteps(host, actions, Interrupted(q, a, clean, error));
    RunSteps(host, actions + Interrupted(q, a, clean, error), Recovery(q, clean, error));
    StopsOpen(s, q, a, clean, error);
    EffectShows(q.tool, s.host, a, clean);
    RecoveryCompletesIff(Steps(s, Interrupted(q, a, clean, error)), q, clean, error);
  }

  /** A call of the host without a report is never taken for a success: the host is looked at next,
      unless a git operation is known not to have been applied. */
  lemma UnreportedIsJudged(s: Workshop, q: Request, index: Text, a: Attempt, error: Text)
    requires s.phase == Performing(q, index) && !a.reported
    ensures var t := Step(s, Perform(a, error));
            && (t.phase == Judging(q, index) || t.phase == Completing(q, Refused(error)))
            && (t.phase.Completing? ==> !q.tool.Write? && a.knownNotApplied && t.host == s.host)
  {
  }
}
