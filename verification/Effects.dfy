/** The durable effect ledger and the mutation gateway (agenttools/effects.go,
    agenttools/git_effects.go, agenttools/effect_completion.go).

    The workspace lock admits one call at a time, so a run is a sequence of calls, each of
    which may stop between any two external operations and then releases the lock. The host
    changes only through the gateway. Everything the outside decides (a lost acknowledgement,
    a failed read, how far an operation got) is part of the action.
 */
module Effects {
  import opened Orders
  import opened Ids
  import opened Journal

  datatype Key = Key(invocation: Text, call: CallId)

  /** write_file with its desired and expected content hashes, git_stage_files, git_commit. */
  datatype Tool =
    | Write(path: Text, desired: Text, expected: Option<Text>)
    | Stage(paths: seq<Text>, head: Text)
    | Commit(head: Text, tree: Text, message: Text)

  datatype Request = Request(key: Key, digest: Text, tool: Tool, workspace: Text, policy: Text)

  datatype Outcome = Wrote(hash: Text) | Staged(tree: Text) | Committed(sha: Text, tree: Text) | Refused(error: Text)

  /** An intent is the whole request; the result comes later. */
  datatype Record = Record(request: Request, result: Option<Outcome>)

  datatype CommitInfo = CommitInfo(parent: Text, tree: Text, message: Text)

  /** The host as the gateway sees it: file hashes, HEAD, the index tree and the commits. */
  datatype Host = Host(files: map<Text, Text>, head: Text, index: Text, commits: map<Text, CommitInfo>)

  function HashOf(h: Host, path: Text): Option<Text> {
    if path in h.files then Some(h.files[path]) else None
  }

  /** The call that holds the lock: the external operation it performs next. */
  datatype Phase =
    | Free
    | LookingUp(request: Request, reconcile: bool)
    | Prechecking(request: Request)
    | Reserving(request: Request)
    | Inspecting(request: Request, created: bool)
    | Measuring(request: Request)
    | Performing(request: Request, index: Text)
    | Judging(request: Request, index: Text)
    | Completing(request: Request, outcome: Outcome)

  /** What was true when a result was stored. */
  datatype Receipt = Receipt(key: Key, outcome: Outcome, host: Host, changed: bool)

  /** executed counts calls of the host for each key; changed holds the keys whose call changed
      the host; receipts and returned record what was stored and what was handed back. */
  datatype Workshop = Workshop(
    ledger: map<Key, Record>, host: Host, phase: Phase, executed: multiset<Key>, changed: set<Key>,
    receipts: seq<Receipt>, returned: seq<(Key, Outcome)>)

  datatype Attempt = Attempt(applies: bool, index: Text, sha: Text, reported: bool, knownNotApplied: bool)

  datatype Action =
    | Acquire(request: Request, reconcile: bool)
    | Stop
    | LookUp(answered: bool)
    | Precheck(readable: bool)
    | Reserve(commit: bool, acknowledged: bool)
    | Inspect(readable: bool, clean: bool, error: Text)
    | Measure(readable: bool, error: Text)
    | Perform(attempt: Attempt, error: Text)
    | Judge(readable: bool, clean: bool, error: Text)
    | Complete(commit: bool, acknowledged: bool)

  // ------------------------------------------------------------------
  // Results and inspections.
  // ------------------------------------------------------------------

  /** validWriteEffectResult and validGitEffectResult */
  predicate Fits(t: Tool, r: Outcome) {
    match (t, r)
    case (_, Refused(_)) => true
    case (Write(_, desired, _), Wrote(hash)) => hash == desired
    case (Stage(_, _), Staged(_)) => true
    case (Commit(_, tree, _), Committed(_, actual)) => actual == tree
    case _ => false
  }

  datatype Inspection = Done(outcome: Outcome) | Untouched | Unclear

  /** What the host shows of a call: its effect is there, or its starting point, or neither. */
  function InspectHost(t: Tool, h: Host, clean: bool): Inspection {
    match t
    case Write(path, desired, expected) =>
      if HashOf(h, path) == Some(desired) then Done(Wrote(desired)) else if HashOf(h, path) == expected then Untouched
      else Unclear
    case Stage(_, head) => if h.head != head then Unclear else if clean then Done(Staged(h.index)) else Untouched
    case Commit(head, tree, message) =>
      if h.head == head then (if h.index == tree then Untouched else Unclear)
      else if h.head in h.commits && h.commits[h.head] == CommitInfo(head, tree, message)
      then Done(Committed(h.head, tree))
      else Unclear
  }

  /** Host.execute, as far as it gets. */
  function PerformOn(t: Tool, h: Host, a: Attempt): Host {
    match t
    case Write(path, desired, expected) =>
      if a.applies && HashOf(h, path) == expected then h.(files := h.files[path := desired]) else h
    case Stage(_, head) => if a.applies && h.head == head then h.(index := a.index) else h
    case Commit(head, tree, message) =>
      if a.applies && h.head == head && h.index == tree && a.sha !in h.commits && a.sha != h.head
      then h.(head := a.sha, commits := h.commits[a.sha := CommitInfo(head, tree, message)]) else h
  }

  /** What Host.execute reports: a result only once the effect is there. */
  function ReportOf(t: Tool, before: Host, after: Host, a: Attempt): Option<Outcome> {
    if !a.reported then None
    else
      match t
      case Write(path, desired, expected) => if a.applies && HashOf(before, path) == expected then Some(Wrote(desired))
          else None
      case Stage(_, head) => if a.applies && before.head == head then Some(Staged(after.index)) else None
      case Commit(_, tree, _) =>
        var i := InspectHost(t, after, false);
        if i.Done? then Some(i.outcome) else None
  }

  // ------------------------------------------------------------------
  // Steps.
  // ------------------------------------------------------------------

  function Release(s: Workshop): Workshop {
    s.(phase := Free)
  }

  function Return(s: Workshop, k: Key, r: Outcome): Workshop {
    s.(phase := Free, returned := s.returned + [(k, r)])
  }

  /** A stored result is returned if it fits the request; otherwise the outcome is uncertain. */
  function ReturnStored(s: Workshop, q: Request, r: Outcome): Workshop {
    if Fits(q.tool, r) then Return(s, q.key, r) else Release(s)
  }

  function AfterLookUp(s: Workshop, q: Request, reconcile: bool): Workshop {
    if q.key !in s.ledger then (if reconcile then Release(s) else s.(phase := Prechecking(q)))
    else if s.ledger[q.key].request != q then Release(s)
    else if !reconcile then s.(phase := Reserving(q))
    else if s.ledger[q.key].result.Some? then ReturnStored(s, q, s.ledger[q.key].result.value)
    else s.(phase := Inspecting(q, false))
  }

  /** Only write_file checks its precondition before it reserves. */
  function AfterPrecheck(s: Workshop, q: Request): Workshop {
    if q.tool.Write? && HashOf(s.host, q.tool.path) != q.tool.expected then Release(s) else s.(phase := Reserving(q))
  }

  function AfterReserve(s: Workshop, q: Request, commit: bool, acknowledged: bool): Workshop {
    if q.key !in s.ledger then
      if !commit then Release(s)
      else
        var t := s.(ledger := s.ledger[q.key := Record(q, None)]);
        if !acknowledged then Release(t) else t.(phase := if q.tool.Write? then Inspecting(q, true) else Measuring(q))
    else if !acknowledged || s.ledger[q.key].request != q then Release(s)
    else if s.ledger[q.key].result.Some? then ReturnStored(s, q, s.ledger[q.key].result.value)
    else s.(phase := Inspecting(q, false))
  }

  /** write_file just after reserving, or any recorded call without a result. */
  function AfterInspect(s: Workshop, q: Request, created: bool, readable: bool, clean: bool, error: Text): Workshop {
    if created then
      if !readable || (q.tool.Write? && HashOf(s.host, q.tool.path) != q.tool.expected)
      then s.(phase := Completing(q, Refused(error))) else s.(phase := Performing(q, s.host.index))
    else
      var i := InspectHost(q.tool, s.host, clean);
      if !readable || !i.Done? then Release(s) else s.(phase := Completing(q, i.outcome))
  }

  /** The index tree before a git operation. */
  function AfterMeasure(s: Workshop, q: Request, readable: bool, error: Text): Workshop {
    s.(phase := if readable then Performing(q, s.host.index) else Completing(q, Refused(error)))
  }

  function AfterPerform(s: Workshop, q: Request, index: Text, a: Attempt, error: Text): Workshop {
    var after := PerformOn(q.tool, s.host, a);
    var t := s.(host := after, executed := s.executed + multiset{q.key},
                changed := if after != s.host then s.changed + {q.key} else s.changed);
    var report := ReportOf(q.tool, s.host, after, a);
    if report.Some? then t.(phase := Completing(q, report.value))
    else if !q.tool.Write? && a.knownNotApplied && after == s.host then t.(phase := Completing(q, Refused(error)))
    else t.(phase := Judging(q, index))
  }

  /** After an error that may have followed the mutation: look before reporting. */
  function AfterJudge(s: Workshop, q: Request, index: Text, readable: bool, clean: bool, error: Text): Workshop {
    var i := InspectHost(q.tool, s.host, clean);
    if !readable then Release(s)
    else if i.Done? then s.(phase := Completing(q, i.outcome))
    else if q.tool.Write? then (if i.Untouched? then s.(phase := Completing(q, Refused(error))) else Release(s))
    else if s.host.head == q.tool.head && s.host.index == index then s.(phase := Completing(q, Refused(error)))
    else Release(s)
  }

  /** completeEffect: the ledger keeps the first result. */
  function AfterComplete(s: Workshop, q: Request, r: Outcome, commit: bool, acknowledged: bool): Workshop {
    if q.key !in s.ledger || s.ledger[q.key].request != q then Release(s)
    else if s.ledger[q.key].result.Some? then
      (if acknowledged && s.ledger[q.key].result.value == r then Return(s, q.key, r) else Release(s))
    else if !commit then Release(s)
    else
      var t := s.(ledger := s.ledger[q.key := Record(q, Some(r))],
                  receipts := s.receipts + [Receipt(q.key, r, s.host, q.key in s.changed)]);
      if acknowledged then Return(t, q.key, r) else Release(t)
  }

  /** An action that does not fit the phase changes nothing. */
  function Step(s: Workshop, a: Action): Workshop {
    match a
    case Acquire(q, reconcile) =>
      if !s.phase.Free? then s
      else s.(phase := if q.tool.Write? || reconcile then LookingUp(q, reconcile) else Reserving(q))
    case Stop => Release(s)
    case LookUp(answered) =>
      if !s.phase.LookingUp? then s else if !answered then Release(s)
      else AfterLookUp(s, s.phase.request, s.phase.reconcile)
    case Precheck(readable) =>
      if !s.phase.Prechecking? then s else if !readable then Release(s) else AfterPrecheck(s, s.phase.request)
    case Reserve(commit, acknowledged) => if !s.phase.Reserving? then s
        else AfterReserve(s, s.phase.request, commit, acknowledged)
    case Inspect(readable, clean, error) =>
      if !s.phase.Inspecting? then s else AfterInspect(s, s.phase.request, s.phase.created, readable, clean, error)
    case Measure(readable, error) => if !s.phase.Measuring? then s
        else AfterMeasure(s, s.phase.request, readable, error)
    case Perform(attempt, error) => if !s.phase.Performing? then s
        else AfterPerform(s, s.phase.request, s.phase.index, attempt, error)
    case Judge(readable, clean, error) =>
      if !s.phase.Judging? then s else AfterJudge(s, s.phase.request, s.phase.index, readable, clean, error)
    case Complete(commit, acknowledged) =>
      if !s.phase.Completing? then s else AfterComplete(s, s.phase.request, s.phase.outcome, commit, acknowledged)
  }

  function Run(host: Host, actions: seq<Action>): Workshop {
    if |actions| == 0 then Workshop(map[], host, Free, multiset{}, {}, [], [])
    else Step(Run(host, actions[..|actions| - 1]), actions[|actions| - 1])
  }

  // ------------------------------------------------------------------
  // The invariant.
  // ------------------------------------------------------------------

  /** What a call that changed the host leaves to be seen. */
  predicate Shows(t: Tool, h: Host, index: Text) {
    match t
    case Write(path, desired, _) => HashOf(h, path) == Some(desired)
    case Stage(_, head) => h.index != index
    case Commit(head, _, _) => h.head != head
  }

  /** A result that is about to be stored describes the host as it is, or a call that changed nothing. */
  predicate True(t: Tool, h: Host, r: Outcome, changed: bool) {
    match r
    case Refused(_) => !changed
    case Wrote(hash) => t.Write? && hash == t.desired && HashOf(h, t.path) == Some(hash)
    case Staged(tree) => t.Stage? && h.head == t.head && h.index == tree
    case Committed(sha, tree) =>
      t.Commit? && tree == t.tree && h.head == sha && sha in h.commits
          && h.commits[sha] == CommitInfo(t.head, t.tree, t.message)
  }

  predicate Reserved(s: Workshop, q: Request) {
    q.key in s.ledger && s.ledger[q.key] == Record(q, None)
  }

  /** The caller that created the record has not called the host yet. */
  predicate Untried(s: Workshop, q: Request) {
    Reserved(s, q) && s.executed[q.key] == 0 && q.key !in s.changed
  }

  predicate PhaseOk(s: Workshop) {
    match s.phase
    case Inspecting(q, created) => if created then q.tool.Write? && Untried(s, q) else Reserved(s, q)
    case Measuring(q) => !q.tool.Write? && Untried(s, q)
    case Performing(q, index) => Untried(s, q) && index == s.host.index
    case Judging(q, index) => Reserved(s, q) && (q.key in s.changed ==> Shows(q.tool, s.host, index))
    case Completing(q, r) => Reserved(s, q) && Fits(q.tool, r) && True(q.tool, s.host, r, q.key in s.changed)
    case _ => true
  }

  ghost predicate LedgerOk(s: Workshop) {
    && (forall k :: k in s.ledger ==> s.ledger[k].request.key == k)
    && (forall k :: k in s.ledger && s.ledger[k].result.Some? ==>
        Fits(s.ledger[k].request.tool, s.ledger[k].result.value))
    && (forall k :: s.executed[k] <= 1)
    && (forall k :: s.executed[k] > 0 || k in s.changed ==> k in s.ledger)
    && (forall k :: k in s.ledger && s.ledger[k].result.Some? && s.ledger[k].result.value.Refused? ==> k !in s.changed)
  }

  ghost predicate ReceiptsOk(s: Workshop) {
    && (forall i :: 0 <= i < |s.receipts| ==>
          var x := s.receipts[i];
          x.key in s.ledger && s.ledger[x.key].result == Some(x.outcome)
              && True(s.ledger[x.key].request.tool, x.host, x.outcome, x.changed))
    && (forall i :: 0 <= i < |s.returned| ==>
          s.returned[i].0 in s.ledger && s.ledger[s.returned[i].0].result == Some(s.returned[i].1))
  }

  ghost predicate Inv(s: Workshop) {
    PhaseOk(s) && LedgerOk(s) && ReceiptsOk(s)
  }

  // ------------------------------------------------------------------
  // Every step keeps it.
  // ------------------------------------------------------------------

  /** Moving to another phase without touching anything else. */
  lemma Moves(s: Workshop, p: Phase)
    requires LedgerOk(s) && ReceiptsOk(s) && PhaseOk(s.(phase := p))
    ensures Inv(s.(phase := p))
  {
    hide PhaseOk;
  }

  lemma Releases(s: Workshop)
    requires LedgerOk(s) && ReceiptsOk(s)
    ensures Inv(Release(s))
  {
    Moves(s, Free);
  }

  lemma Returns(s: Workshop, k: Key, r: Outcome)
    requires LedgerOk(s) && ReceiptsOk(s) && k in s.ledger && s.ledger[k].result == Some(r)
    ensures Inv(Return(s, k, r))
  {
  }

  lemma LookUpInv(s: Workshop, q: Request, reconcile: bool)
    requires Inv(s)
    ensures Inv(AfterLookUp(s, q, reconcile))
  {
    hide LedgerOk, ReceiptsOk;
    Releases(s);
    Moves(s, Prechecking(q));
    Moves(s, Reserving(q));
    if q.key in s.ledger && s.ledger[q.key].request == q {
      if s.ledger[q.key].result.Some? {
        Returns(s, q.key, s.ledger[q.key].result.value);
      } else {
        Moves(s, Inspecting(q, false));
      }
    }
  }

  lemma ReserveNew(s: Workshop, q: Request)
    requires LedgerOk(s) && ReceiptsOk(s) && q.key !in s.ledger
    ensures var t := s.(ledger := s.ledger[q.key := Record(q, None)]); LedgerOk(t) && ReceiptsOk(t) && Untried(t, q)
  {
  }

  lemma ReserveInv(s: Workshop, q: Request, commit: bool, acknowledged: bool)
    requires Inv(s)
    ensures Inv(AfterReserve(s, q, commit, acknowledged))
  {
    Releases(s);
    if q.key !in s.ledger {
      ReserveNew(s, q);
      hide LedgerOk, ReceiptsOk, Untried;
      var t := s.(ledger := s.ledger[q.key := Record(q, None)]);
      Releases(t);
      if q.tool.Write? {
        Moves(t, Inspecting(q, true));
      } else {
        Moves(t, Measuring(q));
      }
    } else {
      hide LedgerOk, ReceiptsOk;
      if s.ledger[q.key].request == q {
        if s.ledger[q.key].result.Some? {
          Returns(s, q.key, s.ledger[q.key].result.value);
        } else {
          Moves(s, Inspecting(q, false));
        }
      }
    }
  }

  /** An inspection that finds the effect describes the host truly. */
  lemma DoneIsTrue(t: Tool, h: Host, clean: bool, changed: bool)
    requires InspectHost(t, h, clean).Done?
    ensures Fits(t, InspectHost(t, h, clean).outcome) && True(t, h, InspectHost(t, h, clean).outcome, changed)
  {
  }

  lemma InspectInv(s: Workshop, q: Request, created: bool, readable: bool, clean: bool, error: Text)
    requires Inv(s) && s.phase == Inspecting(q, created)
    ensures Inv(AfterInspect(s, q, created, readable, clean, error))
  {
    Releases(s);
    hide LedgerOk, ReceiptsOk;
    if created {
      Moves(s, Completing(q, Refused(error)));
      Moves(s, Performing(q, s.host.index));
    } else if InspectHost(q.tool, s.host, clean).Done? {
      DoneIsTrue(q.tool, s.host, clean, q.key in s.changed);
      Moves(s, Completing(q, InspectHost(q.tool, s.host, clean).outcome));
    }
  }

  lemma MeasureInv(s: Workshop, q: Request, readable: bool, error: Text)
    requires Inv(s) && s.phase == Measuring(q)
    ensures Inv(AfterMeasure(s, q, readable, error))
  {
    hide LedgerOk, ReceiptsOk;
    Moves(s, Completing(q, Refused(error)));
    Moves(s, Performing(q, s.host.index));
  }

  /** A change of the host by a call shows. */
  lemma ChangeShows(t: Tool, h: Host, a: Attempt)
    requires PerformOn(t, h, a) != h
    ensures Shows(t, PerformOn(t, h, a), h.index)
  {
  }

  lemma ReportIsTrue(t: Tool, h: Host, a: Attempt, changed: bool)
    requires ReportOf(t, h, PerformOn(t, h, a), a).Some?
    ensures var r := ReportOf(t, h, PerformOn(t, h, a), a).value; Fits(t, r) && True(t, PerformOn(t, h, a), r, changed)
  {
  }

  lemma Performed(s: Workshop, q: Request, after: Host)
    requires LedgerOk(s) && ReceiptsOk(s) && Untried(s, q)
    ensures var t := s.(host := after, executed := s.executed + multiset{q.key},
                        changed := if after != s.host then s.changed + {q.key} else s.changed);
            LedgerOk(t) && ReceiptsOk(t) && Reserved(t, q) && (q.key in t.changed <==> after != s.host)
  {
  }

  lemma PerformInv(s: Workshop, q: Request, index: Text, a: Attempt, error: Text)
    requires Inv(s) && s.phase == Performing(q, index)
    ensures Inv(AfterPerform(s, q, index, a, error))
  {
    var after := PerformOn(q.tool, s.host, a);
    Performed(s, q, after);
    var t := s.(host := after, executed := s.executed + multiset{q.key},
                changed := if after != s.host then s.changed + {q.key} else s.changed);
    var report := ReportOf(q.tool, s.host, after, a);
    hide LedgerOk, ReceiptsOk;
    if report.Some? {
      ReportIsTrue(q.tool, s.host, a, q.key in t.changed);
      hide PerformOn, ReportOf, InspectHost;
      Moves(t, Completing(q, report.value));
    } else {
      if after != s.host {
        ChangeShows(q.tool, s.host, a);
      }
      hide PerformOn, ReportOf, InspectHost, Shows;
      Moves(t, Judging(q, index));
      if after == s.host {
        Moves(t, Completing(q, Refused(error)));
      }
    }
  }

  lemma JudgeInv(s: Workshop, q: Request, index: Text, readable: bool, clean: bool, error: Text)
    requires Inv(s) && s.phase == Judging(q, index)
    ensures Inv(AfterJudge(s, q, index, readable, clean, error))
  {
    Releases(s);
    hide LedgerOk, ReceiptsOk;
    var i := InspectHost(q.tool, s.host, clean);
    if i.Done? {
      DoneIsTrue(q.tool, s.host, clean, q.key in s.changed);
      Moves(s, Completing(q, i.outcome));
    } else if (q.tool.Write? && i.Untouched?)
        || (!q.tool.Write? && s.host.head == q.tool.head && s.host.index == index) {
      assert q.key !in s.changed;
      Moves(s, Completing(q, Refused(error)));
    }
  }

  lemma Stores(s: Workshop, q: Request, r: Outcome)
    requires LedgerOk(s) && ReceiptsOk(s) && Reserved(s, q) && Fits(q.tool, r)
             && True(q.tool, s.host, r, q.key in s.changed)
    ensures var t := s.(ledger := s.ledger[q.key := Record(q, Some(r))],
                        receipts := s.receipts + [Receipt(q.key, r, s.host, q.key in s.changed)]);
            LedgerOk(t) && ReceiptsOk(t)
  {
    hide Fits, True;
    assert r.Refused? ==> q.key !in s.changed by { RefusedUnchanged(q.tool, s.host, r, q.key in s.changed); }
  }

  lemma RefusedUnchanged(t: Tool, h: Host, r: Outcome, changed: bool)
    requires True(t, h, r, changed)
    ensures r.Refused? ==> !changed
  {
  }

  lemma CompleteInv(s: Workshop, q: Request, r: Outcome, commit: bool, acknowledged: bool)
    requires Inv(s) && s.phase == Completing(q, r)
    ensures Inv(AfterComplete(s, q, r, commit, acknowledged))
  {
    Releases(s);
    Stores(s, q, r);
    hide LedgerOk, ReceiptsOk, Fits, True;
    var t := s.(ledger := s.ledger[q.key := Record(q, Some(r))],
                receipts := s.receipts + [Receipt(q.key, r, s.host, q.key in s.changed)]);
    Releases(t);
    Returns(t, q.key, r);
  }

  lemma StepInv(s: Workshop, a: Action)
    requires Inv(s)
    ensures Inv(Step(s, a))
  {
    hide AfterLookUp, AfterReserve, AfterInspect, AfterMeasure, AfterPerform, AfterJudge, AfterComplete;
    Releases(s);
    match a
    case LookUp(answered) => if s.phase.LookingUp? { LookUpInv(s, s.phase.request, s.phase.reconcile); }
    case Precheck(readable) => if s.phase.Prechecking? { Moves(s, Reserving(s.phase.request)); }
    case Reserve(commit, acknowledged) =>
      if s.phase.Reserving? { ReserveInv(s, s.phase.request, commit, acknowledged); }
    case Inspect(readable, clean, error) =>
      if s.phase.Inspecting? { InspectInv(s, s.phase.request, s.phase.created, readable, clean, error); }
    case Measure(readable, error) => if s.phase.Measuring? { MeasureInv(s, s.phase.request, readable, error); }
    case Perform(attempt, error) =>
      if s.phase.Performing? { PerformInv(s, s.phase.request, s.phase.index, attempt, error); }
    case Judge(readable, clean, error) =>
      if s.phase.Judging? { JudgeInv(s, s.phase.request, s.phase.index, readable, clean, error); }
    case Complete(commit, acknowledged) =>
      if s.phase.Completing? { CompleteInv(s, s.phase.request, s.phase.outcome, commit, acknowledged); }
    case Acquire(q, reconcile) =>
      if s.phase.Free? {
        Moves(s, LookingUp(q, reconcile));
        Moves(s, Reserving(q));
      }
    case Stop =>
  }

  lemma {:induction false} ReachableInv(host: Host, actions: seq<Action>)
    ensures Inv(Run(host, actions))
  {
    if |actions| == 0 {
    } else {
      hide Inv, Step;
      ReachableInv(host, actions[..|actions| - 1]);
      StepInv(Run(host, actions[..|actions| - 1]), actions[|actions| - 1]);
    }
  }

  // ------------------------------------------------------------------
  // What it gives, over every run and every crash.
  // ------------------------------------------------------------------

  /** Each (invocation, call id) reaches the host at most once. */
  lemma AtMostOneExecution(host: Host, actions: seq<Action>, k: Key)
    ensures Run(host, actions).executed[k] <= 1
  {
    hide Run, PhaseOk, ReceiptsOk;
    ReachableInv(host, actions);
  }

  /** A stored success held of the host when it was stored; a stored failure means that the
      call changed nothing, then or ever. */
  lemma ReceiptsAreTrue(host: Host, actions: seq<Action>, i: nat)
    requires i < |Run(host, actions).receipts|
    ensures var s := Run(host, actions);
            var x := s.receipts[i];
            && x.key in s.ledger && True(s.ledger[x.key].request.tool, x.host, x.outcome, x.changed)
            && (x.outcome.Wrote? ==>
                  var t := s.ledger[x.key].request.tool;
                  t.Write? && x.outcome.hash == t.desired && HashOf(x.host, t.path) == Some(t.desired))
            && (x.outcome.Staged? ==>
                  var t := s.ledger[x.key].request.tool;
                  t.Stage? && x.host.head == t.head && x.host.index == x.outcome.tree)
            && (x.outcome.Committed? ==>
                  var t := s.ledger[x.key].request.tool;
                  && t.Commit? && x.outcome.tree == t.tree && x.host.head == x.outcome.sha
                  && x.outcome.sha in x.host.commits
                  && x.host.commits[x.outcome.sha] == CommitInfo(t.head, t.tree, t.message))
            && (x.outcome.Refused? ==> x.key !in s.changed)
  {
    hide Run, PhaseOk;
    ReachableInv(host, actions);
  }

  lemma ResultStays(s: Workshop, a: Action, k: Key)
    requires Inv(s) && k in s.ledger && s.ledger[k].result.Some?
    ensures k in Step(s, a).ledger && Step(s, a).ledger[k] == s.ledger[k]
  {
    hide LedgerOk, ReceiptsOk, Fits, True, InspectHost, PerformOn, ReportOf;
  }

  /** Once a result is stored for a call it stays, and nothing else is ever returned for it. */
  lemma {:induction false} StoredResultIsStable(host: Host, actions: seq<Action>, n: nat, k: Key)
    requires n <= |actions|
    requires var s := Run(host, actions[..n]); k in s.ledger && s.ledger[k].result.Some?
    ensures var s, t := Run(host, actions[..n]), Run(host, actions);
            && k in t.ledger && t.ledger[k] == s.ledger[k]
            && forall i :: 0 <= i < |t.returned| && t.returned[i].0 == k ==> Some(t.returned[i].1) == s.ledger[k].result
  {
    hide Step;
    ReachableInv(host, actions);
    if n == |actions| {
      assert actions[..n] == actions;
    } else {
      var m := |actions| - 1;
      assert actions[..m][..n] == actions[..n];
      StoredResultIsStable(host, actions[..m], n, k);
      ReachableInv(host, actions[..m]);
      hide Inv;
      ResultStays(Run(host, actions[..m]), actions[m], k);
    }
    hide PhaseOk, LedgerOk;
  }

  /** The operations of a repeated call, each of them answered. */
  function Repeat(q: Request, reconcile: bool): seq<Action> {
    if reconcile then [Acquire(q, true), LookUp(true)]
    else if q.tool.Write? then [Acquire(q, false), LookUp(true), Reserve(true, true)]
    else [Acquire(q, false), Reserve(true, true)]
  }

  lemma RunMore(host: Host, actions: seq<Action>, a: Action)
    ensures Run(host, actions + [a]) == Step(Run(host, actions), a)
  {
    hide Step;
    assert (actions + [a])[..|actions|] == actions;
  }

  /** Executing or reconciling again the request of a call with a stored result does return that
      result, and leaves ledger and host as they were. */
  lemma RepeatReturnsStored(host: Host, actions: seq<Action>, k: Key, reconcile: bool)
    requires var s := Run(host, actions); s.phase.Free? && k in s.ledger && s.ledger[k].result.Some?
    ensures var s := Run(host, actions);
            Run(host, actions + Repeat(s.ledger[k].request, reconcile)) == Return(s, k, s.ledger[k].result.value)
  {
    hide Run, PhaseOk, ReceiptsOk;
    ReachableInv(host, actions);
    var s := Run(host, actions);
    var q := s.ledger[k].request;
    var r := Repeat(q, reconcile);
    hide LedgerOk, Fits;
    assert q.key == k && Fits(q.tool, s.ledger[k].result.value) by { RecordFits(s, k); }
    RunMore(host, actions, r[0]);
    RunMore(host, actions + [r[0]], r[1]);
    assert actions + [r[0]] + [r[1]] == actions + r[..2];
    if |r| == 3 {
      RunMore(host, actions + r[..2], r[2]);
      assert actions + r[..2] + [r[2]] == actions + r;
    } else {
      assert r[..2] == r;
    }
  }

  lemma RecordFits(s: Workshop, k: Key)
    requires LedgerOk(s) && k in s.ledger && s.ledger[k].result.Some?
    ensures s.ledger[k].request.key == k && Fits(s.ledger[k].request.tool, s.ledger[k].result.value)
  {
  }
}
