/** What every mix of registry operations keeps, and the audit projection. */
module EvidenceRuns {
  import opened Orders
  import opened Ids
  import opened Evidence

  datatype Op =
    | Registering(record: Record, raw: Option<Bytes>, access: Access)
    | Deleting(tombstone: Tombstone, access: Access)
    | Assessing(assessment: Assessment)
    | Reading(id: Uuid, access: Access, at: Option<Time>)

  /** The store an accepted operation leads to; None is an error or a mere read. */
  function Changed(h: Hashing, s: Store, op: Op): Option<Store> {
    match op
    case Registering(r, raw, a) => Registered(h, s, r, raw, a)
    case Deleting(t, a) => Deleted(h, s, t, a)
    case Assessing(a) => Assessed(h, s, a)
    case Reading(_, _, _) => None
  }

  function Step(h: Hashing, s: Store, op: Op): Store {
    if op.Reading? then AfterRead(s, op.id, op.access, op.at)
    else
      var next := Changed(h, s, op);
      if next.Some? then next.value else s
  }

  function Run(h: Hashing, ops: seq<Op>): Store {
    if |ops| == 0 then EMPTY else Step(h, Run(h, ops[..|ops| - 1]), ops[|ops| - 1])
  }

  // ------------------------------------------------------------------
  // Content.
  // ------------------------------------------------------------------

  /** The record still offers its bytes. */
  predicate Live(s: Store, id: Uuid) {
    id in s.records && s.records[id].availability.Available? && id !in s.deletions
  }

  ghost predicate Needed(s: Store, k: Digest) {
    exists id :: Live(s, id) && s.records[id].raw == k
  }

  /** The stored blobs are exactly those of available, undeleted records, each under its own digest. */
  ghost predicate ContentOk(h: Hashing, s: Store) {
    && (forall k :: k in s.content <==> Needed(s, k))
    && (forall k :: k in s.content ==> h.content(s.content[k]) == k)
  }

  ghost predicate RecordsOk(s: Store) {
    && (forall id :: id in s.records ==> s.records[id].id == id && id.Valid())
    && s.deletions.Keys <= s.records.Keys
  }

  /** Which records offer bytes after a registration. */
  lemma RegisterLive(h: Hashing, s: Store, r: Record, raw: Option<Bytes>, a: Access)
    requires RecordsOk(s) && Registered(h, s, r, raw, a).Some?
    ensures var t := Registered(h, s, r, raw, a).value;
            && RecordsOk(t) && (raw.Some? ==> h.content(raw.value) == r.raw)
            && forall id :: Live(t, id) <==> if id == r.id then raw.Some? else Live(s, id)
  {
    hide Uuid.Valid, Digest.Valid, AppendAudit;
    assert r.availability.Available? <==> raw.Some?;
    assert r.id.Valid();
    hide RecordValid;
  }

  lemma RegisterNeeds(h: Hashing, s: Store, r: Record, raw: Option<Bytes>, a: Access, k: Digest)
    requires RecordsOk(s) && Registered(h, s, r, raw, a).Some?
    ensures Needed(Registered(h, s, r, raw, a).value, k) <==> Needed(s, k) || (raw.Some? && k == r.raw)
  {
    hide RecordValid, AppendAudit, RecordsOk;
    RegisterLive(h, s, r, raw, a);
    var t := Registered(h, s, r, raw, a).value;
    assert !Live(s, r.id);
    if Needed(s, k) {
      var id :| Live(s, id) && s.records[id].raw == k;
      assert Live(t, id) && t.records[id].raw == k;
    }
    if raw.Some? && k == r.raw {
      assert Live(t, r.id) && t.records[r.id].raw == k;
    }
  }

  lemma RegisterKeepsContent(h: Hashing, s: Store, r: Record, raw: Option<Bytes>, a: Access)
    requires ContentOk(h, s) && RecordsOk(s) && Registered(h, s, r, raw, a).Some?
    ensures ContentOk(h, Registered(h, s, r, raw, a).value) && RecordsOk(Registered(h, s, r, raw, a).value)
  {
    hide RecordValid, AppendAudit, Live, RecordsOk, Needed;
    RegisterLive(h, s, r, raw, a);
    forall k {
      RegisterNeeds(h, s, r, raw, a, k);
    }
  }

  lemma DeleteKeepsContent(h: Hashing, s: Store, d: Tombstone, a: Access)
    requires ContentOk(h, s) && RecordsOk(s) && Deleted(h, s, d, a).Some?
    ensures ContentOk(h, Deleted(h, s, d, a).value) && RecordsOk(Deleted(h, s, d, a).value)
  {
    hide Uuid.Valid, Digest.Valid, AppendAudit;
    var t := Deleted(h, s, d, a).value;
    var raw := s.records[d.id].raw;
    assert forall id :: Live(t, id) <==> Live(s, id) && id != d.id;
    forall k ensures Needed(t, k) <==> Needed(s, k) && (k != raw || Shared(s, d.id, raw)) {
      if Needed(s, k) && k != raw {
        var id :| Live(s, id) && s.records[id].raw == k;
        assert Live(t, id);
      }
      if k == raw && Shared(s, d.id, raw) {
        var o :| o in s.records && o != d.id && s.records[o].raw == raw && s.records[o].availability.Available?
            && o !in s.deletions;
        assert Live(t, o);
      }
      if Needed(t, k) {
        var id :| Live(t, id) && t.records[id].raw == k;
        assert Live(s, id);
      }
    }
  }

  lemma StepKeepsContent(h: Hashing, s: Store, op: Op)
    requires ContentOk(h, s) && RecordsOk(s)
    ensures ContentOk(h, Step(h, s, op)) && RecordsOk(Step(h, s, op))
  {
    hide Uuid.Valid, Digest.Valid, AppendAudit, RecordValid, AssessmentValid;
    if op.Registering? && Changed(h, s, op).Some? {
      RegisterKeepsContent(h, s, op.record, op.raw, op.access);
    }
    if op.Deleting? && Changed(h, s, op).Some? {
      DeleteKeepsContent(h, s, op.tombstone, op.access);
    }
    if op.Assessing? || op.Reading? {
      SameContent(h, s, Step(h, s, op));
    }
  }

  lemma SameContent(h: Hashing, s: Store, t: Store)
    requires ContentOk(h, s) && RecordsOk(s)
    requires t.records == s.records && t.content == s.content && t.deletions == s.deletions
    ensures ContentOk(h, t) && RecordsOk(t)
  {
    hide Uuid.Valid;
    assert forall id :: Live(t, id) <==> Live(s, id);
    assert forall k :: Needed(t, k) <==> Needed(s, k);
  }

  lemma {:induction false} ContentInvariant(h: Hashing, ops: seq<Op>)
    ensures ContentOk(h, Run(h, ops)) && RecordsOk(Run(h, ops))
  {
    hide Step;
    if |ops| > 0 {
      hide ContentOk, RecordsOk;
      ContentInvariant(h, ops[..|ops| - 1]);
      StepKeepsContent(h, Run(h, ops[..|ops| - 1]), ops[|ops| - 1]);
    } else {
      assert forall k :: !Needed(EMPTY, k);
    }
  }

  /** The bytes each record was registered with. */
  function Given(h: Hashing, ops: seq<Op>): map<Uuid, Bytes> {
    if |ops| == 0 then map[]
    else
      var n := |ops| - 1;
      var op := ops[n];
      if op.Registering? && op.raw.Some? && Changed(h, Run(h, ops[..n]), op).Some?
      then Given(h, ops[..n])[op.record.id := op.raw.value] else Given(h, ops[..n])
  }

  ghost predicate GivenOk(h: Hashing, s: Store, given: map<Uuid, Bytes>) {
    && given.Keys <= s.records.Keys
    && forall id :: id in s.records && s.records[id].availability.Available? ==>
         id in given && h.content(given[id]) == s.records[id].raw && |given[id]| == s.records[id].length
  }

  lemma GivenRegistered(h: Hashing, s: Store, given: map<Uuid, Bytes>, r: Record, raw: Option<Bytes>, a: Access)
    requires GivenOk(h, s, given) && Registered(h, s, r, raw, a).Some?
    ensures GivenOk(h, Registered(h, s, r, raw, a).value, if raw.Some? then given[r.id := raw.value] else given)
  {
    hide Uuid.Valid, Digest.Valid, AppendAudit;
  }

  lemma SameRecords(h: Hashing, s: Store, op: Op)
    requires !(op.Registering? && Changed(h, s, op).Some?)
    ensures Step(h, s, op).records == s.records
  {
    hide AppendAudit, RecordValid, AssessmentValid, Shared;
  }

  lemma {:induction false} GivenInvariant(h: Hashing, ops: seq<Op>)
    ensures GivenOk(h, Run(h, ops), Given(h, ops))
  {
    if |ops| == 0 {
    } else {
      var n := |ops| - 1;
      GivenInvariant(h, ops[..n]);
      var s, op := Run(h, ops[..n]), ops[n];
      if op.Registering? && Changed(h, s, op).Some? {
        GivenRegistered(h, s, Given(h, ops[..n]), op.record, op.raw, op.access);
        hide GivenOk, Registered;
      } else {
        SameRecords(h, s, op);
        hide Step, Changed;
      }
    }
  }

  /** In every reachable registry a permitted read of an available, undeleted record returns
      bytes that hash to its digest; when the digest is injective they are the bytes it was
      registered with. Any other permitted read returns no bytes. */
  lemma ReadIsExact(h: Hashing, ops: seq<Op>, id: Uuid, a: Access, at: Option<Time>)
    requires MayRead(Run(h, ops), id, a, at)
    ensures var s := Run(h, ops);
            var r := ReadResultOf(s, id, a, at);
            if Live(s, id)
            then
              && r.Returned? && r.record == s.records[id] && s.records[id].raw in s.content
              && h.content(r.bytes) == s.records[id].raw
              && (InjectiveContent(h) ==>
                  id in Given(h, ops) && r.bytes == Given(h, ops)[id] && |r.bytes| == s.records[id].length)
            else r.NoBytes?
  {
    hide Run, Given;
    ContentInvariant(h, ops);
    GivenInvariant(h, ops);
    var s := Run(h, ops);
    if Live(s, id) {
      assert Needed(s, s.records[id].raw);
    }
  }

  // ------------------------------------------------------------------
  // Assessments.
  // ------------------------------------------------------------------

  /** order lists the assessments as they were registered: each supersedes an earlier one on
      the same claim and scope, or is the first on its claim and scope. */
  ghost predicate AssessmentsOk(s: Store, order: seq<Uuid>) {
    && (forall i :: 0 <= i < |order| ==> order[i] in s.assessments && s.assessments[order[i]].id == order[i])
    && (forall id :: id in s.assessments ==> id in order)
    && Distinct(order)
    && (forall i :: 0 <= i < |order| ==> Follows(s, order, i))
  }

  ghost predicate Follows(s: Store, order: seq<Uuid>, i: nat)
    requires i < |order| && forall k :: 0 <= k < |order| ==> order[k] in s.assessments
  {
    var a := s.assessments[order[i]];
    if a.supersedes.Some?
    then exists j :: 0 <= j < i && order[j] == a.supersedes.value && SameQuestion(s.assessments[order[j]], a)
    else forall j :: 0 <= j < i ==> !SameQuestion(s.assessments[order[j]], a)
  }

  /** Assessment ids in order of registration. */
  function Order(h: Hashing, ops: seq<Op>): seq<Uuid> {
    if |ops| == 0 then []
    else
      var n := |ops| - 1;
      if ops[n].Assessing? && Changed(h, Run(h, ops[..n]), ops[n]).Some?
      then Order(h, ops[..n]) + [ops[n].assessment.id] else Order(h, ops[..n])
  }

  lemma AssessmentAdded(h: Hashing, s: Store, order: seq<Uuid>, a: Assessment)
    requires AssessmentsOk(s, order) && Assessed(h, s, a).Some?
    ensures AssessmentsOk(Assessed(h, s, a).value, order + [a.id])
  {
    hide AppendAudit, Offered, AssessmentValid;
    var t := Assessed(h, s, a).value;
    var more := order + [a.id];
    assert forall i :: 0 <= i < |order| ==>
        more[i] == order[i] && order[i] != a.id && t.assessments[more[i]] == s.assessments[order[i]];
    forall i | 0 <= i < |more| ensures Follows(t, more, i) {
      if i < |order| {
        assert Follows(s, order, i);
        var b := s.assessments[order[i]];
        if b.supersedes.Some? {
          var j :| 0 <= j < i && order[j] == b.supersedes.value && SameQuestion(s.assessments[order[j]], b);
          assert more[j] == order[j];
        }
      } else if a.supersedes.Some? {
        assert a.supersedes.value in order;
        var j :| 0 <= j < |order| && order[j] == a.supersedes.value;
        assert more[j] == order[j];
      }
    }
  }

  lemma {:induction false} AssessmentInvariant(h: Hashing, ops: seq<Op>)
    ensures AssessmentsOk(Run(h, ops), Order(h, ops))
  {
    if |ops| == 0 {
    } else {
      var n := |ops| - 1;
      AssessmentInvariant(h, ops[..n]);
      var s := Run(h, ops[..n]);
      if ops[n].Assessing? && Changed(h, s, ops[n]).Some? {
        hide AssessmentsOk, Assessed;
        AssessmentAdded(h, s, Order(h, ops[..n]), ops[n].assessment);
      } else {
        SameAssessments(h, s, ops[n]);
        SameOrder(s, Run(h, ops), Order(h, ops[..n]));
      }
    }
  }

  lemma SameAssessments(h: Hashing, s: Store, op: Op)
    requires !(op.Assessing? && Changed(h, s, op).Some?)
    ensures Step(h, s, op).assessments == s.assessments
  {
  }

  lemma SameOrder(s: Store, t: Store, order: seq<Uuid>)
    requires AssessmentsOk(s, order) && t.assessments == s.assessments
    ensures AssessmentsOk(t, order)
  {
    forall i | 0 <= i < |order| ensures Follows(t, order, i) {
      assert Follows(s, order, i);
    }
  }

  /** path leads from an assessment, superseded by superseded, to one that supersedes nothing. */
  ghost predicate LeadsToRoot(s: Store, path: seq<Uuid>) {
    && |path| > 0 && (forall i :: 0 <= i < |path| ==> path[i] in s.assessments)
    && (forall i :: 0 < i < |path| ==> s.assessments[path[i - 1]].supersedes == Some(path[i]))
    && s.assessments[path[|path| - 1]].supersedes.None?
    && (forall i :: 0 <= i < |path| ==> SameQuestion(s.assessments[path[0]], s.assessments[path[i]]))
  }

  lemma {:induction false} PathToRoot(s: Store, order: seq<Uuid>, i: nat) returns (path: seq<Uuid>)
    requires AssessmentsOk(s, order) && i < |order|
    ensures LeadsToRoot(s, path) && path[0] == order[i]
  {
    var a := s.assessments[order[i]];
    assert Follows(s, order, i);
    if a.supersedes.None? {
      path := [order[i]];
    } else {
      var j :| 0 <= j < i && order[j] == a.supersedes.value && SameQuestion(s.assessments[order[j]], a);
      var rest := PathToRoot(s, order, j);
      path := [order[i]] + rest;
      forall k | 0 < k < |path| ensures s.assessments[path[k - 1]].supersedes == Some(path[k]) {
        if k > 1 {
          assert path[k] == rest[k - 1] && path[k - 1] == rest[k - 2];
        }
      }
      forall k | 0 <= k < |path| ensures path[k] in s.assessments && SameQuestion(a, s.assessments[path[k]]) {
        if k > 0 {
          assert path[k] == rest[k - 1];
        }
      }
    }
  }

  /** Two roots on one claim and scope are the same assessment. */
  lemma OneRoot(s: Store, order: seq<Uuid>, x: Uuid, y: Uuid)
    requires AssessmentsOk(s, order) && x in s.assessments && y in s.assessments
    requires s.assessments[x].supersedes.None? && s.assessments[y].supersedes.None?
    requires SameQuestion(s.assessments[x], s.assessments[y])
    ensures x == y
  {
    var i :| 0 <= i < |order| && order[i] == x;
    var j :| 0 <= j < |order| && order[j] == y;
    assert Follows(s, order, i) && Follows(s, order, j);
  }

  /** In every reachable registry, following what an assessment supersedes ends at the one root
      of its claim and scope. */
  lemma SupersessionWellFounded(h: Hashing, ops: seq<Op>, id: Uuid) returns (path: seq<Uuid>)
    requires id in Run(h, ops).assessments
    ensures var s := Run(h, ops);
            && LeadsToRoot(s, path) && path[0] == id
            && forall o ::
                 o in s.assessments && s.assessments[o].supersedes.None?
                 && SameQuestion(s.assessments[o], s.assessments[id]) ==>
                 o == path[|path| - 1]
  {
    var s, order := Run(h, ops), Order(h, ops);
    AssessmentInvariant(h, ops);
    hide Run, Order;
    var i :| 0 <= i < |order| && order[i] == id;
    path := PathToRoot(s, order, i);
    hide AssessmentsOk;
    forall o | o in s.assessments && s.assessments[o].supersedes.None?
        && SameQuestion(s.assessments[o], s.assessments[id])
      ensures o == path[|path| - 1]
    {
      OneRoot(s, order, o, path[|path| - 1]);
    }
  }
}
