/** Who may do what in the evidence registry and what its entries satisfy, over every mix of
    operations. See kernel/evidence.go.
 */
module EvidenceFacts {
  import opened Orders
  import opened Ids
  import opened Evidence
  import opened EvidenceRuns

  // ------------------------------------------------------------------
  // Acceptance, on the fields.
  // ------------------------------------------------------------------

  /** Every described property of a record is there, and it does not rest on itself. */
  ghost predicate Described(r: Record) {
    && r.id.Valid() && r.raw.Valid() && r.immutable && r.registeredBy.Valid() && r.ingestedAt.Some?
    && Text("") !in {r.kind, r.media, r.locator, r.component, r.version, r.transport, r.sensitivity, r.partition,
                     r.retention}
    && r.id !in r.sources && (forall i :: 0 <= i < |r.sources| ==> r.sources[i].Valid())
    && (r.canonical.Some? ==> r.canonical.value.Valid())
    && (r.redacts.Some? ==> r.redacts.value.Valid() && r.redacts.value in r.sources)
    && (r.computation.Some? ==>
          && r.sources != [] && r.computation.value.method_ != Text("")
          && r.computation.value.build.Valid() && r.computation.value.configuration.Valid())
  }

  /** The bytes come with an available record and match its digest and length; with another none do. */
  ghost predicate Accompanied(h: Hashing, r: Record, raw: Option<Bytes>) {
    if r.availability.Available?
    then r.integrity.DigestVerified? && raw.Some? && r.length == |raw.value| && r.raw == h.content(raw.value)
    else raw.None?
  }

  lemma RecordValidIff(h: Hashing, r: Record, raw: Option<Bytes>)
    ensures RecordValid(h, r, raw) <==> Described(r) && Accompanied(h, r, raw)
  {
    hide Uuid.Valid, Digest.Valid;
    assert forall t: Text :: t.Empty() <==> t == Text("");
    assert (forall s :: s in r.sources ==> s.Valid()) <==> (forall i :: 0 <= i < |r.sources| ==> r.sources[i].Valid());
  }

  /** What an assessment must say by its class. */
  ghost predicate WellPut(a: Assessment) {
    && a.id.Valid() && a.assessor.Valid() && a.assessedAt.Some? && a.claim != Text("") && a.scope != Text("")
    && !a.class_.OtherClaim?
    && (a.class_ in {Observed, Computed} ==> a.supporting != [])
    && (a.class_.Observed? ==> a.method_ == Text("")) && (a.class_.Computed? ==> a.method_ != Text(""))
  }

  lemma AssessmentValidIff(a: Assessment)
    ensures AssessmentValid(a) <==> WellPut(a)
  {
    hide Uuid.Valid;
    assert forall t: Text :: t.Empty() <==> t == Text("");
  }

  /** Which times have a JSON form. */
  lemma TimeEncodesIff(t: Time)
    ensures TimeEncodes(Some(t)) <==> -1 < t.year < 10000 && -86399 <= t.offset <= 86399
    ensures TimeEncodes(None)
  {
  }

  /** What an audit entry covers has a JSON form exactly when each of its times has. */
  lemma EncodesIff(s: Subject)
    ensures Encodes(s) <==>
            match s
            case RecordSubject(r) => forall t :: t in {r.ingestedAt, r.sourceAt} ==> TimeEncodes(t)
            case TombstoneSubject(t) => TimeEncodes(t.deletedAt)
            case AssessmentSubject(a) => TimeEncodes(a.assessedAt)
  {
  }

  /** A registration is accepted exactly from its own registrar, who may register in that partition,
      of a new, described and accompanied record; it then adds that record and its bytes alone. */
  lemma RegisteredIff(h: Hashing, s: Store, r: Record, raw: Option<Bytes>, a: Access)
    ensures Registered(h, s, r, raw, a).Some? <==>
            && a.principal == r.registeredBy && r.partition in a.registrable && r.id !in s.records
            && Described(r) && Accompanied(h, r, raw)
    ensures Registered(h, s, r, raw, a).Some? ==>
              var t := Registered(h, s, r, raw, a).value;
              && t.records == s.records[r.id := r] && t.deletions == s.deletions && t.assessments == s.assessments
              && t.access == s.access && |t.audit| == |s.audit| + 1
              && (forall k :: k in t.content <==> k in s.content || (raw.Some? && k == r.raw))
              && (forall k :: k in s.content ==> t.content[k] == s.content[k])
              && (raw.Some? && r.raw !in s.content ==> t.content[r.raw] == raw.value)
  {
    hide RecordValid, Digest.Valid, Uuid.Valid;
    RecordValidIff(h, r, raw);
  }

  /** A deletion is accepted exactly from its named authority, who may delete and read there, with a
      basis, a time and the record's own digest, once. */
  lemma DeletedIff(h: Hashing, s: Store, t: Tombstone, a: Access)
    ensures Deleted(h, s, t, a).Some? <==>
            && t.id in s.records && t.id !in s.deletions && t.raw == s.records[t.id].raw
            && a.principal == t.authority && a.principal.Valid() && a.canDelete
            && s.records[t.id].partition in a.readable && t.basis != Text("") && t.deletedAt.Some?
    ensures Deleted(h, s, t, a).Some? ==>
              var u := Deleted(h, s, t, a).value;
              && u.records == s.records && u.deletions == s.deletions[t.id := t] && u.assessments == s.assessments
              && u.access == s.access && |u.audit| == |s.audit| + 1
              && (forall k :: k in u.content ==> k in s.content && u.content[k] == s.content[k])
              && (forall k :: k in s.content && k != t.raw ==> k in u.content)
  {
    hide Shared;
  }

  /** Evidence an assessment may rest on. */
  ghost predicate Usable(s: Store, id: Uuid) {
    && id in s.records && id !in s.deletions
    && s.records[id].availability.Available? && s.records[id].integrity.DigestVerified?
  }

  /** An assessment is accepted exactly when it is new and well put, rests on usable evidence, and
      either supersedes one on the same claim and scope or is the first on them. */
  lemma AssessedIff(h: Hashing, s: Store, a: Assessment)
    ensures Assessed(h, s, a).Some? <==>
            && WellPut(a) && a.id !in s.assessments
            && (forall e :: e in a.supporting ==> Usable(s, e)) && (forall e :: e in a.contradicting ==> Usable(s, e))
            && (a.supersedes.Some? ==>
                  var o := a.supersedes.value;
                  && o in s.assessments && s.assessments[o].claim == a.claim && s.assessments[o].scope == a.scope)
            && (a.supersedes.None? ==>
                  forall o :: o in s.assessments ==>
                      s.assessments[o].claim != a.claim || s.assessments[o].scope != a.scope)
    ensures Assessed(h, s, a).Some? ==>
              var t := Assessed(h, s, a).value;
              && t.assessments == s.assessments[a.id := a] && t.records == s.records && t.deletions == s.deletions
              && t.content == s.content && t.access == s.access && |t.audit| == |s.audit| + 1
  {
    hide AssessmentValid;
    AssessmentValidIff(a);
    assert forall e :: Usable(s, e) <==> Offered(s, e);
    hide Usable, Offered, WellPut;
  }

  /** A read is answered exactly for a known record, at some time, to a valid principal who may read
      its partition; a deleted or unavailable record comes back without bytes. Every read is
      recorded as asked and as answered. */
  lemma ReadOnFields(s: Store, id: Uuid, a: Access, at: Option<Time>)
    ensures var r, t := ReadResultOf(s, id, a, at), AfterRead(s, id, a, at);
            var may := id in s.records && at.Some? && a.principal.Valid() && s.records[id].partition in a.readable;
            && (r.Denied? <==> !may)
            && (may && id in s.deletions ==>
                  r == NoBytes(s.records[id].(availability := DeletedWithTombstone, integrity := Missing)))
            && (may && id !in s.deletions && !s.records[id].availability.Available? ==> r == NoBytes(s.records[id]))
            && (may && id !in s.deletions && s.records[id].availability.Available? ==>
                  r.Returned? && r.record == s.records[id])
            && t == s.(access := s.access + [AccessRecord(id, a.principal, at, !r.Denied?)])
  {
  }

  // ------------------------------------------------------------------
  // Over every run.
  // ------------------------------------------------------------------

  /** Some operation of the run registered the record, by its own registrar. */
  ghost predicate WasRegistered(h: Hashing, ops: seq<Op>, r: Record) {
    exists k :: 0 <= k < |ops| && RegistersAt(h, ops[k], r)
  }

  ghost predicate RegistersAt(h: Hashing, op: Op, r: Record) {
    && op.Registering? && op.record == r && op.access.principal == r.registeredBy
       && r.partition in op.access.registrable
    && Described(r) && Accompanied(h, r, op.raw)
  }

  ghost predicate WasDeleted(s: Store, ops: seq<Op>, t: Tombstone) {
    exists k :: 0 <= k < |ops| && DeletesAt(s, ops[k], t)
  }

  ghost predicate DeletesAt(s: Store, op: Op, t: Tombstone) {
    && op.Deleting? && op.tombstone == t && op.access.principal == t.authority && op.access.canDelete
    && t.id in s.records && t.raw == s.records[t.id].raw && s.records[t.id].partition in op.access.readable
    && t.basis != Text("") && t.deletedAt.Some?
  }

  /** Every record was registered by its registrar, every tombstone set by its authority, and every
      assessment is well put. */
  ghost predicate Accounted(h: Hashing, ops: seq<Op>, s: Store) {
    && (forall id :: id in s.records ==> s.records[id].id == id && WasRegistered(h, ops, s.records[id]))
    && (forall id :: id in s.deletions ==> s.deletions[id].id == id && WasDeleted(s, ops, s.deletions[id]))
    && (forall id :: id in s.assessments ==> s.assessments[id].id == id && WellPut(s.assessments[id]))
  }

  lemma RegisteredMore(h: Hashing, ops: seq<Op>, op: Op, r: Record)
    requires WasRegistered(h, ops, r)
    ensures WasRegistered(h, ops + [op], r)
  {
    hide RegistersAt;
    var k :| 0 <= k < |ops| && RegistersAt(h, ops[k], r);
    assert (ops + [op])[k] == ops[k];
  }

  lemma DeletedMore(s: Store, t: Store, ops: seq<Op>, op: Op, x: Tombstone)
    requires WasDeleted(s, ops, x) && x.id in t.records && (x.id in s.records ==> t.records[x.id] == s.records[x.id])
    ensures WasDeleted(t, ops + [op], x)
  {
    var k :| 0 <= k < |ops| && DeletesAt(s, ops[k], x);
    assert (ops + [op])[k] == ops[k];
    assert DeletesAt(t, ops[k], x);
  }

  lemma StepKeepsRecords(h: Hashing, s: Store, op: Op)
    ensures var t := Step(h, s, op);
            && (forall id :: id in s.records ==> id in t.records && t.records[id] == s.records[id])
            && (forall id :: id in t.records && id !in s.records ==>
                  op.Registering? && id == op.record.id && t.records[id] == op.record && RegistersAt(h, op, op.record))
            && (forall id :: id in t.deletions && (id !in s.deletions || t.deletions[id] != s.deletions[id]) ==>
                  op.Deleting? && id == op.tombstone.id && t.deletions[id] == op.tombstone
                      && DeletesAt(t, op, op.tombstone))
            && (forall id :: id in t.assessments && (id !in s.assessments || t.assessments[id] != s.assessments[id]) ==>
                  op.Assessing? && id == op.assessment.id && t.assessments[id] == op.assessment
                      && WellPut(op.assessment))
  {
    hide RecordValid, AssessmentValid, Shared, Uuid.Valid;
    match op
    case Registering(r, raw, a) => RecordValidIff(h, r, raw);
    case Deleting(t, a) => DeletedIff(h, s, t, a);
    case Assessing(a) => AssessmentValidIff(a);
    case Reading(_, _, _) =>
  }

  lemma AccountedStep(h: Hashing, ops: seq<Op>, op: Op, s: Store)
    requires Accounted(h, ops, s) && s.deletions.Keys <= s.records.Keys
    ensures Accounted(h, ops + [op], Step(h, s, op))
  {
    hide Step, WasRegistered, WasDeleted, RegistersAt, DeletesAt, WellPut;
    StepKeepsRecords(h, s, op);
    var t := Step(h, s, op);
    forall id | id in t.records ensures t.records[id].id == id && WasRegistered(h, ops + [op], t.records[id]) {
      if id in s.records {
        RegisteredMore(h, ops, op, s.records[id]);
      } else {
        RegisteredNow(h, ops, op);
      }
    }
    forall id | id in t.deletions ensures t.deletions[id].id == id && WasDeleted(t, ops + [op], t.deletions[id]) {
      if id in s.deletions && t.deletions[id] == s.deletions[id] {
        DeletedMore(s, t, ops, op, s.deletions[id]);
      } else {
        DeletedNow(t, ops, op);
      }
    }
  }

  lemma RegisteredNow(h: Hashing, ops: seq<Op>, op: Op)
    requires op.Registering? && RegistersAt(h, op, op.record)
    ensures WasRegistered(h, ops + [op], op.record)
  {
    hide RegistersAt;
    assert (ops + [op])[|ops|] == op;
  }

  lemma DeletedNow(s: Store, ops: seq<Op>, op: Op)
    requires op.Deleting? && DeletesAt(s, op, op.tombstone)
    ensures WasDeleted(s, ops + [op], op.tombstone)
  {
    hide DeletesAt;
    assert (ops + [op])[|ops|] == op;
  }

  /** In every reachable registry each record was registered by its own registrar with the right to
      do so, each tombstone was set by its own authority with the right to do so, and each
      assessment is well put. */
  lemma {:induction false} AllAccounted(h: Hashing, ops: seq<Op>)
    ensures Accounted(h, ops, Run(h, ops))
  {
    if |ops| == 0 {
    } else {
      var n := |ops| - 1;
      AllAccounted(h, ops[..n]);
      ContentInvariant(h, ops[..n]);
      DeletionsKnown(h, ops[..n]);
      hide Step, Accounted;
      AccountedStep(h, ops[..n], ops[n], Run(h, ops[..n]));
      assert ops == ops[..n] + [ops[n]];
    }
  }

  lemma DeletionsKnown(h: Hashing, ops: seq<Op>)
    ensures Run(h, ops).deletions.Keys <= Run(h, ops).records.Keys
  {
    hide Run, ContentOk;
    ContentInvariant(h, ops);
  }
}
