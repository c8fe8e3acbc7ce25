/** The evidence registry of kernel/evidence.go: a content-addressed store with deletion,
    superseding assessments and a hash-chained audit log.
 */
module Evidence {
  import opened Orders
  import opened Ids

  type Bytes = seq<bv8>

  /** None stands for the zero time. */
  datatype Time = Time(year: int, offset: int, instant: int)

  datatype Availability = Available | Unavailable | DeletedWithTombstone | OtherAvailability(name: string)

  datatype Integrity = Unverified | DigestVerified | Missing | Mismatch | OtherIntegrity(name: string)

  datatype Computation = Computation(method_: Text, build: Digest, configuration: Digest, deterministic: bool)

  datatype Record = Record(
    id: Uuid, kind: Text, raw: Digest, length: nat, media: Text, locator: Text, immutable: bool,
    availability: Availability, registeredBy: Principal, component: Text, version: Text, ingestedAt: Option<Time>,
    sourceAt: Option<Time>, transport: Text, sensitivity: Text, partition: Text, retention: Text, integrity: Integrity,
    sources: seq<Uuid>, computation: Option<Computation>, canonical: Option<Digest>, redacts: Option<Uuid>)

  datatype Access = Access(principal: Principal, readable: seq<Text>, registrable: seq<Text>, canDelete: bool)

  datatype Tombstone = Tombstone(id: Uuid, raw: Digest, authority: Principal, basis: Text, deletedAt: Option<Time>)

  datatype AccessRecord = AccessRecord(id: Uuid, principal: Principal, at: Option<Time>, allowed: bool)

  datatype ClaimClass = Observed | Computed | Inferred | Decided | UnknownClaim | OtherClaim(name: string)

  datatype Assessment = Assessment(
    id: Uuid, claim: Text, class_: ClaimClass, supporting: seq<Uuid>, contradicting: seq<Uuid>, method_: Text,
    assessor: Principal, scope: Text, assessedAt: Option<Time>, supersedes: Option<Uuid>)

  datatype Kind = REGISTERED | DELETED | ASSESSED | UnknownKind(name: string)

  /** What an entry's digest covers. */
  datatype Head = Head(position: nat, kind: Kind, identity: Uuid, digest: Digest, previous: Digest)

  datatype Entry = Entry(head: Head, digest: Digest)

  const NO_DIGEST := Digest("")

  /** A value whose digest an audit entry records. */
  datatype Subject = RecordSubject(record: Record) | TombstoneSubject(tombstone: Tombstone)
      | AssessmentSubject(assessment: Assessment)

  /** SHA-256 over raw bytes, over the JSON text of a value and over the JSON text of an audit head. */
  datatype Hashing = Hashing(content: Bytes -> Digest, value: Subject -> Digest, entry: Head -> Digest)

  ghost predicate Sound(h: Hashing) {
    (forall b :: h.content(b).Valid()) && (forall s :: h.value(s).Valid()) && (forall e :: h.entry(e).Valid())
  }

  ghost predicate InjectiveContent(h: Hashing) {
    forall a, b :: h.content(a) == h.content(b) ==> a == b
  }

  ghost predicate InjectiveEntries(h: Hashing) {
    forall a, b :: h.entry(a) == h.entry(b) ==> a == b
  }

  const DAY := 86400

  /** A time has a JSON form only in the years 0 to 9999 of its zone, and when its zone lies less
      than a day from UTC. */
  predicate TimeEncodes(t: Option<Time>) {
    t.Some? ==> 0 <= t.value.year <= 9999 && -DAY < t.value.offset < DAY
  }

  predicate Encodes(s: Subject) {
    match s
    case RecordSubject(r) => TimeEncodes(r.ingestedAt) && TimeEncodes(r.sourceAt)
    case TombstoneSubject(t) => TimeEncodes(t.deletedAt)
    case AssessmentSubject(a) => TimeEncodes(a.assessedAt)
  }

  /** digestValue, its error ignored: a value without a JSON form gets the empty digest. */
  function DigestOf(h: Hashing, s: Subject): Digest {
    if Encodes(s) then h.value(s) else NO_DIGEST
  }

  // ------------------------------------------------------------------
  // Validation.
  // ------------------------------------------------------------------

  predicate RecordValid(h: Hashing, r: Record, raw: Option<Bytes>) {
    && r.id.Valid() && !r.kind.Empty() && r.raw.Valid() && !r.media.Empty() && !r.locator.Empty() && r.immutable
    && r.registeredBy.Valid() && !r.component.Empty() && !r.version.Empty() && r.ingestedAt.Some?
       && !r.transport.Empty()
    && !r.sensitivity.Empty() && !r.partition.Empty() && !r.retention.Empty()
    && (forall s :: s in r.sources ==> s.Valid() && s != r.id)
    && (r.computation.Some? ==>
          && !r.computation.value.method_.Empty() && r.computation.value.build.Valid()
             && r.computation.value.configuration.Valid()
          && |r.sources| > 0)
    && (r.canonical.Some? ==> r.canonical.value.Valid())
    && (r.redacts.Some? ==> r.redacts.value.Valid() && r.redacts.value in r.sources)
    && (if r.availability.Available?
        then raw.Some? && |raw.value| == r.length && h.content(raw.value) == r.raw && r.integrity.DigestVerified?
        else raw.None?)
  }

  predicate AssessmentValid(a: Assessment) {
    && a.id.Valid() && !a.claim.Empty() && a.assessor.Valid() && !a.scope.Empty() && a.assessedAt.Some?
    && match a.class_
       case Observed => |a.supporting| > 0 && a.method_.Empty()
       case Computed => |a.supporting| > 0 && !a.method_.Empty()
       case OtherClaim(_) => false
       case _ => true
  }

  // ------------------------------------------------------------------
  // The registry as a value, and what each operation does to it.
  // ------------------------------------------------------------------

  datatype Store = Store(
    records: map<Uuid, Record>, content: map<Digest, Bytes>, deletions: map<Uuid, Tombstone>,
    assessments: map<Uuid, Assessment>, access: seq<AccessRecord>, audit: seq<Entry>)

  const EMPTY := Store(map[], map[], map[], map[], [], [])

  function LastDigest(audit: seq<Entry>): Digest {
    if |audit| == 0 then NO_DIGEST else audit[|audit| - 1].digest
  }

  /** appendAudit */
  function AppendAudit(h: Hashing, audit: seq<Entry>, kind: Kind, id: Uuid, s: Subject): seq<Entry> {
    var head := Head(|audit| + 1, kind, id, DigestOf(h, s), LastDigest(audit));
    audit + [Entry(head, h.entry(head))]
  }

  predicate MayRegister(r: Record, a: Access) {
    a.principal.Valid() && a.principal == r.registeredBy && r.partition in a.registrable
  }

  /** Register: None is an error, and changes nothing. */
  function Registered(h: Hashing, s: Store, r: Record, raw: Option<Bytes>, a: Access): Option<Store> {
    if !MayRegister(r, a) || !RecordValid(h, r, raw) || r.id in s.records then None
    else
      Some(s.(records := s.records[r.id := r],
              content := if raw.Some? && r.raw !in s.content then s.content[r.raw := raw.value] else s.content,
              audit := AppendAudit(h, s.audit, REGISTERED, r.id, RecordSubject(r))))
  }

  predicate MayDelete(s: Store, t: Tombstone, a: Access) {
    && t.id in s.records && a.principal.Valid() && a.principal == t.authority && a.canDelete
    && s.records[t.id].partition in a.readable
  }

  /** Some other record still offers these bytes. */
  predicate Shared(s: Store, id: Uuid, raw: Digest) {
    exists o :: o in s.records && o != id && s.records[o].raw == raw && s.records[o].availability.Available?
        && o !in s.deletions
  }

  /** Delete */
  function Deleted(h: Hashing, s: Store, t: Tombstone, a: Access): Option<Store> {
    if !MayDelete(s, t, a) || t.raw != s.records[t.id].raw || t.basis.Empty() || t.deletedAt.None?
        || t.id in s.deletions then None
    else
      var raw := s.records[t.id].raw;
      Some(s.(deletions := s.deletions[t.id := t],
              content := if Shared(s, t.id, raw) then s.content else s.content - {raw},
              audit := AppendAudit(h, s.audit, DELETED, t.id, TombstoneSubject(t))))
  }

  predicate Offered(s: Store, id: Uuid) {
    id in s.records && s.records[id].availability.Available? && s.records[id].integrity.DigestVerified?
        && id !in s.deletions
  }

  predicate SameQuestion(a: Assessment, b: Assessment) {
    a.claim == b.claim && a.scope == b.scope
  }

  /** RegisterAssessment */
  function Assessed(h: Hashing, s: Store, a: Assessment): Option<Store> {
    if || !AssessmentValid(a) || a.id in s.assessments
       || (exists e :: e in a.supporting + a.contradicting && !Offered(s, e))
       || (a.supersedes.Some? && (a.supersedes.value !in s.assessments
                                  || !SameQuestion(s.assessments[a.supersedes.value], a)))
       || (a.supersedes.None? && exists o :: o in s.assessments && SameQuestion(s.assessments[o], a))
    then None
    else Some(s.(assessments := s.assessments[a.id := a],
                 audit := AppendAudit(h, s.audit, ASSESSED, a.id, AssessmentSubject(a))))
  }

  predicate MayRead(s: Store, id: Uuid, a: Access, at: Option<Time>) {
    id in s.records && at.Some? && a.principal.Valid() && s.records[id].partition in a.readable
  }

  datatype ReadResult = Denied | NoBytes(record: Record) | Returned(record: Record, bytes: Bytes)

  /** Read: what is returned. A missing blob would come back as no bytes. */
  function ReadResultOf(s: Store, id: Uuid, a: Access, at: Option<Time>): ReadResult {
    if !MayRead(s, id, a, at) then Denied
    else
      var r := s.records[id];
      if id in s.deletions then NoBytes(r.(availability := DeletedWithTombstone, integrity := Missing))
      else if !r.availability.Available? then NoBytes(r)
      else Returned(r, if r.raw in s.content then s.content[r.raw] else [])
  }

  function AfterRead(s: Store, id: Uuid, a: Access, at: Option<Time>): Store {
    s.(access := s.access + [AccessRecord(id, a.principal, at, MayRead(s, id, a, at))])
  }

  // ------------------------------------------------------------------
  // The registry as the source has it: maps and logs updated in place.
  // ------------------------------------------------------------------

  class EvidenceRegistry {
    const h: Hashing
    var records: map<Uuid, Record>
    var content: map<Digest, Bytes>
    var deletions: map<Uuid, Tombstone>
    var assessments: map<Uuid, Assessment>
    var access: seq<AccessRecord>
    var audit: seq<Entry>

    ghost function Value(): Store
      reads this
    {
      Store(records, content, deletions, assessments, access, audit)
    }

    constructor (hashing: Hashing)
      ensures h == hashing && Value() == EMPTY
    {
      h := hashing;
      records, content, deletions, assessments, access, audit := map[], map[], map[], map[], [], [];
    }

    method Register(r: Record, raw: Option<Bytes>, a: Access) returns (ok: bool)
      modifies this
      ensures ok <==> Registered(h, old(Value()), r, raw, a).Some?
      ensures Value() == if ok then Registered(h, old(Value()), r, raw, a).value else old(Value())
    {
      if !MayRegister(r, a) || !RecordValid(h, r, raw) || r.id in records {
        return false;
      }
      records := records[r.id := r];
      if raw.Some? && r.raw !in content {
        content := content[r.raw := raw.value];
      }
      Append(REGISTERED, r.id, RecordSubject(r));
      ok := true;
    }

    method Append(kind: Kind, id: Uuid, s: Subject)
      modifies `audit
      ensures audit == AppendAudit(h, old(audit), kind, id, s)
    {
      var previous := NO_DIGEST;
      if |audit| > 0 {
        previous := audit[|audit| - 1].digest;
      }
      var head := Head(|audit| + 1, kind, id, DigestOf(h, s), previous);
      audit := audit + [Entry(head, h.entry(head))];
    }

    method Read(id: Uuid, a: Access, at: Option<Time>) returns (r: ReadResult)
      modifies `access
      ensures r == ReadResultOf(old(Value()), id, a, at)
      ensures Value() == AfterRead(old(Value()), id, a, at)
    {
      var allowed := id in records && at.Some? && a.principal.Valid() && records[id].partition in a.readable;
      access := access + [AccessRecord(id, a.principal, at, allowed)];
      if !allowed {
        return Denied;
      }
      var copy := records[id];
      if id in deletions {
        return NoBytes(copy.(availability := DeletedWithTombstone, integrity := Missing));
      }
      if !copy.availability.Available? {
        return NoBytes(copy);
      }
      return Returned(copy, if copy.raw in content then content[copy.raw] else []);
    }

    /** The scan over the records, in any order. */
    method StillRequired(id: Uuid, raw: Digest) returns (required: bool)
      requires id in deletions
      ensures required <==> Shared(Value().(deletions := deletions - {id}), id, raw)
    {
      var pending := records.Keys;
      while pending != {}
        invariant pending <= records.Keys
        invariant forall o ::
                    o in records && o !in pending && o != id && records[o].raw == raw
                    && records[o].availability.Available? ==>
                    o in deletions
        decreases pending
      {
        var o :| o in pending;
        if o != id && records[o].raw == raw && records[o].availability.Available? && o !in deletions {
          return true;
        }
        pending := pending - {o};
      }
      required := false;
    }

    method Delete(t: Tombstone, a: Access) returns (ok: bool)
      modifies this
      ensures ok <==> Deleted(h, old(Value()), t, a).Some?
      ensures Value() == if ok then Deleted(h, old(Value()), t, a).value else old(Value())
    {
      if t.id !in records || !a.principal.Valid() || a.principal != t.authority || !a.canDelete
          || records[t.id].partition !in a.readable {
        return false;
      }
      var raw := records[t.id].raw;
      if t.raw != raw || t.basis.Empty() || t.deletedAt.None? || t.id in deletions {
        return false;
      }
      ghost var before := Value();
      deletions := deletions[t.id := t];
      var required := StillRequired(t.id, raw);
      assert deletions - {t.id} == before.deletions;
      if !required {
        content := content - {raw};
      }
      Append(DELETED, t.id, TombstoneSubject(t));
      ok := true;
    }

    /** The loop over the evidence an assessment rests on. */
    method AllOffered(ids: seq<Uuid>) returns (ok: bool)
      ensures ok <==> forall e :: e in ids ==> Offered(Value(), e)
    {
      for n := 0 to |ids|
        invariant forall k :: 0 <= k < n ==> Offered(Value(), ids[k])
      {
        var id := ids[n];
        if id !in records || !records[id].availability.Available? || !records[id].integrity.DigestVerified?
            || id in deletions {
          assert !Offered(Value(), id);
          return false;
        }
      }
      ok := true;
    }

    method HasPrior(a: Assessment) returns (found: bool)
      ensures found <==> exists o :: o in assessments && SameQuestion(assessments[o], a)
    {
      found := false;
      var pending := assessments.Keys;
      while pending != {}
        invariant pending <= assessments.Keys
        invariant found <==> exists o :: o in assessments && o !in pending && SameQuestion(assessments[o], a)
        decreases pending
      {
        var o :| o in pending;
        if SameQuestion(assessments[o], a) {
          found := true;
        }
        pending := pending - {o};
      }
    }

    method RegisterAssessment(a: Assessment) returns (ok: bool)
      modifies this
      ensures ok <==> Assessed(h, old(Value()), a).Some?
      ensures Value() == if ok then Assessed(h, old(Value()), a).value else old(Value())
    {
      hide AssessmentValid, Offered, SameQuestion;
      if !AssessmentValid(a) || a.id in assessments {
        return false;
      }
      var offered := AllOffered(a.supporting + a.contradicting);
      if !offered {
        return false;
      }
      if a.supersedes.Some? {
        if a.supersedes.value !in assessments || !SameQuestion(assessments[a.supersedes.value], a) {
          return false;
        }
      }
      var prior := HasPrior(a);
      if prior && a.supersedes.None? {
        return false;
      }
      assessments := assessments[a.id := a];
      Append(ASSESSED, a.id, AssessmentSubject(a));
      ok := true;
    }
  }
}
