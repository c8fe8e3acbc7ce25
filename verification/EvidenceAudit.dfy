/** The audit log of the evidence registry and the projection that replays it. */
module EvidenceAudit {
  import opened Orders
  import opened Ids
  import opened Evidence
  import opened EvidenceRuns

  datatype Projection = Projection(next: nat, entries: map<Uuid, Digest>, last: Digest)

  const FRESH := Projection(1, map[], NO_DIGEST)

  predicate Continues(h: Hashing, p: Projection, e: Entry) {
    && e.head.position == p.next && e.head.kind != UnknownKind("") && e.head.identity.Valid() && e.head.digest.Valid()
    && e.digest.Valid() && e.digest == h.entry(e.head) && e.head.previous == p.last
  }

  function Extended(p: Projection, e: Entry): Projection {
    Projection(p.next + 1, p.entries[e.head.identity := e.head.digest], e.digest)
  }

  datatype Applied = Applied(projection: Projection, ok: bool)

  /** EvidenceProjection.Apply: it stops at the first entry that does not continue the log, and
      keeps what came before it. */
  function Project(h: Hashing, p: Projection, entries: seq<Entry>): Applied {
    if |entries| == 0 then Applied(p, true)
    else
      var before := Project(h, p, entries[..|entries| - 1]);
      var e := entries[|entries| - 1];
      if !before.ok || !Continues(h, before.projection, e) then before.(ok := false)
      else Applied(Extended(before.projection, e), true)
  }

  class EvidenceProjection {
    const h: Hashing
    var next: nat
    var entries: map<Uuid, Digest>
    var last: Digest

    ghost function Value(): Projection
      reads this
    {
      Projection(next, entries, last)
    }

    constructor (hashing: Hashing)
      ensures h == hashing && Value() == FRESH
    {
      h := hashing;
      next, entries, last := 1, map[], NO_DIGEST;
    }

    method Apply(log: seq<Entry>) returns (ok: bool)
      modifies this
      ensures Applied(Value(), ok) == Project(h, old(Value()), log)
    {
      hide Continues;
      for n := 0 to |log|
        invariant Applied(Value(), true) == Project(h, old(Value()), log[..n])
      {
        var e := log[n];
        assert log[..n + 1][..n] == log[..n];
        if !Continues(h, Projection(next, entries, last), e) {
          FailedStays(h, old(Value()), log, n + 1);
          return false;
        }
        entries := entries[e.head.identity := e.head.digest];
        last := e.digest;
        next := next + 1;
      }
      assert log[..|log|] == log;
      ok := true;
    }
  }

  lemma {:induction false} FailedStays(h: Hashing, p: Projection, log: seq<Entry>, n: nat)
    requires n <= |log| && !Project(h, p, log[..n]).ok
    ensures Project(h, p, log) == Project(h, p, log[..n])
    decreases |log| - n
  {
    hide Continues;
    if n < |log| {
      assert log[..n + 1][..n] == log[..n];
      FailedStays(h, p, log, n + 1);
    } else {
      assert log[..n] == log;
    }
  }

  /** Applying a log in one batch or in two gives the same projection and the same verdict. */
  lemma {:induction false} BatchIsIncremental(h: Hashing, p: Projection, a: seq<Entry>, b: seq<Entry>)
    ensures Project(h, p, a + b) == var r := Project(h, p, a); if r.ok then Project(h, r.projection, b) else r
  {
    hide Continues;
    if |b| == 0 {
      assert a + b == a;
    } else {
      var k := |b| - 1;
      BatchIsIncremental(h, p, a, b[..k]);
      assert (a + b)[..|a| + k] == a + b[..k];
    }
  }

  lemma {:induction false} Accepted(h: Hashing, log: seq<Entry>)
    requires Project(h, FRESH, log).ok
    ensures var p := Project(h, FRESH, log).projection; p.next == |log| + 1 && p.last == LastDigest(log)
    ensures |log| > 0 ==> Project(h, FRESH, log[..|log| - 1]).ok
  {
    hide Uuid.Valid, Digest.Valid;
    if |log| == 0 {
    } else {
      Accepted(h, log[..|log| - 1]);
    }
  }

  /** With an injective entry digest, the last digest of an accepted log determines the whole
      log: two accepted logs that end in the same digest are identical. */
  lemma {:induction false} LastDigestDetermines(h: Hashing, a: seq<Entry>, b: seq<Entry>)
    requires InjectiveEntries(h) && Project(h, FRESH, a).ok && Project(h, FRESH, b).ok
    requires LastDigest(a) == LastDigest(b)
    ensures a == b
    decreases |a|
  {
    Accepted(h, a);
    Accepted(h, b);
    if |a| == 0 {
      LastValid(h, b);
    } else if |b| == 0 {
      LastValid(h, a);
    } else {
      var m, n := |a| - 1, |b| - 1;
      LastContinues(h, a);
      LastContinues(h, b);
      hide Project, InjectiveEntries;
      assert a[m] == b[n] by { SameHead(h, a[m].head, b[n].head); }
      LastDigestDetermines(h, a[..m], b[..n]);
      assert a == a[..m] + [a[m]] && b == b[..n] + [b[n]];
    }
  }

  lemma SameHead(h: Hashing, x: Head, y: Head)
    requires InjectiveEntries(h) && h.entry(x) == h.entry(y)
    ensures x == y
  {
  }

  lemma LastContinues(h: Hashing, log: seq<Entry>)
    requires |log| > 0 && Project(h, FRESH, log).ok
    ensures var e := log[|log| - 1];
            e.digest == h.entry(e.head) && e.head.previous == LastDigest(log[..|log| - 1])
  {
    hide Uuid.Valid, Digest.Valid;
    Accepted(h, log[..|log| - 1]);
  }

  lemma LastValid(h: Hashing, log: seq<Entry>)
    requires Project(h, FRESH, log).ok
    ensures LastDigest(log) == NO_DIGEST ==> |log| == 0
  {
    hide Uuid.Valid;
  }

  // ------------------------------------------------------------------
  // The registry's own log.
  // ------------------------------------------------------------------

  /** Every entry continues the log before it, except that its value may have had no JSON form. */
  ghost predicate Chained(h: Hashing, audit: seq<Entry>) {
    forall i :: 0 <= i < |audit| ==> Link(h, audit, i)
  }

  ghost predicate Link(h: Hashing, audit: seq<Entry>, i: nat)
    requires i < |audit|
  {
    var e := audit[i];
    && e.head.position == i + 1 && e.head.kind in {REGISTERED, DELETED, ASSESSED} && e.head.identity.Valid()
    && e.digest == h.entry(e.head) && e.head.previous == LastDigest(audit[..i])
  }

  lemma {:induction false} ChainedAcceptedIff(h: Hashing, audit: seq<Entry>)
    requires Sound(h) && Chained(h, audit)
    ensures Project(h, FRESH, audit).ok <==> forall i :: 0 <= i < |audit| ==> audit[i].head.digest.Valid()
  {
    if |audit| == 0 {
    } else {
      var n := |audit| - 1;
      assert forall i :: 0 <= i < n ==> audit[..n][..i] == audit[..i];
      forall i | 0 <= i < n ensures Link(h, audit[..n], i) {
        assert Link(h, audit, i);
      }
      ChainedAcceptedIff(h, audit[..n]);
      assert Link(h, audit, n);
      if Project(h, FRESH, audit[..n]).ok {
        Accepted(h, audit[..n]);
        hide Uuid.Valid, Digest.Valid;
        assert Continues(h, Project(h, FRESH, audit[..n]).projection, audit[n]) <==> audit[n].head.digest.Valid();
      }
      hide Project, Chained;
      assert audit == audit[..n] + [audit[n]];
    }
  }

  lemma AppendChains(h: Hashing, audit: seq<Entry>, kind: Kind, id: Uuid, s: Subject)
    requires Chained(h, audit) && kind in {REGISTERED, DELETED, ASSESSED} && id.Valid()
    ensures Chained(h, AppendAudit(h, audit, kind, id, s))
  {
    hide Uuid.Valid;
    var more := AppendAudit(h, audit, kind, id, s);
    forall i | 0 <= i < |more| ensures Link(h, more, i) {
      assert more[..i] == audit[..i];
      if i < |audit| {
        assert Link(h, audit, i);
      } else {
        assert audit[..i] == audit;
      }
    }
  }

  /** What an accepted operation is audited as. */
  function SubjectOf(op: Op): Subject
    requires !op.Reading?
  {
    match op
    case Registering(r, _, _) => RecordSubject(r)
    case Deleting(t, _) => TombstoneSubject(t)
    case Assessing(a) => AssessmentSubject(a)
  }

  /** An accepted operation adds one chained entry, and no other operation adds any. */
  lemma StepAudits(h: Hashing, s: Store, op: Op)
    requires Chained(h, s.audit) && RecordsOk(s)
    ensures Chained(h, Step(h, s, op).audit)
    ensures Changed(h, s, op).None? ==> Step(h, s, op).audit == s.audit
    ensures Changed(h, s, op).Some? ==>
              && !op.Reading? && |Step(h, s, op).audit| == |s.audit| + 1 && Step(h, s, op).audit[..|s.audit|] == s.audit
              && Step(h, s, op).audit[|s.audit|].head.digest == DigestOf(h, SubjectOf(op))
  {
    hide Uuid.Valid, Digest.Valid, Chained, DigestOf, Shared;
    match op
    case Registering(r, raw, a) =>
      if Changed(h, s, op).Some? { AppendChains(h, s.audit, REGISTERED, r.id, RecordSubject(r)); }
    case Deleting(t, a) => if Changed(h, s, op).Some? { AppendChains(h, s.audit, DELETED, t.id, TombstoneSubject(t)); }
    case Assessing(a) => if Changed(h, s, op).Some? { AppendChains(h, s.audit, ASSESSED, a.id, AssessmentSubject(a)); }
    case Reading(_, _, _) =>
  }

  /** Every accepted operation of the run has a JSON form. */
  ghost predicate AllEncode(h: Hashing, ops: seq<Op>) {
    forall i :: 0 <= i < |ops| ==> EncodesAt(Run(h, ops[..i]), h, ops[i])
  }

  ghost predicate EncodesAt(s: Store, h: Hashing, op: Op) {
    Changed(h, s, op).Some? && !op.Reading? ==> Encodes(SubjectOf(op))
  }

  ghost predicate AllValid(audit: seq<Entry>) {
    forall i :: 0 <= i < |audit| ==> audit[i].head.digest.Valid()
  }

  lemma {:induction false} RunAudits(h: Hashing, ops: seq<Op>)
    requires Sound(h)
    ensures Chained(h, Run(h, ops).audit)
    ensures AllValid(Run(h, ops).audit) <==> AllEncode(h, ops)
  {
    if |ops| == 0 {
    } else {
      var n := |ops| - 1;
      RunAudits(h, ops[..n]);
      ContentInvariant(h, ops[..n]);
      var s := Run(h, ops[..n]);
      StepAudits(h, s, ops[n]);
      hide Changed, Step, Chained;
      AllEncodeStep(h, ops);
      DigestValidIff(h, s, ops[n]);
    }
  }

  lemma DigestValidIff(h: Hashing, s: Store, op: Op)
    requires Sound(h)
    ensures !op.Reading? ==> (DigestOf(h, SubjectOf(op)).Valid() <==> Encodes(SubjectOf(op)))
  {
  }

  lemma AllEncodeStep(h: Hashing, ops: seq<Op>)
    requires |ops| > 0
    ensures AllEncode(h, ops) <==>
              AllEncode(h, ops[..|ops| - 1]) && EncodesAt(Run(h, ops[..|ops| - 1]), h, ops[|ops| - 1])
  {
    hide Run, EncodesAt;
    var n := |ops| - 1;
    assert forall i :: 0 <= i < n ==> ops[..n][..i] == ops[..i];
    if AllEncode(h, ops) {
      forall i | 0 <= i < n ensures EncodesAt(Run(h, ops[..n][..i]), h, ops[..n][i]) {
        assert EncodesAt(Run(h, ops[..i]), h, ops[i]);
      }
      assert EncodesAt(Run(h, ops[..n]), h, ops[n]);
    }
    if AllEncode(h, ops[..n]) && EncodesAt(Run(h, ops[..n]), h, ops[n]) {
      forall i | 0 <= i < |ops| ensures EncodesAt(Run(h, ops[..i]), h, ops[i]) {
        if i < n {
          assert EncodesAt(Run(h, ops[..n][..i]), h, ops[..n][i]);
        }
      }
    }
  }

  /** A fresh projection accepts the log of a registry if and only if every accepted operation
      had a JSON form; a time without one is registered, but its entry carries an empty digest
      that the projection refuses. */
  lemma AuditAcceptedIff(h: Hashing, ops: seq<Op>)
    requires Sound(h)
    ensures Project(h, FRESH, Run(h, ops).audit).ok <==> AllEncode(h, ops)
  {
    hide Run, Project, Chained, AllEncode;
    RunAudits(h, ops);
    ChainedAcceptedIff(h, Run(h, ops).audit);
  }

  /** The smallest such registry: one valid assessment at a time without a JSON form. */
  lemma UnencodedTimeBreaksAudit(h: Hashing, a: Assessment)
    requires Sound(h) && AssessmentValid(a) && a.supporting == [] && a.contradicting == [] && a.supersedes.None?
    requires !TimeEncodes(a.assessedAt)
    ensures Changed(h, EMPTY, Assessing(a)).Some?
    ensures !Project(h, FRESH, Run(h, [Assessing(a)]).audit).ok
  {
    var ops := [Assessing(a)];
    assert ops[..0] == [];
    assert Changed(h, EMPTY, Assessing(a)).Some?;
    assert !EncodesAt(Run(h, ops[..0]), h, ops[0]);
    AuditAcceptedIff(h, ops);
  }

  /** The two kinds of such a time: in the year 10000, and today in a zone a day from UTC. */
  lemma LateOrFarBreaksAudit(h: Hashing, a: Assessment, instant: int)
    requires Sound(h) && AssessmentValid(a) && a.supporting == [] && a.contradicting == [] && a.supersedes.None?
    requires a.assessedAt in {Some(Time(10000, 0, instant)), Some(Time(2025, DAY, instant))}
    ensures Changed(h, EMPTY, Assessing(a)).Some? && !Project(h, FRESH, Run(h, [Assessing(a)]).audit).ok
  {
    hide Project, Run, Changed;
    UnencodedTimeBreaksAudit(h, a);
  }
}
