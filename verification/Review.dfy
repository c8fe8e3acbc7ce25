/** The order-independent join of the branch results of a completion review. See
    kernel/coordination.go.
 */
module Review {
  import opened Orders
  import opened Ids

  datatype Branch = Branch(name: string)

  datatype Verdict = PASS | FAIL | BLOCKED | INCONCLUSIVE | CANCELLED | SUPERSEDED | OtherVerdict(name: string)

  datatype Policy = WaitAll | FailFast | OtherPolicy(name: string)

  datatype Status = Conflict | Pending | Terminal(verdict: Verdict)

  datatype Join = Join(complete: bool, status: Status)

  datatype Entry = Entry(branch: Branch, verdict: Verdict)

  predicate ValidVerdict(v: Verdict) {
    !v.OtherVerdict?
  }

  predicate ValidBranch(b: Branch) {
    1 <= |b.name| <= 4096
  }

  // ------------------------------------------------------------------
  // The join, as a statement about the set of results.
  // ------------------------------------------------------------------

  /** The first failing verdict in order of severity. */
  function Worst(seen: set<Verdict>): Option<Verdict> {
    if FAIL in seen then Some(FAIL)
    else if BLOCKED in seen then Some(BLOCKED)
    else if INCONCLUSIVE in seen then Some(INCONCLUSIVE)
    else if CANCELLED in seen then Some(CANCELLED)
    else if SUPERSEDED in seen then Some(SUPERSEDED)
    else None
  }

  predicate ValidRequired(required: seq<Branch>, policy: Policy) {
    !policy.OtherPolicy? && 1 <= |required| <= 32 && (forall b :: b in required ==> ValidBranch(b))
        && Distinct(required)
  }

  ghost predicate Coherent(required: seq<Branch>, entries: set<Entry>) {
    && (forall e :: e in entries ==> ValidVerdict(e.verdict) && e.branch in required)
    && (forall e, f :: e in entries && f in entries && e.branch == f.branch ==> e == f)
  }

  ghost predicate AllReported(required: seq<Branch>, entries: set<Entry>) {
    forall b :: b in required ==> Reported(b, entries)
  }

  ghost predicate Reported(b: Branch, entries: set<Entry>) {
    exists e :: e in entries && e.branch == b
  }

  ghost function Verdicts(entries: set<Entry>): set<Verdict> {
    set e | e in entries :: e.verdict
  }

  ghost function JoinSpec(required: seq<Branch>, policy: Policy, entries: set<Entry>, count: nat): Join {
    if !ValidRequired(required, policy) || count > 64 || !Coherent(required, entries) then Join(false, Conflict)
    else
      var failure := Worst(Verdicts(entries));
      if failure.Some? && policy.FailFast? then Join(true, Terminal(failure.value))
      else if !AllReported(required, entries) then Join(false, Pending)
      else if failure.Some? then Join(true, Terminal(failure.value))
      else Join(true, Terminal(PASS))
  }

  ghost function EntrySet(results: seq<Entry>): set<Entry> {
    set e | e in results
  }

  /** The join does not depend on the order of results or of branches. */
  lemma JoinPermutation(required: seq<Branch>, required': seq<Branch>, policy: Policy, results: seq<Entry>,
                        results': seq<Entry>)
    requires multiset(required) == multiset(required') && multiset(results) == multiset(results')
    ensures JoinSpec(required, policy, EntrySet(results), |results|)
              == JoinSpec(required', policy, EntrySet(results'), |results'|)
  {
    SameSize(required, required');
    SameSize(results, results');
    SameElements(required, required');
    SameElements(results, results');
    DistinctIffMultiset(required);
    DistinctIffMultiset(required');
    assert EntrySet(results) == EntrySet(results');
  }

  ghost function AllPass(required: seq<Branch>): set<Entry> {
    set b | b in required :: Entry(b, PASS)
  }

  lemma AllPassJoins(required: seq<Branch>, policy: Policy, count: nat)
    requires ValidRequired(required, policy) && count <= 64
    ensures JoinSpec(required, policy, AllPass(required), count).status == Terminal(PASS)
  {
    hide ValidRequired;
    var entries := AllPass(required);
    forall b | b in required ensures Reported(b, entries) {
      assert Entry(b, PASS) in entries;
    }
    assert Verdicts(entries) <= {PASS};
  }

  lemma JoinedPass(required: seq<Branch>, policy: Policy, entries: set<Entry>, count: nat)
    requires JoinSpec(required, policy, entries, count).status == Terminal(PASS)
    ensures entries == AllPass(required)
  {
    hide ValidRequired;
    assert forall e :: e in entries ==> e.verdict in Verdicts(entries);
    assert Coherent(required, entries) && AllReported(required, entries);
    forall e | e in entries ensures e in AllPass(required) {
      assert e == Entry(e.branch, PASS);
    }
    forall b | b in required ensures Entry(b, PASS) in entries {
      assert Reported(b, entries);
    }
  }

  /** PASS is reported exactly when every required branch, and nothing else, reported PASS. */
  lemma PassIffAllPass(required: seq<Branch>, policy: Policy, entries: set<Entry>, count: nat)
    requires ValidRequired(required, policy) && count <= 64
    ensures JoinSpec(required, policy, entries, count).status == Terminal(PASS) <==> entries == AllPass(required)
  {
    hide *;
    if entries == AllPass(required) {
      AllPassJoins(required, policy, count);
    }
    if JoinSpec(required, policy, entries, count).status == Terminal(PASS) {
      JoinedPass(required, policy, entries, count);
    }
  }

  // ------------------------------------------------------------------
  // The join as computed.
  // ------------------------------------------------------------------

  /** deterministicReviewFailure: the map is ranged over in any order. */
  method DeterministicReviewFailure(observed: map<Branch, Verdict>) returns (failure: Option<Verdict>)
    ensures failure == Worst(observed.Values)
  {
    var candidates := [FAIL, BLOCKED, INCONCLUSIVE, CANCELLED, SUPERSEDED];
    for i := 0 to |candidates|
      invariant forall k :: 0 <= k < i ==> candidates[k] !in observed.Values
    {
      var pending := observed.Keys;
      while pending != {}
        invariant pending <= observed.Keys
        invariant forall b :: b in observed && b !in pending ==> observed[b] != candidates[i]
        decreases pending
      {
        var b :| b in pending;
        if observed[b] == candidates[i] {
          assert candidates[i] in observed.Values;
          assert i > 0 ==> candidates[0] !in observed.Values;
          assert i > 1 ==> candidates[1] !in observed.Values;
          assert i > 2 ==> candidates[2] !in observed.Values;
          assert i > 3 ==> candidates[3] !in observed.Values;
          return Some(candidates[i]);
        }
        pending := pending - {b};
      }
    }
    assert candidates[0] !in observed.Values && candidates[1] !in observed.Values && candidates[2] !in observed.Values;
    assert candidates[3] !in observed.Values && candidates[4] !in observed.Values;
    failure := None;
  }

  ghost function Observed(entries: set<Entry>): set<Branch> {
    set e | e in entries :: e.branch
  }

  method CheckRequired(required: seq<Branch>) returns (ok: bool)
    ensures ok <==> (forall b :: b in required ==> ValidBranch(b)) && Distinct(required)
  {
    var seen := {};
    for i := 0 to |required|
      invariant seen == set b | b in required[..i]
      invariant (forall b :: b in required[..i] ==> ValidBranch(b)) && Distinct(required[..i])
    {
      if !ValidBranch(required[i]) || required[i] in seen {
        assert required[i] in required;
        return false;
      }
      assert required[..i + 1] == required[..i] + [required[i]];
      seen := seen + {required[i]};
    }
    assert required[..|required|] == required;
    ok := true;
  }

  /** The observation loop: None is a contradiction, an unknown branch or an invalid verdict. */
  method Observe(required: seq<Branch>, results: seq<Entry>) returns (observed: Option<map<Branch, Verdict>>)
    ensures observed.Some? <==> Coherent(required, EntrySet(results))
    ensures observed.Some? ==> Mirrors(observed.value, EntrySet(results))
  {
    var m: map<Branch, Verdict> := map[];
    for i := 0 to |results|
      invariant Coherent(required, EntrySet(results[..i]))
      invariant Mirrors(m, EntrySet(results[..i]))
    {
      var e := results[i];
      assert e in EntrySet(results);
      assert results[..i + 1] == results[..i] + [e];
      assert EntrySet(results[..i + 1]) == EntrySet(results[..i]) + {e};
      if !ValidVerdict(e.verdict) || e.branch !in required {
        return None;
      }
      if e.branch in m && m[e.branch] != e.verdict {
        var prior := Entry(e.branch, m[e.branch]);
        assert prior in EntrySet(results[..i]);
        assert prior in EntrySet(results);
        return None;
      }
      MirrorsMore(m, EntrySet(results[..i]), e);
      m := m[e.branch := e.verdict];
    }
    assert results[..|results|] == results;
    observed := Some(m);
  }

  /** The map holds exactly the entries. */
  ghost predicate Mirrors(m: map<Branch, Verdict>, entries: set<Entry>) {
    && (forall b :: b in m ==> Entry(b, m[b]) in entries)
    && (forall e :: e in entries ==> e.branch in m && m[e.branch] == e.verdict)
  }

  lemma MirrorsMore(m: map<Branch, Verdict>, entries: set<Entry>, e: Entry)
    requires Mirrors(m, entries) && (e.branch in m ==> m[e.branch] == e.verdict)
    ensures Mirrors(m[e.branch := e.verdict], entries + {e})
  {
  }

  lemma MirrorCounts(required: seq<Branch>, m: map<Branch, Verdict>, entries: set<Entry>)
    requires Mirrors(m, entries) && Coherent(required, entries) && Distinct(required)
    ensures m.Values == Verdicts(entries)
    ensures |m| == |required| <==> AllReported(required, entries)
  {
    forall v | v in Verdicts(entries) ensures v in m.Values {
      var e :| e in entries && e.verdict == v;
      assert e.branch in m && m[e.branch] == v;
    }
    var keys := set b | b in required;
    DistinctSize(required);
    assert m.Keys <= keys;
    if AllReported(required, entries) {
      assert forall b :: b in required ==> Reported(b, entries);
      assert m.Keys == keys;
    } else if |m| == |required| {
      SubsetSameSize(m.Keys, keys);
      forall b | b in required ensures Reported(b, entries) {
        assert Entry(b, m[b]) in entries;
      }
    }
  }

  method EvaluateReviewJoin(required: seq<Branch>, policy: Policy, results: seq<Entry>) returns (join: Join)
    ensures join == JoinSpec(required, policy, EntrySet(results), |results|)
  {
    if policy.OtherPolicy? {
      return Join(false, Conflict);
    }
    if |required| == 0 || |required| > 32 || |results| > 64 {
      return Join(false, Conflict);
    }
    var ok := CheckRequired(required);
    if !ok {
      return Join(false, Conflict);
    }
    var observed := Observe(required, results);
    if observed.None? {
      return Join(false, Conflict);
    }
    MirrorCounts(required, observed.value, EntrySet(results));
    var terminal := DeterministicReviewFailure(observed.value);
    if terminal.Some? && policy.FailFast? {
      return Join(true, Terminal(terminal.value));
    }
    if |observed.value| != |required| {
      return Join(false, Pending);
    }
    if terminal.Some? {
      return Join(true, Terminal(terminal.value));
    }
    return Join(true, Terminal(PASS));
  }
}
