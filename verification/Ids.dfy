/** Identifiers of the kernel: the validity rules of kernel/types.go and the canonical
    (sorted) form of identifier lists.
 */
module Ids {
  import opened Orders

  datatype Uuid = Uuid(text: string) {
    /** uuidV7Pattern */
    predicate Valid() {
      && |text| == 36
      && (forall i :: 0 <= i < 36 && i !in {8, 13, 18, 23} ==> Hex(text[i]))
      && text[8] == '-' && text[13] == '-' && text[18] == '-' && text[23] == '-'
      && text[14] == '7'
      && text[19] in {'8', '9', 'a', 'b'}
    }
  }

  datatype Digest = Digest(text: string) {
    /** digestPattern */
    predicate Valid() {
      |text| == 64 && forall i :: 0 <= i < 64 ==> Hex(text[i])
    }
  }

  datatype Actor = Actor(fqn: string) {
    /** actorFQNPattern: team::role-N */
    predicate Valid() {
      exists i, j :: 0 <= i < |fqn| && 0 <= j < |fqn| && ActorParts(fqn, i, j)
    }
  }

  /** Free text: commit names, tree digests, references. */
  datatype Text = Text(value: string) {
    predicate Empty() {
      value == ""
    }
  }

  predicate Hex(c: char) {
    '0' <= c <= '9' || 'a' <= c <= 'f'
  }

  predicate Alphanumeric(c: char) {
    '0' <= c <= '9' || 'a' <= c <= 'z'
  }

  predicate Label(s: string) {
    && 1 <= |s| <= 63
    && Alphanumeric(s[0]) && Alphanumeric(s[|s| - 1])
    && forall k :: 0 <= k < |s| ==> Alphanumeric(s[k]) || s[k] == '-'
  }

  /** i is where "::" stands and j where the last dash before the instance number stands. */
  predicate ActorParts(s: string, i: int, j: int) {
    && 0 <= i && i + 2 <= j < |s|
    && s[i] == ':' && s[i + 1] == ':' && s[j] == '-'
    && Label(s[..i]) && Label(s[i + 2..j])
    && 1 <= |s| - j - 1 <= 20
    && '1' <= s[j + 1] <= '9'
    && forall k :: j + 1 <= k < |s| ==> '0' <= s[k] <= '9'
  }

  datatype PrincipalKind = ActorPrincipal | Human | Service | Policy | OtherKind(name: string)

  datatype Principal = Principal(kind: PrincipalKind, id: string) {
    predicate Valid() {
      1 <= |id| <= 256 && !kind.OtherKind?
    }
  }

  datatype Execution = Execution(id: Uuid, fencing: nat) {
    predicate Valid() {
      id.Valid() && fencing > 0
    }
  }

  datatype AggregateKind =
    | Story | Task | CompletionReview | Escalation | ReleasePlan | VariantGroup | HumanParticipant
    | HumanInteraction | Evidence | ExecutionAggregate | System | WorkBudget | WorkInvocation
    | WorkflowInstance | OtherAggregate(name: string)

  datatype AggregateRef = AggregateRef(kind: AggregateKind, id: Uuid) {
    predicate Valid() {
      !kind.OtherAggregate? && id.Valid()
    }
  }

  /** validUniqueUUIDs */
  predicate ValidUnique(ids: seq<Uuid>, least: nat, most: nat) {
    least <= |ids| <= most && (forall i :: 0 <= i < |ids| ==> ids[i].Valid()) && Distinct(ids)
  }

  predicate Before(a: Uuid, b: Uuid) {
    Less(a.text, b.text)
  }

  // ------------------------------------------------------------------
  // The canonical (sorted) form of a list of identifiers.
  // ------------------------------------------------------------------

  /** canonicalUUIDs */
  function Canonical(s: seq<Uuid>): (r: seq<Uuid>)
    ensures multiset(r) == multiset(s)
    ensures |r| == |s|
  {
    InsertionSort(Before, s)
  }

  lemma BeforeWeakOrder()
    ensures StrictWeakOrder(Before)
  {
    forall x, y | Before(x, y) ensures !Before(y, x) {
      LessAsymmetric(x.text, y.text);
    }
    forall x, y, z | !Before(y, x) && !Before(z, y) ensures !Before(z, x) {
      LessNegativelyTransitive(x.text, y.text, z.text);
    }
  }

  lemma BeforeNoTies(s: seq<Uuid>)
    ensures NoTies(Before, s)
  {
    forall x, y | !Before(x, y) && !Before(y, x) ensures x == y {
      LessTotal(x.text, y.text);
    }
  }

  /** Whatever sorted permutation sort.Slice returns is the canonical form. */
  lemma SortedIsCanonical(ids: seq<Uuid>, sorted: seq<Uuid>)
    requires multiset(sorted) == multiset(ids) && Sorted(Before, sorted)
    ensures sorted == Canonical(ids)
  {
    BeforeWeakOrder();
    BeforeNoTies(ids);
    SortIsInsertionSort(Before, ids, sorted);
  }

  /** Two lists have the same canonical form exactly when they hold the same
      identifiers with the same multiplicity. */
  lemma CanonicalIffPermutation(a: seq<Uuid>, b: seq<Uuid>)
    ensures Canonical(a) == Canonical(b) <==> multiset(a) == multiset(b)
  {
    if multiset(a) == multiset(b) {
      BeforeWeakOrder();
      InsertionSorted(Before, b);
      hide Sorted, Before;
      SortedIsCanonical(a, Canonical(b));
    }
  }

  /** sameUUIDSet */
  predicate SameIds(a: seq<Uuid>, b: seq<Uuid>) {
    Canonical(a) == Canonical(b)
  }
}
