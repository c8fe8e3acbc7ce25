/** Authorize: a depth-bounded search over delegations, matched against the declarative
    statement that an unbroken, attenuating, unexpired chain of delegations exists.
 */
module Authorization {
  import opened Orders
  import opened Ids
  import opened Lifecycle

  const MAX_DEPTH := 4

  datatype CommandType = CommandType(name: string)

  const REOPEN := CommandType("tekroo.command.work.reopen")

  datatype Scope = Scope(
    commandTypes: seq<CommandType>, targetKinds: seq<AggregateKind>, targetIds: seq<Uuid>,
    canRead: bool, requiresOwner: bool, canReopenAccepted: bool)

  datatype Grant = Grant(digest: Digest, grantee: Principal, scope: Scope, expiresAt: Option<int>, revoked: bool,
                         allowDelegation: bool)

  datatype Delegation = Delegation(
    digest: Digest, parent: Digest, from: Principal, to: Principal, scope: Scope,
    expiresAt: Option<int>, revoked: bool, allowFurther: bool)

  /** The fields of a kernel command that authorization reads. */
  datatype Request = Request(commandType: CommandType, target: AggregateRef, authority: Principal, actor: Option<Actor>)

  /** The fields of the target's state that authorization reads. */
  datatype Subject = Subject(phase: Phase, owner: Option<Actor>)

  datatype Outcome = Outcome(allowed: bool, canRead: bool, grants: seq<Digest>, chain: seq<Digest>)

  predicate Expired(expiry: Option<int>, now: int) {
    expiry.Some? && now >= expiry.value
  }

  predicate ScopeValid(s: Scope) {
    && |s.commandTypes| > 0 && |s.targetKinds| > 0
    && (forall c :: c in s.commandTypes ==> c.name != "")
    && (forall k :: k in s.targetKinds ==> !k.OtherAggregate?)
    && (forall id :: id in s.targetIds ==> id.Valid())
  }

  predicate ScopeAllows(s: Scope, r: Request, subject: Option<Subject>) {
    && r.commandType in s.commandTypes
    && r.target.kind in s.targetKinds
    && (|s.targetIds| > 0 ==> r.target.id in s.targetIds)
    && !(r.commandType == REOPEN && subject.Some? && subject.value.phase.Accepted? && !s.canReopenAccepted)
    && (s.requiresOwner ==>
          subject.Some? && subject.value.owner.Some? && r.actor.Some? && subject.value.owner.value == r.actor.value)
  }

  predicate ReadAllows(s: Scope, r: Request) {
    && s.canRead
    && r.target.kind in s.targetKinds
    && (|s.targetIds| == 0 || r.target.id in s.targetIds)
  }

  predicate ScopeSubset(child: Scope, parent: Scope) {
    && (forall c :: c in child.commandTypes ==> c in parent.commandTypes)
    && (forall k :: k in child.targetKinds ==> k in parent.targetKinds)
    && (|parent.targetIds| > 0 ==> |child.targetIds| > 0 && forall id :: id in child.targetIds ==>
        id in parent.targetIds)
    && (child.canRead ==> parent.canRead)
    && (parent.requiresOwner ==> child.requiresOwner)
    && (child.canReopenAccepted ==> parent.canReopenAccepted)
  }

  lemma SubsetTransitive(a: Scope, b: Scope, c: Scope)
    requires ScopeSubset(a, b) && ScopeSubset(b, c)
    ensures ScopeSubset(a, c)
  {
    if |c.targetIds| > 0 {
      assert a.targetIds[0] in b.targetIds;
    }
  }

  /** A narrower scope never allows, or lets read, more than the wider one. */
  lemma SubsetAttenuates(child: Scope, parent: Scope, r: Request, subject: Option<Subject>)
    requires ScopeSubset(child, parent)
    ensures ScopeAllows(child, r, subject) ==> ScopeAllows(parent, r, subject)
    ensures ReadAllows(child, r) ==> ReadAllows(parent, r)
  {
  }

  predicate GrantValid(g: Grant, now: int) {
    g.digest.Valid() && g.grantee.Valid() && !g.revoked && !Expired(g.expiresAt, now) && ScopeValid(g.scope)
  }

  predicate DelegationValid(d: Delegation, parentScope: Scope, parentExpiry: Option<int>, now: int) {
    && d.digest.Valid() && d.parent.Valid() && d.from.Valid() && d.to.Valid()
    && !d.revoked && !Expired(d.expiresAt, now)
    && ScopeValid(d.scope) && ScopeSubset(d.scope, parentScope)
    && (parentExpiry.None? || (d.expiresAt.Some? && d.expiresAt.value <= parentExpiry.value))
  }

  // ------------------------------------------------------------------
  // The declarative specification.
  // ------------------------------------------------------------------

  /** Where a chain stands: the principal holding the authority and the authority held. */
  datatype Holder = Holder(principal: Principal, digest: Digest, scope: Scope, expiresAt: Option<int>,
                           mayDelegate: bool)

  function Root(g: Grant): Holder {
    Holder(g.grantee, g.digest, g.scope, g.expiresAt, g.allowDelegation)
  }

  function After(d: Delegation): Holder {
    Holder(d.to, d.digest, d.scope, d.expiresAt, d.allowFurther)
  }

  /** The holder after the first n links. */
  ghost function HolderAt(root: Holder, chain: seq<Delegation>, n: nat): Holder
    requires n <= |chain|
  {
    if n == 0 then root else After(chain[n - 1])
  }

  ghost predicate LinkOk(h: Holder, d: Delegation, now: int) {
    && h.mayDelegate
    && d.from == h.principal && d.parent == h.digest
    && DelegationValid(d, h.scope, h.expiresAt, now)
  }

  /** Every link is a listed delegation made by its holder, and no principal repeats. */
  ghost predicate ChainOk(root: Holder, chain: seq<Delegation>, pool: seq<Delegation>, now: int) {
    && (forall n :: 0 <= n < |chain| ==> chain[n] in pool && LinkOk(HolderAt(root, chain, n), chain[n], now))
    && (forall i, j :: 0 <= i < j <= |chain| ==>
        HolderAt(root, chain, i).principal != HolderAt(root, chain, j).principal)
  }

  datatype Goal = ToCommand(subject: Option<Subject>) | ToRead

  predicate Satisfies(h: Holder, r: Request, goal: Goal) {
    && h.principal == r.authority
    && match goal
       case ToCommand(subject) => ScopeAllows(h.scope, r, subject)
       case ToRead => ReadAllows(h.scope, r)
  }

  /** A chain of at most four links that ends where the request is satisfied. */
  ghost predicate Reaches(root: Holder, chain: seq<Delegation>, pool: seq<Delegation>, r: Request, goal: Goal,
                          now: int) {
    && |chain| <= MAX_DEPTH
    && ChainOk(root, chain, pool, now)
    && Satisfies(HolderAt(root, chain, |chain|), r, goal)
  }

  ghost predicate Authorized(grants: seq<Grant>, pool: seq<Delegation>, r: Request, goal: Goal, now: int) {
    exists g, chain :: g in grants && GrantValid(g, now) && Reaches(Root(g), chain, pool, r, goal, now)
  }

  // ------------------------------------------------------------------
  // The search works on suffixes of chains: from a holder, with the principals already
  // on the path.
  // ------------------------------------------------------------------

  ghost predicate Extends(h: Holder, path: set<Principal>, chain: seq<Delegation>, pool: seq<Delegation>, now: int)
    decreases |chain|
  {
    if |chain| == 0 then true
    else
      && chain[0] in pool && LinkOk(h, chain[0], now)
      && chain[0].to !in path
      && Extends(After(chain[0]), path + {chain[0].to}, chain[1..], pool, now)
  }

  lemma {:induction false} ExtendsIffChain(h: Holder, path: set<Principal>, chain: seq<Delegation>,
                                           pool: seq<Delegation>, now: int)
    requires h.principal in path
    ensures Extends(h, path, chain, pool, now) <==>
            ChainOk(h, chain, pool, now) && forall n :: 0 <= n < |chain| ==> chain[n].to !in path
    decreases |chain|
  {
    if |chain| == 0 {
    } else {
      var rest, next := chain[1..], After(chain[0]);
      ExtendsIffChain(next, path + {chain[0].to}, rest, pool, now);
      forall n | 0 <= n <= |rest| ensures HolderAt(next, rest, n) == HolderAt(h, chain, n + 1) {
      }
      if Extends(h, path, chain, pool, now) {
        ExtendsToChain(h, path, chain, pool, now);
      }
      if ChainOk(h, chain, pool, now) && forall n :: 0 <= n < |chain| ==> chain[n].to !in path {
        ChainTail(h, chain, pool, now);
        assert HolderAt(h, chain, 0) == h;
      }
    }
  }

  lemma ChainTail(h: Holder, chain: seq<Delegation>, pool: seq<Delegation>, now: int)
    requires |chain| > 0 && ChainOk(h, chain, pool, now)
    ensures ChainOk(After(chain[0]), chain[1..], pool, now)
    ensures forall n :: 0 < n < |chain| ==> chain[n].to != chain[0].to
  {
    var rest, next := chain[1..], After(chain[0]);
    forall n | 0 <= n <= |rest| ensures HolderAt(next, rest, n) == HolderAt(h, chain, n + 1) {
    }
    forall n | 0 <= n < |rest| ensures LinkOk(HolderAt(next, rest, n), rest[n], now) && rest[n] in pool {
      assert chain[n + 1] == rest[n];
    }
    forall n | 0 < n < |chain| ensures chain[n].to != chain[0].to {
      assert HolderAt(h, chain, 1).principal != HolderAt(h, chain, n + 1).principal;
    }
  }

  lemma ExtendsToChain(h: Holder, path: set<Principal>, chain: seq<Delegation>, pool: seq<Delegation>, now: int)
    requires h.principal in path && |chain| > 0
    requires chain[0] in pool && LinkOk(h, chain[0], now) && chain[0].to !in path
    requires ChainOk(After(chain[0]), chain[1..], pool, now)
    requires forall n :: 0 <= n < |chain| - 1 ==> chain[1..][n].to !in path + {chain[0].to}
    ensures ChainOk(h, chain, pool, now)
    ensures forall n :: 0 <= n < |chain| ==> chain[n].to !in path
  {
    var rest, next := chain[1..], After(chain[0]);
    forall n | 0 < n < |chain| ensures chain[n].to !in path + {chain[0].to} {
      assert rest[n - 1] == chain[n];
    }
    forall n | 0 <= n < |chain| ensures chain[n] in pool && LinkOk(HolderAt(h, chain, n), chain[n], now) {
      if n > 0 {
        assert rest[n - 1] == chain[n] && HolderAt(next, rest, n - 1) == HolderAt(h, chain, n);
      }
    }
    forall i, j | 0 <= i < j <= |chain| ensures HolderAt(h, chain, i).principal != HolderAt(h, chain, j).principal {
      if i > 0 {
        assert HolderAt(next, rest, i - 1) == HolderAt(h, chain, i);
        assert HolderAt(next, rest, j - 1) == HolderAt(h, chain, j);
      } else {
        assert HolderAt(h, chain, j).principal == chain[j - 1].to;
      }
    }
  }

  /** What a search from a holder at this depth may find: a nonempty chain within the bound. */
  ghost predicate Finds(h: Holder, path: set<Principal>, chain: seq<Delegation>, depth: nat, pool: seq<Delegation>,
                        r: Request, goal: Goal, now: int) {
    && 0 < |chain| && depth + |chain| <= MAX_DEPTH
    && Extends(h, path, chain, pool, now)
    && Satisfies(After(chain[|chain| - 1]), r, goal)
  }

  function Digests(chain: seq<Delegation>): (ds: seq<Digest>)
    ensures |ds| == |chain|
  {
    seq(|chain|, i requires 0 <= i < |chain| => chain[i].digest)
  }

  predicate DelegationBefore(a: Delegation, b: Delegation) {
    Less(a.digest.text, b.digest.text)
  }

  /** Delegations in digest order, all digests different. */
  ghost predicate Ordered(pool: seq<Delegation>) {
    Sorted(DelegationBefore, pool) && NoTies(DelegationBefore, pool)
  }

  /** Lexicographic order of chains by digest, a prefix coming first. */
  ghost predicate EarlierChain(a: seq<Delegation>, b: seq<Delegation>) {
    if |b| == 0 then false
    else if |a| == 0 then true
    else if a[0] != b[0] then DelegationBefore(a[0], b[0])
    else EarlierChain(a[1..], b[1..])
  }

  ghost predicate LeastFound(h: Holder, path: set<Principal>, c: seq<Delegation>, depth: nat, pool: seq<Delegation>,
                             r: Request, goal: Goal, now: int)
  {
    forall chain :: Finds(h, path, chain, depth, pool, r, goal, now) ==> chain == c || EarlierChain(c, chain)
  }

  /** The i-th delegation is the first one through which anything is found, and rest is the least
      chain below it. */
  lemma LeastHere(h: Holder, path: set<Principal>, rest: seq<Delegation>, depth: nat, pool: seq<Delegation>, i: nat,
                  r: Request, goal: Goal, now: int)
    requires Ordered(pool) && i < |pool|
    requires forall chain :: Finds(h, path, chain, depth, pool, r, goal, now) ==> chain[0] !in pool[..i]
    requires rest == [] || (!Satisfies(After(pool[i]), r, goal)
                            && LeastFound(After(pool[i]), path + {pool[i].to}, rest, depth + 1, pool, r, goal, now))
    ensures LeastFound(h, path, [pool[i]] + rest, depth, pool, r, goal, now)
  {
    var d := pool[i];
    var c := [d] + rest;
    assert c[1..] == rest;
    forall chain | Finds(h, path, chain, depth, pool, r, goal, now) ensures chain == c || EarlierChain(c, chain) {
      assert chain == [chain[0]] + chain[1..];
      if chain[0] == d {
        if |chain| > 1 {
          assert chain[1..][|chain| - 2] == chain[|chain| - 1];
          assert Finds(After(d), path + {d.to}, chain[1..], depth + 1, pool, r, goal, now);
        }
      } else {
        OrderedBefore(pool, i, chain[0]);
      }
    }
  }

  lemma OrderedBefore(pool: seq<Delegation>, i: nat, x: Delegation)
    requires Ordered(pool) && i < |pool| && x in pool && x !in pool[..i] && x != pool[i]
    ensures DelegationBefore(pool[i], x)
  {
    hide DelegationBefore;
    forall k | 0 <= k < i ensures pool[k] != x {
      assert pool[k] == pool[..i][k];
    }
    var j :| 0 <= j < |pool| && pool[j] == x;
    assert pool[i] in pool;
  }

  /** authorizeDelegated and delegatedCanRead: the depth-first search from a holder finds a
      chain exactly when one exists, and reports the links it went through. */
  method Search(h: Holder, path: set<Principal>, depth: nat, pool: seq<Delegation>, r: Request, goal: Goal, now: int)
    returns (found: Option<seq<Delegation>>)
    requires h.principal in path && depth <= MAX_DEPTH
    ensures found.Some? ==> Finds(h, path, found.value, depth, pool, r, goal, now)
    ensures found.None? ==> forall chain :: !Finds(h, path, chain, depth, pool, r, goal, now)
    ensures found.Some? && Ordered(pool) ==> LeastFound(h, path, found.value, depth, pool, r, goal, now)
    decreases MAX_DEPTH - depth
  {
    if !h.mayDelegate || depth >= MAX_DEPTH {
      return None;
    }
    for i := 0 to |pool|
      invariant forall chain :: Finds(h, path, chain, depth, pool, r, goal, now) ==> chain[0] !in pool[..i]
    {
      var d := pool[i];
      assert pool[..i + 1] == pool[..i] + [d];
      if d.from == h.principal && d.parent == h.digest && DelegationValid(d, h.scope, h.expiresAt, now)
          && d.to !in path {
        if Satisfies(After(d), r, goal) {
          assert [d][1..] == [];
          if Ordered(pool) {
            LeastHere(h, path, [], depth, pool, i, r, goal, now);
          }
          return Some([d]);
        }
        var next := depth + 1;
        var deeper := Search(After(d), path + {d.to}, next, pool, r, goal, now);
        if deeper.Some? {
          FindsCons(h, path, d, deeper.value, depth, pool, r, goal, now);
          if Ordered(pool) {
            LeastHere(h, path, deeper.value, depth, pool, i, r, goal, now);
          }
          return Some([d] + deeper.value);
        }
        NothingThrough(h, path, d, depth, next, pool, r, goal, now);
      }
    }
    assert pool[..|pool|] == pool;
    found := None;
  }

  lemma FindsCons(h: Holder, path: set<Principal>, d: Delegation, rest: seq<Delegation>, depth: nat,
                  pool: seq<Delegation>, r: Request, goal: Goal, now: int)
    requires d in pool && LinkOk(h, d, now) && d.to !in path
    requires Finds(After(d), path + {d.to}, rest, depth + 1, pool, r, goal, now)
    ensures Finds(h, path, [d] + rest, depth, pool, r, goal, now)
  {
    assert ([d] + rest)[1..] == rest;
  }

  lemma NothingThrough(h: Holder, path: set<Principal>, d: Delegation, depth: nat, next: nat, pool: seq<Delegation>,
                       r: Request, goal: Goal, now: int)
    requires next == depth + 1 && !Satisfies(After(d), r, goal)
    requires NoneFound(d, path, next, pool, r, goal, now)
    ensures forall chain :: Finds(h, path, chain, depth, pool, r, goal, now) ==> chain[0] != d
  {
    forall chain | Finds(h, path, chain, depth, pool, r, goal, now) ensures chain[0] != d {
      if chain[0] == d && |chain| > 1 {
        assert chain[1..][|chain| - 2] == chain[|chain| - 1];
        assert Finds(After(d), path + {d.to}, chain[1..], next, pool, r, goal, now);
      }
    }
  }

  ghost predicate NoneFound(d: Delegation, path: set<Principal>, depth: nat, pool: seq<Delegation>, r: Request,
                            goal: Goal, now: int) {
    var h, p := After(d), path + {d.to};
    forall chain :: !Finds(h, p, chain, depth, pool, r, goal, now)
  }

  /** From a grant, the search covers exactly the chains of one to four links. */
  lemma FindsIffReaches(g: Grant, chain: seq<Delegation>, pool: seq<Delegation>, r: Request, goal: Goal, now: int)
    requires |chain| > 0
    ensures Finds(Root(g), {g.grantee}, chain, 0, pool, r, goal, now) <==> Reaches(Root(g), chain, pool, r, goal, now)
  {
    ExtendsIffChain(Root(g), {g.grantee}, chain, pool, now);
    if ChainOk(Root(g), chain, pool, now) {
      forall n | 0 <= n < |chain| ensures chain[n].to != g.grantee {
        assert HolderAt(Root(g), chain, 0).principal != HolderAt(Root(g), chain, n + 1).principal;
      }
    }
  }

  lemma ZeroLinks(root: Holder, pool: seq<Delegation>, r: Request, goal: Goal, now: int)
    ensures Reaches(root, [], pool, r, goal, now) <==> Satisfies(root, r, goal)
  {
  }

  // ------------------------------------------------------------------
  // Authorize
  // ------------------------------------------------------------------

  datatype Policy = Policy(digest: Digest, revision: nat, grants: seq<Grant>, delegations: seq<Delegation>)

  predicate GrantBefore(a: Grant, b: Grant) {
    Less(a.digest.text, b.digest.text)
  }

  lemma DigestOrders()
    ensures StrictWeakOrder(GrantBefore) && StrictWeakOrder(DelegationBefore)
  {
    forall a: string, b: string | Less(a, b) ensures !Less(b, a) {
      LessAsymmetric(a, b);
    }
    forall a: string, b: string, c: string | !Less(b, a) && !Less(c, b) ensures !Less(c, a) {
      LessNegativelyTransitive(a, b, c);
    }
  }

  /** The answer names a valid grant and the digests of a chain that really reaches the request. */
  ghost predicate Justified(o: Outcome, policy: Policy, r: Request, subject: Option<Subject>, now: int) {
    exists g, chain ::
      && g in policy.grants && GrantValid(g, now)
      && Reaches(Root(g), chain, policy.delegations, r, ToCommand(subject), now)
      && Names(o, g, chain)
  }

  function GrantDigest(g: Grant): Digest {
    g.digest
  }

  function DelegationDigest(d: Delegation): Digest {
    d.digest
  }

  predicate DistinctDigests(policy: Policy) {
    Distinct(Map(GrantDigest, policy.grants)) && Distinct(Map(DelegationDigest, policy.delegations))
  }

  /** No grant that leads to the command comes before this one, and no chain from it before this
      chain. */
  ghost predicate First(g: Grant, c: seq<Delegation>, policy: Policy, r: Request, subject: Option<Subject>, now: int) {
    && g in policy.grants && GrantValid(g, now) && Reaches(Root(g), c, policy.delegations, r, ToCommand(subject), now)
    && LeastBelow(g, c, policy.delegations, r, ToCommand(subject), now)
    && forall h, chain ::
         h in policy.grants && GrantValid(h, now)
         && Reaches(Root(h), chain, policy.delegations, r, ToCommand(subject), now) ==>
         h == g || GrantBefore(g, h)
  }

  /** The answer names the first grant and the first chain. */
  ghost predicate NamesFirst(o: Outcome, policy: Policy, r: Request, subject: Option<Subject>, now: int) {
    exists g, c :: First(g, c, policy, r, subject, now) && Names(o, g, c)
  }

  ghost predicate Names(o: Outcome, g: Grant, chain: seq<Delegation>) {
    && o.grants == [g.digest]
    && o.chain == Digests(chain)
    && o.canRead == HolderAt(Root(g), chain, |chain|).scope.canRead
  }

  /** Authorize allows a request exactly when some valid grant and a chain of zero to four
      delegations reach it; a refusal reveals read access exactly when some chain carries it. */
  method Authorize(policy: Policy, r: Request, subject: Option<Subject>, now: Option<int>) returns (o: Outcome)
    ensures !(policy.digest.Valid() && policy.revision > 0 && now.Some?) ==> o == Outcome(false, false, [], [])
    ensures policy.digest.Valid() && policy.revision > 0 && now.Some? ==>
              && (o.allowed <==> Authorized(policy.grants, policy.delegations, r, ToCommand(subject), now.value))
              && (!o.allowed ==> (o.canRead <==> Authorized(policy.grants, policy.delegations, r, ToRead, now.value)))
              && (o.allowed ==> Justified(o, policy, r, subject, now.value))
              && (!o.allowed ==> o.grants == [] && o.chain == [])
              && (o.allowed && DistinctDigests(policy) ==> NamesFirst(o, policy, r, subject, now.value))
  {
    if !policy.digest.Valid() || policy.revision == 0 || now.None? {
      return Outcome(false, false, [], []);
    }
    DigestOrders();
    hide StrictWeakOrder, Sorted, Authorized;
    var grants := SortSlice(policy.grants, GrantBefore);
    var pool := SortSlice(policy.delegations, DelegationBefore);
    SameElements(policy.grants, grants);
    SameElements(policy.delegations, pool);
    AllGrants(policy.grants, grants, policy.delegations, r, ToCommand(subject), now.value);
    AllGrants(policy.grants, grants, policy.delegations, r, ToRead, now.value);
    hide Reaches, GrantValid, NoChainYet;
    if DistinctDigests(policy) {
      DigestsOrdered(policy, grants, pool);
    }
    hide NamesFirst, Justified;
    o := FirstGrant(policy, grants, pool, r, subject, now.value);
  }

  lemma DigestsOrdered(policy: Policy, grants: seq<Grant>, pool: seq<Delegation>)
    requires DistinctDigests(policy) && multiset(grants) == multiset(policy.grants)
             && multiset(pool) == multiset(policy.delegations)
    requires Sorted(GrantBefore, grants) && Sorted(DelegationBefore, pool)
    ensures InOrder(grants, pool)
  {
    SameElements(policy.grants, grants);
    SameElements(policy.delegations, pool);
    forall x, y | x in grants && y in grants && !GrantBefore(x, y) && !GrantBefore(y, x) ensures x == y {
      LessTotal(x.digest.text, y.digest.text);
      DistinctImage(GrantDigest, policy.grants, x, y);
    }
    forall x, y | x in pool && y in pool && !DelegationBefore(x, y) && !DelegationBefore(y, x) ensures x == y {
      LessTotal(x.digest.text, y.digest.text);
      DistinctImage(DelegationDigest, policy.delegations, x, y);
    }
  }

  ghost predicate InOrder(grants: seq<Grant>, pool: seq<Delegation>) {
    Sorted(GrantBefore, grants) && NoTies(GrantBefore, grants) && Ordered(pool)
  }

  /** The loop over the sorted grants. */
  method FirstGrant(policy: Policy, grants: seq<Grant>, pool: seq<Delegation>, r: Request, subject: Option<Subject>,
                    now: int)
    returns (o: Outcome)
    requires (forall g :: g in policy.grants <==> g in grants) && (forall d :: d in pool <==> d in policy.delegations)
    ensures o.allowed <==> !NoChainYet(grants, |grants|, policy.delegations, r, ToCommand(subject), now)
    ensures !o.allowed ==> (o.canRead <==> !NoChainYet(grants, |grants|, policy.delegations, r, ToRead, now))
    ensures o.allowed ==> Justified(o, policy, r, subject, now)
    ensures !o.allowed ==> o.grants == [] && o.chain == []
    ensures o.allowed && InOrder(grants, pool) ==> NamesFirst(o, policy, r, subject, now)
  {
    hide Reaches, GrantValid, Satisfies, InOrder, LeastBelow;
    var goal := ToCommand(subject);
    var canRead := false;
    for i := 0 to |grants|
      invariant NoChainYet(grants, i, policy.delegations, r, goal, now)
      invariant canRead <==> !NoChainYet(grants, i, policy.delegations, r, ToRead, now)
    {
      var g := grants[i];
      if GrantValid(g, now) {
        var chain := GrantChain(g, pool, policy.delegations, r, goal, now);
        if chain.Some? {
          var last := if |chain.value| == 0 then g.scope else chain.value[|chain.value| - 1].scope;
          o := Outcome(true, last.canRead, [g.digest], Digests(chain.value));
          assert Names(o, g, chain.value);
          if InOrder(grants, pool) {
            assert Ordered(pool) by { OrderedPool(grants, pool); }
            IsFirst(policy, grants, pool, i, chain.value, r, subject, now);
          }
          return;
        }
        var reading := GrantChain(g, pool, policy.delegations, r, ToRead, now);
        canRead := canRead || reading.Some?;
      }
    }
    o := Outcome(false, canRead, [], []);
  }

  lemma OrderedPool(grants: seq<Grant>, pool: seq<Delegation>)
    requires InOrder(grants, pool)
    ensures Ordered(pool)
  {
    hide Ordered;
  }

  lemma IsFirst(policy: Policy, grants: seq<Grant>, pool: seq<Delegation>, i: nat, c: seq<Delegation>, r: Request,
                subject: Option<Subject>, now: int)
    requires InOrder(grants, pool) && i < |grants| && forall g :: g in policy.grants <==> g in grants
    requires NoChainYet(grants, i, policy.delegations, r, ToCommand(subject), now)
    requires GrantValid(grants[i], now) && Reaches(Root(grants[i]), c, policy.delegations, r, ToCommand(subject), now)
    requires LeastBelow(grants[i], c, policy.delegations, r, ToCommand(subject), now)
    ensures First(grants[i], c, policy, r, subject, now)
  {
    hide Reaches, GrantValid, LeastBelow, Ordered, GrantBefore;
    forall h, chain | h in policy.grants && GrantValid(h, now)
                      && Reaches(Root(h), chain, policy.delegations, r, ToCommand(subject), now)
      ensures h == grants[i] || GrantBefore(grants[i], h)
    {
      var j :| 0 <= j < |grants| && grants[j] == h;
      assert grants[i] in grants;
    }
  }

  /** None of the first n grants leads to the goal. */
  ghost predicate NoChainYet(grants: seq<Grant>, n: nat, pool: seq<Delegation>, r: Request, goal: Goal, now: int)
    requires n <= |grants|
  {
    forall i, chain :: 0 <= i < n && GrantValid(grants[i], now) ==> !Reaches(Root(grants[i]), chain, pool, r, goal, now)
  }

  lemma AllGrants(original: seq<Grant>, sorted: seq<Grant>, pool: seq<Delegation>, r: Request, goal: Goal, now: int)
    requires forall g :: g in original <==> g in sorted
    ensures NoChainYet(sorted, |sorted|, pool, r, goal, now) <==> !Authorized(original, pool, r, goal, now)
  {
    if Authorized(original, pool, r, goal, now) {
      var g, chain :| g in original && GrantValid(g, now) && Reaches(Root(g), chain, pool, r, goal, now);
      var i :| 0 <= i < |sorted| && sorted[i] == g;
    }
  }

  /** The grant itself if it satisfies the goal, otherwise the first chain found below it. */
  method GrantChain(g: Grant, sorted: seq<Delegation>, pool: seq<Delegation>, r: Request, goal: Goal, now: int)
    returns (found: Option<seq<Delegation>>)
    requires forall d :: d in sorted <==> d in pool
    ensures found.Some? ==> Reaches(Root(g), found.value, pool, r, goal, now)
    ensures found.None? ==> forall chain :: !Reaches(Root(g), chain, pool, r, goal, now)
    ensures found.Some? && Ordered(sorted) ==> LeastBelow(g, found.value, pool, r, goal, now)
  {
    ZeroLinks(Root(g), pool, r, goal, now);
    if Satisfies(Root(g), r, goal) {
      return Some([]);
    }
    found := Search(Root(g), {g.grantee}, 0, sorted, r, goal, now);
    if found.Some? {
      FindsIffReaches(g, found.value, sorted, r, goal, now);
      SamePool(Root(g), found.value, sorted, pool, r, goal, now);
      if Ordered(sorted) {
        LeastReaches(g, found.value, sorted, pool, r, goal, now);
      }
    } else {
      forall chain ensures !Reaches(Root(g), chain, pool, r, goal, now) {
        if |chain| == 0 {
          assert chain == [];
        } else {
          FindsIffReaches(g, chain, sorted, r, goal, now);
          SamePool(Root(g), chain, sorted, pool, r, goal, now);
        }
      }
    }
  }

  /** The chain comes first among all that lead from the grant to the goal. */
  ghost predicate LeastBelow(g: Grant, c: seq<Delegation>, pool: seq<Delegation>, r: Request, goal: Goal, now: int) {
    forall chain :: Reaches(Root(g), chain, pool, r, goal, now) ==> chain == c || EarlierChain(c, chain)
  }

  lemma LeastReaches(g: Grant, c: seq<Delegation>, sorted: seq<Delegation>, pool: seq<Delegation>, r: Request,
                     goal: Goal, now: int)
    requires (forall d :: d in sorted <==> d in pool) && !Satisfies(Root(g), r, goal)
    requires LeastFound(Root(g), {g.grantee}, c, 0, sorted, r, goal, now)
    ensures LeastBelow(g, c, pool, r, goal, now)
  {
    hide Finds, Satisfies;
    forall chain | Reaches(Root(g), chain, pool, r, goal, now) ensures chain == c || EarlierChain(c, chain) {
      SamePool(Root(g), chain, sorted, pool, r, goal, now);
      if |chain| > 0 {
        FindsIffReaches(g, chain, sorted, r, goal, now);
      }
    }
  }

  lemma SamePool(root: Holder, chain: seq<Delegation>, a: seq<Delegation>, b: seq<Delegation>, r: Request, goal: Goal,
                 now: int)
    requires forall d :: d in a <==> d in b
    ensures Reaches(root, chain, a, r, goal, now) <==> Reaches(root, chain, b, r, goal, now)
  {
  }

  // ------------------------------------------------------------------
  // What a positive answer means.
  // ------------------------------------------------------------------

  lemma StillAuthorized(g1: seq<Grant>, g2: seq<Grant>, d1: seq<Delegation>, d2: seq<Delegation>, r: Request,
                        goal: Goal, now: int)
    requires (forall g :: g in g1 <==> g in g2) && (forall d :: d in d1 <==> d in d2)
    requires Authorized(g1, d1, r, goal, now)
    ensures Authorized(g2, d2, r, goal, now)
  {
    var g, chain :| g in g1 && GrantValid(g, now) && Reaches(Root(g), chain, d1, r, goal, now);
    SamePool(Root(g), chain, d1, d2, r, goal, now);
    assert g in g2;
  }

  /** The allowed bit depends on which grants and delegations are listed, not on their order. */
  lemma OrderIrrelevant(g1: seq<Grant>, g2: seq<Grant>, d1: seq<Delegation>, d2: seq<Delegation>, r: Request,
                        goal: Goal, now: int)
    requires multiset(g1) == multiset(g2) && multiset(d1) == multiset(d2)
    ensures Authorized(g1, d1, r, goal, now) <==> Authorized(g2, d2, r, goal, now)
  {
    SameElements(g1, g2);
    SameElements(d1, d2);
    hide Authorized;
    if Authorized(g1, d1, r, goal, now) {
      StillAuthorized(g1, g2, d1, d2, r, goal, now);
    }
    if Authorized(g2, d2, r, goal, now) {
      StillAuthorized(g2, g1, d2, d1, r, goal, now);
    }
  }

  lemma {:induction false} ChainsAsymmetric(a: seq<Delegation>, b: seq<Delegation>)
    requires EarlierChain(a, b)
    ensures !EarlierChain(b, a)
    decreases |a|
  {
    if |a| == 0 {
    } else {
      if a[0] == b[0] {
        ChainsAsymmetric(a[1..], b[1..]);
      } else {
        LessAsymmetric(a[0].digest.text, b[0].digest.text);
      }
    }
  }

  lemma FirstMoves(g: Grant, c: seq<Delegation>, p: Policy, q: Policy, r: Request, subject: Option<Subject>, now: int)
    requires First(g, c, p, r, subject, now)
    requires multiset(p.grants) == multiset(q.grants) && multiset(p.delegations) == multiset(q.delegations)
    ensures First(g, c, q, r, subject, now)
  {
    hide Reaches, GrantValid, GrantBefore, EarlierChain;
    SameElements(p.grants, q.grants);
    SameElements(p.delegations, q.delegations);
    forall h: Grant, chain ensures Reaches(Root(h), chain, p.delegations, r, ToCommand(subject), now)
                                   <==> Reaches(Root(h), chain, q.delegations, r, ToCommand(subject), now)
    {
      SamePool(Root(h), chain, p.delegations, q.delegations, r, ToCommand(subject), now);
    }
  }

  lemma FirstUnique(g: Grant, c: seq<Delegation>, h: Grant, d: seq<Delegation>, p: Policy, r: Request,
                    subject: Option<Subject>, now: int)
    requires First(g, c, p, r, subject, now) && First(h, d, p, r, subject, now)
    ensures g == h && c == d
  {
    hide Reaches, GrantValid, EarlierChain;
    LessAsymmetric(g.digest.text, h.digest.text);
    if EarlierChain(c, d) {
      ChainsAsymmetric(c, d);
    }
  }

  /** With distinct digests the whole answer, its grant and its chain included, does not depend
      on the order in which grants and delegations are listed. */
  lemma AnswerDetermined(p: Policy, q: Policy, r: Request, subject: Option<Subject>, now: int, a: Outcome, b: Outcome)
    requires multiset(p.grants) == multiset(q.grants) && multiset(p.delegations) == multiset(q.delegations)
    requires a.allowed && b.allowed && NamesFirst(a, p, r, subject, now) && NamesFirst(b, q, r, subject, now)
    ensures a == b
  {
    hide First;
    var g, c :| First(g, c, p, r, subject, now) && Names(a, g, c);
    var h, d :| First(h, d, q, r, subject, now) && Names(b, h, d);
    FirstMoves(h, d, q, p, r, subject, now);
    FirstUnique(g, c, h, d, p, r, subject, now);
  }

  lemma LinkAttenuates(h: Holder, d: Delegation, now: int)
    requires LinkOk(h, d, now)
    ensures ScopeSubset(d.scope, h.scope) && !d.revoked && !Expired(d.expiresAt, now)
    ensures h.expiresAt.Some? ==> d.expiresAt.Some? && d.expiresAt.value <= h.expiresAt.value
  {
  }

  lemma LinkAt(root: Holder, chain: seq<Delegation>, pool: seq<Delegation>, now: int, n: nat)
    requires ChainOk(root, chain, pool, now) && n < |chain|
    ensures LinkOk(HolderAt(root, chain, n), chain[n], now) && HolderAt(root, chain, n + 1) == After(chain[n])
  {
    hide LinkOk;
  }

  /** Along a chain every scope is within every earlier one, so the root grant allows whatever
      the last delegation allows. */
  lemma {:induction false} ChainAttenuates(root: Holder, chain: seq<Delegation>, pool: seq<Delegation>, now: int,
                                           i: nat, j: nat)
    requires ChainOk(root, chain, pool, now) && i < j <= |chain|
    ensures ScopeSubset(HolderAt(root, chain, j).scope, HolderAt(root, chain, i).scope)
    ensures HolderAt(root, chain, i).expiresAt.Some? ==>
              HolderAt(root, chain, j).expiresAt.Some? &&
              HolderAt(root, chain, j).expiresAt.value <= HolderAt(root, chain, i).expiresAt.value
    decreases j - i
  {
    hide ChainOk, HolderAt, LinkOk, ScopeSubset, DelegationValid;
    var first, before, last := HolderAt(root, chain, i), HolderAt(root, chain, j - 1), HolderAt(root, chain, j);
    LinkAt(root, chain, pool, now, j - 1);
    LinkAttenuates(before, chain[j - 1], now);
    if i < j - 1 {
      ChainAttenuates(root, chain, pool, now, i, j - 1);
      SubsetTransitive(last.scope, before.scope, first.scope);
    }
  }

  /** Every authorization is backed by a grant that allows the request itself, with no expired
      or revoked link on the way. */
  lemma RootAllows(g: Grant, chain: seq<Delegation>, pool: seq<Delegation>, r: Request, subject: Option<Subject>,
                   now: int)
    requires GrantValid(g, now) && Reaches(Root(g), chain, pool, r, ToCommand(subject), now)
    ensures ScopeAllows(g.scope, r, subject)
    ensures forall n :: 0 <= n <= |chain| ==> ScopeAllows(HolderAt(Root(g), chain, n).scope, r, subject)
    ensures forall n :: 0 <= n < |chain| ==> !chain[n].revoked && !Expired(chain[n].expiresAt, now)
  {
    forall n | 0 <= n <= |chain| ensures ScopeAllows(HolderAt(Root(g), chain, n).scope, r, subject) {
      if n < |chain| {
        ChainAttenuates(Root(g), chain, pool, now, n, |chain|);
        SubsetAttenuates(HolderAt(Root(g), chain, |chain|).scope, HolderAt(Root(g), chain, n).scope, r, subject);
      }
    }
    assert HolderAt(Root(g), chain, 0) == Root(g);
    forall n | 0 <= n < |chain| ensures !chain[n].revoked && !Expired(chain[n].expiresAt, now) {
      LinkAttenuates(HolderAt(Root(g), chain, n), chain[n], now);
    }
  }

  // ------------------------------------------------------------------
  // The answer on the fields of grants, delegations and the request.
  // ------------------------------------------------------------------

  /** What a scope must say for the command. */
  ghost predicate Permits(s: Scope, r: Request, subject: Option<Subject>) {
    && (exists i :: 0 <= i < |s.commandTypes| && s.commandTypes[i] == r.commandType)
    && (exists i :: 0 <= i < |s.targetKinds| && s.targetKinds[i] == r.target.kind)
    && (s.targetIds == [] || exists i :: 0 <= i < |s.targetIds| && s.targetIds[i] == r.target.id)
    && (!s.requiresOwner || (subject.Some? && r.actor.Some? && subject.value.owner == r.actor))
    && (s.canReopenAccepted || r.commandType != REOPEN || subject.None? || !subject.value.phase.Accepted?)
  }

  /** What a scope must say for reading the target. */
  ghost predicate PermitsRead(s: Scope, r: Request) {
    && s.canRead && (exists i :: 0 <= i < |s.targetKinds| && s.targetKinds[i] == r.target.kind)
    && (s.targetIds == [] || exists i :: 0 <= i < |s.targetIds| && s.targetIds[i] == r.target.id)
  }

  ghost predicate PermitsGoal(s: Scope, r: Request, goal: Goal) {
    match goal
    case ToCommand(subject) => Permits(s, r, subject)
    case ToRead => PermitsRead(s, r)
  }

  lemma SatisfiesIff(h: Holder, r: Request, goal: Goal)
    ensures Satisfies(h, r, goal) <==> h.principal == r.authority && PermitsGoal(h.scope, r, goal)
  {
  }

  /** A grant in force. */
  ghost predicate InForce(g: Grant, now: int) {
    && g.digest.Valid() && g.grantee.Valid() && !g.revoked && (g.expiresAt.Some? ==> now < g.expiresAt.value)
    && g.scope.commandTypes != [] && g.scope.targetKinds != [] && CommandType("") !in g.scope.commandTypes
    && (forall k :: k in g.scope.targetKinds ==> !k.OtherAggregate?)
    && (forall id :: id in g.scope.targetIds ==> id.Valid())
  }

  lemma ValidIffInForce(g: Grant, now: int)
    ensures GrantValid(g, now) <==> InForce(g, now)
  {
    hide Uuid.Valid, Digest.Valid;
    assert CommandType("") in g.scope.commandTypes <==> exists c :: c in g.scope.commandTypes && c.name == "";
  }

  /** A delegation as a grant to its receiver. */
  ghost function AsGrant(d: Delegation): Grant {
    Grant(d.digest, d.to, d.scope, d.expiresAt, d.revoked, d.allowFurther)
  }

  /** Each delegation was made by the holder before it, who may delegate, under the authority held,
      and is itself in force. */
  ghost predicate Handed(g: Grant, chain: seq<Delegation>, pool: seq<Delegation>, now: int) {
    forall n :: 0 <= n < |chain| ==> HandedAt(g, chain, pool, now, n)
  }

  ghost predicate HandedAt(g: Grant, chain: seq<Delegation>, pool: seq<Delegation>, now: int, n: nat)
    requires n < |chain|
  {
    && chain[n] in pool && InForce(AsGrant(chain[n]), now) && chain[n].parent.Valid() && chain[n].from.Valid()
    && chain[n].from == (if n == 0 then g.grantee else chain[n - 1].to)
    && chain[n].parent == (if n == 0 then g.digest else chain[n - 1].digest)
    && (if n == 0 then g.allowDelegation else chain[n - 1].allowFurther)
  }

  lemma LinkHanded(g: Grant, chain: seq<Delegation>, pool: seq<Delegation>, now: int, n: nat)
    requires ChainOk(Root(g), chain, pool, now) && n < |chain|
    ensures HandedAt(g, chain, pool, now, n)
  {
    LinkAt(Root(g), chain, pool, now, n);
    assert chain[n] in pool;
    ValidIffInForce(AsGrant(chain[n]), now);
    hide ChainOk, ScopeSubset, ScopeValid, Digest.Valid, InForce;
  }

  /** The grant and every delegation of the chain permit the goal, and the last one is the
      authority's. */
  ghost predicate Carries(g: Grant, chain: seq<Delegation>, r: Request, goal: Goal) {
    && |chain| <= MAX_DEPTH && PermitsGoal(g.scope, r, goal)
    && (forall n :: 0 <= n < |chain| ==> PermitsGoal(chain[n].scope, r, goal))
    && r.authority == (if chain == [] then g.grantee else chain[|chain| - 1].to)
  }

  lemma HoldersPermit(g: Grant, chain: seq<Delegation>, pool: seq<Delegation>, r: Request, goal: Goal, now: int, n: nat)
    requires Reaches(Root(g), chain, pool, r, goal, now) && n <= |chain|
    ensures PermitsGoal(HolderAt(Root(g), chain, n).scope, r, goal)
  {
    hide ChainOk, HolderAt, PermitsGoal, ScopeSubset, ScopeAllows, ReadAllows;
    var last := HolderAt(Root(g), chain, |chain|);
    SatisfiesIff(last, r, goal);
    if n < |chain| {
      var h := HolderAt(Root(g), chain, n);
      ChainAttenuates(Root(g), chain, pool, now, n, |chain|);
      var subject := if goal.ToCommand? then goal.subject else None;
      SubsetAttenuates(last.scope, h.scope, r, subject);
      SatisfiesIff(h.(principal := r.authority), r, goal);
    }
  }

  lemma ReachesCarries(g: Grant, chain: seq<Delegation>, pool: seq<Delegation>, r: Request, goal: Goal, now: int)
    requires Reaches(Root(g), chain, pool, r, goal, now)
    ensures Handed(g, chain, pool, now) && Carries(g, chain, r, goal)
  {
    hide ChainOk, Satisfies, PermitsGoal, HandedAt;
    HoldersPermit(g, chain, pool, r, goal, now, 0);
    forall n | 0 <= n < |chain| ensures PermitsGoal(chain[n].scope, r, goal) {
      HoldersPermit(g, chain, pool, r, goal, now, n + 1);
    }
    SatisfiesIff(HolderAt(Root(g), chain, |chain|), r, goal);
    forall n | 0 <= n < |chain| ensures HandedAt(g, chain, pool, now, n) {
      LinkHanded(g, chain, pool, now, n);
    }
  }

  /** When Authorize allows: the grant it names is in force, each delegation it names was handed on
      properly, and each of them permits the command to the requesting actor. */
  lemma AllowedOnFields(o: Outcome, policy: Policy, r: Request, subject: Option<Subject>, now: int)
    requires Justified(o, policy, r, subject, now)
    ensures exists g, chain ::
              && g in policy.grants && Names(o, g, chain) && InForce(g, now)
                 && Handed(g, chain, policy.delegations, now)
              && Carries(g, chain, r, ToCommand(subject))
  {
    hide Names, Reaches, GrantValid, InForce, Handed, Carries;
    var g, chain :| g in policy.grants && GrantValid(g, now)
                    && Reaches(Root(g), chain, policy.delegations, r, ToCommand(subject), now) && Names(o, g, chain);
    ValidIffInForce(g, now);
    ReachesCarries(g, chain, policy.delegations, r, ToCommand(subject), now);
  }

  /** The same of read access. */
  lemma ReadOnFields(grants: seq<Grant>, pool: seq<Delegation>, r: Request, now: int)
    requires Authorized(grants, pool, r, ToRead, now)
    ensures exists g, chain ::
              g in grants && InForce(g, now) && Handed(g, chain, pool, now) && Carries(g, chain, r, ToRead)
  {
    hide Reaches, GrantValid, InForce, Handed, Carries;
    var g, chain :| g in grants && GrantValid(g, now) && Reaches(Root(g), chain, pool, r, ToRead, now);
    ValidIffInForce(g, now);
    ReachesCarries(g, chain, pool, r, ToRead, now);
  }

  /** A grant in force to the authority that permits the goal is enough. */
  lemma GrantSuffices(g: Grant, grants: seq<Grant>, pool: seq<Delegation>, r: Request, goal: Goal, now: int)
    requires g in grants && InForce(g, now) && g.grantee == r.authority && PermitsGoal(g.scope, r, goal)
    ensures Authorized(grants, pool, r, goal, now)
  {
    hide InForce, PermitsGoal, Satisfies;
    ValidIffInForce(g, now);
    SatisfiesIff(Root(g), r, goal);
    ZeroLinks(Root(g), pool, r, goal, now);
  }

  /** So is one more delegation to the authority, narrower than the grant in every respect. */
  lemma DelegationSuffices(g: Grant, d: Delegation, grants: seq<Grant>, pool: seq<Delegation>, r: Request, goal: Goal,
                           now: int)
    requires g in grants && InForce(g, now) && g.allowDelegation && d in pool
    requires d.from == g.grantee && d.parent == g.digest && d.to == r.authority && d.to != g.grantee
    requires InForce(AsGrant(d), now)
    requires g.expiresAt.Some? ==> d.expiresAt.Some? && d.expiresAt.value <= g.expiresAt.value
    requires Narrower(d.scope, g.scope) && PermitsGoal(d.scope, r, goal)
    ensures Authorized(grants, pool, r, goal, now)
  {
    hide PermitsGoal, Satisfies, Uuid.Valid, Digest.Valid;
    ValidIffInForce(g, now);
    ValidIffInForce(AsGrant(d), now);
    SatisfiesIff(After(d), r, goal);
    SubsetIffNarrower(d.scope, g.scope);
    hide ScopeSubset, Narrower;
    assert HolderAt(Root(g), [d], 0) == Root(g) && HolderAt(Root(g), [d], 1) == After(d);
    assert LinkOk(Root(g), d, now);
    assert Reaches(Root(g), [d], pool, r, goal, now);
  }

  lemma SubsetIffNarrower(child: Scope, parent: Scope)
    ensures ScopeSubset(child, parent) <==> Narrower(child, parent)
  {
  }

  /** One scope within another, field by field. */
  ghost predicate Narrower(child: Scope, parent: Scope) {
    && (forall i :: 0 <= i < |child.commandTypes| ==> child.commandTypes[i] in parent.commandTypes)
    && (forall i :: 0 <= i < |child.targetKinds| ==> child.targetKinds[i] in parent.targetKinds)
    && (|| parent.targetIds == []
        || (child.targetIds != [] && forall i :: 0 <= i < |child.targetIds| ==> child.targetIds[i] in parent.targetIds))
    && (parent.canRead || !child.canRead) && (child.requiresOwner || !parent.requiresOwner)
    && (parent.canReopenAccepted || !child.canReopenAccepted)
  }
}
