/** ValidateDAG: Kahn's algorithm accepts exactly the well-named acyclic graphs. */
module Dag {

  datatype Name = Name(text: string)

  datatype Edge = Edge(parent: Name, child: Name)

  datatype Reason = InvalidNode | DuplicateNode | MissingNode | Cycle

  datatype Verdict = Valid | Invalid(reason: Reason)

  // ------------------------------------------------------------------
  // Declarative meaning of the verdicts.
  // ------------------------------------------------------------------

  /** The first n node names are nonempty and pairwise distinct. */
  ghost predicate CleanNames(nodes: seq<Name>, n: nat)
    requires n <= |nodes|
  {
    && (forall i :: 0 <= i < n ==> nodes[i].text != "")
    && (forall i, j :: 0 <= i < j < n ==> nodes[i] != nodes[j])
  }

  ghost predicate KnownEndpoints(nodes: seq<Name>, edges: seq<Edge>) {
    forall e :: e in edges ==> e.parent in nodes && e.child in nodes
  }

  function Names(s: seq<Name>): set<Name> {
    set n | n in s
  }

  /** A walk of at least one edge. */
  ghost predicate Walk(edges: seq<Edge>, p: seq<Name>) {
    |p| >= 2 && forall i :: 0 <= i < |p| - 1 ==> Edge(p[i], p[i + 1]) in edges
  }

  ghost predicate Cyclic(edges: seq<Edge>) {
    exists p :: Walk(edges, p) && p[0] == p[|p| - 1]
  }

  // ------------------------------------------------------------------
  // A node set in which every node has a predecessor contains a cycle.
  // ------------------------------------------------------------------

  lemma {:induction false} Pigeonhole<T>(s: seq<T>, dom: set<T>) returns (i: nat, j: nat)
    requires forall k :: 0 <= k < |s| ==> s[k] in dom
    requires |s| > |dom|
    ensures i < j < |s| && s[i] == s[j]
    decreases |s|
  {
    if k :| 1 <= k < |s| && s[k] == s[0] {
      return 0, k;
    }
    i, j := Pigeonhole(s[1..], dom - {s[0]});
    i, j := i + 1, j + 1;
  }

  ghost predicate Preceded(edges: seq<Edge>, stuck: set<Name>, c: Name) {
    exists q :: q in stuck && Edge(q, c) in edges
  }

  /** Walk backwards inside a stuck set for n edges. */
  lemma {:induction false} BackwardWalk(edges: seq<Edge>, stuck: set<Name>, n: nat) returns (p: seq<Name>)
    requires stuck != {}
    requires forall c :: c in stuck ==> Preceded(edges, stuck, c)
    ensures |p| == n + 1
    ensures forall i :: 0 <= i < |p| ==> p[i] in stuck
    ensures forall i :: 0 <= i < n ==> Edge(p[i], p[i + 1]) in edges
  {
    if n == 0 {
      var c :| c in stuck;
      p := [c];
    } else {
      var rest := BackwardWalk(edges, stuck, n - 1);
      assert Preceded(edges, stuck, rest[0]);
      var q :| q in stuck && Edge(q, rest[0]) in edges;
      p := [q] + rest;
    }
  }

  lemma StuckMeansCycle(edges: seq<Edge>, stuck: set<Name>)
    requires stuck != {}
    requires forall c :: c in stuck ==> Preceded(edges, stuck, c)
    ensures Cyclic(edges)
  {
    var p := BackwardWalk(edges, stuck, |stuck|);
    var i, j := Pigeonhole(p, stuck);
    var w := p[i..j + 1];
    forall k | 0 <= k < |w| - 1 ensures Edge(w[k], w[k + 1]) in edges {
      assert w[k] == p[i + k] && w[k + 1] == p[i + k + 1];
    }
    assert Walk(edges, w);
  }

  // ------------------------------------------------------------------
  // An order in which parents precede children rules a cycle out.
  // ------------------------------------------------------------------

  ghost predicate Topological(order: seq<Name>, edges: seq<Edge>) {
    forall e :: e in edges ==> InOrder(order, e)
  }

  ghost predicate DistinctNames(order: seq<Name>) {
    forall i, j :: 0 <= i < j < |order| ==> order[i] != order[j]
  }

  lemma {:induction false} WalkClimbs(order: seq<Name>, edges: seq<Edge>, p: seq<Name>) returns (lo: nat, hi: nat)
    requires Topological(order, edges) && DistinctNames(order)
    requires Walk(edges, p)
    ensures lo < hi < |order| && order[lo] == p[0] && order[hi] == p[|p| - 1]
    decreases |p|
  {
    assert InOrder(order, Edge(p[0], p[1]));
    lo, hi :| 0 <= lo < hi < |order| && order[lo] == p[0] && order[hi] == p[1];
    if |p| > 2 {
      var rest := p[1..];
      var mid, last := WalkClimbs(order, edges, rest);
      assert mid == hi;
      hi := last;
    }
  }

  lemma OrderMeansAcyclic(order: seq<Name>, edges: seq<Edge>)
    requires Topological(order, edges) && DistinctNames(order)
    ensures !Cyclic(edges)
  {
    if Cyclic(edges) {
      var p :| Walk(edges, p) && p[0] == p[|p| - 1];
      var lo, hi := WalkClimbs(order, edges, p);
      assert false;
    }
  }

  // ------------------------------------------------------------------
  // The algorithm.
  // ------------------------------------------------------------------

  ghost function Into(pending: set<Edge>, node: Name): set<Edge> {
    set e | e in pending && e.child == node
  }

  /** The edges whose parent has not been dequeued. */
  ghost function Undone(seen: set<Edge>, done: seq<Name>): set<Edge> {
    set e | e in seen && e.parent !in done
  }

  /** Between two dequeues: counters count the edges whose parent is not done yet, and
      the queue holds exactly the undone nodes whose counter is zero. */
  ghost predicate Counted(known: set<Name>, pending: set<Edge>, indegree: map<Name, int>) {
    indegree.Keys == known && forall n :: n in known ==> indegree[n] == |Into(pending, n)|
  }

  lemma DropEdge(pending: set<Edge>, e: Edge, node: Name)
    requires e in pending
    ensures |Into(pending - {e}, node)| == |Into(pending, node)| - (if node == e.child then 1 else 0)
  {
    if node == e.child {
      assert Into(pending - {e}, node) == Into(pending, node) - {e};
    } else {
      assert Into(pending - {e}, node) == Into(pending, node);
    }
  }

  lemma AddEdge(pending: set<Edge>, e: Edge, node: Name)
    requires e !in pending
    ensures |Into(pending + {e}, node)| == |Into(pending, node)| + (if node == e.child then 1 else 0)
  {
    assert (pending + {e}) - {e} == pending;
    DropEdge(pending + {e}, e, node);
  }

  ghost predicate FaultAt(nodes: seq<Name>, i: nat, reason: Reason) {
    && i < |nodes|
    && CleanNames(nodes, i)
    && match reason
       case InvalidNode => nodes[i].text == ""
       case DuplicateNode => nodes[i].text != "" && nodes[i] in nodes[..i]
       case _ => false
  }

  /** The first fault is the only one. */
  lemma FaultUnique(nodes: seq<Name>, i: nat, j: nat, a: Reason, b: Reason)
    requires FaultAt(nodes, i, a) && FaultAt(nodes, j, b)
    ensures i == j && a == b && !CleanNames(nodes, |nodes|)
  {
  }

  /** The node loop (lines 14-23): the names seen so far, or the first fault. */
  method CheckNames(nodes: seq<Name>) returns (known: set<Name>, fault: Verdict, ghost at: nat)
    ensures fault.Valid? ==> CleanNames(nodes, |nodes|) && known == Names(nodes) && |known| == |nodes|
    ensures fault.Invalid? ==> FaultAt(nodes, at, fault.reason)
  {
    known := {};
    for i := 0 to |nodes|
      invariant known == Names(nodes[..i])
      invariant |known| == i
      invariant CleanNames(nodes, i)
    {
      if nodes[i].text == "" {
        return known, Invalid(InvalidNode), i;
      }
      if nodes[i] in known {
        return known, Invalid(DuplicateNode), i;
      }
      NamesGrow(nodes, i);
      CleanGrows(nodes, i);
      known := known + {nodes[i]};
    }
    assert nodes[..|nodes|] == nodes;
    fault, at := Valid, 0;
  }

  lemma CleanGrows(nodes: seq<Name>, i: nat)
    requires i < |nodes| && CleanNames(nodes, i)
    requires nodes[i].text != "" && nodes[i] !in Names(nodes[..i])
    ensures CleanNames(nodes, i + 1)
  {
    forall j | 0 <= j < i ensures nodes[j] != nodes[i] {
      assert nodes[..i][j] == nodes[j];
      assert nodes[j] in Names(nodes[..i]);
    }
  }

  lemma NamesGrow(nodes: seq<Name>, i: nat)
    requires i < |nodes|
    ensures Names(nodes[..i + 1]) == Names(nodes[..i]) + {nodes[i]}
  {
    assert nodes[..i + 1] == nodes[..i] + [nodes[i]];
  }

  /** The edge loop (lines 25-44). Duplicate edges are counted once. */
  method BuildGraph(nodes: seq<Name>, edges: seq<Edge>, known: set<Name>)
    returns (ok: bool, children: map<Name, seq<Name>>, indegree: map<Name, int>, seen: set<Edge>)
    requires known == Names(nodes)
    ensures ok <==> KnownEndpoints(nodes, edges)
    ensures ok ==> seen == (set e | e in edges)
    ensures ok ==> Counted(known, seen, indegree)
    ensures ok ==> ChildLists(seen, children)
  {
    children := map[];
    indegree := map n | n in known :: 0;
    seen := {};
    EmptyGraph(known);
    hide Counted, ChildLists;
    for i := 0 to |edges|
      invariant seen == (set e | e in edges[..i])
      invariant forall e :: e in edges[..i] ==> e.parent in known && e.child in known
      invariant Counted(known, seen, indegree)
      invariant ChildLists(seen, children)
      invariant indegree.Keys == known
    {
      var edge := edges[i];
      assert edges[..i + 1] == edges[..i] + [edge];
      if edge.parent !in known || edge.child !in known {
        return false, children, indegree, seen;
      }
      if edge !in seen {
        CountGrows(known, seen, indegree, edge);
        ChildListGrows(seen, children, edge);
        seen := seen + {edge};
        children := children[edge.parent := Children(children, edge.parent) + [edge.child]];
        indegree := indegree[edge.child := indegree[edge.child] + 1];
      }
    }
    assert edges[..|edges|] == edges;
    ok := true;
  }

  lemma EmptyGraph(known: set<Name>)
    ensures Counted(known, {}, map n | n in known :: 0)
    ensures ChildLists({}, map[])
  {
  }

  lemma CountGrows(known: set<Name>, seen: set<Edge>, indegree: map<Name, int>, edge: Edge)
    requires Counted(known, seen, indegree) && edge !in seen && edge.child in known
    ensures Counted(known, seen + {edge}, indegree[edge.child := indegree[edge.child] + 1])
  {
    forall n | n in known ensures |Into(seen + {edge}, n)| == |Into(seen, n)| + (if n == edge.child then 1 else 0) {
      AddEdge(seen, edge, n);
    }
  }

  lemma CountShrinks(known: set<Name>, pending: set<Edge>, indegree: map<Name, int>, edge: Edge)
    requires Counted(known, pending, indegree) && edge in pending && edge.child in known
    ensures Counted(known, pending - {edge}, indegree[edge.child := indegree[edge.child] - 1])
  {
    forall n | n in known
      ensures |Into(pending - {edge}, n)| == |Into(pending, n)| - (if n == edge.child then 1 else 0)
    {
      DropEdge(pending, edge, n);
    }
  }

  function Children(children: map<Name, seq<Name>>, node: Name): seq<Name> {
    if node in children then children[node] else []
  }

  /** Every recorded edge is listed once under its parent. */
  ghost predicate ChildLists(seen: set<Edge>, children: map<Name, seq<Name>>) {
    && (forall p, c :: c in Children(children, p) <==> Edge(p, c) in seen)
    && (forall p :: DistinctNames(Children(children, p)))
  }

  lemma ChildListGrows(seen: set<Edge>, children: map<Name, seq<Name>>, edge: Edge)
    requires ChildLists(seen, children) && edge !in seen
    ensures ChildLists(seen + {edge}, children[edge.parent := Children(children, edge.parent) + [edge.child]])
  {
    var next := children[edge.parent := Children(children, edge.parent) + [edge.child]];
    assert edge == Edge(edge.parent, edge.child);
    assert forall p :: p != edge.parent ==> Children(next, p) == Children(children, p);
    assert edge.child !in Children(children, edge.parent);
  }

  /** What is true between two rounds of the queue loop; done lists the dequeued nodes. */
  ghost predicate QueueInv(known: set<Name>, seen: set<Edge>, indegree: map<Name, int>, queue: seq<Name>,
                           done: seq<Name>) {
    && Counted(known, Undone(seen, done), indegree)
    && DistinctNames(done + queue)
    && (forall n :: n in done + queue ==> n in known)
    && (forall n :: n in known && n !in done ==> (indegree[n] == 0 <==> n in queue))
    && (forall e :: e in seen && e.child in done + queue ==> e.parent in done)
    && (forall e :: e in seen && e.child in done ==>
          InOrder(done, e))
  }

  /** ValidateDAG accepts a graph exactly when its names are nonempty and distinct, its
      edges join known nodes and it has no directed cycle; each rejection names its cause. */
  method ValidateDAG(nodes: seq<Name>, edges: seq<Edge>) returns (r: Verdict)
    ensures r.Valid? <==> CleanNames(nodes, |nodes|) && KnownEndpoints(nodes, edges) && !Cyclic(edges)
    ensures r == Invalid(Cycle) <==>
            CleanNames(nodes, |nodes|) && KnownEndpoints(nodes, edges) && Cyclic(edges)
    ensures r == Invalid(MissingNode) <==> CleanNames(nodes, |nodes|) && !KnownEndpoints(nodes, edges)
    ensures r == Invalid(InvalidNode) <==> exists i: nat :: FaultAt(nodes, i, InvalidNode)
    ensures r == Invalid(DuplicateNode) <==> exists i: nat :: FaultAt(nodes, i, DuplicateNode)
  {
    var known, fault, at := CheckNames(nodes);
    if fault.Invalid? {
      OnlyFault(nodes, at, fault.reason);
      return fault;
    }
    NoFault(nodes);
    var ok, children, indegree, seen := BuildGraph(nodes, edges, known);
    if !ok {
      return Invalid(MissingNode);
    }
    var queue := InitialQueue(nodes, known, seen, indegree);
    var visited, done := Drain(known, seen, children, indegree, queue);
    DrainedDecides(known, edges, done);
    return if visited != |nodes| then Invalid(Cycle) else Valid;
  }

  lemma OnlyFault(nodes: seq<Name>, at: nat, reason: Reason)
    requires FaultAt(nodes, at, reason)
    ensures !CleanNames(nodes, |nodes|)
    ensures forall i: nat, r :: FaultAt(nodes, i, r) ==> r == reason
  {
    forall i: nat, r | FaultAt(nodes, i, r) ensures r == reason {
      FaultUnique(nodes, at, i, reason, r);
    }
    FaultUnique(nodes, at, at, reason, reason);
  }

  lemma NoFault(nodes: seq<Name>)
    requires CleanNames(nodes, |nodes|)
    ensures forall i: nat, r :: !FaultAt(nodes, i, r)
  {
    forall i: nat, r ensures !FaultAt(nodes, i, r) {
      if FaultAt(nodes, i, r) {
        FaultUnique(nodes, i, i, r, r);
      }
    }
  }

  /** What the queue loop has established when the queue runs empty. */
  ghost predicate Drained(known: set<Name>, seen: set<Edge>, done: seq<Name>) {
    && DistinctNames(done)
    && (forall n :: n in done ==> n in known)
    && (forall c :: c in known && c !in done ==> LeftBehind(seen, done, c))
    && (forall e :: e in seen && e.child in done ==> InOrder(done, e))
  }

  ghost predicate LeftBehind(seen: set<Edge>, done: seq<Name>, c: Name) {
    exists e :: e in seen && e.child == c && e.parent !in done
  }

  ghost predicate InOrder(done: seq<Name>, e: Edge) {
    exists i, j :: 0 <= i < j < |done| && done[i] == e.parent && done[j] == e.child
  }

  /** All nodes were visited exactly when there is no cycle. */
  lemma DrainedDecides(known: set<Name>, edges: seq<Edge>, done: seq<Name>)
    requires forall e :: e in edges ==> e.parent in known && e.child in known
    requires Drained(known, (set e | e in edges), done)
    ensures |done| == |known| <==> !Cyclic(edges)
  {
    SetOfDistinct(done);
    assert Names(done) <= known;
    var stuck := known - Names(done);
    assert |stuck| == |known| - |done|;
    if stuck == {} {
      OrderMeansAcyclic(done, edges);
    } else {
      forall c | c in stuck ensures Preceded(edges, stuck, c) {
        assert LeftBehind((set e | e in edges), done, c);
        var e :| e in edges && e.child == c && e.parent !in done;
        assert e == Edge(e.parent, c);
      }
      StuckMeansCycle(edges, stuck);
    }
  }

  lemma {:induction false} SetOfDistinct(s: seq<Name>)
    requires DistinctNames(s)
    ensures |Names(s)| == |s|
  {
    if |s| == 0 {
    } else {
      var rest := s[1..];
      SetOfDistinct(rest);
      assert Names(s) == {s[0]} + Names(rest);
      assert s[0] !in rest;
    }
  }

  /** Lines 46-51: the sources, in input order. */
  method InitialQueue(nodes: seq<Name>, known: set<Name>, seen: set<Edge>, indegree: map<Name, int>)
    returns (queue: seq<Name>)
    requires CleanNames(nodes, |nodes|) && known == Names(nodes)
    requires Counted(known, seen, indegree)
    ensures QueueInv(known, seen, indegree, queue, [])
  {
    queue := [];
    for i := 0 to |nodes|
      invariant forall n :: n in queue <==> n in nodes[..i] && indegree[n] == 0
      invariant DistinctNames(queue)
    {
      assert nodes[..i + 1] == nodes[..i] + [nodes[i]];
      assert nodes[i] !in nodes[..i];
      if indegree[nodes[i]] == 0 {
        queue := queue + [nodes[i]];
      }
    }
    assert nodes[..|nodes|] == nodes;
    assert [] + queue == queue;
    assert Undone(seen, []) == seen;
    forall e | e in seen ensures e.child !in queue {
      assert e in Into(seen, e.child);
    }
  }

  /** Lines 52-63: the queue loop. Every node enters the queue at most once, and the nodes it
      never reaches each keep a predecessor that is never reached either. */
  method Drain(known: set<Name>, seen: set<Edge>, children: map<Name, seq<Name>>, indegree0: map<Name, int>,
               queue0: seq<Name>)
    returns (visited: nat, ghost done: seq<Name>)
    requires QueueInv(known, seen, indegree0, queue0, [])
    requires ChildLists(seen, children)
    requires forall e :: e in seen ==> e.parent in known && e.child in known
    ensures visited == |done| && Drained(known, seen, done)
  {
    var indegree, queue := indegree0, queue0;
    visited, done := 0, [];
    while |queue| > 0
      invariant QueueInv(known, seen, indegree, queue, done)
      invariant visited == |done|
      decreases |known| - visited
    {
      var node := queue[0];
      Unfinished(known, done, queue);
      indegree, queue := Relax(known, seen, children, indegree, queue, done);
      visited, done := visited + 1, done + [node];
    }
    assert done + queue == done;
    forall c | c in known && c !in done ensures LeftBehind(seen, done, c) {
      var into := Into(Undone(seen, done), c);
      assert |into| == indegree[c] != 0;
      var e :| e in into;
    }
  }

  lemma Unfinished(known: set<Name>, done: seq<Name>, queue: seq<Name>)
    requires DistinctNames(done + queue) && |queue| > 0
    requires forall n :: n in done + queue ==> n in known
    ensures |done| < |known|
  {
    SetOfDistinct(done + queue);
    var all := Names(done + queue);
    assert all <= known;
    assert |known - all| == |known| - |all|;
  }

  /** The edges still counted while node's children are being counted down; rest holds
      the children not reached yet. */
  ghost function Waiting(seen: set<Edge>, now: seq<Name>, node: Name, rest: set<Name>): set<Edge> {
    set e | e in seen && (e.parent !in now || (e.parent == node && e.child in rest))
  }

  ghost predicate Relaxing(known: set<Name>, seen: set<Edge>, now: seq<Name>, node: Name, rest: set<Name>,
                           indegree: map<Name, int>, queue: seq<Name>) {
    && Counted(known, Waiting(seen, now, node, rest), indegree)
    && DistinctNames(now + queue)
    && (forall n :: n in now + queue ==> n in known)
    && (forall n :: n in known && n !in now ==> (indegree[n] == 0 <==> n in queue))
    && (forall e :: e in Waiting(seen, now, node, rest) ==> e.child !in now + queue)
  }

  lemma RelaxStep(known: set<Name>, seen: set<Edge>, now: seq<Name>, node: Name, rest: set<Name>,
                  indegree: map<Name, int>, queue: seq<Name>, child: Name)
    requires Relaxing(known, seen, now, node, rest, indegree, queue)
    requires child in rest && Edge(node, child) in seen && child in known && node in now
    ensures var next := indegree[child := indegree[child] - 1];
            Relaxing(known, seen, now, node, rest - {child}, next, if next[child] == 0 then queue + [child] else queue)
  {
    var edge := Edge(node, child);
    var before, after := Waiting(seen, now, node, rest), Waiting(seen, now, node, rest - {child});
    assert edge in before && after == before - {edge};
    CountShrinks(known, before, indegree, edge);
    var next := indegree[child := indegree[child] - 1];
    if next[child] == 0 {
      assert now + (queue + [child]) == (now + queue) + [child];
      forall e | e in after ensures e.child != child {
        assert Into(after, child) == {};
        assert e !in Into(after, child);
      }
    }
  }

  lemma NamesDrop(list: seq<Name>, k: nat)
    requires DistinctNames(list) && k < |list|
    ensures Names(list[k..]) - {list[k]} == Names(list[k + 1..]) && list[k] in Names(list[k..])
  {
    assert list[k..] == [list[k]] + list[k + 1..];
  }

  /** One round of the queue loop: dequeue a node and count down its children. */
  method Relax(known: set<Name>, seen: set<Edge>, children: map<Name, seq<Name>>, indegree0: map<Name, int>,
               queue0: seq<Name>, ghost done: seq<Name>)
    returns (indegree: map<Name, int>, queue: seq<Name>)
    requires |queue0| > 0 && QueueInv(known, seen, indegree0, queue0, done)
    requires ChildLists(seen, children)
    requires forall e :: e in seen ==> e.parent in known && e.child in known
    ensures QueueInv(known, seen, indegree, queue, done + [queue0[0]])
  {
    hide Relaxing, QueueInv;
    var node := queue0[0];
    queue := queue0[1..];
    indegree := indegree0;
    ghost var now := done + [node];
    var list := Children(children, node);
    assert forall k :: 0 <= k < |list| ==> Edge(node, list[k]) in seen;
    assert DistinctNames(list);
    RelaxStart(known, seen, indegree, queue0, done, Names(list));
    hide ChildLists;
    for k := 0 to |list|
      invariant Relaxing(known, seen, now, node, Names(list[k..]), indegree, queue)
      invariant indegree.Keys == known
    {
      var child := list[k];
      NamesDrop(list, k);
      RelaxStep(known, seen, now, node, Names(list[k..]), indegree, queue, child);
      indegree := indegree[child := indegree[child] - 1];
      if indegree[child] == 0 {
        queue := queue + [child];
      }
    }
    assert Names(list[|list|..]) == {};
    RelaxEnd(known, seen, now, node, indegree, queue, indegree0, queue0, done);
  }

  lemma RelaxStart(known: set<Name>, seen: set<Edge>, indegree: map<Name, int>, queue: seq<Name>, done: seq<Name>,
                   rest: set<Name>)
    requires |queue| > 0 && QueueInv(known, seen, indegree, queue, done)
    requires forall e :: e in seen && e.parent == queue[0] ==> e.child in rest
    ensures Relaxing(known, seen, done + [queue[0]], queue[0], rest, indegree, queue[1..])
    ensures indegree.Keys == known
  {
    var node := queue[0];
    var now := done + [node];
    assert now + queue[1..] == done + queue;
    forall i | 0 <= i < |done| ensures done[i] != node {
      assert (done + queue)[i] == done[i] && (done + queue)[|done|] == node;
    }
    assert Waiting(seen, now, node, rest) == Undone(seen, done);
    forall n | n in known && n !in now ensures indegree[n] == 0 <==> n in queue[1..] {
      assert queue == [node] + queue[1..];
    }
  }

  lemma RelaxEnd(known: set<Name>, seen: set<Edge>, now: seq<Name>, node: Name, indegree: map<Name, int>,
                 queue: seq<Name>, indegree0: map<Name, int>, queue0: seq<Name>, done: seq<Name>)
    requires Relaxing(known, seen, now, node, {}, indegree, queue)
    requires |queue0| > 0 && QueueInv(known, seen, indegree0, queue0, done)
    requires node == queue0[0] && now == done + [node]
    ensures QueueInv(known, seen, indegree, queue, now)
  {
    assert Waiting(seen, now, node, {}) == Undone(seen, now);
    forall e | e in seen && e.child in now ensures InOrder(now, e) {
      if e.child in done {
        assert InOrder(done, e);
        var i, j :| 0 <= i < j < |done| && done[i] == e.parent && done[j] == e.child;
        assert now[i] == e.parent && now[j] == e.child;
      } else {
        assert (done + queue0)[|done|] == e.child;
        var i :| 0 <= i < |done| && done[i] == e.parent;
        assert now[i] == e.parent && now[|done|] == e.child;
      }
    }
  }
}
