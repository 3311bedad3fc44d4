/** The check of the migration revisions: every parent known, no cycle, one head. */
module MigrationGraph {

  type Revision = string

  /** Each revision with its parents, in the order of its migration file. */
  type Graph = map<Revision, seq<Revision>>

  // ---------------------------------------------------------------- what the check is about

  predicate ParentClosed(g: Graph) {
    forall r, i :: r in g && 0 <= i < |g[r]| ==> g[r][i] in g
  }

  /** Consecutive revisions are child and parent. */
  predicate Walk(g: Graph, p: seq<Revision>) {
    && p != []
    && (forall i :: 0 <= i < |p| ==> p[i] in g)
    && forall i :: 0 <= i < |p| - 1 ==> p[i + 1] in g[p[i]]
  }

  ghost predicate Cyclic(g: Graph) {
    exists p :: Walk(g, p) && |p| >= 2 && p[0] == p[|p| - 1]
  }

  predicate IsParent(g: Graph, r: Revision) {
    exists c :: c in g && r in g[c]
  }

  ghost predicate Ancestor(g: Graph, r: Revision, of: Revision) {
    exists p :: Walk(g, p) && p[0] == of && p[|p| - 1] == r
  }

  /** `r` is the only revision that is nobody's parent. */
  predicate SoleHead(g: Graph, r: Revision) {
    r in g && forall x :: x in g ==> (x == r <==> !IsParent(g, x))
  }

  // ---------------------------------------------------------------- certificates

  /** Every revision after all of its parents. */
  predicate ParentsFirst(g: Graph, order: seq<Revision>) {
    && (forall i :: 0 <= i < |order| ==> order[i] in g)
    && (forall i, j :: 0 <= i < j < |order| ==> order[i] != order[j])
    && forall i, k :: 0 <= i < |order| && 0 <= k < |g[order[i]]| ==> g[order[i]][k] in order[..i]
  }

  function Position(order: seq<Revision>, r: Revision): (i: nat)
    requires r in order
    ensures i < |order| && order[i] == r
  {
    if order[0] == r then 0 else 1 + Position(order[1..], r)
  }

  /** Along a walk the positions fall. */
  lemma {:induction false} WalkDescends(g: Graph, order: seq<Revision>, p: seq<Revision>)
    requires ParentsFirst(g, order) && (forall r :: r in g ==> r in order) && Walk(g, p)
    ensures Position(order, p[|p| - 1]) <= Position(order, p[0]) - (|p| - 1)
    decreases |p|
  {
    if |p| >= 2 {
      var q := p[..|p| - 1];
      WalkDescends(g, order, q);
      ParentBefore(g, order, p[|p| - 2], p[|p| - 2 + 1]);
    }
  }

  /** An order that puts all parents first rules out cycles. */
  lemma OrderedIsAcyclic(g: Graph, order: seq<Revision>)
    requires ParentsFirst(g, order) && (forall r :: r in g ==> r in order)
    ensures !Cyclic(g)
  {
    forall p | Walk(g, p) && |p| >= 2
      ensures p[0] != p[|p| - 1]
    {
      WalkDescends(g, order, p);
    }
  }

  lemma WalkExtends(g: Graph, p: seq<Revision>, r: Revision)
    requires Walk(g, p) && r in g && r in g[p[|p| - 1]]
    ensures Walk(g, p + [r]) && (p + [r])[0] == p[0]
  {
    var q := p + [r];
    forall i | 0 <= i < |q| - 1
      ensures q[i + 1] in g[q[i]]
    {
      if i < |p| - 1 {
        assert p[i + 1] in g[p[i]];
      }
    }
  }

  lemma ParentBefore(g: Graph, order: seq<Revision>, child: Revision, parent: Revision)
    requires ParentsFirst(g, order) && child in g && child in order && parent in g[child] && parent in order
    ensures Position(order, parent) < Position(order, child)
  {
    var i := Position(order, child);
    var k :| 0 <= k < |g[child]| && g[child][k] == parent;
    assert g[order[i]][k] in order[..i];
    var j :| 0 <= j < i && order[j] == parent;
    assert Position(order, parent) == j;
  }

  /** With a single head, every revision is an ancestor of it: go from child to child. */
  lemma {:induction false} HeadWalk(g: Graph, order: seq<Revision>, head: Revision, r: Revision)
    returns (p: seq<Revision>)
    requires ParentsFirst(g, order) && (forall x :: x in g ==> x in order)
    requires SoleHead(g, head) && r in g
    ensures Walk(g, p) && p[0] == head && p[|p| - 1] == r
    decreases |order| - Position(order, r)
  {
    if r == head {
      p := [r];
    } else {
      var child :| child in g && r in g[child];
      ParentBefore(g, order, child, r);
      p := HeadWalk(g, order, head, child);
      WalkExtends(g, p, r);
      p := p + [r];
    }
  }

  /** A revision whose parents are all done may come next in the order. */
  lemma OrderExtends(g: Graph, order: seq<Revision>, r: Revision)
    requires ParentsFirst(g, order) && r in g && r !in order
    requires forall k :: 0 <= k < |g[r]| ==> g[r][k] in order
    ensures ParentsFirst(g, order + [r])
  {
    var longer := order + [r];
    forall i, k | 0 <= i < |longer| && 0 <= k < |g[longer[i]]|
      ensures g[longer[i]][k] in longer[..i]
    {
      if i < |order| {
        assert longer[..i] == order[..i];
        assert g[order[i]][k] in order[..i];
      } else {
        assert longer[..i] == order;
      }
    }
  }

  /** Meeting a revision of the stack again closes a cycle. */
  lemma MeetsCycle(g: Graph, stack: seq<Revision>, r: Revision)
    requires stack != [] && Walk(g, stack) && r in stack && r in g[stack[|stack| - 1]]
    ensures Cyclic(g)
  {
    var i :| 0 <= i < |stack| && stack[i] == r;
    var p := stack[i..];
    assert Walk(g, p);
    WalkExtends(g, p, r);
    assert (p + [r])[0] == r;
  }

  // ---------------------------------------------------------------- the depth-first search

  function Elements(s: seq<Revision>): set<Revision> {
    set r | r in s
  }

  class Search {
    const graph: Graph
    var visiting: set<Revision>
    var visited: set<Revision>

    /** The revisions on the call stack, oldest first; the revisions done, in the order of their end. */
    ghost var stack: seq<Revision>
    ghost var order: seq<Revision>

    ghost predicate Valid()
      reads this
    {
      && visiting == Elements(stack) && visited == Elements(order)
      && visiting !! visited
      && (stack != [] ==> Walk(graph, stack))
      && ParentsFirst(graph, order)
    }

    constructor (g: Graph)
      ensures Valid() && graph == g && stack == [] && order == []
    {
      graph := g;
      visiting, visited, stack, order := {}, {}, [], [];
    }

    /** Visit a revision that is at the root or a parent of the revision being visited: false exactly
        when a cycle was met. */
    method Visit(revision: Revision) returns (ok: bool)
      requires Valid() && ParentClosed(graph) && revision in graph
      requires stack != [] ==> revision in graph[stack[|stack| - 1]]
      modifies this
      ensures !ok ==> Cyclic(graph)
      ensures ok ==> Valid() && stack == old(stack) && old(visited) <= visited && revision in visited
      decreases graph.Keys - visiting, 1
    {
      if revision in visiting {
        MeetsCycle(graph, stack, revision);
        return false;
      }
      if revision in visited {
        return true;
      }
      if stack != [] {
        WalkExtends(graph, stack, revision);
      }
      visiting := visiting + {revision};
      stack := stack + [revision];
      ok := VisitParents(revision);
      if !ok {
        return;
      }
      OrderExtends(graph, order, revision);
      visiting := visiting - {revision};
      visited := visited + {revision};
      stack, order := old(stack), order + [revision];
    }

    /** The loop over the parents of the revision on top of the stack. */
    method VisitParents(revision: Revision) returns (ok: bool)
      requires Valid() && ParentClosed(graph) && revision in graph
      requires stack != [] && stack[|stack| - 1] == revision
      modifies this
      ensures !ok ==> Cyclic(graph)
      ensures ok ==> Valid() && stack == old(stack) && old(visited) <= visited
      ensures ok ==> forall k :: 0 <= k < |graph[revision]| ==> graph[revision][k] in order
      decreases graph.Keys - visiting, 2
    {
      var parents := graph[revision];
      for i := 0 to |parents|
        invariant Valid() && stack == old(stack) && old(visited) <= visited
        invariant forall k :: 0 <= k < i ==> parents[k] in visited
      {
        ok := Visit(parents[i]);
        if !ok {
          return;
        }
      }
      return true;
    }
  }

  // ---------------------------------------------------------------- the whole check

  /** All revisions visited without meeting a cycle, in an order that puts all parents first; or a
      cycle. */
  method VisitAll(g: Graph) returns (ok: bool, ghost order: seq<Revision>)
    requires ParentClosed(g)
    ensures ok == !Cyclic(g)
    ensures ok ==> ParentsFirst(g, order) && forall r :: r in g ==> r in order
  {
    order := [];
    var search := new Search(g);
    var todo := g.Keys;
    while todo != {}
      invariant todo <= g.Keys && fresh(search)
      invariant search.graph == g && search.Valid() && search.stack == [] && g.Keys - todo <= search.visited
      decreases todo
    {
      var revision :| revision in todo;
      ok := search.Visit(revision);
      if !ok {
        return;
      }
      todo := todo - {revision};
    }
    order := search.order;
    assert forall r :: r in g ==> r in search.visited;
    OrderedIsAcyclic(g, order);
    ok := true;
  }

  datatype Verdict = Head(revision: Revision) | Invalid

  function Heads(g: Graph): set<Revision> {
    set r | r in g && !IsParent(g, r)
  }

  lemma SoleHeadIsHeads(g: Graph, r: Revision)
    ensures SoleHead(g, r) <==> Heads(g) == {r}
  {
    if SoleHead(g, r) {
      assert forall x :: x in Heads(g) <==> x == r;
    }
    if Heads(g) == {r} {
      assert r in Heads(g);
      assert forall x :: x in g ==> (x in Heads(g) <==> !IsParent(g, x));
    }
  }

  /** The head of the migrations: exactly when the graph is non-empty, parent-closed and acyclic and
      has one head; then every revision is an ancestor of it. */
  method RepositoryHead(g: Graph) returns (v: Verdict)
    ensures v.Head? <==> g != map[] && ParentClosed(g) && !Cyclic(g) && exists r :: SoleHead(g, r)
    ensures v.Head? ==> SoleHead(g, v.revision) && forall r :: r in g ==> Ancestor(g, r, v.revision)
  {
    if g == map[] || !ParentClosed(g) {
      return Invalid;
    }
    var ok;
    ghost var order;
    ok, order := VisitAll(g);
    if !ok {
      return Invalid;
    }
    var heads := Heads(g);
    forall r
      ensures SoleHead(g, r) <==> heads == {r}
    {
      SoleHeadIsHeads(g, r);
    }
    if r :| r in heads && heads == {r} {
      forall x | x in g
        ensures Ancestor(g, x, r)
      {
        var p := HeadWalk(g, order, r, x);
      }
      return Head(r);
    }
    return Invalid;
  }
}
