/** Finite directed graphs, walks and cycles.

    A graph maps every node to the set of nodes it points at.  The key notion is
    a *trap*: a set of nodes each of which points back into the set.  A graph has
    a cycle exactly when it has a non-empty trap, so emptiness of a trap serves as
    an induction principle on acyclic graphs.
 */
module Digraph {
  type Graph = map<string, set<string>>

  ghost predicate Closed(g: Graph) {
    forall a :: a in g ==> g[a] <= g.Keys
  }

  /** A non-empty sequence of nodes in which each node points at the next. */
  ghost predicate Walk(g: Graph, p: seq<string>) {
    && |p| > 0
    && (forall i :: 0 <= i < |p| ==> p[i] in g)
    && (forall i {:trigger g[p[i]]} :: 0 <= i < |p| - 1 ==> p[i + 1] in g[p[i]])
  }

  ghost predicate WalkFromTo(g: Graph, p: seq<string>, a: string, b: string) {
    Walk(g, p) && |p| >= 2 && p[0] == a && p[|p| - 1] == b
  }

  /** b can be reached from a along at least one edge. */
  ghost predicate Reaches(g: Graph, a: string, b: string) {
    exists p :: WalkFromTo(g, p, a, b)
  }

  ghost predicate Acyclic(g: Graph) {
    forall a :: a in g ==> !Reaches(g, a, a)
  }

  ghost predicate PointsInto(g: Graph, a: string, s: set<string>) {
    a in g && exists b :: b in g[a] && b in s
  }

  ghost predicate Trap(g: Graph, s: set<string>) {
    s <= g.Keys && forall a {:trigger PointsInto(g, a, s)} :: a in s ==> PointsInto(g, a, s)
  }

  /** Nodes listed after everything they point at, without repetition. */
  ghost predicate TopologicalOrder(g: Graph, order: seq<string>) {
    && (forall i, j :: 0 <= i < j < |order| ==> order[i] != order[j])
    && (forall i :: 0 <= i < |order| ==> order[i] in g)
    && (forall i, b :: 0 <= i < |order| && b in g[order[i]] ==> b in order[..i])
  }

  lemma {:induction false} EdgeReaches(g: Graph, a: string, b: string)
    requires Closed(g) && a in g && b in g[a]
    ensures Reaches(g, a, b)
  {
    assert WalkFromTo(g, [a, b], a, b);
  }

  lemma {:induction false} EdgeThenReaches(g: Graph, a: string, b: string, c: string)
    requires Closed(g) && a in g && b in g[a] && Reaches(g, b, c)
    ensures Reaches(g, a, c)
  {
    var p :| WalkFromTo(g, p, b, c);
    assert WalkFromTo(g, [a] + p, a, c);
  }

  /** Reaching c means pointing at c or pointing at something that reaches c. */
  lemma {:induction false} ReachesFirstEdge(g: Graph, a: string, c: string) returns (b: string)
    requires Reaches(g, a, c)
    ensures a in g && c in g && b in g[a] && (b == c || Reaches(g, b, c))
  {
    var p :| WalkFromTo(g, p, a, c);
    b := p[1];
    if |p| > 2 {
      assert WalkFromTo(g, p[1..], b, c);
    }
  }

  /** Pigeonhole: a sequence longer than the set it draws from repeats itself. */
  lemma {:induction false} Repetition(p: seq<string>, s: set<string>) returns (i: nat, j: nat)
    requires |p| > |s|
    requires forall k :: 0 <= k < |p| ==> p[k] in s
    ensures i < j < |p| && p[i] == p[j]
    decreases |s|
  {
    var last := |p| - 1;
    if k :| 0 <= k < last && p[k] == p[last] {
      i, j := k, last;
    } else {
      i, j := Repetition(p[..last], s - {p[last]});
    }
  }

  /** Inside a trap one can keep walking for as long as one likes. */
  lemma {:induction false} WalkInTrap(g: Graph, s: set<string>, n: nat) returns (p: seq<string>)
    requires Trap(g, s) && s != {}
    ensures Walk(g, p) && |p| == n + 1
    ensures forall k :: 0 <= k < |p| ==> p[k] in s
  {
    if n == 0 {
      var a :| a in s;
      p := [a];
    } else {
      var q := WalkInTrap(g, s, n - 1);
      assert PointsInto(g, q[n - 1], s);
      var b :| b in g[q[n - 1]] && b in s;
      p := q + [b];
    }
  }

  lemma {:induction false} TrapGivesCycle(g: Graph, s: set<string>)
    requires Trap(g, s) && s != {}
    ensures !Acyclic(g)
  {
    var p := WalkInTrap(g, s, |s|);
    var i, j := Repetition(p, s);
    assert WalkFromTo(g, p[i..j + 1], p[i], p[i]);
  }

  lemma {:induction false} CycleGivesTrap(g: Graph) returns (s: set<string>)
    requires !Acyclic(g)
    ensures Trap(g, s) && s != {}
  {
    var a :| a in g && Reaches(g, a, a);
    var p :| WalkFromTo(g, p, a, a);
    s := set k | 0 <= k < |p| :: p[k];
    assert p[0] in s;
    forall x | x in s
      ensures PointsInto(g, x, s)
    {
      var k :| 0 <= k < |p| && p[k] == x;
      var next := if k + 1 < |p| then k + 1 else 1;
      assert p[next] in g[x] && p[next] in s;
    }
  }

  /** No member of a trap can appear in a topological order. */
  lemma {:induction false} TrapAvoidsOrder(g: Graph, order: seq<string>, s: set<string>, n: nat)
    requires TopologicalOrder(g, order) && Trap(g, s) && n <= |order|
    ensures forall i :: 0 <= i < n ==> order[i] !in s
  {
    if n > 0 {
      TrapAvoidsOrder(g, order, s, n - 1);
      assert !PointsInto(g, order[n - 1], s);
    }
  }
}
