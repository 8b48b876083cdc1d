/** Directed graphs over thread ids: paths, cycles, and the depth-first search for a
    cycle through one node.  `Graph` is the value the proofs reason about;
    `DirectedGraph` is the adjacency-list object that stores it. */
module Graphs {

  /** `g[u]` is the set of destinations of the edges that leave `u`. */
  type Graph = seq<set<nat>>

  ghost predicate Edge(g: Graph, u: nat, v: nat) {
    u < |g| && v in g[u]
  }

  ghost predicate IsPath(g: Graph, p: seq<nat>) {
    |p| >= 1 && forall m :: 0 <= m < |p| - 1 ==> Edge(g, p[m], p[m + 1])
  }

  /** A path with at least one edge from `u` back to `u`. */
  ghost predicate IsCycle(g: Graph, p: seq<nat>, u: nat) {
    |p| >= 2 && IsPath(g, p) && p[0] == u && p[|p| - 1] == u
  }

  ghost predicate OnCycle(g: Graph, u: nat) {
    exists p :: IsCycle(g, p, u)
  }

  ghost predicate Acyclic(g: Graph) {
    forall u: nat :: !OnCycle(g, u)
  }

  /** Every edge of `h` is an edge of `g`. */
  ghost predicate SubGraph(h: Graph, g: Graph) {
    forall u: nat, v: nat :: Edge(h, u, v) ==> Edge(g, u, v)
  }

  lemma {:induction false} SubGraphAcyclic(h: Graph, g: Graph)
    requires SubGraph(h, g) && Acyclic(g)
    ensures Acyclic(h)
  {
    forall u: nat ensures !OnCycle(h, u) {
      if OnCycle(h, u) {
        var p :| IsCycle(h, p, u);
        assert IsCycle(g, p, u);
        assert OnCycle(g, u);
      }
    }
  }

  /** A cycle that passes through its `m`-th node is a cycle of that node. */
  lemma RotateCycle(g: Graph, p: seq<nat>, u: nat, m: nat)
    requires IsCycle(g, p, u) && m < |p| - 1
    ensures OnCycle(g, p[m])
  {
    var c := p[m..] + p[1..m + 1];
    var k := |p| - m;
    forall x | 0 <= x < |c| - 1 ensures Edge(g, c[x], c[x + 1]) {
      if x + 1 < k {
        assert c[x] == p[m + x] && c[x + 1] == p[m + x + 1];
      } else if x + 1 == k {
        assert c[x] == p[|p| - 1] == p[0] && c[x + 1] == p[1];
      } else {
        assert c[x] == p[x - k + 1] && c[x + 1] == p[x - k + 2];
      }
    }
    assert IsCycle(g, c, p[m]);
  }

  /** Edges that all leave `t` can only close cycles through `t`: if the search at
      `t` finds none, the whole graph is still acyclic. */
  lemma {:induction false} AcyclicExtend(g: Graph, t: nat, out: set<nat>)
    requires t < |g| && Acyclic(g)
    requires !OnCycle(g[t := out], t)
    ensures Acyclic(g[t := out])
  {
    var h := g[t := out];
    forall u: nat ensures !OnCycle(h, u) {
      if OnCycle(h, u) {
        var p :| IsCycle(h, p, u);
        if m :| 0 <= m < |p| - 1 && p[m] == t {
          RotateCycle(h, p, u, m);
        } else {
          assert forall x :: 0 <= x < |p| - 1 ==> Edge(h, p[x], p[x + 1]) ==> Edge(g, p[x], p[x + 1]);
          assert IsCycle(g, p, u);
          assert OnCycle(g, u);
        }
        assert false;
      }
    }
  }

  /** A path that starts in a set closed under edges never leaves it. */
  lemma {:induction false} PathStaysInside(g: Graph, p: seq<nat>, inside: set<nat>)
    requires IsPath(g, p) && p[0] in inside
    requires forall u :: u in inside && u < |g| ==> g[u] <= inside
    ensures p[|p| - 1] in inside
    decreases |p|
  {
    if |p| > 1 {
      assert Edge(g, p[0], p[1]);
      var rest := p[1..];
      forall m | 0 <= m < |rest| - 1 ensures Edge(g, rest[m], rest[m + 1]) {
        assert rest[m] == p[m + 1] && rest[m + 1] == p[(m + 1) + 1];
      }
      PathStaysInside(g, rest, inside);
    }
  }

  /** In an acyclic graph a path repeats no node. */
  lemma AcyclicPathDistinct(g: Graph, p: seq<nat>, a: nat, b: nat)
    requires Acyclic(g) && IsPath(g, p) && a < b < |p|
    ensures p[a] != p[b]
  {
    if p[a] == p[b] {
      var c := p[a..b + 1];
      forall m | 0 <= m < |c| - 1 ensures Edge(g, c[m], c[m + 1]) {
        assert c[m] == p[a + m] && c[m + 1] == p[(a + m) + 1];
      }
      assert IsCycle(g, c, p[a]);
      assert OnCycle(g, p[a]);
    }
  }

  /** A sequence of distinct numbers below `n` has at most `n` of them. */
  lemma {:induction false} DistinctBounded(p: seq<nat>, n: nat)
    requires forall a, b :: 0 <= a < b < |p| ==> p[a] != p[b]
    requires forall a :: 0 <= a < |p| ==> p[a] < n
    ensures |p| <= n
    decreases n
  {
    if |p| == 0 { return; }
    assert p[0] < n;
    if a :| 0 <= a < |p| && p[a] == n - 1 {
      var rest := p[..a] + p[a + 1..];
      forall x, y | 0 <= x < y < |rest| ensures rest[x] != rest[y] {
        var x', y' := if x < a then x else x + 1, if y < a then y else y + 1;
        assert rest[x] == p[x'] && rest[y] == p[y'];
      }
      forall x | 0 <= x < |rest| ensures rest[x] < n - 1 {
        var x' := if x < a then x else x + 1;
        assert rest[x] == p[x'];
        assert x' != a;
      }
      DistinctBounded(rest, n - 1);
    } else {
      DistinctBounded(p, n - 1);
    }
  }

  /** Following edges of an acyclic graph always ends at a node without successors. */
  lemma {:induction false} ChainEnds(g: Graph, p: seq<nat>) returns (q: seq<nat>)
    requires Acyclic(g) && IsPath(g, p)
    requires forall u :: 0 <= u < |g| ==> forall v :: v in g[u] ==> v < |g|
    requires p[0] < |g|
    ensures IsPath(g, q) && q[0] == p[0] && q[|q| - 1] < |g| && g[q[|q| - 1]] == {}
    decreases |g| + 1 - |p|
  {
    forall a | 0 <= a < |p| ensures p[a] < |g| {
      if a > 0 { assert Edge(g, p[a - 1], p[(a - 1) + 1]); }
    }
    forall a, b | 0 <= a < b < |p| ensures p[a] != p[b] {
      AcyclicPathDistinct(g, p, a, b);
    }
    DistinctBounded(p, |g|);
    var last := p[|p| - 1];
    if g[last] == {} {
      q := p;
    } else {
      var v :| v in g[last];
      var longer := p + [v];
      forall m | 0 <= m < |longer| - 1 ensures Edge(g, longer[m], longer[m + 1]) {
        if m < |p| - 1 { assert Edge(g, p[m], p[m + 1]); }
      }
      q := ChainEnds(g, longer);
    }
  }

  // ----- the adjacency-list object -----

  /** One adjacency entry: a destination and how often the edge was added. */
  datatype Dest = Dest(dest: nat, count: int)

  ghost function Dests(l: seq<Dest>): set<nat> {
    set x | 0 <= x < |l| :: l[x].dest
  }

  ghost function EdgesOf(nodes: seq<seq<Dest>>): Graph {
    seq(|nodes|, u requires 0 <= u < |nodes| => Dests(nodes[u]))
  }

  /** No duplicate and no self edge, every destination is a node, every count is one. */
  ghost predicate WellFormed(l: seq<Dest>, u: nat, n: nat) {
    && (forall x :: 0 <= x < |l| ==> l[x].dest < n && l[x].dest != u && l[x].count == 1)
    && (forall x, y :: 0 <= x < y < |l| ==> l[x].dest != l[y].dest)
  }

  /** The node numbers below `n`. */
  ghost function Below(n: nat): (s: set<nat>)
    ensures forall u: nat :: u in s <==> u < n
  {
    if n == 0 then {} else Below(n - 1) + {n - 1}
  }

  /** Reading a search result from its back gives the edges it follows. */
  ghost predicate IsBackPath(g: Graph, c: seq<nat>) {
    forall m :: 0 <= m < |c| - 1 ==> Edge(g, c[m + 1], c[m])
  }

  ghost function Reversed(c: seq<nat>): seq<nat> {
    seq(|c|, x requires 0 <= x < |c| => c[|c| - 1 - x])
  }

  lemma BackPathIsCycle(g: Graph, c: seq<nat>, from: nat)
    requires |c| >= 1 && IsBackPath(g, c) && c[0] == from && Edge(g, from, c[|c| - 1])
    ensures IsCycle(g, [from] + Reversed(c), from)
  {
    var p := [from] + Reversed(c);
    forall m | 0 <= m < |p| - 1 ensures Edge(g, p[m], p[m + 1]) {
      if m > 0 {
        assert p[m] == c[(|c| - 1 - m) + 1] && p[m + 1] == c[|c| - 1 - m];
      }
    }
  }

  class DirectedGraph {
    const numberOfNodes: nat
    var nodes: seq<seq<Dest>>

    ghost predicate Valid()
      reads this
    {
      && |nodes| == numberOfNodes
      && forall u :: 0 <= u < |nodes| ==> WellFormed(nodes[u], u, numberOfNodes)
    }

    constructor (n: nat)
      ensures Valid() && numberOfNodes == n
      ensures EdgesOf(nodes) == seq(n, _ => {})
    {
      numberOfNodes := n;
      nodes := seq(n, _ => []);
      new;
      assert forall u :: 0 <= u < n ==> Dests(nodes[u]) == {};
      assert EdgesOf(nodes) == seq(n, _ => {});
    }

    /** Position of the entry for `to`, or the length of the list. */
    method Find(l: seq<Dest>, to: nat) returns (x: nat)
      ensures x <= |l|
      ensures x < |l| ==> l[x].dest == to
      ensures x == |l| <==> to !in Dests(l)
    {
      x := 0;
      while x < |l| && l[x].dest != to
        invariant x <= |l|
        invariant forall y :: 0 <= y < x ==> l[y].dest != to
      {
        x := x + 1;
      }
    }

    /** Adding an existing edge or a self edge trips an assertion of the program, so
        callers must rule both out; an unknown node makes the call fail. */
    method AddEdge(from: nat, to: nat) returns (ok: bool)
      requires Valid() && from != to
      requires from < numberOfNodes ==> to !in Dests(nodes[from])
      modifies this
      ensures Valid()
      ensures ok <==> from < numberOfNodes && to < numberOfNodes
      ensures ok ==> EdgesOf(nodes) == old(EdgesOf(nodes))[from := old(EdgesOf(nodes))[from] + {to}]
      ensures !ok ==> nodes == old(nodes)
    {
      if from >= numberOfNodes || to >= numberOfNodes {
        return false;
      }
      var x := Find(nodes[from], to);
      if x != |nodes[from]| {
        assert false;
      } else {
        ghost var was := nodes[from];
        nodes := nodes[from := nodes[from] + [Dest(to, 1)]];
        DestsAppend(was, Dest(to, 1));
        assert EdgesOf(nodes) == old(EdgesOf(nodes))[from := old(EdgesOf(nodes))[from] + {to}];
      }
      return true;
    }

    /** Removing a missing edge trips an assertion of the program. */
    method RemoveEdge(from: nat, to: nat) returns (ok: bool)
      requires Valid() && from != to
      requires from < numberOfNodes && to < numberOfNodes ==> to in Dests(nodes[from])
      modifies this
      ensures Valid()
      ensures ok <==> from < numberOfNodes && to < numberOfNodes
      ensures ok ==> EdgesOf(nodes) == old(EdgesOf(nodes))[from := old(EdgesOf(nodes))[from] - {to}]
      ensures !ok ==> nodes == old(nodes)
    {
      if from >= numberOfNodes || to >= numberOfNodes {
        return false;
      }
      var x := Find(nodes[from], to);
      if x != |nodes[from]| {
        if nodes[from][x].count == 1 {
          var was := nodes[from];
          nodes := nodes[from := was[..x] + was[x + 1..]];
          DestsErase(was, x, from, numberOfNodes);
          assert EdgesOf(nodes) == old(EdgesOf(nodes))[from := old(EdgesOf(nodes))[from] - {to}];
        } else {
          assert false;
        }
        return true;
      } else {
        assert false;
      }
    }

    /** The recursive search.  `cycle` and `visited` are the two collections the
        program passes by reference; `stack` is the set of callers still open. */
    method GetCycleRecur(from: nat, current: nat, cycle: seq<nat>, visited: set<nat>, ghost stack: set<nat>)
      returns (found: bool, cycle': seq<nat>, visited': set<nat>)
      requires Valid() && from < numberOfNodes && current < numberOfNodes
      requires nodes[from] != [] && cycle == []
      requires forall u :: u in visited ==> u < numberOfNodes
      requires from !in visited && current !in stack && stack <= visited
      requires forall u :: u in visited && u !in stack ==> Dests(nodes[u]) <= visited
      ensures visited + {current} <= visited'
      ensures forall u :: u in visited' ==> u < numberOfNodes
      ensures found ==> (cycle' + [current])[0] == from && IsBackPath(EdgesOf(nodes), cycle' + [current])
      ensures !found ==> cycle' == [] && from !in visited'
      ensures !found ==> forall u :: u in visited' && u !in stack ==> Dests(nodes[u]) <= visited'
      decreases Below(numberOfNodes) - visited - {current}
    {
      cycle', visited' := cycle, visited + {current};
      if nodes[current] == [] {
        return false, cycle', visited';
      } else if current == from {
        return true, cycle', visited';
      }
      var x := 0;
      while x < |nodes[current]|
        invariant x <= |nodes[current]|
        invariant visited + {current} <= visited' && cycle' == [] && from !in visited'
        invariant forall u :: u in visited' ==> u < numberOfNodes
        invariant forall u :: u in visited' && u !in stack + {current} ==> Dests(nodes[u]) <= visited'
        invariant forall y :: 0 <= y < x ==> nodes[current][y].dest in visited'
      {
        var to := nodes[current][x].dest;
        if to !in visited' {
          found, cycle', visited' := GetCycleRecur(from, to, cycle', visited', stack + {current});
          if found {
            ghost var inner := cycle' + [to];
            cycle' := cycle' + [to];
            BackPathSnoc(EdgesOf(nodes), inner, current);
            return true, cycle', visited';
          }
        }
        x := x + 1;
      }
      return false, cycle', visited';
    }

    /** The result is empty exactly when no cycle passes through `from`.  Otherwise its
        first element is `from`, each element has an edge to the one before it (so the
        second waits for `from`), and read backwards it is a path around the cycle. */
    method GetCycle(from: nat) returns (cycle: seq<nat>)
      requires Valid() && from < numberOfNodes
      ensures cycle == [] <==> !OnCycle(EdgesOf(nodes), from)
      ensures cycle != [] ==>
                && |cycle| >= 2 && cycle[0] == from && Edge(EdgesOf(nodes), cycle[1], from)
                && IsCycle(EdgesOf(nodes), [from] + Reversed(cycle), from)
    {
      cycle := [];
      var visited: set<nat> := {};
      var x := 0;
      while x < |nodes[from]|
        invariant x <= |nodes[from]|
        invariant cycle == [] && from !in visited
        invariant forall u :: u in visited ==> u < numberOfNodes && Dests(nodes[u]) <= visited
        invariant forall y :: 0 <= y < x ==> nodes[from][y].dest in visited
      {
        var found;
        var to := nodes[from][x].dest;
        found, cycle, visited := GetCycleRecur(from, to, cycle, visited, {});
        if found {
          cycle := cycle + [to];
          BackPathIsCycle(EdgesOf(nodes), cycle, from);
          assert OnCycle(EdgesOf(nodes), from);
          assert |cycle| >= 2 by { assert to != from; }
          assert Edge(EdgesOf(nodes), cycle[0 + 1], cycle[0]);
          return;
        }
        x := x + 1;
      }
      NoCycleOutside(EdgesOf(nodes), from, visited);
    }
  }

  lemma DestsAppend(l: seq<Dest>, d: Dest)
    ensures Dests(l + [d]) == Dests(l) + {d.dest}
  {
    var m := l + [d];
    forall v | v in Dests(l) + {d.dest} ensures v in Dests(m) {
      if v == d.dest {
        assert m[|l|].dest == v;
      } else {
        var x :| 0 <= x < |l| && l[x].dest == v;
        assert m[x].dest == v;
      }
    }
  }

  lemma DestsErase(l: seq<Dest>, x: nat, u: nat, n: nat)
    requires x < |l| && WellFormed(l, u, n)
    ensures Dests(l[..x] + l[x + 1..]) == Dests(l) - {l[x].dest}
    ensures WellFormed(l[..x] + l[x + 1..], u, n)
  {
    var m := l[..x] + l[x + 1..];
    forall v | v in Dests(l) - {l[x].dest} ensures v in Dests(m) {
      var y :| 0 <= y < |l| && l[y].dest == v;
      assert m[if y < x then y else y - 1].dest == v;
    }
    forall y | 0 <= y < |m| ensures m[y] == l[if y < x then y else y + 1] { }
  }

  lemma BackPathSnoc(g: Graph, c: seq<nat>, u: nat)
    requires |c| >= 1 && IsBackPath(g, c) && Edge(g, u, c[|c| - 1])
    ensures IsBackPath(g, c + [u])
  {
    var d := c + [u];
    forall m | 0 <= m < |d| - 1 ensures Edge(g, d[m + 1], d[m]) {
      if m < |c| - 1 { assert Edge(g, c[m + 1], c[m]); }
    }
  }

  /** If everything `from` points to lies in a closed set without `from`, then `from`
      is on no cycle: a failed search is conclusive. */
  lemma NoCycleOutside(g: Graph, from: nat, closed: set<nat>)
    requires from < |g| && from !in closed && g[from] <= closed
    requires forall u :: u in closed && u < |g| ==> g[u] <= closed
    ensures !OnCycle(g, from)
  {
    if OnCycle(g, from) {
      var p :| IsCycle(g, p, from);
      assert Edge(g, p[0], p[0 + 1]);
      var rest := p[1..];
      forall m | 0 <= m < |rest| - 1 ensures Edge(g, rest[m], rest[m + 1]) {
        assert rest[m] == p[m + 1] && rest[m + 1] == p[(m + 1) + 1];
      }
      PathStaysInside(g, rest, closed);
    }
  }
}
