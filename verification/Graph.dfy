/** Directed graphs as insertion-ordered adjacency lists, their walks, reachability and cycles. */
module Graph {
  import opened Ordering

  /** Each known node with its successors in insertion order. */
  type Graph = map<string, seq<string>>

  /** An edge counts only between two known nodes, so dropping keys induces the subgraph. */
  predicate Edge(g: Graph, a: string, b: string) {
    a in g && b in g && b in g[a]
  }

  function Predecessors(g: Graph, n: string): set<string> {
    set a | a in g && Edge(g, a, n)
  }

  function Induced(g: Graph, keep: set<string>): Graph {
    map n | n in g && n in keep :: g[n]
  }

  ghost predicate Walk(g: Graph, p: seq<string>) {
    p != [] && forall i :: 0 <= i < |p| - 1 ==> Edge(g, p[i], p[i+1])
  }

  ghost predicate ClosedWalk(g: Graph, p: seq<string>) {
    Walk(g, p) && |p| >= 2 && p[0] == p[|p|-1]
  }

  ghost predicate Cyclic(g: Graph) {
    exists p :: ClosedWalk(g, p)
  }

  /** `p` leads from `a` to `b` along one or more edges. */
  ghost predicate Leads(g: Graph, p: seq<string>, a: string, b: string) {
    Walk(g, p) && |p| >= 2 && p[0] == a && p[|p|-1] == b
  }

  ghost predicate Reaches(g: Graph, a: string, b: string) {
    exists p :: Leads(g, p, a, b)
  }

  lemma EdgeReaches(g: Graph, a: string, b: string)
    requires Edge(g, a, b)
    ensures Reaches(g, a, b)
  {
    assert Leads(g, [a, b], a, b);
  }

  lemma ReachesTransitive(g: Graph, a: string, b: string, c: string)
    requires Reaches(g, a, b) && Reaches(g, b, c)
    ensures Reaches(g, a, c)
  {
    var p :| Leads(g, p, a, b);
    var q :| Leads(g, q, b, c);
    assert Leads(g, p + q[1..], a, c);
  }

  lemma ReachesSelfIffCyclic(g: Graph)
    ensures Cyclic(g) <==> exists n :: Reaches(g, n, n)
  {
    if Cyclic(g) {
      var p :| ClosedWalk(g, p);
      assert Leads(g, p, p[0], p[0]);
      assert Reaches(g, p[0], p[0]);
    }
    if n :| Reaches(g, n, n) {
      var p :| Leads(g, p, n, n);
      assert ClosedWalk(g, p);
    }
  }

  /** A set closed under edges contains whatever its members reach. */
  lemma {:induction false} ClosedSetKeepsWalk(g: Graph, s: set<string>, p: seq<string>)
    requires Walk(g, p) && p[0] in s
    requires forall a, b :: a in s && Edge(g, a, b) ==> b in s
    ensures p[|p|-1] in s
    decreases |p|
  {
    if |p| > 1 {
      assert Edge(g, p[0], p[1]);
      ClosedSetKeepsWalk(g, s, p[1..]);
    }
  }

  /** A rank that drops along every edge rules out cycles. */
  lemma {:induction false} RankFallsAlongWalk(g: Graph, rank: map<string, int>, p: seq<string>)
    requires Walk(g, p) && p[0] in g
    requires g.Keys <= rank.Keys
    requires forall a, b :: Edge(g, a, b) ==> rank[a] > rank[b]
    ensures p[|p|-1] in g && rank[p[0]] >= rank[p[|p|-1]] + |p| - 1
    decreases |p|
  {
    if |p| > 1 {
      assert Edge(g, p[0], p[1]);
      RankFallsAlongWalk(g, rank, p[1..]);
    }
  }

  lemma RankedIsAcyclic(g: Graph, rank: map<string, int>)
    requires g.Keys <= rank.Keys
    requires forall a, b :: Edge(g, a, b) ==> rank[a] > rank[b]
    ensures !Cyclic(g)
  {
    if p :| ClosedWalk(g, p) {
      assert Edge(g, p[0], p[1]);
      RankFallsAlongWalk(g, rank, p);
    }
  }

  /** Pigeonhole: a distinct sequence drawn from a set is no longer than the set is large. */
  lemma {:induction false} DistinctFits<T>(p: seq<T>, s: set<T>)
    requires Distinct(p) && forall i :: 0 <= i < |p| ==> p[i] in s
    ensures |p| <= |s|
    decreases |p|
  {
    if p != [] {
      DistinctFits(p[1..], s - {p[0]});
    }
  }

  /** Some member of `s` has an edge to `b`. */
  ghost predicate FedFrom(g: Graph, s: set<string>, b: string) {
    exists a :: a in s && Edge(g, a, b)
  }

  lemma {:induction false} BackwardWalk(g: Graph, s: set<string>, n: string, k: nat) returns (p: seq<string>)
    requires n in s
    requires forall b {:trigger FedFrom(g, s, b)} :: b in s ==> FedFrom(g, s, b)
    ensures |p| == k + 1 && Walk(g, p) && forall i :: 0 <= i < |p| ==> p[i] in s
    decreases k
  {
    if k == 0 {
      p := [n];
    } else {
      var q := BackwardWalk(g, s, n, k - 1);
      assert FedFrom(g, s, q[0]);
      var b :| b in s && Edge(g, b, q[0]);
      p := [b] + q;
    }
  }

  /** A walk that meets a node twice closes a cycle between the two visits. */
  lemma RepeatMeansCyclic(g: Graph, p: seq<string>, i: nat, j: nat)
    requires Walk(g, p) && i < j < |p| && p[i] == p[j]
    ensures Cyclic(g)
  {
    var c := p[i..j+1];
    forall k | 0 <= k < |c| - 1 ensures Edge(g, c[k], c[k+1]) {
      assert Edge(g, p[i+k], p[i+k+1]);
    }
    assert ClosedWalk(g, c);
  }

  /** A nonempty set in which every node has a predecessor of the set holds a cycle. */
  lemma NoSourceMeansCyclic(g: Graph, s: set<string>)
    requires s != {}
    requires forall b {:trigger FedFrom(g, s, b)} :: b in s ==> FedFrom(g, s, b)
    ensures Cyclic(g)
  {
    var n :| n in s;
    var p := BackwardWalk(g, s, n, |s|);
    if Distinct(p) {
      DistinctFits(p, s);
    } else {
      var i, j :| 0 <= i < j < |p| && p[i] == p[j];
      RepeatMeansCyclic(g, p, i, j);
    }
  }

  /** Every cycle survives in a graph holding all its edges. */
  lemma CyclicMonotone(g: Graph, h: Graph)
    requires Cyclic(g)
    requires forall a, b :: Edge(g, a, b) ==> Edge(h, a, b)
    ensures Cyclic(h)
  {
    var p :| ClosedWalk(g, p);
    assert ClosedWalk(h, p);
  }

  lemma ClosedWalkReversed(g: Graph, h: Graph, p: seq<string>)
    requires ClosedWalk(g, p)
    requires forall i :: 0 <= i < |p| - 1 ==> Edge(h, p[i+1], p[i])
    ensures ClosedWalk(h, Reversed(p))
  {
    var r := Reversed(p);
    forall i | 0 <= i < |r| - 1 ensures Edge(h, r[i], r[i+1]) {
      assert Edge(h, p[|p|-2-i+1], p[|p|-2-i]);
    }
  }

  /** Turning every edge round neither makes nor breaks a cycle. */
  lemma CyclicReversed(g: Graph, h: Graph)
    requires Cyclic(g)
    requires forall a, b :: Edge(g, a, b) ==> Edge(h, b, a)
    ensures Cyclic(h)
  {
    var p :| ClosedWalk(g, p);
    forall i | 0 <= i < |p| - 1 ensures Edge(h, p[i+1], p[i]) {
      assert Edge(g, p[i], p[i+1]);
    }
    ClosedWalkReversed(g, h, p);
  }
}
