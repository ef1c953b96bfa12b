/** Dependency-cycle detection of the specification validator: a depth-first search that
    reports one cycle per edge closing back onto the current stack. */
module ValidateSpecs {
  import opened Domain
  import opened Ordering
  import opened Graph

  /** `{bl.id: list(bl.depends_on) for bl in backlog}`: a later item overrides an earlier one. */
  function DependsGraph(backlog: seq<BL>): (g: Graph)
    ensures forall id :: id in g <==> exists bl :: bl in backlog && bl.id == id
  {
    if backlog == [] then map[] else
      var last := backlog[|backlog|-1];
      assert forall bl :: bl in backlog <==> bl in backlog[..|backlog|-1] || bl == last;
      DependsGraph(backlog[..|backlog|-1])[last.id := last.dependsOn]
  }

  predicate EndsWith(c: seq<string>, a: string, b: string) {
    |c| >= 2 && c[|c|-2] == a && c[|c|-1] == b
  }

  /** Some reported cycle ends with the edge from `a` to `b`. */
  ghost predicate Closes(cycles: seq<seq<string>>, a: string, b: string) {
    exists c :: c in cycles && EndsWith(c, a, b)
  }

  /** Edges out of a finished node lead to nodes finished earlier, or close a reported cycle. */
  ghost predicate Settled(g: Graph, finished: seq<string>, cycles: seq<seq<string>>) {
    forall i, b :: 0 <= i < |finished| && Edge(g, finished[i], b) ==>
      b in finished[..i] || Closes(cycles, finished[i], b)
  }

  /** Some edge of the walk joins two nodes of one finding. */
  ghost predicate Hit(findings: seq<seq<string>>, w: seq<string>) {
    exists f, i :: f in findings && 0 <= i < |w| - 1 && w[i] in f && w[i+1] in f
  }

  lemma Suffix(g: Graph, p: seq<string>, k: nat)
    requires Walk(g, p) && k < |p|
    ensures Walk(g, p[k..])
  {
    forall i | 0 <= i < |p[k..]| - 1 ensures Edge(g, p[k..][i], p[k..][i+1]) {
      assert Edge(g, p[k+i], p[k+i+1]);
    }
  }

  lemma StillCloses(before: seq<seq<string>>, after: seq<seq<string>>, a: string, b: string)
    requires before <= after && Closes(before, a, b)
    ensures Closes(after, a, b)
  {
    var c :| c in before && EndsWith(c, a, b);
    assert c in after;
  }

  lemma Extended(g: Graph, finished: seq<string>, cycles: seq<seq<string>>, c: seq<string>)
    requires Settled(g, finished, cycles)
    ensures Settled(g, finished, cycles + [c])
  {
    forall i, b | 0 <= i < |finished| && Edge(g, finished[i], b)
      ensures b in finished[..i] || Closes(cycles + [c], finished[i], b)
    {
      if Closes(cycles, finished[i], b) {
        StillCloses(cycles, cycles + [c], finished[i], b);
      }
    }
  }

  lemma StepOn(g: Graph, path: seq<string>, b: string)
    requires Walk(g, path) && Edge(g, path[|path|-1], b)
    ensures Walk(g, path + [b])
  {
    forall k | 0 <= k < |path| ensures Edge(g, (path + [b])[k], (path + [b])[k+1]) {
      if k < |path| - 1 { assert Edge(g, path[k], path[k+1]); }
    }
  }

  /** The first `n` dependencies of the node are done or close a reported cycle. */
  ghost predicate Answered(g: Graph, node: string, deps: seq<string>, n: nat, done: set<string>, cycles: seq<seq<string>>)
    requires n <= |deps|
  {
    forall k :: 0 <= k < n && deps[k] in g ==> deps[k] in done || Closes(cycles, node, deps[k])
  }

  lemma StillAnswered(g: Graph, node: string, deps: seq<string>, n: nat, done: set<string>, cycles: seq<seq<string>>,
                      done': set<string>, cycles': seq<seq<string>>)
    requires n <= |deps| && Answered(g, node, deps, n, done, cycles) && done <= done' && cycles <= cycles'
    ensures Answered(g, node, deps, n, done', cycles')
  {
    forall k | 0 <= k < n && deps[k] in g ensures deps[k] in done' || Closes(cycles', node, deps[k]) {
      if Closes(cycles, node, deps[k]) {
        StillCloses(cycles, cycles', node, deps[k]);
      }
    }
  }

  /** A node whose dependencies are all answered may be finished. */
  lemma Finishes(g: Graph, finished: seq<string>, cycles: seq<seq<string>>, node: string)
    requires Settled(g, finished, cycles) && node in g
    requires Answered(g, node, g[node], |g[node]|, Elems(finished), cycles)
    ensures Settled(g, finished + [node], cycles)
  {
    var all := finished + [node];
    forall i, b | 0 <= i < |all| && Edge(g, all[i], b) ensures b in all[..i] || Closes(cycles, all[i], b) {
      if i < |finished| {
        assert all[..i] == finished[..i];
      } else {
        assert all[..i] == finished;
        var k :| 0 <= k < |g[node]| && g[node][k] == b;
      }
    }
  }

  class CycleFinder {
    const graph: Graph
    var visiting: set<string>
    var done: set<string>
    var cycles: seq<seq<string>>
    ghost var finished: seq<string>  // `done` in the order its nodes were left

    ghost predicate Valid()
      reads this
    {
      && done == Elems(finished) && Distinct(finished)
      && done !! visiting && done + visiting <= graph.Keys
      && (forall c :: c in cycles ==> ClosedWalk(graph, c))
      && Settled(graph, finished, cycles)
    }

    constructor (graph: Graph)
      ensures Valid() && this.graph == graph
      ensures visiting == {} && done == {} && cycles == []
    {
      this.graph := graph;
      visiting, done, cycles, finished := {}, {}, [], [];
    }

    /** `stack` is the path of open calls; every cycle found is a closed walk through its top. */
    method Visit(node: string, stack: seq<string>)
      requires Valid() && node in graph
      requires visiting == Elems(stack) && Walk(graph, stack + [node])
      modifies this
      ensures Valid() && visiting == old(visiting)
      ensures old(done) <= done && old(cycles) <= cycles
      ensures node in done || (stack != [] && Closes(cycles, stack[|stack|-1], node))
      decreases graph.Keys - visiting
    {
      if node in done {
        return;
      }
      if node in visiting {
        var k := IndexOf(stack, node);
        var cycle := stack[k..] + [node];
        assert cycle == (stack + [node])[k..];
        Suffix(graph, stack + [node], k);
        Extended(graph, finished, cycles, cycle);
        cycles := cycles + [cycle];
        assert EndsWith(cycle, stack[|stack|-1], node);
        return;
      }
      visiting := visiting + {node};
      var deps := graph[node];
      var path := stack + [node];
      for i := 0 to |deps|
        invariant Valid() && visiting == old(visiting) + {node} == Elems(path)
        invariant old(done) <= done && old(cycles) <= cycles
        invariant Answered(graph, node, deps, i, done, cycles)
      {
        if deps[i] in graph {
          assert Edge(graph, node, deps[i]);
          StepOn(graph, path, deps[i]);
          ghost var done', cycles' := done, cycles;
          Visit(deps[i], path);
          StillAnswered(graph, node, deps, i, done', cycles', done, cycles);
        }
      }
      Finishes(graph, finished, cycles, node);
      visiting := visiting - {node};
      done := done + {node};
      finished := finished + [node];
      assert visiting == old(visiting);
    }
  }

  /** Along a walk that uses no closing edge, finishing positions fall. */
  lemma {:induction false} FinishingPositionsFall(g: Graph, finished: seq<string>, cycles: seq<seq<string>>, w: seq<string>)
    requires Settled(g, finished, cycles) && Distinct(finished)
    requires Walk(g, w) && g.Keys == Elems(finished) && w[0] in g
    requires forall i :: 0 <= i < |w| - 1 ==> !Closes(cycles, w[i], w[i+1])
    ensures w[|w|-1] in g
    ensures IndexOf(finished, w[|w|-1]) + |w| - 1 <= IndexOf(finished, w[0])
    decreases |w|
  {
    if |w| > 1 {
      var i := IndexOf(finished, w[0]);
      assert Edge(g, finished[i], w[1]) && !Closes(cycles, w[0], w[1]);
      var j :| 0 <= j < i && finished[j] == w[1];
      assert IndexOf(finished, w[1]) <= j;
      Suffix(g, w, 1);
      FinishingPositionsFall(g, finished, cycles, w[1..]);
    }
  }

  /** Once every node is finished, each cycle of the graph runs over a closing edge. */
  lemma EveryCycleCloses(g: Graph, finished: seq<string>, cycles: seq<seq<string>>, w: seq<string>)
    requires Settled(g, finished, cycles) && Distinct(finished)
    requires g.Keys == Elems(finished) && ClosedWalk(g, w)
    ensures exists i :: 0 <= i < |w| - 1 && Closes(cycles, w[i], w[i+1])
  {
    if forall i :: 0 <= i < |w| - 1 ==> !Closes(cycles, w[i], w[i+1]) {
      assert Edge(g, w[0], w[1]);
      FinishingPositionsFall(g, finished, cycles, w);
    }
  }

  ghost predicate Covered(findings: seq<seq<string>>, c: seq<string>) {
    exists f :: f in findings && Elems(f) == Elems(c)
  }

  /** The findings cover every reported cycle up to its set of nodes, each set once. */
  ghost predicate Deduplicated(cycles: seq<seq<string>>, findings: seq<seq<string>>) {
    && (forall f :: f in findings ==> f in cycles)
    && (forall c :: c in cycles ==> Covered(findings, c))
    && forall i, j :: 0 <= i < j < |findings| ==> Elems(findings[i]) != Elems(findings[j])
  }

  lemma DeduplicatedStep(cycles: seq<seq<string>>, c: seq<string>, findings: seq<seq<string>>)
    requires Deduplicated(cycles, findings)
    ensures Covered(findings, c) ==> Deduplicated(cycles + [c], findings)
    ensures !Covered(findings, c) ==> Deduplicated(cycles + [c], findings + [c])
  {
    var longer := findings + [c];
    assert c in longer;
    forall d | d in cycles ensures Covered(longer, d) {
      assert Covered(findings, d);
      var f :| f in findings && Elems(f) == Elems(d);
      assert f in longer;
    }
    if !Covered(findings, c) {
      forall i, j | 0 <= i < j < |longer| ensures Elems(longer[i]) != Elems(longer[j]) {
        assert longer[i] in findings;
      }
    }
  }

  method Deduplicate(cycles: seq<seq<string>>) returns (findings: seq<seq<string>>)
    ensures Deduplicated(cycles, findings)
  {
    var seen: set<set<string>> := {};
    findings := [];
    for i := 0 to |cycles|
      invariant Deduplicated(cycles[..i], findings)
      invariant seen == set f | f in findings :: Elems(f)
    {
      var key := Elems(cycles[i]);
      DeduplicatedStep(cycles[..i], cycles[i], findings);
      assert cycles[..i+1] == cycles[..i] + [cycles[i]];
      assert key in seen <==> Covered(findings, cycles[i]);
      if key !in seen {
        seen := seen + {key};
        findings := findings + [cycles[i]];
      }
    }
    assert cycles[..|cycles|] == cycles;
  }

  /** Every finding is a genuine cycle, no two share their node set, and every cycle of the
      dependency graph has an edge inside some finding. */
  method CheckCycles(backlog: seq<BL>) returns (findings: seq<seq<string>>)
    ensures forall f :: f in findings ==> ClosedWalk(DependsGraph(backlog), f)
    ensures forall i, j :: 0 <= i < j < |findings| ==> Elems(findings[i]) != Elems(findings[j])
    ensures forall w :: ClosedWalk(DependsGraph(backlog), w) ==> Hit(findings, w)
    ensures findings != [] <==> Cyclic(DependsGraph(backlog))
  {
    var g := DependsGraph(backlog);
    var finder := new CycleFinder(g);
    for i := 0 to |backlog|
      invariant finder.Valid() && finder.graph == g && finder.visiting == {}
      invariant forall k :: 0 <= k < i ==> backlog[k].id in finder.done
    {
      finder.Visit(backlog[i].id, []);
    }
    assert finder.done == g.Keys;
    findings := Deduplicate(finder.cycles);
    forall w | ClosedWalk(g, w) ensures Hit(findings, w) {
      EveryCycleCloses(g, finder.finished, finder.cycles, w);
      var i :| 0 <= i < |w| - 1 && Closes(finder.cycles, w[i], w[i+1]);
      var c :| c in finder.cycles && EndsWith(c, w[i], w[i+1]);
      assert Covered(findings, c);
      var f :| f in findings && Elems(f) == Elems(c);
      assert w[i] in Elems(f) && w[i+1] in Elems(f);
    }
    if findings != [] {
      assert ClosedWalk(g, findings[0]);
    }
  }
}
