/** The weighted critical path over the items no blocked item holds up, and the ready listing
    that puts it first. */
module CriticalPath {
  import opened Domain
  import opened Ordering
  import opened Graph
  import opened PlanningDag
  import opened Waves

  // ----- reachability by worklist -----

  /** The successor sets a worklist consults, with the edges of `g`. */
  ghost predicate Successors(succ: map<string, set<string>>, g: Graph) {
    forall a, b :: Edge(g, a, b) <==> a in succ && b in succ[a]
  }

  function Next(succ: map<string, set<string>>, a: string): set<string> {
    if a in succ then succ[a] else {}
  }

  lemma ReachedIsNode(g: Graph, a: string, b: string)
    requires Reaches(g, a, b)
    ensures b in g
  {
    var p :| Leads(g, p, a, b);
    assert Edge(g, p[|p|-2], p[|p|-2+1]);
  }

  /** Everything one or more edges away from `start`, on any graph, cyclic or not. */
  method Discover(succ: map<string, set<string>>, start: string, ghost g: Graph) returns (discovered: set<string>)
    requires Successors(succ, g)
    ensures forall n :: n in discovered <==> Reaches(g, start, n)
  {
    discovered := {};
    var queue := AnyOrder(Next(succ, start));
    forall n | n in queue ensures Reaches(g, start, n) {
      assert n in Elems(queue);
      EdgeReaches(g, start, n);
    }
    while queue != []
      invariant forall n :: n in queue || n in discovered ==> Reaches(g, start, n)
      invariant discovered <= g.Keys
      invariant forall n :: n in Next(succ, start) ==> n in discovered || n in queue
      invariant forall a, b :: a in discovered && b in Next(succ, a) ==> b in discovered || b in queue
      decreases g.Keys - discovered, |queue|
    {
      var current := queue[|queue|-1];
      ghost var before := queue;
      queue := queue[..|queue|-1];
      assert before == queue + [current];
      assert Reaches(g, start, current);
      if current !in discovered {
        ReachedIsNode(g, start, current);
        discovered := discovered + {current};
        var more := AnyOrder(Next(succ, current));
        forall n | n in more ensures Reaches(g, start, n) {
          assert n in Elems(more);
          EdgeReaches(g, current, n);
          ReachesTransitive(g, start, current, n);
        }
        assert forall n :: n in Next(succ, current) ==> n in Elems(more);
        queue := queue + more;
      }
    }
    forall n | Reaches(g, start, n) ensures n in discovered {
      var p :| Leads(g, p, start, n);
      assert Edge(g, p[0], p[1]);
      forall i | 0 <= i < |p[1..]| - 1 ensures Edge(g, p[1..][i], p[1..][i+1]) {
        assert Edge(g, p[i+1], p[i+1+1]);
      }
      ClosedSetKeepsWalk(g, discovered, p[1..]);
    }
  }

  // ----- the blocked closure -----

  /** Some blocked item among `sources` is the node or has it downstream. */
  ghost predicate HeldUpBy(dag: Dag, st: StatusMap, sources: set<string>, n: string) {
    exists b :: b in sources && Has(st, b, BLOCKED) && (b == n || Reaches(dag.graph, b, n))
  }

  /** Blocked itself, or a descendant of something blocked. */
  ghost predicate HeldUp(dag: Dag, st: StatusMap, n: string) {
    HeldUpBy(dag, st, dag.backlogIds, n)
  }

  lemma HeldUpByOneMore(dag: Dag, st: StatusMap, sources: set<string>, id: string, n: string)
    ensures HeldUpBy(dag, st, sources + {id}, n) <==>
            HeldUpBy(dag, st, sources, n) || (Has(st, id, BLOCKED) && (id == n || Reaches(dag.graph, id, n)))
  {
    if Has(st, id, BLOCKED) && (id == n || Reaches(dag.graph, id, n)) {
      assert id in sources + {id};
    }
    if HeldUpBy(dag, st, sources, n) {
      var b :| b in sources && Has(st, b, BLOCKED) && (b == n || Reaches(dag.graph, b, n));
      assert b in sources + {id};
    }
  }

  method BlockedClosure(dag: Dag, st: StatusMap) returns (excluded: set<string>)
    ensures forall n :: n in excluded <==> HeldUp(dag, st, n)
  {
    excluded := {};
    var succ := map a | a in dag.graph :: set b | b in dag.graph[a] && b in dag.graph;
    var todo := dag.backlogIds;
    while todo != {}
      invariant todo <= dag.backlogIds
      invariant forall n :: n in excluded <==> HeldUpBy(dag, st, dag.backlogIds - todo, n)
      decreases |todo|
    {
      var id :| id in todo;
      forall n {
        HeldUpByOneMore(dag, st, dag.backlogIds - todo, id, n);
      }
      assert dag.backlogIds - (todo - {id}) == dag.backlogIds - todo + {id};
      todo := todo - {id};
      if Has(st, id, BLOCKED) {
        var descendants := Discover(succ, id, dag.graph);
        excluded := excluded + {id} + descendants;
      }
    }
  }

  // ----- topological order -----

  /** Every node once, with the predecessors of each before it. */
  ghost predicate Topological(g: Graph, order: seq<string>) {
    Lists(order, g.Keys) && forall i, a :: 0 <= i < |order| && Edge(g, a, order[i]) ==> a in order[..i]
  }

  lemma GenerationFollows(g: Graph, order: seq<string>, remaining: set<string>, generation: seq<string>)
    requires remaining <= g.Keys && Lists(order, g.Keys - remaining) && Distinct(generation)
    requires forall n :: n in generation ==> n in remaining && forall a :: a in remaining ==> !Edge(g, a, n)
    requires forall i, a :: 0 <= i < |order| && Edge(g, a, order[i]) ==> a in order[..i]
    ensures Lists(order + generation, g.Keys - (remaining - Elems(generation)))
    ensures forall i, a :: 0 <= i < |order + generation| && Edge(g, a, (order + generation)[i]) ==>
      a in (order + generation)[..i]
  {
    var all := order + generation;
    forall i, a | 0 <= i < |all| && Edge(g, a, all[i]) ensures a in all[..i] {
      if i < |order| {
        assert all[..i] == order[..i];
      } else {
        var n := generation[i - |order|];
        assert n in generation && Edge(g, a, n);
        assert a in g.Keys - remaining;
        assert a in Elems(order);
        assert all[..i][..|order|] == order;
      }
    }
    forall i, j | 0 <= i < j < |all| ensures all[i] != all[j] {
      if i < |order| <= j {
        assert all[i] in Elems(order) && all[j] in generation;
      }
    }
    assert forall n :: n in all <==> n in order || n in generation;
    assert forall n :: n in order <==> n in Elems(order);
    assert Elems(all) == g.Keys - (remaining - Elems(generation));
  }

  lemma EarlierIndex(g: Graph, order: seq<string>, a: string, b: string)
    requires Topological(g, order) && Edge(g, a, b)
    ensures a in order && b in order && IndexOf(order, a) < IndexOf(order, b)
  {
    assert b in Elems(order);
    var j := IndexOf(order, b);
    assert a in order[..j];
    var i :| 0 <= i < j && order[i] == a;
    assert order[IndexOf(order, a)] == order[i];
  }

  lemma TopologicalIsAcyclic(g: Graph, order: seq<string>)
    requires Topological(g, order)
    ensures !Cyclic(g)
  {
    assert forall n :: n in g ==> n in Elems(order);
    var rank := map n | n in g :: -(IndexOf(order, n) as int);
    forall a, b | Edge(g, a, b) ensures rank[a] > rank[b] {
      EarlierIndex(g, order, a, b);
    }
    RankedIsAcyclic(g, rank);
  }

  /** Generation by generation; None stands for the error a cyclic graph raises. */
  method TopologicalSort(g: Graph) returns (r: Option<seq<string>>)
    ensures r.Some? <==> !Cyclic(g)
    ensures r.Some? ==> Topological(g, r.value)
  {
    var order: seq<string> := [];
    var remaining := g.Keys;
    while remaining != {}
      invariant remaining <= g.Keys && Lists(order, g.Keys - remaining)
      invariant forall i, a :: 0 <= i < |order| && Edge(g, a, order[i]) ==> a in order[..i]
      decreases |remaining|
    {
      var sources := set n | n in remaining && forall a :: a in remaining ==> !Edge(g, a, n);
      if sources == {} {
        forall b {:trigger FedFrom(g, remaining, b)} | b in remaining ensures FedFrom(g, remaining, b) {
          assert b !in sources;
        }
        NoSourceMeansCyclic(g, remaining);
        return None;
      }
      var generation := AnyOrder(sources);
      assert forall n :: n in generation ==> n in Elems(generation);
      GenerationFollows(g, order, remaining, generation);
      Shrinks(remaining, sources);
      order := order + generation;
      remaining := remaining - sources;
    }
    TopologicalIsAcyclic(g, order);
    return Some(order);
  }

  // ----- the longest path -----

  type Sizes = map<string, Size>

  function NodeWeight(sizes: Sizes, n: string): nat {
    if IsTag(n) then 0 else if n in sizes then SizeWeight(sizes[n]) else 0
  }

  function PathWeight(sizes: Sizes, p: seq<string>): nat {
    if p == [] then 0 else NodeWeight(sizes, p[0]) + PathWeight(sizes, p[1..])
  }

  lemma {:induction false} WeightSplits(sizes: Sizes, p: seq<string>, q: seq<string>)
    ensures PathWeight(sizes, p + q) == PathWeight(sizes, p) + PathWeight(sizes, q)
    decreases |p|
  {
    if p == [] {
      assert p + q == q;
    } else {
      assert (p + q)[1..] == p[1..] + q;
      WeightSplits(sizes, p[1..], q);
    }
  }

  type Dist = map<string, nat>
  type Via = map<string, Option<string>>

  /** The recurrence of the dynamic programme, settled at `n`. */
  ghost predicate Relaxed(g: Graph, sizes: Sizes, dist: Dist, via: Via, n: string) {
    && n in dist && n in via
    && match via[n]
       case None => dist[n] == NodeWeight(sizes, n) && forall a :: !Edge(g, a, n)
       case Some(p) => Edge(g, p, n) && p in dist && dist[n] == dist[p] + NodeWeight(sizes, n)
                       && forall a :: Edge(g, a, n) ==> a in dist && dist[a] <= dist[p]
  }

  ghost predicate AllRelaxed(g: Graph, sizes: Sizes, dist: Dist, via: Via) {
    dist.Keys == via.Keys == g.Keys && forall n :: n in g ==> Relaxed(g, sizes, dist, via, n)
  }

  method Farthest(s: set<string>, dist: Dist) returns (best: string)
    requires s != {} && s <= dist.Keys
    ensures best in s && forall x :: x in s ==> dist[x] <= dist[best]
  {
    best :| best in s;
    var todo := s - {best};
    while todo != {}
      invariant todo <= s && best in s && forall x :: x in s - todo ==> dist[x] <= dist[best]
      decreases |todo|
    {
      var x :| x in todo;
      todo := todo - {x};
      if dist[x] > dist[best] {
        best := x;
      }
    }
  }

  /** Settling one more node, whose predecessors are settled, keeps the recurrence. */
  lemma RelaxedStays(g: Graph, sizes: Sizes, dist: Dist, via: Via, node: string, d: nat, v: Option<string>, n: string)
    requires node !in dist && node !in via && Relaxed(g, sizes, dist, via, n)
    requires via[n].None? ==> node !in Predecessors(g, n)
    ensures Relaxed(g, sizes, dist[node := d], via[node := v], n)
  {
  }

  ghost predicate RelaxedSoFar(g: Graph, sizes: Sizes, dist: Dist, via: Via, settled: seq<string>) {
    dist.Keys == via.Keys == Elems(settled) && forall n :: n in dist ==> Relaxed(g, sizes, dist, via, n)
  }

  method RelaxNode(g: Graph, sizes: Sizes, dist0: Dist, via0: Via, node: string, ghost settled: seq<string>)
    returns (dist: Dist, via: Via)
    requires RelaxedSoFar(g, sizes, dist0, via0, settled)
    requires node in g && node !in settled && Predecessors(g, node) <= Elems(settled)
    ensures RelaxedSoFar(g, sizes, dist, via, settled + [node])
  {
    var preds := Predecessors(g, node);
    assert forall a :: Edge(g, a, node) ==> a in preds;
    var d, v := 0, None;
    if preds == {} {
      d, v := NodeWeight(sizes, node), None;
    } else {
      var best := Farthest(preds, dist0);
      d, v := dist0[best] + NodeWeight(sizes, node), Some(best);
    }
    dist, via := dist0[node := d], via0[node := v];
    forall n | n in dist0 ensures Relaxed(g, sizes, dist, via, n) {
      RelaxedStays(g, sizes, dist0, via0, node, d, v, n);
    }
  }

  lemma NextIsDue(g: Graph, order: seq<string>, i: nat)
    requires Topological(g, order) && i < |order|
    ensures order[i] in g && order[i] !in order[..i] && Predecessors(g, order[i]) <= Elems(order[..i])
  {
    assert order[i] in Elems(order);
  }

  method Relax(g: Graph, sizes: Sizes, order: seq<string>) returns (dist: Dist, via: Via)
    requires Topological(g, order)
    ensures AllRelaxed(g, sizes, dist, via)
  {
    dist, via := map[], map[];
    for i := 0 to |order|
      invariant RelaxedSoFar(g, sizes, dist, via, order[..i])
    {
      assert order[..i+1] == order[..i] + [order[i]];
      NextIsDue(g, order, i);
      dist, via := RelaxNode(g, sizes, dist, via, order[i], order[..i]);
    }
    assert order[..|order|] == order;
  }

  /** No walk outweighs the distance recorded at its end. */
  lemma {:induction false} DistanceBoundsWalks(g: Graph, sizes: Sizes, dist: Dist, via: Via, p: seq<string>)
    requires AllRelaxed(g, sizes, dist, via) && Walk(g, p) && p[|p|-1] in g
    ensures PathWeight(sizes, p) <= dist[p[|p|-1]]
    decreases |p|
  {
    var init, last := p[..|p|-1], p[|p|-1];
    assert p == init + [last] && Relaxed(g, sizes, dist, via, last);
    WeightSplits(sizes, init, [last]);
    if init != [] {
      assert Edge(g, p[|p|-2], p[|p|-2+1]);
      DistanceBoundsWalks(g, sizes, dist, via, init);
    }
  }

  /** What the walk back keeps: the part already collected, read forwards, and the node before it. */
  ghost predicate Collected(g: Graph, sizes: Sizes, dist: Dist, ids: set<string>, end: string, current: Option<string>, chain: seq<string>) {
    && end in dist
    && (forall i :: 0 <= i < |chain| ==> chain[i] in ids && chain[i] in g)
    && (chain != [] ==> Walk(g, chain) && chain[|chain|-1] == end)
    && match current
       case None => chain != [] && PathWeight(sizes, chain) == dist[end]
       case Some(c) => c in dist && PathWeight(sizes, chain) + dist[c] == dist[end]
                       && (chain == [] ==> c == end) && (chain != [] ==> Edge(g, c, chain[0]))
  }

  lemma CollectOne(g: Graph, sizes: Sizes, dist: Dist, via: Via, ids: set<string>, end: string, c: string, chain: seq<string>)
    requires AllRelaxed(g, sizes, dist, via) && Collected(g, sizes, dist, ids, end, Some(c), chain)
    requires c in ids
    ensures Collected(g, sizes, dist, ids, end, via[c], [c] + chain)
  {
    var longer := [c] + chain;
    assert Relaxed(g, sizes, dist, via, c);
    assert longer[1..] == chain;
    if chain != [] {
      forall i | 0 <= i < |longer| - 1 ensures Edge(g, longer[i], longer[i+1]) {
        if i > 0 { assert Edge(g, chain[i-1], chain[i-1+1]); }
      }
    }
  }

  lemma SkipTag(g: Graph, sizes: Sizes, dist: Dist, via: Via, ids: set<string>, end: string, c: string, chain: seq<string>)
    requires AllRelaxed(g, sizes, dist, via) && Collected(g, sizes, dist, ids, end, Some(c), chain)
    requires c !in ids && end in ids && IsTag(c) && forall a :: !Edge(g, a, c)
    ensures Collected(g, sizes, dist, ids, end, via[c], chain)
  {
    assert Relaxed(g, sizes, dist, via, c);
  }

  function StepsLeft(order: seq<string>, current: Option<string>): nat
    requires current.Some? ==> current.value in order
  {
    if current.None? then 0 else IndexOf(order, current.value) + 1
  }

  /** The predecessor links followed back from `end`, tags dropped, read forwards. */
  method WalkBack(g: Graph, sizes: Sizes, dist: Dist, via: Via, order: seq<string>, ids: set<string>, end: string)
    returns (path: seq<string>)
    requires Topological(g, order) && AllRelaxed(g, sizes, dist, via)
    requires end in g && end in ids
    requires forall n :: n in g && n !in ids ==> IsTag(n) && forall a :: !Edge(g, a, n)
    ensures path != [] && Walk(g, path) && path[|path|-1] == end
    ensures forall i :: 0 <= i < |path| ==> path[i] in ids && path[i] in g
    ensures PathWeight(sizes, path) == dist[end]
  {
    assert forall n :: n in g ==> n in Elems(order);
    path := [];
    var current: Option<string> := Some(end);
    ghost var chain: seq<string> := [];
    while current.Some?
      invariant Collected(g, sizes, dist, ids, end, current, chain)
      invariant current.Some? ==> current.value in order
      invariant chain == Reversed(path)
      decreases StepsLeft(order, current)
    {
      var c := current.value;
      assert Relaxed(g, sizes, dist, via, c);
      if c in ids {
        CollectOne(g, sizes, dist, via, ids, end, c, chain);
        ReversedSnoc(path, c);
        path := path + [c];
        chain := [c] + chain;
      } else {
        SkipTag(g, sizes, dist, via, ids, end, c, chain);
      }
      if via[c].Some? {
        EarlierIndex(g, order, via[c].value, c);
      }
      current := via[c];
    }
    path := Reversed(path);
  }

  /** A chain of direct dependencies through items nothing blocked holds up. */
  ghost predicate ActiveChain(dag: Dag, st: StatusMap, c: seq<string>) {
    && Walk(dag.graph, c)
    && forall i :: 0 <= i < |c| ==> c[i] in dag.backlogIds && !HeldUp(dag, st, c[i])
  }

  function ActiveNodes(dag: Dag, excluded: set<string>): set<string> {
    set n | n in dag.graph && n !in excluded && (IsTag(n) || n in dag.backlogIds)
  }

  method LongestWeightedPath(dag: Dag, sizes: Sizes, excluded: set<string>) returns (r: Option<seq<string>>)
    requires forall a, b :: Edge(dag.graph, a, b) ==> !IsTag(b) || b in dag.backlogIds
    ensures var g := Induced(dag.graph, ActiveNodes(dag, excluded));
      && (r.Some? <==> !Cyclic(g))
      && (r.Some? ==> (r.value == [] <==> forall n :: n in g ==> n !in dag.backlogIds))
      && (r.Some? && r.value != [] ==>
            && Walk(g, r.value) && (forall i :: 0 <= i < |r.value| ==> r.value[i] in dag.backlogIds && r.value[i] in g)
            && forall c :: Walk(g, c) && c[|c|-1] in g && c[|c|-1] in dag.backlogIds ==>
                 PathWeight(sizes, c) <= PathWeight(sizes, r.value))
  {
    var g := Induced(dag.graph, ActiveNodes(dag, excluded));
    var sorted := TopologicalSort(g);
    if sorted.None? {
      return None;
    }
    var dist, via := Relax(g, sizes, sorted.value);
    var items := set n | n in dist && n in dag.backlogIds;
    if items == {} {
      assert forall n :: n in g && n in dag.backlogIds ==> n in items;
      return Some([]);
    }
    var end := Farthest(items, dist);
    forall n | n in g && n !in dag.backlogIds ensures IsTag(n) && forall a :: !Edge(g, a, n) {
      assert forall a :: Edge(g, a, n) ==> Edge(dag.graph, a, n);
    }
    var path := WalkBack(g, sizes, dist, via, sorted.value, dag.backlogIds, end);
    forall c | Walk(g, c) && c[|c|-1] in g && c[|c|-1] in dag.backlogIds
      ensures PathWeight(sizes, c) <= PathWeight(sizes, path)
    {
      DistanceBoundsWalks(g, sizes, dist, via, c);
      assert c[|c|-1] in items;
    }
    return Some(path);
  }

  lemma InducedWalk(dag: Dag, st: StatusMap, excluded: set<string>, p: seq<string>)
    requires forall n :: n in excluded <==> HeldUp(dag, st, n)
    requires Walk(Induced(dag.graph, ActiveNodes(dag, excluded)), p)
    requires forall i :: 0 <= i < |p| ==> p[i] in dag.backlogIds && p[i] in Induced(dag.graph, ActiveNodes(dag, excluded))
    ensures ActiveChain(dag, st, p)
  {
    var g := Induced(dag.graph, ActiveNodes(dag, excluded));
    forall i | 0 <= i < |p| - 1 ensures Edge(dag.graph, p[i], p[i+1]) {
      assert Edge(g, p[i], p[i+1]);
    }
  }

  lemma ActiveChainIsInduced(dag: Dag, st: StatusMap, excluded: set<string>, c: seq<string>)
    requires forall n :: n in excluded <==> HeldUp(dag, st, n)
    requires dag.backlogIds <= dag.graph.Keys && ActiveChain(dag, st, c)
    ensures Walk(Induced(dag.graph, ActiveNodes(dag, excluded)), c)
    ensures c[|c|-1] in dag.backlogIds && c[|c|-1] in Induced(dag.graph, ActiveNodes(dag, excluded))
  {
    var g := Induced(dag.graph, ActiveNodes(dag, excluded));
    assert forall i :: 0 <= i < |c| ==> c[i] in g;
    forall i | 0 <= i < |c| - 1 ensures Edge(g, c[i], c[i+1]) {
      assert Edge(dag.graph, c[i], c[i+1]);
    }
  }

  /** On an acyclic plan the result is an active chain no other active chain outweighs; it is
      empty only when nothing active remains. */
  method CriticalPath(dag: Dag, ghost backlog: seq<BL>, sizes: Sizes, st: StatusMap) returns (r: Option<seq<string>>)
    requires Plans(dag, backlog)
    ensures !Cyclic(dag.graph) ==> r.Some?
    ensures r.Some? ==> (r.value == [] <==> forall id :: id in dag.backlogIds ==> HeldUp(dag, st, id))
    ensures r.Some? && r.value != [] ==> ActiveChain(dag, st, r.value)
    ensures r.Some? ==> forall c :: ActiveChain(dag, st, c) ==> PathWeight(sizes, c) <= PathWeight(sizes, r.value)
  {
    var excluded := BlockedClosure(dag, st);
    ghost var g := Induced(dag.graph, ActiveNodes(dag, excluded));
    r := LongestWeightedPath(dag, sizes, excluded);
    if Cyclic(g) {
      CyclicMonotone(g, dag.graph);
    }
    if r.Some? {
      if r.value != [] {
        InducedWalk(dag, st, excluded, r.value);
      }
      forall c | ActiveChain(dag, st, c) ensures PathWeight(sizes, c) <= PathWeight(sizes, r.value) {
        ActiveChainIsInduced(dag, st, excluded, c);
      }
    }
  }

  // ----- the ready listing -----

  /** `_is_ready`: waiting, nothing blocked upstream, and every predecessor DONE. */
  ghost predicate Ready(dag: Dag, st: StatusMap, id: string) {
    id in dag.backlogIds && Waiting(st, id) && !HeldUp(dag, st, id) && Satisfied(dag, st, id, DoneSet(dag, st))
  }

  /** The sort key (off the path, minus the weight, identifier), compared. */
  predicate Before(critical: set<string>, sizes: Sizes, a: string, b: string) {
    if (a in critical) != (b in critical) then a in critical
    else if NodeWeight(sizes, a) != NodeWeight(sizes, b) then NodeWeight(sizes, a) > NodeWeight(sizes, b)
    else Le(a, b)
  }

  lemma BeforeIsTotal(critical: set<string>, sizes: Sizes)
    ensures TotalPreorder((a: string, b: string) => Before(critical, sizes, a, b))
  {
    forall a, b ensures Before(critical, sizes, a, b) || Before(critical, sizes, b, a) {
      LeTotal(a, b);
    }
    forall a, b, c | Before(critical, sizes, a, b) && Before(critical, sizes, b, c) ensures Before(critical, sizes, a, c) {
      if Le(a, b) && Le(b, c) {
        LeTransitive(a, b, c);
      }
    }
  }

  /** Exactly the ready items: those on the critical path first, heavier before lighter, ties by
      identifier. */
  method ReadyBls(dag: Dag, ghost backlog: seq<BL>, sizes: Sizes, st: StatusMap)
    returns (r: Option<seq<string>>, path: Option<seq<string>>)
    requires Plans(dag, backlog)
    ensures !Cyclic(dag.graph) ==> r.Some?
    ensures r.Some? ==> path.Some? && (forall id :: id in r.value <==> Ready(dag, st, id)) && Distinct(r.value)
    ensures r.Some? ==> forall i, j :: 0 <= i < j < |r.value| ==>
              var a, b := r.value[i], r.value[j];
              && (b in path.value ==> a in path.value)
              && ((a in path.value <==> b in path.value) ==> NodeWeight(sizes, a) >= NodeWeight(sizes, b))
              && ((a in path.value <==> b in path.value) && NodeWeight(sizes, a) == NodeWeight(sizes, b) ==> Le(a, b))
  {
    path := CriticalPath(dag, backlog, sizes, st);
    if path.None? {
      return None, None;
    }
    var critical := Elems(path.value);
    var excluded := BlockedClosure(dag, st);
    var done := DoneSet(dag, st);
    var ready := set id | id in dag.backlogIds && Waiting(st, id) && id !in excluded && Satisfied(dag, st, id, done);
    BeforeIsTotal(critical, sizes);
    var before := (a: string, b: string) => Before(critical, sizes, a, b);
    var listing := SortBy(ready, before);
    forall i, j | 0 <= i < j < |listing| ensures Before(critical, sizes, listing[i], listing[j]) {
      assert before(listing[i], listing[j]);
    }
    assert forall id :: id in listing <==> id in Elems(listing);
    return Some(listing), path;
  }
}
