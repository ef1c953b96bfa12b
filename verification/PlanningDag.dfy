/** The planning graph over backlog items and version-tag nodes, and its cycle diagnostic. */
module PlanningDag {
  import opened Domain
  import opened Ordering
  import opened Graph
  import opened SpecIndex
  import opened Text
  import opened Versions
  import Milestones
  import ValidateSpecs

  const TAG_PREFIX := "tag:"

  predicate IsTag(node: string) {
    TAG_PREFIX <= node
  }

  function TagNode(library: string, version: string): (n: string)
    ensures IsTag(n)
  {
    TAG_PREFIX + library + "@" + NormalizeVersion(version)
  }

  datatype EdgeKind = DEPENDS_ON | VERSION_TAG | MILESTONE

  datatype DagEdge = DagEdge(source: string, target: string, kind: EdgeKind)

  datatype Dag = Dag(graph: Graph, edges: seq<DagEdge>, backlogIds: set<string>)

  // ----- graph building -----

  /** Every successor is a node, as it is in a graph built by adding edges. */
  ghost predicate Closed(g: Graph) {
    forall a, b :: a in g && b in g[a] ==> b in g
  }

  function AddNode(g: Graph, n: string): (h: Graph)
    ensures h.Keys == g.Keys + {n}
    ensures Closed(g) ==> Closed(h) && forall a, b :: Edge(h, a, b) <==> Edge(g, a, b)
  {
    if n in g then g else g[n := []]
  }

  function AddEdge(g: Graph, a: string, b: string): (h: Graph)
    ensures h.Keys == g.Keys + {a, b}
    ensures Closed(g) ==> Closed(h) && forall x, y :: Edge(h, x, y) <==> Edge(g, x, y) || (x == a && y == b)
  {
    var k := AddNode(AddNode(g, a), b);
    if b in k[a] then k else k[a := k[a] + [b]]
  }

  /** Some listed edge joins the two nodes. */
  ghost predicate Listed(edges: seq<DagEdge>, a: string, b: string) {
    exists e :: e in edges && e.source == a && e.target == b
  }

  ghost predicate Materialises(g: Graph, edges: seq<DagEdge>) {
    Closed(g) && forall a, b :: Edge(g, a, b) <==> Listed(edges, a, b)
  }

  lemma MaterialisesOneMore(g: Graph, edges: seq<DagEdge>, e: DagEdge)
    requires Materialises(g, edges)
    ensures Materialises(AddEdge(g, e.source, e.target), edges + [e])
  {
    var more := edges + [e];
    forall a, b ensures Listed(more, a, b) <==> Listed(edges, a, b) || (a == e.source && b == e.target) {
      if Listed(edges, a, b) {
        var f :| f in edges && f.source == a && f.target == b;
        assert f in more;
      }
      assert e in more;
    }
  }

  // ----- version tags -----

  function VersionsOf(backlog: seq<BL>, library: string): set<string> {
    set bl | bl in backlog && bl.library == library :: NormalizeVersion(bl.targetVersion)
  }

  type VersionTags = map<string, seq<string>>

  function Keys(backlog: seq<BL>): (keys: map<string, Key>) {
    map bl | bl in backlog && Keyed(NormalizeVersion(bl.targetVersion)) ::
      NormalizeVersion(bl.targetVersion) := SemverKey(NormalizeVersion(bl.targetVersion)).value
  }

  /** Each library's versions listed by key. */
  ghost predicate IsVersionTags(tags: VersionTags, backlog: seq<BL>) {
    && tags.Keys == (set bl | bl in backlog :: bl.library)
    && forall library :: library in tags ==>
         ListedByKey(tags[library], VersionsOf(backlog, library), Keys(backlog))
  }

  ghost predicate AllKeyed(backlog: seq<BL>) {
    forall bl :: bl in backlog ==> Keyed(NormalizeVersion(bl.targetVersion))
  }

  lemma VersionsAreKeyed(backlog: seq<BL>, library: string)
    requires AllKeyed(backlog)
    ensures VersionsOf(backlog, library) <= Keys(backlog).Keys
  {
  }

  /** The libraries done so far are listed by key. */
  ghost predicate ListsLibraries(tags: VersionTags, backlog: seq<BL>, keys: map<string, Key>) {
    forall library :: library in tags ==> ListedByKey(tags[library], VersionsOf(backlog, library), keys)
  }

  method ListLibraries(backlog: seq<BL>, keys: map<string, Key>, libraries: set<string>) returns (tags: VersionTags)
    requires forall library :: library in libraries ==> VersionsOf(backlog, library) <= keys.Keys
    ensures tags.Keys == libraries && ListsLibraries(tags, backlog, keys)
  {
    var todo := libraries;
    tags := map[];
    while todo != {}
      invariant todo <= libraries && tags.Keys == libraries - todo && ListsLibraries(tags, backlog, keys)
      decreases |todo|
    {
      var library :| library in todo;
      var listing := ListByKey(VersionsOf(backlog, library), keys);
      tags := tags[library := listing];
      todo := todo - {library};
    }
  }

  method VersionTagsByLibrary(backlog: seq<BL>) returns (r: Option<VersionTags>)
    ensures r.Some? <==> AllKeyed(backlog)
    ensures r.Some? ==> IsVersionTags(r.value, backlog)
  {
    if bl :| bl in backlog && !Keyed(NormalizeVersion(bl.targetVersion)) {
      return None;
    }
    forall library {
      VersionsAreKeyed(backlog, library);
    }
    var tags := ListLibraries(backlog, Keys(backlog), set bl | bl in backlog :: bl.library);
    return Some(tags);
  }

  /** The tag of the version listed just before the item's own, if there is one. */
  function PreviousVersionTag(bl: BL, tags: VersionTags): Option<string> {
    var versions := if bl.library in tags then tags[bl.library] else [];
    var own := NormalizeVersion(bl.targetVersion);
    if own !in versions || IndexOf(versions, own) == 0 then None
    else Some(TagNode(bl.library, versions[IndexOf(versions, own) - 1]))
  }

  /** In a listing by key, what stands just before `own`: nothing of the set lies strictly between. */
  ghost predicate JustBefore(p: string, own: string, s: set<string>, key: map<string, Key>)
    requires s + {p, own} <= key.Keys
  {
    p in s && p != own && KeyLe(key[p], key[own])
    && forall q :: q in s ==> KeyLe(key[q], key[p]) || KeyLe(key[own], key[q])
  }

  lemma ListedAround(r: seq<string>, s: set<string>, key: map<string, Key>, k: nat, q: string)
    requires ListedByKey(r, s, key) && k < |r| && q in s
    ensures KeyLe(key[r[k]], key[q]) || (k > 0 && KeyLe(key[q], key[r[k-1]]))
  {
    assert q in Elems(r);
    var j :| 0 <= j < |r| && r[j] == q;
  }

  lemma ListedNeighbour(r: seq<string>, s: set<string>, key: map<string, Key>, k: nat)
    requires ListedByKey(r, s, key) && k < |r|
    ensures r[k] in key
    ensures k == 0 ==> forall q :: q in s ==> KeyLe(key[r[k]], key[q])
    ensures k > 0 ==> r[k-1] in key && JustBefore(r[k-1], r[k], s, key)
  {
    assert r[k] in Elems(r) && (k > 0 ==> r[k-1] in Elems(r));
    forall q | q in s ensures KeyLe(key[r[k]], key[q]) || (k > 0 && KeyLe(key[q], key[r[k-1]])) {
      ListedAround(r, s, key, k, q);
    }
  }

  /** The gate is the tag of a version of the same library that sorts no later, with nothing
      strictly between; the items of a library's first version have no gate. */
  lemma PreviousVersionIsAdjacent(backlog: seq<BL>, bl: BL, tags: VersionTags, key: map<string, Key>)
    requires bl in backlog && bl.library in tags
    requires ListedByKey(tags[bl.library], VersionsOf(backlog, bl.library), key)
    ensures NormalizeVersion(bl.targetVersion) in VersionsOf(backlog, bl.library)
    ensures PreviousVersionTag(bl, tags).Some? ==>
      exists p :: p in key && PreviousVersionTag(bl, tags).value == TagNode(bl.library, p)
        && JustBefore(p, NormalizeVersion(bl.targetVersion), VersionsOf(backlog, bl.library), key)
    ensures PreviousVersionTag(bl, tags).None? ==> forall q :: q in VersionsOf(backlog, bl.library) ==>
      KeyLe(key[NormalizeVersion(bl.targetVersion)], key[q])
  {
    var own := NormalizeVersion(bl.targetVersion);
    assert own in Elems(tags[bl.library]);
    var listing := tags[bl.library];
    ListedNeighbour(listing, VersionsOf(backlog, bl.library), key, IndexOf(listing, own));
  }

  /** Two items of one library, whose versions differ but have the same key. */
  predicate SharesKey(x: BL, y: BL) {
    && x.library == y.library
    && Keyed(NormalizeVersion(x.targetVersion)) && SemverKey(NormalizeVersion(x.targetVersion)) == SemverKey(NormalizeVersion(y.targetVersion))
    && NormalizeVersion(x.targetVersion) != NormalizeVersion(y.targetVersion)
  }

  lemma VersionsOfTwo(x: BL, y: BL)
    requires SharesKey(x, y)
    ensures var v, w := NormalizeVersion(x.targetVersion), NormalizeVersion(y.targetVersion);
            && VersionsOf([x, y], x.library) == {v, w} && (set bl | bl in [x, y] :: bl.library) == {x.library}
            && v in Keys([x, y]) && w in Keys([x, y]) && Keys([x, y])[v] == Keys([x, y])[w]
  {
    assert x in [x, y] && y in [x, y];
  }

  /** The key leaves the pre-release out, so which of two such versions gates the other is open: both
      listings are by key, and each gates the version it puts second. */
  lemma SharedKeyGatesEitherWay(x: BL, y: BL)
    requires SharesKey(x, y)
    ensures var v, w := NormalizeVersion(x.targetVersion), NormalizeVersion(y.targetVersion);
            var first, second := map[x.library := [v, w]], map[x.library := [w, v]];
            && IsVersionTags(first, [x, y]) && PreviousVersionTag(x, first).None? && PreviousVersionTag(y, first) == Some(TagNode(x.library, v))
            && IsVersionTags(second, [x, y]) && PreviousVersionTag(y, second).None? && PreviousVersionTag(x, second) == Some(TagNode(x.library, w))
  {
    var v, w, keys := NormalizeVersion(x.targetVersion), NormalizeVersion(y.targetVersion), Keys([x, y]);
    VersionsOfTwo(x, y);
    TwoAreListed(v, w, keys);
    TwoAreListed(w, v, keys);
    assert {v, w} == {w, v};
  }

  /** Any two items of one library whose versions differ in the pre-release alone are such a pair. */
  lemma PreReleasesShareKey(x: BL, y: BL, s: SemVer, t: SemVer)
    requires x.library == y.library && s.Writes(x.targetVersion) && t.Writes(y.targetVersion)
    requires t == s.(pre := t.pre) && s.build == "" && x.targetVersion != y.targetVersion
    ensures SharesKey(x, y)
  {
    BuildFirstIsNoPre(s, x.targetVersion);
    BuildFirstIsNoPre(t, y.targetVersion);
    KeyIsTheNumerals(s, x.targetVersion);
    KeyIsTheNumerals(t, y.targetVersion);
    SemVerStands(s, x.targetVersion);
    SemVerStands(t, y.targetVersion);
    assert ("v" + x.targetVersion)[1..] == x.targetVersion && ("v" + y.targetVersion)[1..] == y.targetVersion;
  }

  /** The first version comes no later than the second, by their numbers. */
  ghost predicate NoLater(v: string, w: string) {
    && Keyed(v) && Keyed(w)
    && var a, b := SemverKey(v).value, SemverKey(w).value;
    a.0 <= b.0 && (a.0 == b.0 ==> a.1 <= b.1 && (a.1 == b.1 ==> a.2 <= b.2))
  }

  lemma KeysCompare(backlog: seq<BL>, v: string, w: string)
    requires v in Keys(backlog) && w in Keys(backlog)
    ensures KeyLe(Keys(backlog)[v], Keys(backlog)[w]) <==> NoLater(v, w)
  {
  }

  /** Among the versions, `p` is the latest that is earlier than `own`. */
  ghost predicate LatestEarlier(p: string, own: string, s: set<string>) {
    p in s && p != own && NoLater(p, own) && forall q :: q in s ==> NoLater(q, p) || NoLater(own, q)
  }

  lemma AdjacentIsEarlier(backlog: seq<BL>, s: set<string>, p: string, own: string)
    requires s + {p, own} <= Keys(backlog).Keys && JustBefore(p, own, s, Keys(backlog))
    ensures LatestEarlier(p, own, s)
  {
    KeysCompare(backlog, p, own);
    forall q | q in s ensures NoLater(q, p) || NoLater(own, q) {
      KeysCompare(backlog, q, p);
      KeysCompare(backlog, own, q);
    }
  }

  /** What gates an item: the latest earlier version of its library, and nothing when there is none. */
  lemma PreviousVersionIsEarlier(backlog: seq<BL>, bl: BL, tags: VersionTags)
    requires AllKeyed(backlog) && IsVersionTags(tags, backlog) && bl in backlog
    ensures PreviousVersionTag(bl, tags).Some? ==>
      exists p :: LatestEarlier(p, NormalizeVersion(bl.targetVersion), VersionsOf(backlog, bl.library))
                  && PreviousVersionTag(bl, tags).value == TagNode(bl.library, p)
    ensures PreviousVersionTag(bl, tags).None? ==>
      forall q :: q in VersionsOf(backlog, bl.library) ==> NoLater(NormalizeVersion(bl.targetVersion), q)
  {
    var own, versions := NormalizeVersion(bl.targetVersion), VersionsOf(backlog, bl.library);
    VersionsAreKeyed(backlog, bl.library);
    assert own in Elems(tags[bl.library]);
    var listing := tags[bl.library];
    var k := IndexOf(listing, own);
    ListedNeighbour(listing, versions, Keys(backlog), k);
    if k > 0 {
      AdjacentIsEarlier(backlog, versions, listing[k-1], own);
      assert PreviousVersionTag(bl, tags) == Some(TagNode(bl.library, listing[k-1]));
    } else {
      forall q | q in versions ensures NoLater(own, q) {
        KeysCompare(backlog, own, q);
      }
    }
  }

  lemma VersionsOfPair(x: BL, y: BL)
    requires x.library == y.library
    ensures VersionsOf([x, y], x.library) == {NormalizeVersion(x.targetVersion), NormalizeVersion(y.targetVersion)}
    ensures x in [x, y] && y in [x, y]
  {
    assert x in [x, y] && y in [x, y];
  }

  /** The first key is smaller, by its numbers. */
  predicate Smaller(a: Key, b: Key) {
    a.0 < b.0 || (a.0 == b.0 && (a.1 < b.1 || (a.1 == b.1 && a.2 < b.2)))
  }

  lemma SmallerIsEarlier(v: string, w: string)
    requires Keyed(v) && Keyed(w) && Smaller(SemverKey(v).value, SemverKey(w).value)
    ensures !NoLater(w, v)
  {
  }

  lemma EarlierOfTwoGates(x: BL, y: BL, tags: VersionTags)
    requires x.library == y.library && AllKeyed([x, y]) && IsVersionTags(tags, [x, y])
    requires Smaller(SemverKey(NormalizeVersion(x.targetVersion)).value, SemverKey(NormalizeVersion(y.targetVersion)).value)
    ensures PreviousVersionTag(y, tags) == Some(TagNode(x.library, NormalizeVersion(x.targetVersion)))
    ensures PreviousVersionTag(x, tags).None?
  {
    var v, w := NormalizeVersion(x.targetVersion), NormalizeVersion(y.targetVersion);
    VersionsOfPair(x, y);
    SmallerIsEarlier(v, w);
    PreviousVersionIsEarlier([x, y], x, tags);
    PreviousVersionIsEarlier([x, y], y, tags);
  }

  /** Of two items of one library, the tag of the earlier version gates the item of the later one, and
      nothing gates the other. */
  lemma EarlierVersionGatesLater(x: BL, y: BL, a: Key, b: Key, tags: VersionTags)
    requires x.library == y.library && x.targetVersion == Dotted(a.0, a.1, a.2) && y.targetVersion == Dotted(b.0, b.1, b.2)
    requires Smaller(a, b) && IsVersionTags(tags, [x, y])
    ensures PreviousVersionTag(y, tags) == Some("tag:" + x.library + "@" + ("v" + x.targetVersion))
    ensures PreviousVersionTag(x, tags).None?
  {
    DottedHasItsKey(a.0, a.1, a.2);
    DottedHasItsKey(b.0, b.1, b.2);
    EarlierOfTwoGates(x, y, tags);
  }

  /** 1.9.0 gates 1.10.0, not the other way round. */
  lemma NineGatesTen(x: BL, y: BL, tags: VersionTags)
    requires x.library == y.library && x.targetVersion == "1.9.0" && y.targetVersion == "1.10.0" && IsVersionTags(tags, [x, y])
    ensures PreviousVersionTag(y, tags) == Some("tag:" + x.library + "@" + ("v" + "1.9.0")) && PreviousVersionTag(x, tags).None?
  {
    NineAndTen();
    EarlierVersionGatesLater(x, y, (1, 9, 0), (1, 10, 0), tags);
  }

  // ----- the edges of the plan -----

  predicate Gates(c: Milestones.MilestoneConstraint, bl: BL) {
    bl.library == c.dependent.library && NormalizeVersion(bl.targetVersion) == c.dependent.version
  }

  function RequiredTag(c: Milestones.MilestoneConstraint): string {
    TagNode(c.required.library, c.required.version)
  }

  /** The three sources of an edge, as the requirements name them. */
  ghost predicate Justified(e: DagEdge, backlog: seq<BL>, tags: VersionTags, plan: seq<Milestones.MilestoneConstraint>) {
    match e.kind
    case DEPENDS_ON => exists bl :: bl in backlog && bl.id == e.target && e.source in bl.dependsOn
    case VERSION_TAG => exists bl :: bl in backlog && bl.id == e.target && PreviousVersionTag(bl, tags) == Some(e.source)
    case MILESTONE => exists bl, c :: bl in backlog && c in plan && bl.id == e.target && Gates(c, bl) && e.source == RequiredTag(c)
  }

  ghost predicate IsPlanningDag(dag: Dag, backlog: seq<BL>, tags: VersionTags, plan: seq<Milestones.MilestoneConstraint>) {
    && dag.backlogIds == Ids(backlog) <= dag.graph.Keys
    && Materialises(dag.graph, dag.edges)
    && (forall e :: e in dag.edges <==> Justified(e, backlog, tags, plan))
  }

  /** What every builder loop keeps: the graph realises the list, and the list is justified. */
  ghost predicate Sound(g: Graph, edges: seq<DagEdge>, backlog: seq<BL>, tags: VersionTags, plan: seq<Milestones.MilestoneConstraint>) {
    Materialises(g, edges) && forall e :: e in edges ==> Justified(e, backlog, tags, plan)
  }

  /** One more justified edge. */
  method Connect(g: Graph, edges: seq<DagEdge>, e: DagEdge, ghost backlog: seq<BL>, ghost tags: VersionTags,
                 ghost plan: seq<Milestones.MilestoneConstraint>)
    returns (h: Graph, more: seq<DagEdge>)
    requires Sound(g, edges, backlog, tags, plan) && Justified(e, backlog, tags, plan)
    ensures Sound(h, more, backlog, tags, plan) && g.Keys <= h.Keys && more == edges + [e]
  {
    MaterialisesOneMore(g, edges, e);
    return AddEdge(g, e.source, e.target), edges + [e];
  }

  ghost predicate HasDepends(edges: seq<DagEdge>, bl: BL) {
    forall dep :: dep in bl.dependsOn ==> DagEdge(dep, bl.id, DEPENDS_ON) in edges
  }

  ghost predicate HasVersionTag(edges: seq<DagEdge>, bl: BL, tags: VersionTags) {
    PreviousVersionTag(bl, tags).Some? ==> DagEdge(PreviousVersionTag(bl, tags).value, bl.id, VERSION_TAG) in edges
  }

  ghost predicate HasMilestone(edges: seq<DagEdge>, bl: BL, c: Milestones.MilestoneConstraint) {
    Gates(c, bl) ==> DagEdge(RequiredTag(c), bl.id, MILESTONE) in edges
  }

  method AddDependsEdges(g0: Graph, edges0: seq<DagEdge>, backlog: seq<BL>, ghost tags: VersionTags,
                         ghost plan: seq<Milestones.MilestoneConstraint>)
    returns (g: Graph, edges: seq<DagEdge>)
    requires Sound(g0, edges0, backlog, tags, plan)
    ensures Sound(g, edges, backlog, tags, plan) && g0.Keys <= g.Keys && edges0 <= edges
    ensures forall bl :: bl in backlog ==> HasDepends(edges, bl)
  {
    g, edges := g0, edges0;
    for i := 0 to |backlog|
      invariant Sound(g, edges, backlog, tags, plan) && g0.Keys <= g.Keys && edges0 <= edges
      invariant forall k :: 0 <= k < i ==> HasDepends(edges, backlog[k])
    {
      var bl := backlog[i];
      for j := 0 to |bl.dependsOn|
        invariant Sound(g, edges, backlog, tags, plan) && g0.Keys <= g.Keys && edges0 <= edges
        invariant forall k :: 0 <= k < i ==> HasDepends(edges, backlog[k])
        invariant forall k :: 0 <= k < j ==> DagEdge(bl.dependsOn[k], bl.id, DEPENDS_ON) in edges
      {
        var e := DagEdge(bl.dependsOn[j], bl.id, DEPENDS_ON);
        g, edges := Connect(g, edges, e, backlog, tags, plan);
      }
    }
  }

  ghost predicate AllTagged(edges: seq<DagEdge>, bls: seq<BL>, tags: VersionTags) {
    forall bl :: bl in bls ==> HasVersionTag(edges, bl, tags)
  }

  lemma TaggedOneMore(edges: seq<DagEdge>, bls: seq<BL>, tags: VersionTags, bl: BL, more: seq<DagEdge>)
    requires AllTagged(edges, bls, tags) && edges <= more && HasVersionTag(more, bl, tags)
    ensures AllTagged(more, bls + [bl], tags)
  {
    forall x | x in bls + [bl] ensures HasVersionTag(more, x, tags) {
      if x in bls { assert HasVersionTag(edges, x, tags); }
    }
  }

  lemma VersionEdgeIsJustified(backlog: seq<BL>, tags: VersionTags, plan: seq<Milestones.MilestoneConstraint>, bl: BL, previous: string)
    requires bl in backlog && PreviousVersionTag(bl, tags) == Some(previous)
    ensures Justified(DagEdge(previous, bl.id, VERSION_TAG), backlog, tags, plan)
  {
  }

  /** Gates one item by the previous version, if there is one. */
  method AddVersionEdge(g0: Graph, edges0: seq<DagEdge>, bl: BL, ghost backlog: seq<BL>, tags: VersionTags,
                        ghost plan: seq<Milestones.MilestoneConstraint>)
    returns (g: Graph, edges: seq<DagEdge>)
    requires Sound(g0, edges0, backlog, tags, plan) && bl in backlog
    ensures Sound(g, edges, backlog, tags, plan) && g0.Keys <= g.Keys && edges0 <= edges
    ensures HasVersionTag(edges, bl, tags)
  {
    g, edges := g0, edges0;
    var previous := PreviousVersionTag(bl, tags);
    if previous.Some? {
      VersionEdgeIsJustified(backlog, tags, plan, bl, previous.value);
      g, edges := Connect(g, edges, DagEdge(previous.value, bl.id, VERSION_TAG), backlog, tags, plan);
    }
  }

  method AddVersionEdges(g0: Graph, edges0: seq<DagEdge>, backlog: seq<BL>, tags: VersionTags,
                         ghost plan: seq<Milestones.MilestoneConstraint>)
    returns (g: Graph, edges: seq<DagEdge>)
    requires Sound(g0, edges0, backlog, tags, plan)
    ensures Sound(g, edges, backlog, tags, plan) && g0.Keys <= g.Keys && edges0 <= edges
    ensures forall bl :: bl in backlog ==> HasVersionTag(edges, bl, tags)
  {
    g, edges := g0, edges0;
    for i := 0 to |backlog|
      invariant Sound(g, edges, backlog, tags, plan) && g0.Keys <= g.Keys && edges0 <= edges
      invariant AllTagged(edges, backlog[..i], tags)
    {
      ghost var before := edges;
      g, edges := AddVersionEdge(g, edges, backlog[i], backlog, tags, plan);
      TaggedOneMore(before, backlog[..i], tags, backlog[i], edges);
      assert backlog[..i+1] == backlog[..i] + [backlog[i]];
    }
    assert backlog[..|backlog|] == backlog;
  }

  method AddMilestoneEdges(g0: Graph, edges0: seq<DagEdge>, backlog: seq<BL>, ghost tags: VersionTags,
                           plan: seq<Milestones.MilestoneConstraint>)
    returns (g: Graph, edges: seq<DagEdge>)
    requires Sound(g0, edges0, backlog, tags, plan)
    ensures Sound(g, edges, backlog, tags, plan) && g0.Keys <= g.Keys && edges0 <= edges
    ensures forall bl, c :: bl in backlog && c in plan ==> HasMilestone(edges, bl, c)
  {
    g, edges := g0, edges0;
    for i := 0 to |plan|
      invariant Sound(g, edges, backlog, tags, plan) && g0.Keys <= g.Keys && edges0 <= edges
      invariant forall k, bl :: 0 <= k < i && bl in backlog ==> HasMilestone(edges, bl, plan[k])
    {
      g := AddNode(g, RequiredTag(plan[i]));
      for j := 0 to |backlog|
        invariant Sound(g, edges, backlog, tags, plan) && g0.Keys <= g.Keys && edges0 <= edges
        invariant forall k, bl :: 0 <= k < i && bl in backlog ==> HasMilestone(edges, bl, plan[k])
        invariant forall k :: 0 <= k < j ==> HasMilestone(edges, backlog[k], plan[i])
      {
        if Gates(plan[i], backlog[j]) {
          var e := DagEdge(RequiredTag(plan[i]), backlog[j].id, MILESTONE);
          assert backlog[j] in backlog && plan[i] in plan;
          g, edges := Connect(g, edges, e, backlog, tags, plan);
        }
      }
    }
  }

  lemma JustifiedIsListed(e: DagEdge, g: Graph, edges: seq<DagEdge>, backlog: seq<BL>, tags: VersionTags, plan: seq<Milestones.MilestoneConstraint>)
    requires Justified(e, backlog, tags, plan)
    requires forall bl :: bl in backlog ==> HasDepends(edges, bl)
    requires forall bl :: bl in backlog ==> HasVersionTag(edges, bl, tags)
    requires forall bl, c :: bl in backlog && c in plan ==> HasMilestone(edges, bl, c)
    ensures e in edges
  {
    match e.kind {
      case DEPENDS_ON =>
        var bl :| bl in backlog && bl.id == e.target && e.source in bl.dependsOn;
        assert HasDepends(edges, bl);
      case VERSION_TAG =>
        var bl :| bl in backlog && bl.id == e.target && PreviousVersionTag(bl, tags) == Some(e.source);
        assert HasVersionTag(edges, bl, tags);
      case MILESTONE =>
        var bl, c :| bl in backlog && c in plan && bl.id == e.target && Gates(c, bl) && e.source == RequiredTag(c);
        assert HasMilestone(edges, bl, c);
    }
  }

  /** The tag of `x` gates the item: `x` is of its library and at another, no later version, and no version
      of the library lies between. */
  ghost predicate GatedBy(backlog: seq<BL>, bl: BL, x: BL) {
    && x in backlog && x.library == bl.library && NormalizeVersion(x.targetVersion) != NormalizeVersion(bl.targetVersion)
    && NoLater(NormalizeVersion(x.targetVersion), NormalizeVersion(bl.targetVersion))
    && forall y :: y in backlog && y.library == bl.library ==>
         NoLater(NormalizeVersion(y.targetVersion), NormalizeVersion(x.targetVersion))
         || NoLater(NormalizeVersion(bl.targetVersion), NormalizeVersion(y.targetVersion))
  }

  /** Every version gate runs from the tag of the latest earlier version of the item's library. */
  ghost predicate GatesRunUpwards(edges: seq<DagEdge>, backlog: seq<BL>) {
    forall e :: e in edges && e.kind == VERSION_TAG ==>
      exists bl, x :: bl in backlog && bl.id == e.target && GatedBy(backlog, bl, x)
                      && e.source == "tag:" + bl.library + "@" + NormalizeVersion(x.targetVersion)
  }

  /** An item that has an earlier version in its library is gated. */
  ghost predicate LaterIsGated(edges: seq<DagEdge>, backlog: seq<BL>) {
    forall bl, x :: bl in backlog && x in backlog && x.library == bl.library
                    && !NoLater(NormalizeVersion(bl.targetVersion), NormalizeVersion(x.targetVersion)) ==>
      exists e :: e in edges && e.kind == VERSION_TAG && e.target == bl.id
  }

  /** Normalizing twice changes nothing. */
  lemma NormalizedStays(version: string)
    ensures NormalizeVersion(NormalizeVersion(version)) == NormalizeVersion(version)
  {
    StripHasNoSpace(version);
    StripNothing(NormalizeVersion(version));
  }

  lemma GateRunsUpwards(backlog: seq<BL>, bl: BL, tags: VersionTags) returns (x: BL)
    requires AllKeyed(backlog) && IsVersionTags(tags, backlog) && bl in backlog && PreviousVersionTag(bl, tags).Some?
    ensures GatedBy(backlog, bl, x)
    ensures PreviousVersionTag(bl, tags).value == "tag:" + bl.library + "@" + NormalizeVersion(x.targetVersion)
  {
    PreviousVersionIsEarlier(backlog, bl, tags);
    var own, versions := NormalizeVersion(bl.targetVersion), VersionsOf(backlog, bl.library);
    var p :| LatestEarlier(p, own, versions) && PreviousVersionTag(bl, tags).value == TagNode(bl.library, p);
    x :| x in backlog && x.library == bl.library && NormalizeVersion(x.targetVersion) == p;
    NormalizedStays(x.targetVersion);
    forall y | y in backlog && y.library == bl.library ensures NormalizeVersion(y.targetVersion) in versions {
    }
  }

  lemma VersionGatesRunUpwards(edges: seq<DagEdge>, backlog: seq<BL>, tags: VersionTags, plan: seq<Milestones.MilestoneConstraint>)
    requires AllKeyed(backlog) && IsVersionTags(tags, backlog) && forall e :: e in edges ==> Justified(e, backlog, tags, plan)
    ensures GatesRunUpwards(edges, backlog)
  {
    forall e | e in edges && e.kind == VERSION_TAG
      ensures exists bl, x :: bl in backlog && bl.id == e.target && GatedBy(backlog, bl, x)
                              && e.source == "tag:" + bl.library + "@" + NormalizeVersion(x.targetVersion)
    {
      var bl :| bl in backlog && bl.id == e.target && PreviousVersionTag(bl, tags) == Some(e.source);
      var x := GateRunsUpwards(backlog, bl, tags);
    }
  }

  lemma LaterHasPrevious(backlog: seq<BL>, bl: BL, x: BL, tags: VersionTags)
    requires AllKeyed(backlog) && IsVersionTags(tags, backlog) && bl in backlog && x in backlog && x.library == bl.library
    requires !NoLater(NormalizeVersion(bl.targetVersion), NormalizeVersion(x.targetVersion))
    ensures PreviousVersionTag(bl, tags).Some?
  {
    PreviousVersionIsEarlier(backlog, bl, tags);
    assert NormalizeVersion(x.targetVersion) in VersionsOf(backlog, bl.library);
  }

  lemma LaterVersionsAreGated(edges: seq<DagEdge>, backlog: seq<BL>, tags: VersionTags)
    requires AllKeyed(backlog) && IsVersionTags(tags, backlog) && forall bl :: bl in backlog ==> HasVersionTag(edges, bl, tags)
    ensures LaterIsGated(edges, backlog)
  {
    forall bl, x | bl in backlog && x in backlog && x.library == bl.library
                   && !NoLater(NormalizeVersion(bl.targetVersion), NormalizeVersion(x.targetVersion))
      ensures exists e :: e in edges && e.kind == VERSION_TAG && e.target == bl.id
    {
      LaterHasPrevious(backlog, bl, x, tags);
      var e := DagEdge(PreviousVersionTag(bl, tags).value, bl.id, VERSION_TAG);
      assert HasVersionTag(edges, bl, tags);
      assert e in edges;
    }
  }

  /** None stands for the ValueError a version without a numeric triple raises. */
  method BuildPlanningDag(backlog: seq<BL>, plan: seq<Milestones.MilestoneConstraint>)
    returns (r: Option<Dag>, ghost tags: VersionTags)
    ensures r.Some? <==> AllKeyed(backlog)
    ensures r.Some? ==> IsVersionTags(tags, backlog) && IsPlanningDag(r.value, backlog, tags, plan)
    ensures r.Some? ==> GatesRunUpwards(r.value.edges, backlog) && LaterIsGated(r.value.edges, backlog)
  {
    var listing := VersionTagsByLibrary(backlog);
    tags := map[];
    if listing.None? {
      return None, tags;
    }
    tags := listing.value;
    var g: Graph, edges: seq<DagEdge> := map[], [];
    for i := 0 to |backlog|
      invariant g.Keys == Ids(backlog[..i]) && Closed(g) && forall a, b :: !Edge(g, a, b)
    {
      assert backlog[..i+1] == backlog[..i] + [backlog[i]];
      g := AddNode(g, backlog[i].id);
    }
    assert backlog[..|backlog|] == backlog;
    g, edges := AddDependsEdges(g, edges, backlog, tags, plan);
    g, edges := AddVersionEdges(g, edges, backlog, listing.value, plan);
    g, edges := AddMilestoneEdges(g, edges, backlog, tags, plan);
    forall e | Justified(e, backlog, tags, plan) ensures e in edges {
      JustifiedIsListed(e, g, edges, backlog, tags, plan);
    }
    VersionGatesRunUpwards(edges, backlog, tags, plan);
    LaterVersionsAreGated(edges, backlog, tags);
    return Some(Dag(g, edges, Ids(backlog))), tags;
  }

  /** For validated versions the milestone gates are exactly those from a required version's tag to an
      item of the dependent library at the dependent version. */
  lemma MilestoneEdgesAre(dag: Dag, backlog: seq<BL>, tags: VersionTags, plan: seq<Milestones.MilestoneConstraint>, e: DagEdge)
    requires IsPlanningDag(dag, backlog, tags, plan) && e.kind == MILESTONE
    requires forall bl :: bl in backlog ==> IsSemVer(bl.targetVersion)
    ensures e in dag.edges <==>
            exists bl, c :: bl in backlog && c in plan && bl.id == e.target
                            && bl.library == c.dependent.library && "v" + bl.targetVersion == c.dependent.version
                            && e.source == "tag:" + c.required.library + "@" + NormalizeVersion(c.required.version)
  {
    forall bl | bl in backlog ensures NormalizeVersion(bl.targetVersion) == "v" + bl.targetVersion {
      var s: SemVer :| s.Writes(bl.targetVersion);
      SemVerStands(s, bl.targetVersion);
    }
    if e in dag.edges {
      assert Justified(e, backlog, tags, plan);
      var bl, c :| bl in backlog && c in plan && bl.id == e.target && Gates(c, bl) && e.source == RequiredTag(c);
      assert bl.library == c.dependent.library && "v" + bl.targetVersion == c.dependent.version;
    }
    if bl, c :| bl in backlog && c in plan && bl.id == e.target
                && bl.library == c.dependent.library && "v" + bl.targetVersion == c.dependent.version
                && e.source == "tag:" + c.required.library + "@" + NormalizeVersion(c.required.version) {
      assert Gates(c, bl) && e.source == RequiredTag(c);
      assert Justified(e, backlog, tags, plan);
    }
  }

  // ----- shape of the graph -----

  lemma {:induction false} UniqueIsKept(backlog: seq<BL>, bl: BL)
    requires forall i, j :: 0 <= i < j < |backlog| ==> backlog[i].id != backlog[j].id
    requires bl in backlog
    ensures bl.id in ValidateSpecs.DependsGraph(backlog)
    ensures ValidateSpecs.DependsGraph(backlog)[bl.id] == bl.dependsOn
    decreases |backlog|
  {
    var last := backlog[|backlog|-1];
    if bl != last {
      UniqueIsKept(backlog[..|backlog|-1], bl);
    }
  }

  lemma {:induction false} GraphOfValid(backlog: seq<BL>, bl: BL)
    requires ValidBacklog(backlog) && bl in backlog
    ensures bl.id in ValidateSpecs.DependsGraph(backlog)
    ensures ValidateSpecs.DependsGraph(backlog)[bl.id] == bl.dependsOn
  {
    UniqueIsKept(backlog, bl);
  }

  lemma ItemIsNoTag(backlog: seq<BL>, id: string)
    requires ValidBacklog(backlog) && id in Ids(backlog)
    ensures !IsTag(id)
  {
    var bl :| bl in backlog && bl.id == id;
    assert BacklogId(bl.id) && "BL-"[0] == 'B';
    assert TAG_PREFIX[0] == 't';
  }

  /** Tags only start edges, and between two backlog items the edges are the dependencies. */
  lemma EdgeShape(dag: Dag, backlog: seq<BL>, tags: VersionTags, plan: seq<Milestones.MilestoneConstraint>, a: string, b: string)
    requires IsPlanningDag(dag, backlog, tags, plan) && ValidBacklog(backlog)
    requires Edge(dag.graph, a, b)
    ensures b in dag.backlogIds && !IsTag(b)
    ensures !IsTag(a) ==> a in dag.backlogIds && Edge(ValidateSpecs.DependsGraph(backlog), b, a)
  {
    var e :| e in dag.edges && e.source == a && e.target == b;
    assert Justified(e, backlog, tags, plan);
    var bl :| bl in backlog && bl.id == b;
    ItemIsNoTag(backlog, b);
    if !IsTag(a) {
      assert e.kind == DEPENDS_ON;
      var c :| c in backlog && c.id == b && a in c.dependsOn;
      GraphOfValid(backlog, c);
    }
  }

  lemma DependencyOf(backlog: seq<BL>, b: string, a: string)
    requires ValidBacklog(backlog) && Edge(ValidateSpecs.DependsGraph(backlog), b, a)
    ensures a in Ids(backlog) && b in Ids(backlog)
    ensures exists bl :: bl in backlog && bl.id == b && a in bl.dependsOn
  {
    var bl :| bl in backlog && bl.id == b;
    GraphOfValid(backlog, bl);
  }

  lemma DependencyIsEdge(dag: Dag, backlog: seq<BL>, tags: VersionTags, plan: seq<Milestones.MilestoneConstraint>, a: string, b: string)
    requires IsPlanningDag(dag, backlog, tags, plan) && ValidBacklog(backlog)
    requires Edge(ValidateSpecs.DependsGraph(backlog), b, a)
    ensures Edge(dag.graph, a, b) && !IsTag(a) && a in dag.backlogIds && b in dag.backlogIds
  {
    DependencyOf(backlog, b, a);
    var e := DagEdge(a, b, DEPENDS_ON);
    assert Justified(e, backlog, tags, plan);
    assert e in dag.edges;
    assert Listed(dag.edges, a, b);
    ItemIsNoTag(backlog, a);
  }

  /** What the scheduling passes rely on: tags only start edges, and the edges between backlog
      items are exactly their declared dependencies. */
  ghost predicate Plans(dag: Dag, backlog: seq<BL>) {
    && ValidBacklog(backlog) && dag.backlogIds == Ids(backlog) <= dag.graph.Keys
    && (forall a, b :: Edge(dag.graph, a, b) ==> b in dag.backlogIds && (a in dag.backlogIds || IsTag(a)))
    && forall a, b :: a in dag.backlogIds && b in dag.backlogIds ==>
         (Edge(dag.graph, a, b) <==> Edge(ValidateSpecs.DependsGraph(backlog), b, a))
  }

  /** Every graph built from a valid backlog has that shape, whatever the version tags and milestones. */
  lemma BuiltDagPlans(dag: Dag, backlog: seq<BL>, tags: VersionTags, plan: seq<Milestones.MilestoneConstraint>)
    requires IsPlanningDag(dag, backlog, tags, plan) && ValidBacklog(backlog)
    ensures Plans(dag, backlog)
  {
    forall a, b | Edge(dag.graph, a, b) ensures b in dag.backlogIds && (a in dag.backlogIds || IsTag(a)) {
      EdgeShape(dag, backlog, tags, plan, a, b);
    }
    forall a, b | a in dag.backlogIds && b in dag.backlogIds
      ensures Edge(dag.graph, a, b) <==> Edge(ValidateSpecs.DependsGraph(backlog), b, a)
    {
      if Edge(dag.graph, a, b) {
        ItemIsNoTag(backlog, a);
        EdgeShape(dag, backlog, tags, plan, a, b);
      }
      if Edge(ValidateSpecs.DependsGraph(backlog), b, a) {
        DependencyIsEdge(dag, backlog, tags, plan, a, b);
      }
    }
  }

  lemma CycleAvoidsTags(dag: Dag, backlog: seq<BL>, p: seq<string>)
    requires Plans(dag, backlog) && ClosedWalk(dag.graph, p)
    ensures forall i :: 0 <= i < |p| ==> p[i] in dag.backlogIds
  {
    forall i | 0 < i < |p| ensures p[i] in dag.backlogIds {
      assert Edge(dag.graph, p[i-1], p[i-1+1]);
    }
  }

  /** The planning graph has a cycle exactly when the declared dependencies have one. */
  lemma CyclicIffDependenciesCyclic(dag: Dag, backlog: seq<BL>)
    requires Plans(dag, backlog)
    ensures Cyclic(dag.graph) <==> Cyclic(ValidateSpecs.DependsGraph(backlog))
  {
    var deps := ValidateSpecs.DependsGraph(backlog);
    assert deps.Keys == dag.backlogIds;
    var items := Induced(dag.graph, dag.backlogIds);
    if Cyclic(dag.graph) {
      var p :| ClosedWalk(dag.graph, p);
      CycleAvoidsTags(dag, backlog, p);
      forall i | 0 <= i < |p| - 1 ensures Edge(items, p[i], p[i+1]) {
        assert Edge(dag.graph, p[i], p[i+1]);
      }
      assert ClosedWalk(items, p);
      CyclicReversed(items, deps);
    }
    if Cyclic(deps) {
      CyclicReversed(deps, dag.graph);
    }
  }

  // ----- the cycle diagnostic -----

  datatype CycleDiagnostic = CycleDiagnostic(cycleNodes: seq<string>, cycleBlIds: seq<string>, faultyEdges: seq<DagEdge>)

  /** A cycle of the graph, found by depth-first search, as the list of its nodes. */
  method FindCycle(g: Graph) returns (r: Option<seq<string>>)
    ensures r.Some? ==> ClosedWalk(g, r.value)
    ensures r.Some? <==> Cyclic(g)
  {
    var finder := new ValidateSpecs.CycleFinder(g);
    var todo := g.Keys;
    while todo != {}
      invariant finder.Valid() && finder.graph == g && finder.visiting == {}
      invariant todo <= g.Keys && g.Keys - todo <= finder.done
      decreases |todo|
    {
      var n :| n in todo;
      finder.Visit(n, []);
      todo := todo - {n};
    }
    assert finder.done == g.Keys;
    if finder.cycles == [] {
      forall w | ClosedWalk(g, w) ensures false {
        ValidateSpecs.EveryCycleCloses(g, finder.finished, [], w);
      }
      return None;
    }
    assert ClosedWalk(g, finder.cycles[0]);
    return Some(finder.cycles[0]);
  }

  /** The last listed edge between two nodes, as a dictionary keyed by the pair keeps it. */
  function EdgeBetween(edges: seq<DagEdge>, a: string, b: string): (r: Option<DagEdge>)
    ensures r.Some? <==> Listed(edges, a, b)
    ensures r.Some? ==> r.value in edges && r.value.source == a && r.value.target == b
  {
    if edges == [] then None else
      var last := edges[|edges|-1];
      assert forall e :: e in edges <==> e in edges[..|edges|-1] || e == last;
      if last.source == a && last.target == b then Some(last) else EdgeBetween(edges[..|edges|-1], a, b)
  }

  /** A closed walk, its edges in order as the list has them, and its items once each. */
  ghost predicate IsDiagnostic(d: CycleDiagnostic, g: Graph, edges: seq<DagEdge>) {
    && ClosedWalk(g, d.cycleNodes)
    && |d.faultyEdges| == |d.cycleNodes| - 1
    && (forall i :: 0 <= i < |d.faultyEdges| ==>
          && d.faultyEdges[i].source == d.cycleNodes[i] && d.faultyEdges[i].target == d.cycleNodes[i+1]
          && (Listed(edges, d.cycleNodes[i], d.cycleNodes[i+1]) ==> d.faultyEdges[i] in edges))
    && Distinct(d.cycleBlIds)
    && Elems(d.cycleBlIds) == (set n | n in d.cycleNodes && !IsTag(n))
  }

  method DetectCycle(g: Graph, edges: seq<DagEdge>) returns (r: Option<CycleDiagnostic>)
    ensures r.Some? <==> Cyclic(g)
    ensures r.Some? ==> IsDiagnostic(r.value, g, edges)
  {
    var found := FindCycle(g);
    if found.None? {
      return None;
    }
    var nodes := found.value;
    var faulty: seq<DagEdge> := [];
    for i := 0 to |nodes| - 1
      invariant |faulty| == i
      invariant forall k :: 0 <= k < i ==>
        && faulty[k].source == nodes[k] && faulty[k].target == nodes[k+1]
        && (Listed(edges, nodes[k], nodes[k+1]) ==> faulty[k] in edges)
    {
      var mapped := EdgeBetween(edges, nodes[i], nodes[i+1]);
      faulty := faulty + [if mapped.Some? then mapped.value else DagEdge(nodes[i], nodes[i+1], DEPENDS_ON)];
    }
    var ids: seq<string> := [];
    for i := 0 to |nodes|
      invariant Distinct(ids) && forall n :: n in ids <==> n in nodes[..i] && !IsTag(n)
    {
      if !IsTag(nodes[i]) && nodes[i] !in ids {
        ids := ids + [nodes[i]];
      }
    }
    assert nodes[..|nodes|] == nodes;
    return Some(CycleDiagnostic(nodes, ids, faulty));
  }

  /** On a built planning graph every edge a diagnostic blames is a declared dependency between
      backlog items: version gates and milestones never close a cycle. */
  lemma CyclesBlameDependenciesOnly(dag: Dag, backlog: seq<BL>, tags: VersionTags, plan: seq<Milestones.MilestoneConstraint>, p: seq<string>, i: nat, e: DagEdge)
    requires IsPlanningDag(dag, backlog, tags, plan) && ValidBacklog(backlog)
    requires ClosedWalk(dag.graph, p) && i < |p| - 1
    requires e in dag.edges && e.source == p[i] && e.target == p[i+1]
    ensures e.kind == DEPENDS_ON && e.source in dag.backlogIds && e.target in dag.backlogIds
  {
    BuiltDagPlans(dag, backlog, tags, plan);
    CycleAvoidsTags(dag, backlog, p);
    ItemIsNoTag(backlog, p[i]);
    assert Justified(e, backlog, tags, plan);
  }

  lemma DiagnosedIsDependencyCycle(dag: Dag, backlog: seq<BL>, p: seq<string>)
    requires Plans(dag, backlog) && ClosedWalk(dag.graph, p)
    ensures ClosedWalk(ValidateSpecs.DependsGraph(backlog), Reversed(p))
  {
    CycleAvoidsTags(dag, backlog, p);
    forall i | 0 <= i < |p| - 1 ensures Edge(ValidateSpecs.DependsGraph(backlog), p[i+1], p[i]) {
      assert Edge(dag.graph, p[i], p[i+1]);
    }
    ClosedWalkReversed(dag.graph, ValidateSpecs.DependsGraph(backlog), p);
  }

  /** The diagnostic, in terms of the backlog alone: read backwards its nodes are a cycle of the
      declared dependencies, its edges are these dependencies, and its items are all the nodes. */
  ghost predicate Diagnoses(d: CycleDiagnostic, backlog: seq<BL>) {
    && ClosedWalk(ValidateSpecs.DependsGraph(backlog), Reversed(d.cycleNodes))
    && |d.faultyEdges| == |d.cycleNodes| - 1
    && (forall i :: 0 <= i < |d.faultyEdges| ==> d.faultyEdges[i] == DagEdge(d.cycleNodes[i], d.cycleNodes[i+1], DEPENDS_ON))
    && Distinct(d.cycleBlIds) && Elems(d.cycleBlIds) == Elems(d.cycleNodes)
  }

  lemma BlamedEdge(d: CycleDiagnostic, dag: Dag, backlog: seq<BL>, tags: VersionTags, plan: seq<Milestones.MilestoneConstraint>, i: nat)
    requires IsPlanningDag(dag, backlog, tags, plan) && ValidBacklog(backlog) && IsDiagnostic(d, dag.graph, dag.edges)
    requires i < |d.faultyEdges|
    ensures d.faultyEdges[i] == DagEdge(d.cycleNodes[i], d.cycleNodes[i+1], DEPENDS_ON)
  {
    assert Edge(dag.graph, d.cycleNodes[i], d.cycleNodes[i+1]);
    CyclesBlameDependenciesOnly(dag, backlog, tags, plan, d.cycleNodes, i, d.faultyEdges[i]);
  }

  /** What is diagnosed on a built graph is a cycle of the dependencies, and blames nothing else. */
  lemma DiagnosticIsDependencyCycle(d: CycleDiagnostic, dag: Dag, backlog: seq<BL>, tags: VersionTags, plan: seq<Milestones.MilestoneConstraint>)
    requires IsPlanningDag(dag, backlog, tags, plan) && ValidBacklog(backlog) && IsDiagnostic(d, dag.graph, dag.edges)
    ensures Diagnoses(d, backlog)
  {
    BuiltDagPlans(dag, backlog, tags, plan);
    DiagnosedIsDependencyCycle(dag, backlog, d.cycleNodes);
    forall i | 0 <= i < |d.faultyEdges| ensures d.faultyEdges[i] == DagEdge(d.cycleNodes[i], d.cycleNodes[i+1], DEPENDS_ON) {
      BlamedEdge(d, dag, backlog, tags, plan, i);
    }
    CycleAvoidsTags(dag, backlog, d.cycleNodes);
    forall n | n in d.cycleNodes ensures !IsTag(n) {
      ItemIsNoTag(backlog, n);
    }
  }

  /** The two cycle detectors agree: on a valid backlog both find a cycle exactly when the declared
      dependencies have one. What the planner diagnoses is, read backwards, a cycle of the
      dependencies, and shares an edge with one that the validator reports. */
  method DetectorsAgree(backlog: seq<BL>, plan: seq<Milestones.MilestoneConstraint>)
    returns (diagnostic: Option<CycleDiagnostic>, findings: seq<seq<string>>)
    requires ValidBacklog(backlog) && AllKeyed(backlog)
    ensures diagnostic.Some? <==> Cyclic(ValidateSpecs.DependsGraph(backlog))
    ensures findings != [] <==> Cyclic(ValidateSpecs.DependsGraph(backlog))
    ensures forall f :: f in findings ==> ClosedWalk(ValidateSpecs.DependsGraph(backlog), f)
    ensures diagnostic.Some? ==> Diagnoses(diagnostic.value, backlog)
                                 && ValidateSpecs.Hit(findings, Reversed(diagnostic.value.cycleNodes))
  {
    var dag, tags := BuildPlanningDag(backlog, plan);
    BuiltDagPlans(dag.value, backlog, tags, plan);
    CyclicIffDependenciesCyclic(dag.value, backlog);
    diagnostic := DetectCycle(dag.value.graph, dag.value.edges);
    findings := ValidateSpecs.CheckCycles(backlog);
    if diagnostic.Some? {
      DiagnosticIsDependencyCycle(diagnostic.value, dag.value, backlog, tags, plan);
    }
  }
}
