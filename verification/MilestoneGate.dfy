/** Which items the milestones hold back, and how that agrees with the planning graph. */
module MilestoneGate {
  import opened Domain
  import opened Versions
  import opened SpecIndex
  import opened PlanningDag
  import opened GraphUpdates
  import M = Milestones

  /** The tagged versions of each library. */
  type Tags = map<string, set<string>>

  function Normalized(versions: set<string>): set<string> {
    set v | v in versions :: NormalizeVersion(v)
  }

  function Tagged(tags: Tags, library: string): set<string> {
    if library in tags then tags[library] else {}
  }

  predicate IsSatisfied(c: M.MilestoneConstraint, tags: Tags) {
    NormalizeVersion(c.required.version) in Normalized(Tagged(tags, c.required.library))
  }

  /** The unsatisfied constraints on an item's library at its version, in the plan's order. */
  function MissingFor(plan: seq<M.MilestoneConstraint>, bl: BL, tags: Tags): seq<M.MilestoneConstraint> {
    if plan == [] then [] else
      var init, c := MissingFor(plan[..|plan|-1], bl, tags), plan[|plan|-1];
      if Gates(c, bl) && !IsSatisfied(c, tags) then init + [c] else init
  }

  predicate IsUnlocked(plan: seq<M.MilestoneConstraint>, bl: BL, tags: Tags) {
    MissingFor(plan, bl, tags) == []
  }

  lemma {:induction false} MissingAre(plan: seq<M.MilestoneConstraint>, bl: BL, tags: Tags)
    ensures forall c :: c in MissingFor(plan, bl, tags) <==> c in plan && Gates(c, bl) && !IsSatisfied(c, tags)
    decreases |plan|
  {
    if plan != [] {
      MissingAre(plan[..|plan|-1], bl, tags);
      assert forall c :: c in plan <==> c in plan[..|plan|-1] || c == plan[|plan|-1];
    }
  }

  // ----- agreement with the planning graph -----

  lemma {:induction false} SameUpToAt(a: string, x: string, b: string, y: string)
    requires '@' !in a && '@' !in b && a + "@" + x == b + "@" + y
    ensures a == b && x == y
    decreases |a|
  {
    var s := a + "@" + x;
    assert s[0] == if a == [] then '@' else a[0];
    assert (b + "@" + y)[0] == if b == [] then '@' else b[0];
    if a == [] {
      assert s[1..] == x && (b + "@" + y)[|b| + 1..] == y;
    } else if b != [] {
      assert s[1..] == a[1..] + "@" + x && s[1..] == b[1..] + "@" + y;
      SameUpToAt(a[1..], x, b[1..], y);
    }
  }

  /** A tag node names one library and one normalized version. */
  lemma TagNodeIsInjective(a: string, v: string, b: string, w: string)
    requires '@' !in a && '@' !in b
    ensures TagNode(a, v) == TagNode(b, w) <==> a == b && NormalizeVersion(v) == NormalizeVersion(w)
  {
    var x, y := NormalizeVersion(v), NormalizeVersion(w);
    assert TagNode(a, v)[|TAG_PREFIX|..] == a + "@" + x && TagNode(b, w)[|TAG_PREFIX|..] == b + "@" + y;
    if TagNode(a, v) == TagNode(b, w) {
      SameUpToAt(a, x, b, y);
    }
  }

  ghost predicate IsTagOf(node: string, tags: Tags) {
    exists library, version :: library in tags && version in tags[library] && node == TagNode(library, version)
  }

  /** Library names are made of letters, digits and dashes in the milestone syntax. */
  predicate PlainNames(plan: seq<M.MilestoneConstraint>, tags: Tags) {
    (forall c :: c in plan ==> '@' !in c.required.library) && forall library :: library in tags ==> '@' !in library
  }

  lemma SatisfiedIffTagged(c: M.MilestoneConstraint, tags: Tags)
    requires '@' !in c.required.library && forall library :: library in tags ==> '@' !in library
    ensures IsSatisfied(c, tags) <==> IsTagOf(RequiredTag(c), tags)
  {
    var own := c.required.library;
    if IsSatisfied(c, tags) {
      var v :| v in Tagged(tags, own) && NormalizeVersion(v) == NormalizeVersion(c.required.version);
      TagNodeIsInjective(own, c.required.version, own, v);
      assert own in tags && v in tags[own] && RequiredTag(c) == TagNode(own, v);
    }
    if IsTagOf(RequiredTag(c), tags) {
      var library, version :| library in tags && version in tags[library] && RequiredTag(c) == TagNode(library, version);
      TagNodeIsInjective(own, c.required.version, library, version);
      assert NormalizeVersion(version) in Normalized(Tagged(tags, own));
    }
  }

  lemma EdgeIsTagged(backlog: seq<BL>, versionTags: VersionTags, plan: seq<M.MilestoneConstraint>, bl: BL, tags: Tags, e: DagEdge)
    requires ValidBacklog(backlog) && bl in backlog && PlainNames(plan, tags) && IsUnlocked(plan, bl, tags)
    requires e.kind == MILESTONE && e.target == bl.id && Justified(e, backlog, versionTags, plan)
    ensures IsTagOf(e.source, tags)
  {
    var b, c :| b in backlog && c in plan && b.id == e.target && Gates(c, b) && e.source == RequiredTag(c);
    assert b == bl;
    MissingAre(plan, bl, tags);
    assert c !in MissingFor(plan, bl, tags);
    SatisfiedIffTagged(c, tags);
  }

  /** A missing constraint has its edge, which starts from a tag that does not exist. */
  lemma MissingHasEdge(backlog: seq<BL>, versionTags: VersionTags, plan: seq<M.MilestoneConstraint>, bl: BL, tags: Tags)
    returns (e: DagEdge)
    requires bl in backlog && PlainNames(plan, tags) && !IsUnlocked(plan, bl, tags)
    ensures e.kind == MILESTONE && e.target == bl.id && Justified(e, backlog, versionTags, plan) && !IsTagOf(e.source, tags)
  {
    MissingAre(plan, bl, tags);
    var c := MissingFor(plan, bl, tags)[0];
    assert c in MissingFor(plan, bl, tags);
    SatisfiedIffTagged(c, tags);
    e := DagEdge(RequiredTag(c), bl.id, MILESTONE);
  }

  /** The milestones unlock an item exactly when every milestone edge into it in the planning graph
      starts from a tag that exists. */
  lemma UnlockedIffMilestoneEdgesTagged(dag: Dag, backlog: seq<BL>, versionTags: VersionTags, plan: seq<M.MilestoneConstraint>, bl: BL, tags: Tags)
    requires IsPlanningDag(dag, backlog, versionTags, plan) && ValidBacklog(backlog) && bl in backlog && PlainNames(plan, tags)
    ensures IsUnlocked(plan, bl, tags) <==>
            forall e :: e in dag.edges && e.kind == MILESTONE && e.target == bl.id ==> IsTagOf(e.source, tags)
  {
    if IsUnlocked(plan, bl, tags) {
      forall e | e in dag.edges && e.kind == MILESTONE && e.target == bl.id ensures IsTagOf(e.source, tags) {
        EdgeIsTagged(backlog, versionTags, plan, bl, tags, e);
      }
    } else {
      var e := MissingHasEdge(backlog, versionTags, plan, bl, tags);
    }
  }

  // ----- the ready listing -----

  /** The recorded status, or the one the item's file declares. */
  function StatusOf(st: StatusMap, declared: StatusMap, id: string): Option<Status> {
    if id in st then Some(st[id]) else if id in declared then Some(declared[id]) else None
  }

  predicate IsReady(bl: BL, st: StatusMap, declared: StatusMap, plan: seq<M.MilestoneConstraint>, tags: Tags) {
    && (StatusOf(st, declared, bl.id) == Some(TODO) || StatusOf(st, declared, bl.id) == Some(READY))
    && (forall dep :: dep in bl.dependsOn ==> Has(st, dep, DONE))
    && IsUnlocked(plan, bl, tags)
  }

  ghost predicate SelectsInOrder(r: seq<string>, at: seq<nat>, backlog: seq<BL>) {
    && |r| == |at|
    && (forall i :: 0 <= i < |at| ==> at[i] < |backlog| && r[i] == backlog[at[i]].id)
    && (forall i, j :: 0 <= i < j < |at| ==> at[i] < at[j])
  }

  ghost predicate ReadyAt(at: seq<nat>, backlog: seq<BL>, n: nat, st: StatusMap, declared: StatusMap, plan: seq<M.MilestoneConstraint>, tags: Tags)
    requires n <= |backlog|
  {
    forall k :: k in at <==> 0 <= k < n && IsReady(backlog[k], st, declared, plan, tags)
  }

  /** The ready items, each once, in the order of the backlog. */
  method MilestoneReadyBacklogItems(backlog: seq<BL>, st: StatusMap, declared: StatusMap, plan: seq<M.MilestoneConstraint>, tags: Tags)
    returns (ready: seq<string>)
    ensures exists at :: SelectsInOrder(ready, at, backlog) && ReadyAt(at, backlog, |backlog|, st, declared, plan, tags)
  {
    ready := [];
    ghost var at: seq<nat> := [];
    for i := 0 to |backlog|
      invariant SelectsInOrder(ready, at, backlog)
      invariant ReadyAt(at, backlog, i, st, declared, plan, tags)
    {
      var bl := backlog[i];
      if IsReady(bl, st, declared, plan, tags) {
        assert forall j :: 0 <= j < |at| ==> at[j] in at;
        ready, at := ready + [bl.id], at + [i];
      }
    }
  }

  /** For an item whose status is recorded, ready means runnable and unlocked. */
  lemma ReadyIsRunnableAndUnlocked(bl: BL, st: StatusMap, declared: StatusMap, plan: seq<M.MilestoneConstraint>, tags: Tags)
    requires bl.id in st
    ensures IsReady(bl, st, declared, plan, tags) <==> IsRunnable(bl, st) && IsUnlocked(plan, bl, tags)
  {
  }
}
