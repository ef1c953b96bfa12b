/** The whole planning pass, from resolved documents to the published snapshot. */
module Planning {
  import opened Domain
  import opened Graph
  import opened SpecIndex
  import opened PlanningDag
  import opened Waves
  import opened CriticalPath
  import opened GraphUpdates
  import opened Publish
  import opened Versions
  import Milestones
  import ValidateSpecs

  /** Why planning raises: an inconsistent specification set, a version without a numeric triple,
      or a cycle. */
  datatype PlanError = BadIndex(error: IndexError) | BadVersion | CyclicPlan(diagnostic: CycleDiagnostic)

  /** Every version, without its `v`, has a numeric triple to be ordered by. */
  ghost predicate AllOrdered(backlog: seq<BL>) {
    forall v :: v in PlainVersions(backlog) ==> NumericKey(v).Some?
  }

  /** The item stands once in the waves of exactly one version of the snapshot. */
  ghost predicate InSnapshot(s: Snapshot, bl: BL) {
    exists k, i :: SoleSpot(s, bl.id, k, i)
  }

  /** What a published plan promises, in terms of the backlog and the statuses alone. */
  ghost predicate Sound(s: Snapshot, dag: Dag, backlog: seq<BL>, st: StatusMap, waves: Schedule) {
    && Plans(dag, backlog) && IsSchedule(dag, st, waves)
    && EntryIds(s.backlog) == BlIds(backlog)
    && (forall bl :: bl in backlog ==>
          BacklogEntry(bl.id, bl.library, PlainVersion(bl.targetVersion), bl.size, bl.critical) in s.backlog)
    && (exists order :: IsSnapshot(s, backlog, order, s.globalCriticalPath, waves) && InVersionOrder(order))
    && (s.globalCriticalPath != [] ==> ActiveChain(dag, st, s.globalCriticalPath))
    && (forall i :: 0 <= i < |s.globalCriticalPath| - 1 ==> DependsOn(backlog, s.globalCriticalPath[i+1], s.globalCriticalPath[i]))
    && (forall bl, i, p :: bl in backlog && At(waves, i, bl.id) && p in bl.dependsOn && !Has(st, p, DONE) ==>
          exists j :: j < i && At(waves, j, p))
    && TotalWeight(s.versions) == PathWeight(SizesOf(backlog), s.globalCriticalPath)
    && (forall c :: ActiveChain(dag, st, c) ==> PathWeight(SizesOf(backlog), c) <= TotalWeight(s.versions))
    && (s.globalCriticalPath == [] <==> forall id :: id in dag.backlogIds ==> HeldUp(dag, st, id))
    && (forall bl :: bl in backlog ==> (Placed(waves, bl.id) <==> InSnapshot(s, bl)))
    && RunnableBacklogItems(backlog, st) == if waves == [] then [] else waves[0]
  }

  lemma PlacedIffInSnapshot(s: Snapshot, dag: Dag, backlog: seq<BL>, st: StatusMap, order: seq<string>, path: seq<string>, waves: Schedule, bl: BL)
    requires IsSnapshot(s, backlog, order, path, waves) && ValidBacklog(backlog) && IsSchedule(dag, st, waves) && bl in backlog
    ensures Placed(waves, bl.id) <==> InSnapshot(s, bl)
  {
    if Placed(waves, bl.id) {
      var a :| At(waves, a, bl.id);
      forall i, j, z | At(waves, i, z) && At(waves, j, z) ensures i == j {
        LayersAreDisjoint(dag, st, i, j, z);
      }
      ScheduledOncePerSnapshot(s, backlog, order, path, waves, bl, a);
    }
    if InSnapshot(s, bl) {
      var k, i :| SoleSpot(s, bl.id, k, i);
      assert IsVersionPlan(s.versions[k], backlog, order[k], path, waves);
      var ids := Ids(BlsForVersion(backlog, order[k]));
      var from := FilteringCuts(waves, ids);
      assert At(s.versions[k].waves, i, bl.id);
      assert At(waves, from[i], bl.id);
    }
  }

  /** A chain of the planning graph follows the declared dependencies. */
  lemma ChainFollowsDependencies(dag: Dag, backlog: seq<BL>, st: StatusMap, c: seq<string>, i: nat)
    requires Plans(dag, backlog) && ActiveChain(dag, st, c) && i < |c| - 1
    ensures DependsOn(backlog, c[i+1], c[i])
  {
    assert Edge(dag.graph, c[i], c[i+1]);
    assert c[i] in dag.backlogIds && c[i+1] in dag.backlogIds;
    DependencyOf(backlog, c[i+1], c[i]);
  }

  lemma PublishedIsSound(s: Snapshot, dag: Dag, backlog: seq<BL>, st: StatusMap, order: seq<string>, path: seq<string>, waves: Schedule)
    requires Plans(dag, backlog) && !Cyclic(dag.graph) && IsSchedule(dag, st, waves) && IsSnapshot(s, backlog, order, path, waves)
    requires path != [] ==> ActiveChain(dag, st, path)
    requires path == [] <==> forall id :: id in dag.backlogIds ==> HeldUp(dag, st, id)
    requires forall c :: ActiveChain(dag, st, c) ==> PathWeight(SizesOf(backlog), c) <= PathWeight(SizesOf(backlog), path)
    requires InVersionOrder(order)
    ensures Sound(s, dag, backlog, st, waves)
  {
    if path != [] {
      ActiveChainHasNoRepeats(dag, st, path);
    }
    OneEntryPerItem(s, backlog, order, path, waves);
    EntriesKeepItems(s, backlog, order, path, waves);
    VersionWeightsSumToGlobal(s, backlog, order, path, waves);
    forall bl | bl in backlog ensures Placed(waves, bl.id) <==> InSnapshot(s, bl) {
      PlacedIffInSnapshot(s, dag, backlog, st, order, path, waves, bl);
    }
    RunnableIsFirstWave(dag, backlog, st, waves);
    forall i | 0 <= i < |path| - 1 ensures DependsOn(backlog, path[i+1], path[i]) {
      ChainFollowsDependencies(dag, backlog, st, path, i);
    }
    forall bl, i, p | bl in backlog && At(waves, i, bl.id) && p in bl.dependsOn && !Has(st, p, DONE)
      ensures exists j :: j < i && At(waves, j, p)
    {
      WavesFollowDependencies(dag, backlog, st, waves, bl, i);
    }
  }

  /** `build_snapshot` on an acyclic planning graph. */
  method PublishPlan(dag: Dag, backlog: seq<BL>, st: StatusMap) returns (r: Result<Snapshot, PlanError>, ghost waves: Schedule)
    requires Plans(dag, backlog) && !Cyclic(dag.graph)
    ensures r.Ok? <==> AllOrdered(backlog)
    ensures r.Ok? ==> Sound(r.value, dag, backlog, st, waves)
    ensures r.Err? ==> r.error.BadVersion?
  {
    var path := CriticalPath.CriticalPath(dag, backlog, SizesOf(backlog), st);
    var schedule := ComputeWaves(dag, st);
    waves := schedule;
    var snapshot, order := BuildSnapshot(backlog, path.value, schedule);
    if snapshot.None? {
      return Err(BadVersion), waves;
    }
    PublishedIsSound(snapshot.value, dag, backlog, st, order, path.value, schedule);
    return Ok(snapshot.value), waves;
  }

  /** What the models have validated of a document before planning sees it. */
  ghost predicate IsRecord(d: Document) {
    d.Backlog? ==> BacklogId(d.item.id) && IsSemVer(d.item.targetVersion)
  }

  /** Some item's version has build metadata and no pre-release before it. */
  ghost predicate SomeBuildFirst(backlog: seq<BL>) {
    exists bl :: bl in backlog && BuildFirst(bl.targetVersion)
  }

  /** The published entries give each item's validated version. */
  lemma EntriesNameVersions(s: Snapshot, docs: seq<Document>)
    requires forall d :: d in docs ==> IsRecord(d)
    requires forall bl :: bl in Items(docs) ==>
               BacklogEntry(bl.id, bl.library, PlainVersion(bl.targetVersion), bl.size, bl.critical) in s.backlog
    ensures forall bl :: bl in Items(docs) ==> BacklogEntry(bl.id, bl.library, bl.targetVersion, bl.size, bl.critical) in s.backlog
  {
    ItemsAreDocuments(docs);
    forall bl | bl in Items(docs) ensures PlainVersion(bl.targetVersion) == bl.targetVersion {
      PlainVersionIsVersion(bl.targetVersion);
    }
  }

  lemma PlannableIffNoBuildFirst(docs: seq<Document>)
    requires forall d :: d in docs ==> IsRecord(d)
    ensures AllKeyed(Items(docs)) <==> !SomeBuildFirst(Items(docs))
    ensures AllOrdered(Items(docs)) <==> !SomeBuildFirst(Items(docs))
  {
    ItemsAreDocuments(docs);
    forall bl | bl in Items(docs)
      ensures Keyed(NormalizeVersion(bl.targetVersion)) <==> !BuildFirst(bl.targetVersion)
      ensures NumericKey(PlainVersion(bl.targetVersion)).Some? <==> !BuildFirst(bl.targetVersion)
      ensures PlainVersion(bl.targetVersion) in PlainVersions(Items(docs))
    {
      var d :| d in docs && d.Backlog? && d.item == bl;
      KeyedUnlessBuildFirst(bl.targetVersion);
    }
  }

  /** One use case, one feature, and one item with build metadata in its version. */
  function WithBuild(bl: BL): seq<Document> {
    [Document.UseCase("UC-x-001"), Document.Feature("FEAT-x-001", "UC-x-001"), Document.Backlog(bl, "FEAT-x-001")]
  }

  lemma WithBuildIsConsistent(bl: BL)
    requires BacklogId(bl.id) && bl.dependsOn == []
    ensures Consistent(WithBuild(bl)) && bl in Items(WithBuild(bl))
    ensures IsSemVer(bl.targetVersion) ==> forall d :: d in WithBuild(bl) ==> IsRecord(d)
  {
    var docs := WithBuild(bl);
    assert docs[0] in docs && docs[1] in docs && docs[2] in docs && docs[2].item == bl;
    assert docs[0].Id()[0] == 'U' && docs[1].Id()[0] == 'F' && docs[2].Id()[0] == 'B';
    assert HasParent(docs, docs[0]) && HasParent(docs, docs[1]) && HasParent(docs, docs[2]);
    ItemsAreDocuments(docs);
  }

  /** Such a set: consistent and validated, and still not planned. */
  lemma BuildMetadataStopsPlanning()
    ensures var docs := WithBuild(BL("BL-x-001", "lib", "1.0.0+b", [], S, false));
            && Consistent(docs) && (forall d :: d in docs ==> IsRecord(d)) && SomeBuildFirst(Items(docs))
  {
    BuildAloneHasNoKey();
    WithBuildIsConsistent(BL("BL-x-001", "lib", "1.0.0+b", [], S, false));
  }

  /** Planning publishes a sound snapshot exactly when the specifications are consistent, no version
      has build metadata right behind its numerals, and the declared dependencies have no cycle;
      otherwise it says which of them fails. */
  method PlanForge(docs: seq<Document>, constraints: seq<Milestones.MilestoneConstraint>, st: StatusMap)
    returns (r: Result<Snapshot, PlanError>, ghost dag: Dag, ghost waves: Schedule)
    requires forall d :: d in docs ==> IsRecord(d)
    ensures r.Ok? <==> Consistent(docs) && !SomeBuildFirst(Items(docs)) && !Cyclic(ValidateSpecs.DependsGraph(Items(docs)))
    ensures r.Ok? ==> Sound(r.value, dag, Items(docs), st, waves)
    ensures r.Ok? ==> forall bl :: bl in Items(docs) ==>
              BacklogEntry(bl.id, bl.library, bl.targetVersion, bl.size, bl.critical) in r.value.backlog
    ensures r.Err? && r.error.BadIndex? <==> !Consistent(docs)
    ensures r.Err? && r.error.BadIndex? ==> Blames(r.error.error, docs)
    ensures r.Err? && r.error.BadVersion? <==> Consistent(docs) && SomeBuildFirst(Items(docs))
    ensures r.Err? && r.error.CyclicPlan? <==>
              Consistent(docs) && !SomeBuildFirst(Items(docs)) && Cyclic(ValidateSpecs.DependsGraph(Items(docs)))
    ensures r.Err? && r.error.CyclicPlan? ==> Diagnoses(r.error.diagnostic, Items(docs))
  {
    dag, waves := Dag(map[], [], {}), [];
    PlannableIffNoBuildFirst(docs);
    var index := BuildIndex(docs);
    if index.Err? {
      return Err(BadIndex(index.error)), dag, waves;
    }
    var backlog := Items(docs);
    ConsistentYieldsValidBacklog(docs);
    var built, tags := BuildPlanningDag(backlog, constraints);
    if built.None? {
      return Err(BadVersion), dag, waves;
    }
    dag := built.value;
    BuiltDagPlans(built.value, backlog, tags, constraints);
    CyclicIffDependenciesCyclic(built.value, backlog);
    var cycle := DetectCycle(built.value.graph, built.value.edges);
    if cycle.Some? {
      DiagnosticIsDependencyCycle(cycle.value, built.value, backlog, tags, constraints);
      return Err(CyclicPlan(cycle.value)), dag, waves;
    }
    r, waves := PublishPlan(built.value, backlog, st);
    EntriesNameVersions(r.value, docs);
  }
}
