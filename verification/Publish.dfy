/** The published planning snapshot: the global schedule and critical path cut up by version. */
module Publish {
  import opened Domain
  import opened Ordering
  import opened Graph
  import opened SpecIndex
  import opened Text
  import opened Versions
  import opened PlanningDag
  import opened Waves
  import opened CriticalPath

  /** Here a version loses its leading `v`. */
  function PlainVersion(version: string): string {
    var cleaned := Strip(version);
    if cleaned != [] && cleaned[0] == 'v' then cleaned[1..] else cleaned
  }

  /** For a validated version the planning graph and the publication agree on the key: the numeric
      triple, whatever is pre-release. Neither has one exactly when build metadata follows the triple
      at once. */
  lemma KeyedUnlessBuildFirst(version: string)
    requires IsSemVer(version)
    ensures Keyed(NormalizeVersion(version)) <==> !BuildFirst(version)
    ensures NumericKey(PlainVersion(version)).Some? <==> !BuildFirst(version)
    ensures SemverKey(NormalizeVersion(version)) == NumericKey(PlainVersion(version))
  {
    var s: SemVer :| s.Writes(version);
    SemVerStands(s, version);
    SemVerHasKey(s, version);
    BuildFirstIsNoPre(s, version);
  }

  /** A published version is the validated one, with or without a `v` before it. */
  lemma PlainVersionIsVersion(version: string)
    requires IsSemVer(version)
    ensures PlainVersion(version) == version && PlainVersion("v" + version) == version
  {
    var s: SemVer :| s.Writes(version);
    SemVerStands(s, version);
    assert version[|version|-1] == ("v" + version)[|version|];
    StripNothing("v" + version);
    assert ("v" + version)[1..] == version;
  }

  datatype BacklogEntry = BacklogEntry(blId: string, library: string, version: string, size: Size, critical: bool)

  datatype VersionPlan = VersionPlan(version: string, waves: Schedule, criticalPath: seq<string>, criticalPathWeight: nat)

  datatype Snapshot = Snapshot(versions: seq<VersionPlan>, backlog: seq<BacklogEntry>, globalCriticalPath: seq<string>)

  // ----- slices -----

  function BlsForVersion(backlog: seq<BL>, version: string): seq<BL> {
    if backlog == [] then [] else
      var last := backlog[|backlog|-1];
      var bls := BlsForVersion(backlog[..|backlog|-1], version);
      if PlainVersion(last.targetVersion) == version then bls + [last] else bls
  }

  lemma {:induction false} BlsAre(backlog: seq<BL>, version: string)
    ensures forall bl :: bl in BlsForVersion(backlog, version) <==> bl in backlog && PlainVersion(bl.targetVersion) == version
    decreases |backlog|
  {
    if backlog != [] {
      BlsAre(backlog[..|backlog|-1], version);
      assert forall bl :: bl in backlog <==> bl in backlog[..|backlog|-1] || bl == backlog[|backlog|-1];
    }
  }

  function Filtered(wave: seq<string>, ids: set<string>): seq<string> {
    Sorted(set x | x in wave && x in ids)
  }

  function FilteredWaves(waves: Schedule, ids: set<string>): Schedule {
    if waves == [] then [] else
      var f := Filtered(waves[|waves|-1], ids);
      var r := FilteredWaves(waves[..|waves|-1], ids);
      if f == [] then r else r + [f]
  }

  method WavesForVersion(waves: Schedule, ids: set<string>) returns (r: Schedule)
    ensures r == FilteredWaves(waves, ids)
  {
    r := [];
    for i := 0 to |waves|
      invariant r == FilteredWaves(waves[..i], ids)
    {
      assert waves[..i+1][..i] == waves[..i];
      var f := Filtered(waves[i], ids);
      if f != [] {
        r := r + [f];
      }
    }
    assert waves[..|waves|] == waves;
  }

  /** The path up to its last item of the version: its items are exactly those before the cut,
      and none of the version's items lies beyond. */
  ghost predicate CutAtLast(path: seq<string>, ids: set<string>, r: seq<string>) {
    && r <= path
    && (r != [] ==> r[|r|-1] in ids)
    && forall i :: |r| <= i < |path| ==> path[i] !in ids
  }

  method CriticalPathForVersion(path: seq<string>, ids: set<string>) returns (r: seq<string>)
    ensures CutAtLast(path, ids, r)
  {
    var last := -1;
    for i := 0 to |path|
      invariant -1 <= last < i && (last >= 0 ==> path[last] in ids)
      invariant forall k :: last < k < i ==> path[k] !in ids
    {
      if path[i] in ids {
        last := i;
      }
    }
    return path[..last+1];
  }

  /** The summed size weights of the listed items that `path` names. */
  function WeightOn(bls: seq<BL>, path: seq<string>): nat {
    if bls == [] then 0 else
      WeightOn(bls[..|bls|-1], path) + (if bls[|bls|-1].id in path then SizeWeight(bls[|bls|-1].size) else 0)
  }

  function Entry(bl: BL): BacklogEntry {
    BacklogEntry(bl.id, bl.library, PlainVersion(bl.targetVersion), bl.size, bl.critical)
  }

  function Entries(bls: seq<BL>): (r: seq<BacklogEntry>)
    ensures |r| == |bls| && forall i :: 0 <= i < |bls| ==> r[i] == Entry(bls[i])
  {
    seq(|bls|, i requires 0 <= i < |bls| => Entry(bls[i]))
  }

  // ----- the snapshot -----

  function PlainVersions(backlog: seq<BL>): set<string> {
    set bl | bl in backlog :: PlainVersion(bl.targetVersion)
  }

  /** One version's slice of the global schedule and path. */
  ghost predicate IsVersionPlan(plan: VersionPlan, backlog: seq<BL>, version: string, path: seq<string>, waves: Schedule) {
    var bls := BlsForVersion(backlog, version);
    && plan.version == version
    && plan.waves == FilteredWaves(waves, Ids(bls))
    && CutAtLast(path, Ids(bls), plan.criticalPath)
    && plan.criticalPathWeight == WeightOn(bls, plan.criticalPath)
  }

  function AllEntries(backlog: seq<BL>, order: seq<string>): seq<BacklogEntry> {
    if order == [] then [] else
      AllEntries(backlog, order[..|order|-1]) + Entries(BlsForVersion(backlog, order[|order|-1]))
  }

  /** What the loop over the versions has published after `done` of them. */
  ghost predicate Published(versions: seq<VersionPlan>, entries: seq<BacklogEntry>, backlog: seq<BL>, done: seq<string>, path: seq<string>, waves: Schedule) {
    && |versions| == |done|
    && (forall k :: 0 <= k < |done| ==> IsVersionPlan(versions[k], backlog, done[k], path, waves))
    && entries == AllEntries(backlog, done)
  }

  ghost predicate IsSnapshot(s: Snapshot, backlog: seq<BL>, order: seq<string>, path: seq<string>, waves: Schedule) {
    && Lists(order, PlainVersions(backlog))
    && Published(s.versions, s.backlog, backlog, order, path, waves)
    && s.globalCriticalPath == path
  }

  /** Earlier versions come first, by their numbers. */
  ghost predicate InVersionOrder(order: seq<string>) {
    && (forall v :: v in order ==> NumericKey(v).Some?)
    && forall i, j :: 0 <= i < j < |order| ==>
         var a, b := NumericKey(order[i]).value, NumericKey(order[j]).value;
         a.0 <= b.0 && (a.0 == b.0 ==> a.1 <= b.1 && (a.1 == b.1 ==> a.2 <= b.2))
  }

  /** None stands for the ValueError a version without a numeric triple raises. */
  method OrderedVersions(backlog: seq<BL>) returns (r: Option<seq<string>>, ghost key: map<string, Key>)
    ensures r.Some? <==> forall v :: v in PlainVersions(backlog) ==> NumericKey(v).Some?
    ensures r.Some? ==> ListedByKey(r.value, PlainVersions(backlog), key)
    ensures r.Some? ==> forall v :: v in PlainVersions(backlog) ==> v in key && key[v] == NumericKey(v).value
    ensures r.Some? ==> InVersionOrder(r.value)
  {
    var versions := PlainVersions(backlog);
    key := map[];
    if v :| v in versions && NumericKey(v).None? {
      return None, key;
    }
    var keys := map v | v in versions :: NumericKey(v).value;
    var order := ListByKey(versions, keys);
    assert forall v :: v in order ==> v in Elems(order);
    return Some(order), keys;
  }

  lemma PublishedOneMore(versions: seq<VersionPlan>, entries: seq<BacklogEntry>, backlog: seq<BL>, done: seq<string>, path: seq<string>, waves: Schedule, v: string, plan: VersionPlan)
    requires Published(versions, entries, backlog, done, path, waves) && IsVersionPlan(plan, backlog, v, path, waves)
    ensures Published(versions + [plan], entries + Entries(BlsForVersion(backlog, v)), backlog, done + [v], path, waves)
  {
    assert (done + [v])[..|done|] == done;
    forall k | 0 <= k < |done + [v]| ensures IsVersionPlan((versions + [plan])[k], backlog, (done + [v])[k], path, waves) {
      if k < |done| { assert IsVersionPlan(versions[k], backlog, done[k], path, waves); }
    }
  }

  method PlanVersion(backlog: seq<BL>, version: string, path: seq<string>, waves: Schedule) returns (plan: VersionPlan)
    ensures IsVersionPlan(plan, backlog, version, path, waves)
  {
    var bls := BlsForVersion(backlog, version);
    var ids := Ids(bls);
    var slice := WavesForVersion(waves, ids);
    var cut := CriticalPathForVersion(path, ids);
    return VersionPlan(version, slice, cut, WeightOn(bls, cut));
  }

  method PublishVersions(backlog: seq<BL>, order: seq<string>, path: seq<string>, waves: Schedule) returns (s: Snapshot)
    ensures Published(s.versions, s.backlog, backlog, order, path, waves) && s.globalCriticalPath == path
  {
    var versions: seq<VersionPlan>, entries: seq<BacklogEntry> := [], [];
    for i := 0 to |order|
      invariant Published(versions, entries, backlog, order[..i], path, waves)
    {
      assert order[..i+1] == order[..i] + [order[i]];
      var plan := PlanVersion(backlog, order[i], path, waves);
      PublishedOneMore(versions, entries, backlog, order[..i], path, waves, order[i], plan);
      versions := versions + [plan];
      entries := entries + Entries(BlsForVersion(backlog, order[i]));
    }
    assert order[..|order|] == order;
    return Snapshot(versions, entries, path);
  }

  method BuildSnapshot(backlog: seq<BL>, path: seq<string>, waves: Schedule) returns (r: Option<Snapshot>, ghost order: seq<string>)
    ensures r.Some? <==> forall v :: v in PlainVersions(backlog) ==> NumericKey(v).Some?
    ensures r.Some? ==> IsSnapshot(r.value, backlog, order, path, waves) && InVersionOrder(order)
  {
    var listing, _ := OrderedVersions(backlog);
    if listing.None? {
      return None, [];
    }
    var snapshot := PublishVersions(backlog, listing.value, path, waves);
    return Some(snapshot), listing.value;
  }

  // ----- entries -----

  lemma {:induction false} EntryOfVersion(backlog: seq<BL>, order: seq<string>, bl: BL)
    requires bl in backlog && PlainVersion(bl.targetVersion) in order
    ensures BacklogEntry(bl.id, bl.library, PlainVersion(bl.targetVersion), bl.size, bl.critical) in AllEntries(backlog, order)
    decreases |order|
  {
    var init, v := order[..|order|-1], order[|order|-1];
    if PlainVersion(bl.targetVersion) == v {
      BlsAre(backlog, v);
      var k :| 0 <= k < |BlsForVersion(backlog, v)| && BlsForVersion(backlog, v)[k] == bl;
      assert Entries(BlsForVersion(backlog, v))[k] == Entry(bl);
    } else {
      assert PlainVersion(bl.targetVersion) in init;
      EntryOfVersion(backlog, init, bl);
    }
  }

  /** Every item has its entry, with its library, version, size and criticality. */
  lemma EntriesKeepItems(s: Snapshot, backlog: seq<BL>, order: seq<string>, path: seq<string>, waves: Schedule)
    requires IsSnapshot(s, backlog, order, path, waves)
    ensures forall bl :: bl in backlog ==>
              BacklogEntry(bl.id, bl.library, PlainVersion(bl.targetVersion), bl.size, bl.critical) in s.backlog
  {
    forall bl | bl in backlog
      ensures BacklogEntry(bl.id, bl.library, PlainVersion(bl.targetVersion), bl.size, bl.critical) in s.backlog
    {
      assert PlainVersion(bl.targetVersion) in Elems(order);
      EntryOfVersion(backlog, order, bl);
    }
  }

  function EntryIds(entries: seq<BacklogEntry>): multiset<string> {
    if entries == [] then multiset{} else EntryIds(entries[..|entries|-1]) + multiset{entries[|entries|-1].blId}
  }

  function BlIds(bls: seq<BL>): multiset<string> {
    if bls == [] then multiset{} else BlIds(bls[..|bls|-1]) + multiset{bls[|bls|-1].id}
  }

  /** The items whose version lies in the set. */
  function InVersions(backlog: seq<BL>, vs: set<string>): seq<BL> {
    if backlog == [] then [] else
      var last := backlog[|backlog|-1];
      var bls := InVersions(backlog[..|backlog|-1], vs);
      if PlainVersion(last.targetVersion) in vs then bls + [last] else bls
  }

  lemma IdsSnoc(bls: seq<BL>, bl: BL, path: seq<string>)
    ensures BlIds(bls + [bl]) == BlIds(bls) + multiset{bl.id}
    ensures WeightOn(bls + [bl], path) == WeightOn(bls, path) + (if bl.id in path then SizeWeight(bl.size) else 0)
  {
    assert (bls + [bl])[..|bls|] == bls;
  }

  /** `joint` merges two lists, item by item of the backlog they were drawn from. */
  ghost predicate Merges(joint: seq<BL>, a: seq<BL>, b: seq<BL>, path: seq<string>) {
    BlIds(joint) == BlIds(a) + BlIds(b) && WeightOn(joint, path) == WeightOn(a, path) + WeightOn(b, path)
  }

  function Grow(bls: seq<BL>, bl: BL, joins: bool): seq<BL> {
    if joins then bls + [bl] else bls
  }

  lemma MergesStep(joint: seq<BL>, a: seq<BL>, b: seq<BL>, path: seq<string>, bl: BL, left: bool, right: bool)
    requires Merges(joint, a, b, path) && !(left && right)
    ensures Merges(Grow(joint, bl, left || right), Grow(a, bl, left), Grow(b, bl, right), path)
  {
    IdsSnoc(joint, bl, path);
    IdsSnoc(a, bl, path);
    IdsSnoc(b, bl, path);
  }

  lemma InVersionsSnoc(backlog: seq<BL>, vs: set<string>)
    requires backlog != []
    ensures var last := backlog[|backlog|-1];
            InVersions(backlog, vs) == Grow(InVersions(backlog[..|backlog|-1], vs), last, PlainVersion(last.targetVersion) in vs)
  {
  }

  lemma BlsForVersionSnoc(backlog: seq<BL>, v: string)
    requires backlog != []
    ensures var last := backlog[|backlog|-1];
            BlsForVersion(backlog, v) == Grow(BlsForVersion(backlog[..|backlog|-1], v), last, PlainVersion(last.targetVersion) == v)
  {
  }

  /** One more version: its items join, each once. */
  lemma {:induction false} OneMoreVersion(backlog: seq<BL>, vs: set<string>, v: string, path: seq<string>)
    requires v !in vs
    ensures Merges(InVersions(backlog, vs + {v}), InVersions(backlog, vs), BlsForVersion(backlog, v), path)
    decreases |backlog|
  {
    if backlog != [] {
      var init, last := backlog[..|backlog|-1], backlog[|backlog|-1];
      var own := PlainVersion(last.targetVersion);
      OneMoreVersion(init, vs, v, path);
      InVersionsSnoc(backlog, vs);
      InVersionsSnoc(backlog, vs + {v});
      BlsForVersionSnoc(backlog, v);
      MergesStep(InVersions(init, vs + {v}), InVersions(init, vs), BlsForVersion(init, v), path, last, own in vs, own == v);
    }
  }

  lemma {:induction false} EntriesKeepIds(a: seq<BacklogEntry>, bls: seq<BL>)
    ensures EntryIds(a + Entries(bls)) == EntryIds(a) + BlIds(bls)
    decreases |bls|
  {
    if bls == [] {
      assert a + Entries(bls) == a;
    } else {
      var init := bls[..|bls|-1];
      assert (a + Entries(bls))[..|a| + |bls| - 1] == a + Entries(init);
      EntriesKeepIds(a, init);
    }
  }

  lemma {:induction false} NoVersions(backlog: seq<BL>, path: seq<string>)
    ensures InVersions(backlog, {}) == []
    decreases |backlog|
  {
    if backlog != [] {
      NoVersions(backlog[..|backlog|-1], path);
    }
  }

  lemma {:induction false} EntriesOfVersions(backlog: seq<BL>, order: seq<string>)
    requires Distinct(order)
    ensures EntryIds(AllEntries(backlog, order)) == BlIds(InVersions(backlog, Elems(order)))
    decreases |order|
  {
    if order == [] {
      assert Elems(order) == {};
      NoVersions(backlog, []);
    } else {
      var init, v := order[..|order|-1], order[|order|-1];
      EntriesOfVersions(backlog, init);
      EntriesKeepIds(AllEntries(backlog, init), BlsForVersion(backlog, v));
      assert Elems(order) == Elems(init) + {v};
      OneMoreVersion(backlog, Elems(init), v, []);
    }
  }

  lemma {:induction false} EveryVersion(backlog: seq<BL>, vs: set<string>)
    requires PlainVersions(backlog) <= vs
    ensures InVersions(backlog, vs) == backlog
    decreases |backlog|
  {
    if backlog != [] {
      var init, last := backlog[..|backlog|-1], backlog[|backlog|-1];
      assert last in backlog && PlainVersion(last.targetVersion) in vs;
      EveryVersion(init, vs);
    }
  }

  /** Every backlog item has exactly one entry: as multisets of identifiers the two lists agree. */
  lemma OneEntryPerItem(s: Snapshot, backlog: seq<BL>, order: seq<string>, path: seq<string>, waves: Schedule)
    requires IsSnapshot(s, backlog, order, path, waves)
    ensures EntryIds(s.backlog) == BlIds(backlog)
  {
    EntriesOfVersions(backlog, order);
    EveryVersion(backlog, Elems(order));
  }

  // ----- weights -----

  function TotalWeight(versions: seq<VersionPlan>): nat {
    if versions == [] then 0 else TotalWeight(versions[..|versions|-1]) + versions[|versions|-1].criticalPathWeight
  }

  /** Cutting a path after the last item of a version loses none of the version's weight. */
  lemma {:induction false} CutKeepsWeight(bls: seq<BL>, path: seq<string>, ids: set<string>, cut: seq<string>)
    requires CutAtLast(path, ids, cut) && Ids(bls) <= ids
    ensures WeightOn(bls, cut) == WeightOn(bls, path)
    decreases |bls|
  {
    if bls != [] {
      var last := bls[|bls|-1];
      assert last in bls && last.id in ids;
      if last.id in path {
        var i :| 0 <= i < |path| && path[i] == last.id;
        assert cut[i] == last.id;
      }
      CutKeepsWeight(bls[..|bls|-1], path, ids, cut);
    }
  }

  lemma {:induction false} WeightsAddUp(versions: seq<VersionPlan>, entries: seq<BacklogEntry>, backlog: seq<BL>, order: seq<string>, path: seq<string>, waves: Schedule)
    requires Published(versions, entries, backlog, order, path, waves) && Distinct(order)
    ensures TotalWeight(versions) == WeightOn(InVersions(backlog, Elems(order)), path)
    decreases |order|
  {
    if order == [] {
      assert Elems(order) == {};
      NoVersions(backlog, path);
    } else {
      var n := |order| - 1;
      var init, v, plan := order[..n], order[n], versions[n];
      var bls := BlsForVersion(backlog, v);
      WeightsAddUp(versions[..n], AllEntries(backlog, init), backlog, init, path, waves);
      assert IsVersionPlan(plan, backlog, v, path, waves);
      CutKeepsWeight(bls, path, Ids(bls), plan.criticalPath);
      assert Elems(order) == Elems(init) + {v};
      OneMoreVersion(backlog, Elems(init), v, path);
    }
  }

  function SizesOf(backlog: seq<BL>): Sizes {
    if backlog == [] then map[] else
      SizesOf(backlog[..|backlog|-1])[backlog[|backlog|-1].id := backlog[|backlog|-1].size]
  }

  lemma {:induction false} SizeOfItem(backlog: seq<BL>, bl: BL)
    requires forall i, j :: 0 <= i < j < |backlog| ==> backlog[i].id != backlog[j].id
    requires bl in backlog
    ensures bl.id in SizesOf(backlog) && SizesOf(backlog)[bl.id] == bl.size
    decreases |backlog|
  {
    if bl != backlog[|backlog|-1] {
      SizeOfItem(backlog[..|backlog|-1], bl);
    }
  }

  /** Adding one name to the list adds the weight of the one item that bears it. */
  lemma {:induction false} OneMoreName(bls: seq<BL>, bl: BL, path: seq<string>)
    requires forall i, j :: 0 <= i < j < |bls| ==> bls[i].id != bls[j].id
    requires bl.id !in path
    ensures WeightOn(bls, [bl.id] + path) == WeightOn(bls, path) + (if bl in bls then SizeWeight(bl.size) else 0)
      || exists c :: c in bls && c.id == bl.id && c != bl
    decreases |bls|
  {
    if bls != [] {
      var init, last := bls[..|bls|-1], bls[|bls|-1];
      OneMoreName(init, bl, path);
      assert bls == init + [last];
      assert forall x :: x in [bl.id] + path <==> x == bl.id || x in path;
    }
  }

  lemma {:induction false} NothingNamed(bls: seq<BL>)
    ensures WeightOn(bls, []) == 0
    decreases |bls|
  {
    if bls != [] { NothingNamed(bls[..|bls|-1]); }
  }

  /** Weighed item by item or node by node, a path without repeats weighs the same. */
  lemma {:induction false} PathWeighsItsItems(backlog: seq<BL>, path: seq<string>)
    requires ValidBacklog(backlog) && Distinct(path) && Elems(path) <= Ids(backlog)
    ensures WeightOn(backlog, path) == PathWeight(SizesOf(backlog), path)
    decreases |path|
  {
    if path == [] {
      NothingNamed(backlog);
    } else {
      assert path[0] in Elems(path);
      var bl :| bl in backlog && bl.id == path[0];
      assert Elems(path[1..]) <= Elems(path);
      PathWeighsItsItems(backlog, path[1..]);
      assert path == [bl.id] + path[1..];
      OneMoreName(backlog, bl, path[1..]);
      SizeOfItem(backlog, bl);
      ItemIsNoTag(backlog, bl.id);
    }
  }

  /** The versions' critical-path weights sum to the weight of the global critical path. */
  lemma VersionWeightsSumToGlobal(s: Snapshot, backlog: seq<BL>, order: seq<string>, path: seq<string>, waves: Schedule)
    requires IsSnapshot(s, backlog, order, path, waves) && ValidBacklog(backlog)
    requires Distinct(path) && Elems(path) <= Ids(backlog)
    ensures TotalWeight(s.versions) == PathWeight(SizesOf(backlog), path)
  {
    WeightsAddUp(s.versions, s.backlog, backlog, order, path, waves);
    EveryVersion(backlog, Elems(order));
    PathWeighsItsItems(backlog, path);
  }

  /** A critical path of an acyclic plan meets the conditions of the sum. */
  lemma ActiveChainHasNoRepeats(dag: Dag, st: StatusMap, path: seq<string>)
    requires !Cyclic(dag.graph) && ActiveChain(dag, st, path)
    ensures Distinct(path) && Elems(path) <= dag.backlogIds
  {
    if i, j :| 0 <= i < j < |path| && path[i] == path[j] {
      RepeatMeansCyclic(dag.graph, path, i, j);
    }
  }

  // ----- waves -----

  /** Which global wave each kept wave was cut from. */
  ghost predicate CutFrom(waves: Schedule, ids: set<string>, r: Schedule, from: seq<nat>) {
    && |from| == |r|
    && (forall k :: 0 <= k < |from| ==> from[k] < |waves| && r[k] == Filtered(waves[from[k]], ids) && r[k] != [])
    && (forall j, k :: 0 <= j < k < |from| ==> from[j] < from[k])
    && forall i :: 0 <= i < |waves| && Filtered(waves[i], ids) != [] ==> i in from
  }

  lemma CutMiss(waves: Schedule, ids: set<string>, r: Schedule, from: seq<nat>, wave: seq<string>)
    requires CutFrom(waves, ids, r, from) && Filtered(wave, ids) == []
    ensures CutFrom(waves + [wave], ids, r, from)
  {
  }

  lemma CutHit(waves: Schedule, ids: set<string>, r: Schedule, from: seq<nat>, wave: seq<string>)
    requires CutFrom(waves, ids, r, from) && Filtered(wave, ids) != []
    ensures CutFrom(waves + [wave], ids, r + [Filtered(wave, ids)], from + [|waves|])
  {
    var more, longer := from + [|waves|], waves + [wave];
    forall i | 0 <= i < |longer| && Filtered(longer[i], ids) != [] ensures i in more {
      if i < |waves| {
        assert i in from;
      } else {
        assert more[|from|] == i;
      }
    }
  }

  lemma {:induction false} FilteringCuts(waves: Schedule, ids: set<string>) returns (from: seq<nat>)
    ensures CutFrom(waves, ids, FilteredWaves(waves, ids), from)
    decreases |waves|
  {
    if waves == [] {
      from := [];
    } else {
      var init, last := waves[..|waves|-1], waves[|waves|-1];
      from := FilteringCuts(init, ids);
      assert waves == init + [last];
      if Filtered(last, ids) == [] {
        CutMiss(init, ids, FilteredWaves(init, ids), from, last);
      } else {
        CutHit(init, ids, FilteredWaves(init, ids), from, last);
        from := from + [|init|];
      }
    }
  }

  lemma KeptAt(waves: Schedule, ids: set<string>, r: Schedule, from: seq<nat>, x: string, a: int) returns (i: nat)
    requires CutFrom(waves, ids, r, from) && At(waves, a, x) && x in ids
    ensures i < |r| && At(r, i, x) && from[i] == a
  {
    assert x in Filtered(waves[a], ids);
    i :| 0 <= i < |from| && from[i] == a;
  }

  /** A version's waves hold exactly its scheduled items, and keep the global order: one item
      comes before, with or after another just as it does globally. */
  lemma VersionWavesKeepOrder(waves: Schedule, ids: set<string>, x: string, y: string, a: int, b: int)
    requires forall i, j, z :: At(waves, i, z) && At(waves, j, z) ==> i == j
    requires At(waves, a, x) && At(waves, b, y) && x in ids && y in ids
    ensures exists i, j :: At(FilteredWaves(waves, ids), i, x) && At(FilteredWaves(waves, ids), j, y)
    ensures forall i, j :: At(FilteredWaves(waves, ids), i, x) && At(FilteredWaves(waves, ids), j, y) ==>
      (i < j <==> a < b) && (i == j <==> a == b)
  {
    var r := FilteredWaves(waves, ids);
    var from := FilteringCuts(waves, ids);
    var i := KeptAt(waves, ids, r, from, x, a);
    var j := KeptAt(waves, ids, r, from, y, b);
    forall k, l | At(r, k, x) && At(r, l, y) ensures (k < l <==> a < b) && (k == l <==> a == b) {
      assert At(waves, from[k], x) && At(waves, from[l], y);
    }
  }

  predicate Spot(s: Snapshot, id: string, k: int, i: int) {
    0 <= k < |s.versions| && At(s.versions[k].waves, i, id)
  }

  ghost predicate SoleSpot(s: Snapshot, id: string, k: int, i: int) {
    Spot(s, id, k, i) && forall l, j :: Spot(s, id, l, j) ==> l == k && j == i
  }

  lemma OnlyOwnVersion(s: Snapshot, backlog: seq<BL>, order: seq<string>, path: seq<string>, waves: Schedule, bl: BL, k: nat, i: int)
    requires IsSnapshot(s, backlog, order, path, waves) && ValidBacklog(backlog) && bl in backlog
    requires k < |s.versions| && At(s.versions[k].waves, i, bl.id)
    ensures order[k] == PlainVersion(bl.targetVersion)
  {
    assert IsVersionPlan(s.versions[k], backlog, order[k], path, waves);
    var ids := Ids(BlsForVersion(backlog, order[k]));
    var from := FilteringCuts(waves, ids);
    assert bl.id in Filtered(waves[from[i]], ids);
    BlsAre(backlog, order[k]);
    var c :| c in BlsForVersion(backlog, order[k]) && c.id == bl.id;
    assert c in backlog;
  }

  /** Every scheduled item stands in the waves of its own version and of no other, once. */
  lemma ScheduledOncePerSnapshot(s: Snapshot, backlog: seq<BL>, order: seq<string>, path: seq<string>, waves: Schedule, bl: BL, a: int)
    requires IsSnapshot(s, backlog, order, path, waves) && ValidBacklog(backlog)
    requires forall i, j, z :: At(waves, i, z) && At(waves, j, z) ==> i == j
    requires bl in backlog && At(waves, a, bl.id)
    ensures exists k, i :: SoleSpot(s, bl.id, k, i) && order[k] == PlainVersion(bl.targetVersion)
  {
    var v := PlainVersion(bl.targetVersion);
    assert v in Elems(order);
    var own :| 0 <= own < |order| && order[own] == v;
    assert IsVersionPlan(s.versions[own], backlog, v, path, waves);
    BlsAre(backlog, v);
    var ids := Ids(BlsForVersion(backlog, v));
    assert bl.id in ids;
    VersionWavesKeepOrder(waves, ids, bl.id, bl.id, a, a);
    var i :| At(s.versions[own].waves, i, bl.id);
    assert Spot(s, bl.id, own, i);
    forall l, j | Spot(s, bl.id, l, j) ensures l == own && j == i {
      OnlyOwnVersion(s, backlog, order, path, waves, bl, l, j);
      assert order[l] == order[own];
    }
    assert SoleSpot(s, bl.id, own, i);
  }
}
