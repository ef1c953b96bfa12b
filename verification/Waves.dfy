/** Execution waves: each holds every remaining item whose predecessors earlier waves settle. */
module Waves {
  import opened Domain
  import opened Ordering
  import opened Graph
  import opened PlanningDag
  import opened SpecIndex
  import ValidateSpecs

  type Schedule = seq<seq<string>>

  /** A predecessor that counts: tags and nodes outside the backlog are taken as satisfied. */
  predicate Requires(dag: Dag, p: string, id: string) {
    Edge(dag.graph, p, id) && !IsTag(p) && p in dag.backlogIds
  }

  /** `_dag_predecessors_satisfied` */
  predicate Satisfied(dag: Dag, st: StatusMap, id: string, done: set<string>) {
    forall p :: p in dag.backlogIds && Requires(dag, p, id) ==> !Has(st, p, BLOCKED) && p in done
  }

  function DoneSet(dag: Dag, st: StatusMap): set<string> {
    set id | id in dag.backlogIds && Has(st, id, DONE)
  }

  /** The items that become ready once `done` is settled. */
  function ReadySet(dag: Dag, st: StatusMap, done: set<string>): set<string> {
    set id | id in dag.backlogIds - done && Waiting(st, id) && Satisfied(dag, st, id, done)
  }

  /** What is settled before the i-th wave: the DONE items and the earlier waves. */
  ghost function Settled(dag: Dag, st: StatusMap, i: nat): set<string> {
    if i == 0 then DoneSet(dag, st) else
      var before := Settled(dag, st, i - 1);
      before + ReadySet(dag, st, before)
  }

  ghost function Layer(dag: Dag, st: StatusMap, i: nat): set<string> {
    ReadySet(dag, st, Settled(dag, st, i))
  }

  ghost predicate IsLayer(dag: Dag, st: StatusMap, wave: seq<string>, i: nat) {
    wave == Sorted(Layer(dag, st, i)) && Layer(dag, st, i) != {}
  }

  ghost predicate ListsLayers(dag: Dag, st: StatusMap, waves: Schedule) {
    forall i :: 0 <= i < |waves| ==> IsLayer(dag, st, waves[i], i)
  }

  /** Every layer up to the first empty one, each listed in order. */
  ghost predicate IsSchedule(dag: Dag, st: StatusMap, waves: Schedule) {
    ListsLayers(dag, st, waves) && Layer(dag, st, |waves|) == {}
  }

  /** The loop state after the layers listed so far. */
  ghost predicate Advanced(dag: Dag, st: StatusMap, done: set<string>, pending: set<string>, waves: Schedule) {
    && done == Settled(dag, st, |waves|)
    && pending == dag.backlogIds - done
    && ListsLayers(dag, st, waves)
  }

  lemma ListedLayer(dag: Dag, st: StatusMap, waves: Schedule, i: nat)
    requires ListsLayers(dag, st, waves) && i < |waves|
    ensures IsLayer(dag, st, waves[i], i)
  {
  }

  lemma ListOne(dag: Dag, st: StatusMap, waves: Schedule, wave: seq<string>)
    requires ListsLayers(dag, st, waves) && IsLayer(dag, st, wave, |waves|)
    ensures ListsLayers(dag, st, waves + [wave])
  {
    forall i | 0 <= i < |waves + [wave]| ensures IsLayer(dag, st, (waves + [wave])[i], i) {
      if i < |waves| {
        ListedLayer(dag, st, waves, i);
      }
    }
  }

  lemma RemoveBoth(s: set<string>, t: set<string>, u: set<string>)
    ensures s - t - u == s - (t + u)
  {
  }

  lemma ReadyIsLayer(dag: Dag, st: StatusMap, n: nat, done: set<string>)
    requires done == Settled(dag, st, n)
    ensures ReadySet(dag, st, done) == Layer(dag, st, n)
    ensures Settled(dag, st, n + 1) == done + ReadySet(dag, st, done)
  {
  }

  lemma AdvanceOne(dag: Dag, st: StatusMap, done: set<string>, pending: set<string>, waves: Schedule, ready: set<string>)
    requires Advanced(dag, st, done, pending, waves) && ready == ReadySet(dag, st, done) && ready != {}
    ensures Advanced(dag, st, done + ready, pending - ready, waves + [Sorted(ready)])
  {
    var n := |waves|;
    ReadyIsLayer(dag, st, n, done);
    assert IsLayer(dag, st, Sorted(ready), n);
    ListOne(dag, st, waves, Sorted(ready));
    RemoveBoth(dag.backlogIds, done, ready);
    assert |waves + [Sorted(ready)]| == n + 1;
    assert ListsLayers(dag, st, waves + [Sorted(ready)]);
  }

  lemma ReadyIsPending(dag: Dag, st: StatusMap, done: set<string>)
    ensures ReadySet(dag, st, done) <= dag.backlogIds - done
  {
  }

  lemma Finished(dag: Dag, st: StatusMap, done: set<string>, pending: set<string>, waves: Schedule)
    requires Advanced(dag, st, done, pending, waves) && (pending == {} || ReadySet(dag, st, done) == {})
    ensures IsSchedule(dag, st, waves)
  {
  }

  lemma Shrinks(s: set<string>, t: set<string>)
    requires t != {} && t <= s
    ensures |s - t| < |s|
  {
    assert s == (s - t) + t;
  }

  method ComputeWaves(dag: Dag, st: StatusMap) returns (waves: Schedule)
    ensures IsSchedule(dag, st, waves)
  {
    var done := DoneSet(dag, st);
    var pending := dag.backlogIds - done;
    waves := [];
    while pending != {}
      invariant Advanced(dag, st, done, pending, waves)
      decreases |pending|
    {
      var ready := ReadySet(dag, st, done);
      if ready == {} {
        break;
      }
      AdvanceOne(dag, st, done, pending, waves, ready);
      ReadyIsPending(dag, st, done);
      Shrinks(pending, ready);
      waves := waves + [Sorted(ready)];
      done := done + ready;
      pending := pending - ready;
    }
    Finished(dag, st, done, pending, waves);
  }

  // ----- layers -----

  lemma {:induction false} SettledGrows(dag: Dag, st: StatusMap, i: nat, j: nat)
    requires i <= j
    ensures Settled(dag, st, i) <= Settled(dag, st, j)
    decreases j
  {
    if i < j { SettledGrows(dag, st, i, j - 1); }
  }

  /** A settled item is DONE or stands in an earlier layer. */
  lemma {:induction false} SettledCases(dag: Dag, st: StatusMap, i: nat, id: string)
    requires id in Settled(dag, st, i)
    ensures id in DoneSet(dag, st) || exists j: nat :: j < i && id in Layer(dag, st, j)
    decreases i
  {
    if i > 0 && id !in Layer(dag, st, i - 1) {
      SettledCases(dag, st, i - 1, id);
    }
  }

  lemma LayersAreDisjoint(dag: Dag, st: StatusMap, i: nat, j: nat, id: string)
    requires id in Layer(dag, st, i) && id in Layer(dag, st, j)
    ensures i == j
  {
    if i < j {
      SettledGrows(dag, st, i + 1, j);
    } else if j < i {
      SettledGrows(dag, st, j + 1, i);
    }
  }

  /** The predecessors that are not DONE yet. */
  predicate Awaits(dag: Dag, st: StatusMap, p: string, id: string) {
    Requires(dag, p, id) && !Has(st, p, DONE)
  }

  lemma LayerFollowsPredecessors(dag: Dag, st: StatusMap, i: nat, id: string, p: string)
    requires id in Layer(dag, st, i) && Awaits(dag, st, p, id)
    ensures exists j: nat :: j < i && p in Layer(dag, st, j)
  {
    SettledCases(dag, st, i, p);
  }

  lemma LayerTouchesPrevious(dag: Dag, st: StatusMap, i: nat, id: string)
    requires id in Layer(dag, st, i) && i > 0
    ensures exists p :: Awaits(dag, st, p, id) && p in Layer(dag, st, i - 1)
  {
    var before := Settled(dag, st, i - 1);
    assert id !in Layer(dag, st, i - 1);
    assert id !in before && !Satisfied(dag, st, id, before);
    var p :| p in dag.backlogIds && Requires(dag, p, id) && (Has(st, p, BLOCKED) || p !in before);
    assert p in Settled(dag, st, i);
    SettledGrows(dag, st, 0, i - 1);
    assert Awaits(dag, st, p, id);
  }

  // ----- what a schedule promises -----

  predicate At(waves: Schedule, i: int, id: string) {
    0 <= i < |waves| && id in waves[i]
  }

  ghost predicate Placed(waves: Schedule, id: string) {
    exists i :: At(waves, i, id)
  }

  /** Each placed item sits exactly one wave after the latest of its predecessors not yet DONE,
      or in the first wave when there is none; no item is placed twice, in one wave or in two. */
  lemma WavesAreEarliestLayers(dag: Dag, st: StatusMap, waves: Schedule, i: int, id: string)
    requires IsSchedule(dag, st, waves) && At(waves, i, id)
    ensures id in dag.backlogIds && (Has(st, id, TODO) || Has(st, id, READY)) && Ascending(waves[i])
    ensures forall j :: At(waves, j, id) ==> j == i
    ensures forall p :: Awaits(dag, st, p, id) ==> exists j :: j < i && At(waves, j, p)
    ensures i > 0 ==> exists p :: Awaits(dag, st, p, id) && At(waves, i - 1, p)
  {
    forall j | At(waves, j, id) ensures j == i {
      LayersAreDisjoint(dag, st, i, j, id);
    }
    forall p | Awaits(dag, st, p, id) ensures exists j :: j < i && At(waves, j, p) {
      LayerFollowsPredecessors(dag, st, i, id, p);
      var j: nat :| j < i && p in Layer(dag, st, j);
      assert At(waves, j, p);
    }
    if i > 0 {
      LayerTouchesPrevious(dag, st, i, id);
      var p :| Awaits(dag, st, p, id) && p in Layer(dag, st, i - 1);
      assert At(waves, i - 1, p);
    }
  }

  // ----- what a schedule leaves out -----

  /** From `q[0]` back through unfinished predecessors to one from which no work can start. */
  ghost predicate BlockingChain(dag: Dag, st: StatusMap, q: seq<string>) {
    && |q| >= 2
    && (forall i :: 0 <= i < |q| - 1 ==> Awaits(dag, st, q[i+1], q[i]))
    && !Has(st, q[|q|-1], TODO) && !Has(st, q[|q|-1], READY)
  }

  ghost predicate Obstructed(dag: Dag, st: StatusMap, id: string) {
    exists q :: BlockingChain(dag, st, q) && q[0] == id
  }

  lemma ChainTail(dag: Dag, st: StatusMap, q: seq<string>)
    requires BlockingChain(dag, st, q) && |q| > 2
    ensures BlockingChain(dag, st, q[1..])
  {
    forall k | 0 <= k < |q[1..]| - 1 ensures Awaits(dag, st, q[1..][k+1], q[1..][k]) {
      assert Awaits(dag, st, q[k+1+1], q[k+1]);
    }
  }

  lemma {:induction false} ChainKeepsOut(dag: Dag, st: StatusMap, q: seq<string>, i: nat)
    requires BlockingChain(dag, st, q) && q[0] in Layer(dag, st, i)
    ensures false
    decreases |q|
  {
    assert Awaits(dag, st, q[0+1], q[0]);
    LayerFollowsPredecessors(dag, st, i, q[0], q[1]);
    var j: nat :| j < i && q[1] in Layer(dag, st, j);
    if |q| > 2 {
      ChainTail(dag, st, q);
      ChainKeepsOut(dag, st, q[1..], j);
    }
  }

  lemma LongerChain(dag: Dag, st: StatusMap, p: string, id: string)
    requires Awaits(dag, st, p, id) && (!Waiting(st, p) || Obstructed(dag, st, p))
    ensures Obstructed(dag, st, id)
  {
    if !Waiting(st, p) {
      assert BlockingChain(dag, st, [id, p]);
    } else {
      var q :| BlockingChain(dag, st, q) && q[0] == p;
      var r := [id] + q;
      forall i | 0 <= i < |r| - 1 ensures Awaits(dag, st, r[i+1], r[i]) {
        if i > 0 { assert Awaits(dag, st, q[i-1+1], q[i-1]); }
      }
      assert BlockingChain(dag, st, r);
    }
  }

  lemma LayerIsPlaced(dag: Dag, st: StatusMap, waves: Schedule, j: nat, id: string)
    requires ListsLayers(dag, st, waves) && j < |waves| && id in Layer(dag, st, j)
    ensures Placed(waves, id)
  {
    assert At(waves, j, id);
  }

  /** A waiting item that no wave takes has an unfinished predecessor that no wave takes. */
  lemma LeftOutHasCause(dag: Dag, st: StatusMap, waves: Schedule, id: string) returns (p: string)
    requires IsSchedule(dag, st, waves)
    requires id in dag.backlogIds && Waiting(st, id) && !Placed(waves, id)
    ensures Awaits(dag, st, p, id) && (Waiting(st, p) ==> !Placed(waves, p))
  {
    var n := |waves|;
    var settled := Settled(dag, st, n);
    if id in settled {
      SettledCases(dag, st, n, id);
      var j: nat :| j < n && id in Layer(dag, st, j);
      LayerIsPlaced(dag, st, waves, j, id);
    }
    assert id !in Layer(dag, st, n);
    p :| p in dag.backlogIds && Requires(dag, p, id) && (Has(st, p, BLOCKED) || p !in settled);
    SettledGrows(dag, st, 0, n);
    if i :| At(waves, i, p) {
      SettledGrows(dag, st, i + 1, n);
    }
  }

  /** On an acyclic graph a TODO or READY item is left out exactly when a chain of unfinished
      predecessors leads to an item that is neither DONE nor TODO nor READY. */
  lemma LeftOutIffObstructed(dag: Dag, st: StatusMap, waves: Schedule, id: string)
    requires !Cyclic(dag.graph) && IsSchedule(dag, st, waves)
    requires id in dag.backlogIds && (Has(st, id, TODO) || Has(st, id, READY))
    ensures !Placed(waves, id) <==> Obstructed(dag, st, id)
  {
    if Obstructed(dag, st, id) && Placed(waves, id) {
      var q :| BlockingChain(dag, st, q) && q[0] == id;
      var i :| At(waves, i, id);
      ChainKeepsOut(dag, st, q, i);
    }
    var lost := set x | x in dag.backlogIds && Waiting(st, x) && !Placed(waves, x) && !Obstructed(dag, st, x);
    if lost != {} {
      forall x {:trigger FedFrom(dag.graph, lost, x)} | x in lost ensures FedFrom(dag.graph, lost, x) {
        var p := LeftOutHasCause(dag, st, waves, x);
        if !Waiting(st, p) || Obstructed(dag, st, p) {
          LongerChain(dag, st, p, x);
        }
        assert p in lost;
      }
      NoSourceMeansCyclic(dag.graph, lost);
    }
    assert id !in lost;
  }

  // ----- the same, over the declared dependencies -----

  /** On a built graph an item awaits exactly its declared dependencies that are not DONE. */
  lemma AwaitsDependencies(dag: Dag, backlog: seq<BL>, st: StatusMap, bl: BL, p: string)
    requires Plans(dag, backlog) && bl in backlog
    ensures Awaits(dag, st, p, bl.id) <==> p in bl.dependsOn && !Has(st, p, DONE)
  {
    GraphOfValid(backlog, bl);
    assert bl.id in Ids(backlog);
    if p in bl.dependsOn {
      assert p in Ids(backlog);
      ItemIsNoTag(backlog, p);
      assert p in ValidateSpecs.DependsGraph(backlog);
    }
    if Requires(dag, p, bl.id) {
      assert Edge(ValidateSpecs.DependsGraph(backlog), bl.id, p);
    }
  }

  /** A scheduled item comes after each of its dependencies that is not DONE, in the wave right after
      the latest of them, and in the first wave when there is none. */
  lemma WavesFollowDependencies(dag: Dag, backlog: seq<BL>, st: StatusMap, waves: Schedule, bl: BL, i: int)
    requires Plans(dag, backlog) && IsSchedule(dag, st, waves) && bl in backlog && At(waves, i, bl.id)
    ensures Has(st, bl.id, TODO) || Has(st, bl.id, READY)
    ensures forall p :: p in bl.dependsOn && !Has(st, p, DONE) ==> exists j :: j < i && At(waves, j, p)
    ensures i > 0 ==> exists p :: p in bl.dependsOn && !Has(st, p, DONE) && At(waves, i - 1, p)
  {
    WavesAreEarliestLayers(dag, st, waves, i, bl.id);
    forall p ensures Awaits(dag, st, p, bl.id) <==> p in bl.dependsOn && !Has(st, p, DONE) {
      AwaitsDependencies(dag, backlog, st, bl, p);
    }
  }

  /** The item depends on `p`, which is not DONE. */
  ghost predicate WaitsFor(backlog: seq<BL>, st: StatusMap, id: string, p: string) {
    !Has(st, p, DONE) && exists bl :: bl in backlog && bl.id == id && p in bl.dependsOn
  }

  /** `q[0]` waits for `q[1]`, and so on, to an item that is neither DONE nor TODO nor READY. */
  ghost predicate StuckChain(backlog: seq<BL>, st: StatusMap, q: seq<string>) {
    && |q| >= 2
    && (forall i :: 0 <= i < |q| - 1 ==> WaitsFor(backlog, st, q[i], q[i+1]))
    && !Has(st, q[|q|-1], TODO) && !Has(st, q[|q|-1], READY)
  }

  lemma LinkAwaits(dag: Dag, backlog: seq<BL>, st: StatusMap, a: string, p: string)
    requires Plans(dag, backlog)
    ensures Awaits(dag, st, p, a) && a in dag.backlogIds <==> WaitsFor(backlog, st, a, p)
  {
    if a in dag.backlogIds {
      var bl :| bl in backlog && bl.id == a;
      AwaitsDependencies(dag, backlog, st, bl, p);
    }
    if bl :| bl in backlog && bl.id == a && p in bl.dependsOn && !Has(st, p, DONE) {
      AwaitsDependencies(dag, backlog, st, bl, p);
    }
  }

  lemma {:induction false} ChainsAgree(dag: Dag, backlog: seq<BL>, st: StatusMap, q: seq<string>)
    requires Plans(dag, backlog) && q != [] && q[0] in dag.backlogIds
    ensures BlockingChain(dag, st, q) <==> StuckChain(backlog, st, q)
  {
    forall i | 0 <= i < |q| - 1
      ensures Awaits(dag, st, q[i+1], q[i]) && q[i] in dag.backlogIds <==> WaitsFor(backlog, st, q[i], q[i+1])
    {
      LinkAwaits(dag, backlog, st, q[i], q[i+1]);
    }
    if BlockingChain(dag, st, q) {
      forall i | 0 <= i < |q| - 1 ensures q[i] in dag.backlogIds {
        if i > 0 { assert Awaits(dag, st, q[i-1+1], q[i-1]); }
      }
    }
  }

  /** An item that is TODO or READY is left out exactly when a chain of dependencies holds it up. */
  lemma LeftOutIffStuck(dag: Dag, backlog: seq<BL>, st: StatusMap, waves: Schedule, bl: BL)
    requires Plans(dag, backlog) && !Cyclic(dag.graph) && IsSchedule(dag, st, waves)
    requires bl in backlog && (Has(st, bl.id, TODO) || Has(st, bl.id, READY))
    ensures !Placed(waves, bl.id) <==> exists q :: StuckChain(backlog, st, q) && q[0] == bl.id
  {
    assert bl.id in Ids(backlog);
    LeftOutIffObstructed(dag, st, waves, bl.id);
    if q :| BlockingChain(dag, st, q) && q[0] == bl.id {
      ChainsAgree(dag, backlog, st, q);
    }
    if q :| StuckChain(backlog, st, q) && q[0] == bl.id {
      ChainsAgree(dag, backlog, st, q);
    }
  }
}
