/** Dependents of a backlog item, what may run now, and the status changes a BLOCKED item or a
    rejected version forces on the rest of the plan. */
module GraphUpdates {
  import opened Domain
  import opened Ordering
  import opened Graph
  import opened SpecIndex
  import opened PlanningDag
  import opened Waves
  import opened CriticalPath
  import opened StateStore
  import ValidateSpecs

  // ----- dependents -----

  predicate DependsOn(backlog: seq<BL>, b: string, a: string) {
    exists bl :: bl in backlog && bl.id == b && a in bl.dependsOn
  }

  function DirectDependents(backlog: seq<BL>, a: string): set<string> {
    set bl | bl in backlog && a in bl.dependsOn :: bl.id
  }

  ghost function Mentioned(backlog: seq<BL>): set<string> {
    set bl, a | bl in backlog && a in bl.dependsOn :: a
  }

  /** Every identifier the backlog mentions, each with its direct dependents. */
  ghost function DependentGraph(backlog: seq<BL>): Graph {
    map a | a in Ids(backlog) + Mentioned(backlog) :: Sorted(DirectDependents(backlog, a))
  }

  lemma DependentEdges(backlog: seq<BL>, a: string, b: string)
    ensures Edge(DependentGraph(backlog), a, b) <==> b in DirectDependents(backlog, a)
    ensures Edge(DependentGraph(backlog), a, b) <==> DependsOn(backlog, b, a)
  {
    if bl :| bl in backlog && bl.id == b && a in bl.dependsOn {
      assert a in Mentioned(backlog) && b in Ids(backlog);
    }
  }

  method BuildDependentIndex(backlog: seq<BL>) returns (dependents: map<string, set<string>>)
    ensures Successors(dependents, DependentGraph(backlog))
  {
    dependents := map[];
    for i := 0 to |backlog|
      invariant forall a, b :: b in Next(dependents, a) <==> b in DirectDependents(backlog[..i], a)
    {
      var bl := backlog[i];
      for j := 0 to |bl.dependsOn|
        invariant forall a, b :: b in Next(dependents, a) <==>
          b in DirectDependents(backlog[..i], a) || (b == bl.id && a in bl.dependsOn[..j])
      {
        var dep := bl.dependsOn[j];
        dependents := dependents[dep := Next(dependents, dep) + {bl.id}];
        assert bl.dependsOn[..j+1] == bl.dependsOn[..j] + [dep];
      }
      assert bl.dependsOn[..|bl.dependsOn|] == bl.dependsOn;
      assert backlog[..i+1] == backlog[..i] + [bl];
    }
    assert backlog[..|backlog|] == backlog;
    forall a, b ensures Edge(DependentGraph(backlog), a, b) <==> a in dependents && b in dependents[a] {
      DependentEdges(backlog, a, b);
      assert b in Next(dependents, a) <==> b in DirectDependents(backlog, a);
    }
  }

  /** Exactly the items one or more dependency edges downstream, in order, on any backlog. */
  method TransitiveDependents(backlog: seq<BL>, blocked: string) returns (r: seq<string>)
    ensures Ascending(r) && forall n :: n in r <==> Reaches(DependentGraph(backlog), blocked, n)
  {
    var dependents := BuildDependentIndex(backlog);
    var discovered := Discover(dependents, blocked, DependentGraph(backlog));
    return Sorted(discovered);
  }

  // ----- what may run -----

  predicate IsRunnable(bl: BL, st: StatusMap) {
    Waiting(st, bl.id) && forall dep :: dep in bl.dependsOn ==> !Has(st, dep, BLOCKED) && Has(st, dep, DONE)
  }

  function RunnableSet(backlog: seq<BL>, st: StatusMap): set<string> {
    set bl | bl in backlog && IsRunnable(bl, st) :: bl.id
  }

  function RunnableBacklogItems(backlog: seq<BL>, st: StatusMap): seq<string> {
    Sorted(RunnableSet(backlog, st))
  }

  // ----- agreement of the readiness notions -----

  lemma RunnableIffSatisfied(dag: Dag, backlog: seq<BL>, st: StatusMap, bl: BL)
    requires Plans(dag, backlog) && bl in backlog
    ensures IsRunnable(bl, st) <==> Waiting(st, bl.id) && Satisfied(dag, st, bl.id, DoneSet(dag, st))
  {
    GraphOfValid(backlog, bl);
    assert bl.id in Ids(backlog);
    forall dep | dep in bl.dependsOn ensures Requires(dag, dep, bl.id) {
      assert dep in Ids(backlog);
      ItemIsNoTag(backlog, dep);
      assert dep in ValidateSpecs.DependsGraph(backlog);
    }
    forall p | p in dag.backlogIds && Requires(dag, p, bl.id) ensures p in bl.dependsOn {
      assert Edge(ValidateSpecs.DependsGraph(backlog), bl.id, p);
    }
  }

  /** The runnable listing is the first wave, as a sequence; both are empty together. */
  lemma RunnableIsFirstWave(dag: Dag, backlog: seq<BL>, st: StatusMap, waves: Schedule)
    requires Plans(dag, backlog) && IsSchedule(dag, st, waves)
    ensures RunnableBacklogItems(backlog, st) == if waves == [] then [] else waves[0]
  {
    var runnable, first := RunnableSet(backlog, st), Layer(dag, st, 0);
    forall id ensures id in runnable <==> id in first {
      if id in runnable {
        var bl :| bl in backlog && IsRunnable(bl, st) && bl.id == id;
        RunnableIffSatisfied(dag, backlog, st, bl);
      }
      if id in first {
        assert id in Ids(backlog);
        var bl :| bl in backlog && bl.id == id;
        RunnableIffSatisfied(dag, backlog, st, bl);
      }
    }
    assert runnable == first;
  }

  /** A ready item is runnable; a runnable one is ready unless a BLOCKED item lies upstream. */
  lemma ReadyIffRunnableAndFree(dag: Dag, backlog: seq<BL>, st: StatusMap, id: string)
    requires Plans(dag, backlog)
    ensures Ready(dag, st, id) <==>
      (id in RunnableSet(backlog, st) && forall b :: b in dag.backlogIds && Has(st, b, BLOCKED) ==> !Reaches(dag.graph, b, id))
  {
    if id in Ids(backlog) {
      var bl :| bl in backlog && bl.id == id;
      RunnableIffSatisfied(dag, backlog, st, bl);
      if IsRunnable(bl, st) {
        assert id in RunnableSet(backlog, st);
      }
    }
    if id in RunnableSet(backlog, st) {
      var bl :| bl in backlog && IsRunnable(bl, st) && bl.id == id;
      assert id in Ids(backlog);
      RunnableIffSatisfied(dag, backlog, st, bl);
    }
  }

  /** Nothing is DONE before its dependencies are. */
  ghost predicate DoneIsClosed(dag: Dag, st: StatusMap) {
    forall p, id :: Requires(dag, p, id) && Has(st, id, DONE) ==> Has(st, p, DONE)
  }

  lemma {:induction false} DoneReachesBack(dag: Dag, backlog: seq<BL>, st: StatusMap, p: seq<string>)
    requires Plans(dag, backlog) && DoneIsClosed(dag, st)
    requires Walk(dag.graph, p) && p[0] in dag.backlogIds && Has(st, p[|p|-1], DONE)
    ensures Has(st, p[0], DONE)
    decreases |p|
  {
    if |p| > 1 {
      var q := p[..|p|-1];
      forall i | 0 <= i < |q| - 1 ensures Edge(dag.graph, q[i], q[i+1]) {
        assert Edge(dag.graph, p[i], p[i+1]);
      }
      var last := q[|q|-1];
      assert Edge(dag.graph, p[|p|-2], p[|p|-2+1]);
      if |q| > 1 { assert Edge(dag.graph, p[|p|-3], p[|p|-3+1]); }
      assert last in dag.backlogIds;
      ItemIsNoTag(backlog, last);
      assert Requires(dag, last, p[|p|-1]);
      DoneReachesBack(dag, backlog, st, q);
    }
  }

  lemma UpstreamOfRunnableIsDone(dag: Dag, backlog: seq<BL>, st: StatusMap, b: string, id: string)
    requires Plans(dag, backlog) && DoneIsClosed(dag, st) && b in dag.backlogIds
    requires Satisfied(dag, st, id, DoneSet(dag, st)) && Reaches(dag.graph, b, id)
    ensures Has(st, b, DONE)
  {
    var p :| Leads(dag.graph, p, b, id);
    var q := p[..|p|-1];
    forall i | 0 <= i < |q| - 1 ensures Edge(dag.graph, q[i], q[i+1]) {
      assert Edge(dag.graph, p[i], p[i+1]);
    }
    var last := q[|q|-1];
    assert Edge(dag.graph, p[|p|-2], p[|p|-2+1]);
    if |q| > 1 { assert Edge(dag.graph, p[|p|-3], p[|p|-3+1]); }
    assert last in dag.backlogIds;
    ItemIsNoTag(backlog, last);
    assert Requires(dag, last, id);
    DoneReachesBack(dag, backlog, st, q);
  }

  /** When every DONE item has only DONE dependencies, ready and runnable are the same items. */
  lemma ReadyIffRunnableWhenDoneIsClosed(dag: Dag, backlog: seq<BL>, st: StatusMap, id: string)
    requires Plans(dag, backlog) && DoneIsClosed(dag, st)
    ensures Ready(dag, st, id) <==> id in RunnableSet(backlog, st)
  {
    ReadyIffRunnableAndFree(dag, backlog, st, id);
    if id in RunnableSet(backlog, st) {
      var bl :| bl in backlog && IsRunnable(bl, st) && bl.id == id;
      assert id in Ids(backlog);
      RunnableIffSatisfied(dag, backlog, st, bl);
      forall b | b in dag.backlogIds && Has(st, b, BLOCKED) ensures !Reaches(dag.graph, b, id) {
        if Reaches(dag.graph, b, id) {
          UpstreamOfRunnableIsDone(dag, backlog, st, b, id);
        }
      }
    }
  }

  // ----- agreement of the downstream notions -----

  lemma SameEdge(dag: Dag, backlog: seq<BL>, a: string, b: string)
    requires Plans(dag, backlog)
    ensures Edge(DependentGraph(backlog), a, b) <==> Edge(dag.graph, a, b) && a in dag.backlogIds
  {
    DependentEdges(backlog, a, b);
    if Edge(DependentGraph(backlog), a, b) {
      var bl :| bl in backlog && bl.id == b && a in bl.dependsOn;
      GraphOfValid(backlog, bl);
      assert a in Ids(backlog) && b in Ids(backlog);
    }
    if Edge(dag.graph, a, b) && a in dag.backlogIds {
      DependencyOf(backlog, b, a);
    }
  }

  /** From a backlog item, the planning graph and the dependency index reach the same items. */
  lemma SameDownstream(dag: Dag, backlog: seq<BL>, b: string, n: string)
    requires Plans(dag, backlog) && b in dag.backlogIds
    ensures Reaches(dag.graph, b, n) <==> Reaches(DependentGraph(backlog), b, n)
  {
    var g := DependentGraph(backlog);
    if Reaches(dag.graph, b, n) {
      var p :| Leads(dag.graph, p, b, n);
      forall i | 0 <= i < |p| - 1 ensures Edge(g, p[i], p[i+1]) {
        assert Edge(dag.graph, p[i], p[i+1]);
        if i > 0 { assert Edge(dag.graph, p[i-1], p[i-1+1]); }
        SameEdge(dag, backlog, p[i], p[i+1]);
      }
      assert Leads(g, p, b, n);
    }
    if Reaches(g, b, n) {
      var p :| Leads(g, p, b, n);
      forall i | 0 <= i < |p| - 1 ensures Edge(dag.graph, p[i], p[i+1]) {
        assert Edge(g, p[i], p[i+1]);
        SameEdge(dag, backlog, p[i], p[i+1]);
      }
      assert Leads(dag.graph, p, b, n);
    }
  }

  /** For a single blocked item the closure the planner excludes is the item with its transitive
      dependents; on an acyclic plan the item is not among them, so removing it from the closure
      leaves the dependents exactly. */
  lemma ClosureIsItemAndDependents(dag: Dag, backlog: seq<BL>, st: StatusMap, b: string, n: string)
    requires Plans(dag, backlog) && b in dag.backlogIds
    requires forall x :: x in dag.backlogIds ==> (Has(st, x, BLOCKED) <==> x == b)
    ensures HeldUp(dag, st, n) <==> n == b || Reaches(DependentGraph(backlog), b, n)
    ensures !Cyclic(dag.graph) ==> (HeldUp(dag, st, n) && n != b <==> Reaches(DependentGraph(backlog), b, n))
  {
    SameDownstream(dag, backlog, b, n);
    ReachesSelfIffCyclic(dag.graph);
  }

  // ----- status changes -----

  /** The statuses after moving the listed items that stand at `from` to `to`. */
  function Moved(st: StatusMap, ids: seq<string>, from: Status, to: Status): StatusMap {
    map id | id in st :: if id in ids && st[id] == from then to else st[id]
  }

  /** The listed items that stand at `from`, in order. */
  function Standing(st: StatusMap, ids: seq<string>, from: Status): seq<string> {
    if ids == [] then [] else
      var last := ids[|ids|-1];
      Standing(st, ids[..|ids|-1], from) + (if Has(st, last, from) then [last] else [])
  }

  lemma {:induction false} StandingAre(st: StatusMap, ids: seq<string>, from: Status)
    ensures forall id :: id in Standing(st, ids, from) <==> id in ids && Has(st, id, from)
    ensures Ascending(ids) ==> Ascending(Standing(st, ids, from))
    decreases |ids|
  {
    if ids != [] {
      var init := ids[..|ids|-1];
      StandingAre(st, init, from);
      assert ids == init + [ids[|ids|-1]];
      if Ascending(ids) {
        assert forall i :: 0 <= i < |init| ==> init[i] == ids[i];
        forall x | x in Standing(st, init, from) ensures Le(x, ids[|ids|-1]) && x != ids[|ids|-1] {
          var i :| 0 <= i < |init| && init[i] == x;
          assert ids[i] == x;
        }
        AscendingSnoc(Standing(st, init, from), ids[|ids|-1]);
      }
    }
  }

  function Twice(id: string, kind: EventKind, actor: Actor): seq<Event> {
    [Event(id, kind, actor), Event(id, kind, actor)]
  }

  /** Two journal entries an item: the transition's own and the one that gives the cause. */
  function Pairs(ids: seq<string>, kind: EventKind, actor: Actor): seq<Event> {
    if ids == [] then [] else
      Pairs(ids[..|ids|-1], kind, actor) + Twice(ids[|ids|-1], kind, actor)
  }

  /** A request to move items from one status to another, and how the journal names it. */
  datatype Move = Move(from: Status, to: Status, reopen: bool, kind: EventKind, actor: Actor) {
    predicate Legal() {
      from != to && CanTransition(from, to, false, reopen) && TransitionEvent(from, to, false, reopen) == kind
    }
  }

  /** `st1`, `ev1` and `moved` are what carrying out the move on `ids` makes of `st` and `ev`. */
  ghost predicate Swept(m: Move, ids: seq<string>, st: StatusMap, ev: seq<Event>, st1: StatusMap, ev1: seq<Event>, moved: seq<string>) {
    && st1 == Moved(st, ids, m.from, m.to)
    && moved == Standing(st, ids, m.from)
    && ev1 == ev + Pairs(moved, m.kind, m.actor)
  }

  lemma SweptMiss(m: Move, ids: seq<string>, id: string, st: StatusMap, ev: seq<Event>, st1: StatusMap, ev1: seq<Event>, moved: seq<string>)
    requires m.Legal() && id !in ids && !Has(st, id, m.from)
    requires Swept(m, ids, st, ev, st1, ev1, moved)
    ensures Swept(m, ids + [id], st, ev, st1, ev1, moved) && !Has(st1, id, m.from)
  {
    assert forall x :: x in ids + [id] <==> x in ids || x == id;
    assert (ids + [id])[..|ids|] == ids && moved + [] == moved;
  }

  lemma SweptHit(m: Move, ids: seq<string>, id: string, st: StatusMap, ev: seq<Event>, st1: StatusMap, ev1: seq<Event>, moved: seq<string>)
    requires m.Legal() && id !in ids && Has(st, id, m.from)
    requires Swept(m, ids, st, ev, st1, ev1, moved)
    ensures Has(st1, id, m.from)
    ensures Swept(m, ids + [id], st, ev, st1[id := m.to], ev1 + Twice(id, m.kind, m.actor), moved + [id])
  {
    assert forall x :: x in ids + [id] <==> x in ids || x == id;
    assert (ids + [id])[..|ids|] == ids && (moved + [id])[..|moved|] == moved;
    var pairs, two := Pairs(moved, m.kind, m.actor), Twice(id, m.kind, m.actor);
    assert ev + pairs + two == ev + (pairs + two);
  }

  method MoveOne(db: StateDatabase, id: string, m: Move)
    requires m.Legal() && Has(db.statuses, id, m.from)
    modifies db
    ensures db.statuses == old(db.statuses)[id := m.to]
    ensures db.events == old(db.events) + Twice(id, m.kind, m.actor)
  {
    var _ := db.Transition(id, m.to, m.actor, false, m.reopen);
    var _ := db.Append(Event(id, m.kind, m.actor));
  }

  /** A legal move of every item standing at `from`, journaled twice under one kind. */
  method MoveAll(db: StateDatabase, ids: seq<string>, m: Move) returns (moved: seq<string>)
    requires m.Legal() && Distinct(ids)
    modifies db
    ensures Swept(m, ids, old(db.statuses), old(db.events), db.statuses, db.events, moved)
  {
    moved := [];
    ghost var st, ev := db.statuses, db.events;
    assert Moved(st, [], m.from, m.to) == st;
    for i := 0 to |ids|
      invariant Swept(m, ids[..i], st, ev, db.statuses, db.events, moved)
    {
      var id := ids[i];
      assert ids[..i+1] == ids[..i] + [id];
      if Has(st, id, m.from) {
        SweptHit(m, ids[..i], id, st, ev, db.statuses, db.events, moved);
      } else {
        SweptMiss(m, ids[..i], id, st, ev, db.statuses, db.events, moved);
      }
      if Has(db.statuses, id, m.from) {
        MoveOne(db, id, m);
        moved := moved + [id];
      }
    }
    assert ids[..|ids|] == ids;
  }

  /** Afterwards no dependent of the blocked item is READY, every other status stands, and the
      journal names each demoted item. */
  method ApplyBlockedSideEffects(db: StateDatabase, backlog: seq<BL>, blocked: string)
    returns (dependents: seq<string>, demoted: seq<string>)
    modifies db
    ensures Ascending(dependents) && forall n :: n in dependents <==> Reaches(DependentGraph(backlog), blocked, n)
    ensures Ascending(demoted) && forall n :: n in demoted <==> n in dependents && Has(old(db.statuses), n, READY)
    ensures db.statuses.Keys == old(db.statuses).Keys
    ensures forall n :: n in dependents ==> !Has(db.statuses, n, READY)
    ensures forall n :: n in db.statuses ==> db.statuses[n] == if n in demoted then TODO else old(db.statuses)[n]
    ensures db.events == old(db.events) + Pairs(demoted, BL_STATUS_CHANGED, EXECUTOR)
  {
    dependents := TransitiveDependents(backlog, blocked);
    StandingAre(db.statuses, dependents, READY);
    demoted := MoveAll(db, dependents, Move(READY, TODO, false, BL_STATUS_CHANGED, EXECUTOR));
  }

  /** Reopens exactly the faulty items that are DONE and lists what may run afterwards. */
  method ApplyVersionNoGoSideEffects(db: StateDatabase, backlog: seq<BL>, faulty: set<string>)
    returns (reopened: seq<string>, runnable: seq<string>)
    modifies db
    ensures Ascending(reopened) && forall n :: n in reopened <==> n in faulty && Has(old(db.statuses), n, DONE)
    ensures db.statuses.Keys == old(db.statuses).Keys
    ensures forall n :: n in faulty ==> !Has(db.statuses, n, DONE)
    ensures forall n :: n in db.statuses ==> db.statuses[n] == if n in reopened then IN_PROGRESS else old(db.statuses)[n]
    ensures db.events == old(db.events) + Pairs(reopened, ROLLED_BACK, RELEASE)
    ensures runnable == RunnableBacklogItems(backlog, db.statuses)
  {
    var ids := Sorted(faulty);
    StandingAre(db.statuses, ids, DONE);
    reopened := MoveAll(db, ids, Move(DONE, IN_PROGRESS, true, ROLLED_BACK, RELEASE));
    runnable := RunnableBacklogItems(backlog, db.statuses);
  }
}
