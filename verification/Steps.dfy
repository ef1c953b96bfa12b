/** The steps of the sequential execution chain: what each may journal, and how it moves the item.

    Roles, gates, git and GitHub are arbitrary: each call may raise or answer anything. While the
    executor waits on one of them, other items' workers append their own events. */
module Steps {
  import opened Domain
  import opened StateStore
  import opened Journal
  import AQ = ApprovalQueue
  import GraphUpdates
  import Graph

  /** `specs` is the backlog found under the specification root, when the request names one. */
  datatype Request = Request(
    run: string,
    bl: string,
    dryRun: bool,
    maxIterations: int,
    manifest: Option<AQ.Manifest>,
    specs: Option<seq<BL>>)

  /** How a step ends: the chain goes on, a new epoch starts at a marker, the item is blocked at
      the iteration cap, the merge waits for approval, or an error propagates. */
  datatype StepResult = Continue | Restart(epoch: nat) | CapReached | Awaiting | Raised

  // ----- what a step may journal -----

  function One(b: bool): nat {
    if b then 1 else 0
  }

  predicate Reports(s: Step) {
    s == Dev || s == Gates || s == Tester || s == Reviewer || s == Merge
  }

  /** Runs of the DEV role among the completions. */
  function DevRuns(c: seq<Step>): nat {
    multiset(c)[Dev]
  }

  predicate Progress(s: Step, c: seq<Step>, k: Kinds) {
    && c == (if Reports(s) then [s] else [])
    && (DEV_COMPLETED in k ==> s == Dev || s == Merge) && (s == Dev ==> DEV_COMPLETED in k)
    && k[GATES_COMPLETED] == One(s == Gates) && k[TESTER_COMPLETED] == One(s == Tester)
    && k[REVIEWER_COMPLETED] == One(s == Reviewer) && k[MERGED] == One(s == Merge)
    && k[WORKTREE_CREATED] == One(s == Branch) && k[PR_OPENED] <= One(s == PrOpen)
    && NoGos(k) == 0 && ISSUE_OPENED !in k
  }

  /** An error leaves no verdict, branch, pull request or merge behind. */
  predicate Aborted(s: Step, c: seq<Step>, k: Kinds) {
    && NoGos(k) == 0 && WORKTREE_CREATED !in k && PR_OPENED !in k && MERGED !in k && GATES_COMPLETED !in k
    && DevRuns(c) <= One(s == Dev) && (TESTER_COMPLETED in k ==> s == Tester) && (REVIEWER_COMPLETED in k ==> s == Reviewer)
  }

  predicate Judges(s: Step) {
    s == Tester || s == Reviewer
  }

  /** The marker of a new epoch, followed by the verdict that called for it. */
  predicate IsCorrection(t: seq<Event>) {
    |t| == 2 && t[0].kind == ISSUE_OPENED && IsNoGo(t[1].kind)
  }

  predicate IsEscalation(t: seq<Event>) {
    |t| == 3 && t[0].kind == BL_BLOCKED && t[1].kind == ISSUE_OPENED && t[2].kind == ESCALATED
  }

  /** What one run of the DEV role leaves in the journal: two entries of one kind, unless the item
      stood at IN_TEST already. */
  function DevEntries(bl: string, before: Option<Status>): seq<Event> {
    var e, f := Event(bl, DEV_COMPLETED, EXECUTOR), Event(bl, DEV_COMPLETED, DEV);
    if before == Some(IN_TEST) then [e] else [e, f]
  }

  /** The machine entries that bring the item up to IN_REVIEW before it is merged. */
  function CatchUp(bl: string, before: Option<Status>): seq<Event> {
    var e, f := Event(bl, DEV_COMPLETED, DEV), Event(bl, TEST_GO, TESTER);
    if before == Some(IN_PROGRESS) then [e, f] else if before == Some(IN_TEST) then [f] else []
  }

  /** What a step that goes through journals, exactly. */
  ghost predicate Done(s: Step, bl: string, t: seq<Event>) {
    match s
    case Branch => t == [Event(bl, WORKTREE_CREATED, EXECUTOR)]
    case Dev => exists b :: t == DevEntries(bl, b)
    case Gates => t == [Event(bl, GATES_COMPLETED, GATE)]
    case Tester => t == [Event(bl, TESTER_COMPLETED, TESTER)]
                   || t == [Event(bl, TESTER_COMPLETED, TESTER), Event(bl, TEST_GO, TESTER)]
    case Push => t == []
    case PrOpen => t == [] || exists n :: t == [Event(bl, PR_OPENED, EXECUTOR, n)]
    case Reviewer => t == [Event(bl, REVIEWER_COMPLETED, REVIEWER)]
                     || t == [Event(bl, REVIEWER_COMPLETED, REVIEWER), Event(bl, TEST_GO, REVIEWER)]
    case Merge => exists b :: t == CatchUp(bl, b) + [Event(bl, MERGED, INTEGRATOR)]
  }

  /** What it may have journaled when an error cuts it short. */
  ghost predicate Cut(s: Step, bl: string, t: seq<Event>) {
    || t == []
    || (s == Dev && t == [Event(bl, DEV_COMPLETED, EXECUTOR)])
    || (s == Tester && t == [Event(bl, TESTER_COMPLETED, TESTER)])
    || (s == Reviewer && t == [Event(bl, REVIEWER_COMPLETED, REVIEWER)])
    || (Judges(s) && |t| == 1 && t[0].kind == ISSUE_OPENED)
    || (Judges(s) && IsEscalation(t))
    || (s == Merge && exists b :: t == CatchUp(bl, b))
  }

  ghost predicate Shape(s: Step, r: StepResult, bl: string, t: seq<Event>, noGo: nat, max: int) {
    match r
    case Continue => Done(s, bl, t)
    case Restart(_) => Judges(s) && noGo < max && IsCorrection(t)
    case CapReached => Judges(s) && noGo >= max && IsEscalation(t)
    case Awaiting => s == Merge && t == []
    case Raised => Cut(s, bl, t)
  }

  /** The same, counted. `noGo` is the number of NO-GO verdicts the item's journal held before. */
  ghost predicate Effect(s: Step, r: StepResult, added: seq<Event>, noGo: nat, max: int) {
    match r
    case Continue => Progress(s, Completions(added), KindsOf(added))
    case Restart(_) => Judges(s) && noGo < max && IsCorrection(added)
    case CapReached => Judges(s) && noGo >= max && IsEscalation(added)
    case Awaiting => s == Merge && added == []
    case Raised => Aborted(s, Completions(added), KindsOf(added))
  }

  lemma CorrectionReads(t: seq<Event>)
    requires IsCorrection(t)
    ensures Completions(t) == [] && KindsOf(t) == multiset{ISSUE_OPENED, t[1].kind}
  {
    assert t == [t[0], t[1]];
    ReadTwo(t[0], t[1]);
  }

  lemma EscalationReads(t: seq<Event>)
    requires IsEscalation(t)
    ensures Completions(t) == [] && KindsOf(t) == multiset{BL_BLOCKED, ISSUE_OPENED, ESCALATED}
  {
    assert t == [t[0], t[1], t[2]];
    ReadThree(t[0], t[1], t[2]);
  }

  lemma MergedCounts(k: Kinds)
    requires k <= multiset{DEV_COMPLETED, TEST_GO}
    ensures Progress(Merge, [Merge], k + multiset{MERGED})
  {
  }

  lemma MergedLast(t: seq<Event>, m: Event)
    requires Completions(t) == [] && KindsOf(t) <= multiset{DEV_COMPLETED, TEST_GO} && m.kind == MERGED
    ensures Progress(Merge, Completions(t + [m]), KindsOf(t + [m]))
  {
    ReadOne(m);
    KindsConcat(t, [m]);
    CompletionsConcat(t, [m]);
    assert Completions(t + [m]) == [Merge];
    MergedCounts(KindsOf(t));
  }

  lemma QuietAborts(s: Step, c: seq<Step>, k: Kinds)
    requires c == [] && (k <= multiset{DEV_COMPLETED, TEST_GO} || k == multiset{BL_BLOCKED, ISSUE_OPENED, ESCALATED})
    ensures Aborted(s, c, k)
  {
  }

  /** An entry that completes the step on its own. */
  predicate Completes(s: Step, e: Event) {
    match s
    case Branch => e.kind == WORKTREE_CREATED
    case Dev => e.kind == DEV_COMPLETED && e.actor == EXECUTOR
    case Gates => e.kind == GATES_COMPLETED
    case Tester => e.kind == TESTER_COMPLETED
    case PrOpen => e.kind == PR_OPENED
    case Reviewer => e.kind == REVIEWER_COMPLETED
    case _ => false
  }

  lemma OneProgresses(s: Step, e: Event)
    requires Completes(s, e)
    ensures Progress(s, Completions([e]), KindsOf([e]))
  {
    ReadOne(e);
  }

  lemma TwoProgress(s: Step, e: Event, f: Event)
    requires Completes(s, e)
    requires (s == Dev && f.kind == DEV_COMPLETED && f.actor == DEV) || (Judges(s) && f.kind == TEST_GO)
    ensures Progress(s, Completions([e, f]), KindsOf([e, f]))
  {
    ReadTwo(e, f);
  }

  lemma CatchUpReads(bl: string, b: Option<Status>)
    ensures Completions(CatchUp(bl, b)) == []
    ensures KindsOf(CatchUp(bl, b)) <= multiset{DEV_COMPLETED, TEST_GO}
  {
    var e, f := Event(bl, DEV_COMPLETED, DEV), Event(bl, TEST_GO, TESTER);
    ReadOne(f);
    ReadTwo(e, f);
  }

  lemma DoneProgresses(s: Step, bl: string, t: seq<Event>)
    requires Done(s, bl, t)
    ensures Progress(s, Completions(t), KindsOf(t))
  {
    if s == Merge {
      var b :| t == CatchUp(bl, b) + [Event(bl, MERGED, INTEGRATOR)];
      CatchUpReads(bl, b);
      MergedLast(CatchUp(bl, b), Event(bl, MERGED, INTEGRATOR));
    } else if |t| == 1 {
      OneProgresses(s, t[0]);
      assert t == [t[0]];
    } else if |t| == 2 {
      TwoProgress(s, t[0], t[1]);
      assert t == [t[0], t[1]];
    }
  }

  lemma OneAborts(s: Step, e: Event)
    requires (e.kind == DEV_COMPLETED && s == Dev) || (e.kind == REVIEWER_COMPLETED && s == Reviewer)
             || (e.kind == TESTER_COMPLETED && s == Tester) || e.kind == ISSUE_OPENED
    ensures Aborted(s, Completions([e]), KindsOf([e]))
  {
    ReadOne(e);
  }

  lemma CutAborts(s: Step, bl: string, t: seq<Event>)
    requires Cut(s, bl, t)
    ensures Aborted(s, Completions(t), KindsOf(t))
  {
    if t == [] {
      QuietAborts(s, [], multiset{});
    } else if s == Merge {
      var b :| t == CatchUp(bl, b);
      CatchUpReads(bl, b);
      QuietAborts(s, Completions(t), KindsOf(t));
    } else if |t| == 1 {
      OneAborts(s, t[0]);
      assert t == [t[0]];
    } else {
      EscalationReads(t);
      QuietAborts(s, Completions(t), KindsOf(t));
    }
  }

  lemma ShapeHasEffect(s: Step, r: StepResult, bl: string, t: seq<Event>, noGo: nat, max: int)
    requires Shape(s, r, bl, t, noGo, max)
    ensures Effect(s, r, t, noGo, max)
  {
    if r.Continue? { DoneProgresses(s, bl, t); }
    if r.Raised? { CutAborts(s, bl, t); }
  }

  // ----- the surroundings -----

  /** Other items' workers run: their events and statuses change, this item's do not. */
  method Others(db: StateDatabase, bl: string)
    modifies db
    ensures Grew(old(db.events), db.events, bl, [])
    ensures bl in db.statuses <==> bl in old(db.statuses)
    ensures bl in db.statuses ==> db.statuses[bl] == old(db.statuses)[bl]
  {
    var extra: seq<Event> :| forall i :: 0 <= i < |extra| ==> extra[i].bl != bl;
    GrewOthers(db.events, extra, bl);
    db.events := db.events + extra;
    var st: StatusMap :| (bl in st <==> bl in db.statuses) && (bl in st ==> st[bl] == db.statuses[bl]);
    db.statuses := st;
  }

  function Before(db: StateDatabase, bl: string): Option<Status>
    reads db
  {
    if bl in db.statuses then Some(db.statuses[bl]) else None
  }

  /** Appends one event of the item. */
  method Log(db: StateDatabase, e: Event, ghost ev0: seq<Event>, ghost added: seq<Event>) returns (id: nat)
    requires Grew(ev0, db.events, e.bl, added)
    modifies db`events
    ensures Grew(ev0, db.events, e.bl, added + [e]) && id == |old(db.events)|
    ensures db.events == old(db.events) + [e]
  {
    GrewOwn(ev0, db.events, e.bl, added, e);
    id := db.Append(e);
  }

  /** What the state machine journals for a move of the item from where it stands. */
  function MoveEntry(bl: string, before: Option<Status>, target: Status, actor: Actor, noGo: bool): Event
    requires before.Some?
  {
    Event(bl, TransitionEvent(before.value, target, noGo, false), actor)
  }

  predicate CanMove(before: Option<Status>, target: Status, noGo: bool) {
    before.Some? && CanTransition(before.value, target, noGo, false)
  }

  /** A plain transition of the item: journaled once when legal, without effect otherwise. */
  method Move(db: StateDatabase, bl: string, target: Status, actor: Actor, noGo: bool, ghost ev0: seq<Event>, ghost added: seq<Event>)
    returns (ok: bool)
    requires Grew(ev0, db.events, bl, added)
    modifies db
    ensures ok == CanMove(old(Before(db, bl)), target, noGo)
    ensures ok ==> db.events == old(db.events) + [MoveEntry(bl, old(Before(db, bl)), target, actor, noGo)]
    ensures ok ==> Grew(ev0, db.events, bl, added + [MoveEntry(bl, old(Before(db, bl)), target, actor, noGo)])
    ensures ok ==> Before(db, bl) == Some(target)
    ensures !ok ==> Grew(ev0, db.events, bl, added) && Before(db, bl) == old(Before(db, bl))
  {
    ghost var before := Before(db, bl);
    if before.Some? {
      GrewOwn(ev0, db.events, bl, added, MoveEntry(bl, before, target, actor, noGo));
    }
    ok := db.Transition(bl, target, actor, noGo, false);
  }

  // ----- the world outside -----

  /** What the world outside replies to one step. `works` is false when git, GitHub, a role or the
      gates fail in it; the verdict is that of the gates or of the judging role; `opens` and `indexes`
      tell whether the issue a NO GO calls for can be opened and the specifications be read again;
      `number` is the pull request number read back, if it could be. */
  datatype Reply = Reply(works: bool, verdict: Verdict, opens: bool, indexes: bool, number: Option<int>)

  /** The replies to a call, by round: the call starts in round 0, and each restart begins the next. */
  datatype World = World(reply: (nat, Step) -> Reply)

  /** The step can go through: its work is done, and whoever is asked for a verdict says GO. Nobody is
      asked on a dry run. */
  predicate Went(rep: Reply, dryRun: bool, s: Step) {
    s == PrOpen || (rep.works && ((s == Gates || Judges(s)) && !dryRun ==> rep.verdict == GO))
  }

  /** A judging role says NO GO. */
  predicate Refused(rep: Reply, dryRun: bool, s: Step) {
    Judges(s) && !dryRun && rep.works && rep.verdict == NO_GO
  }

  /** Nothing fails in the step; the judging roles may still say NO GO. */
  predicate Fine(rep: Reply, dryRun: bool, s: Step) {
    rep.works && rep.opens && rep.indexes && (s == Gates && !dryRun ==> rep.verdict == GO)
  }

  /** The status a step starts from when every step before it went through. */
  function Needed(s: Step): Status {
    match s
    case Branch => IN_PROGRESS
    case Dev => IN_PROGRESS
    case Gates => IN_TEST
    case Tester => IN_TEST
    case _ => IN_REVIEW
  }

  function Leaves(s: Step): Status {
    match s
    case Dev => IN_TEST
    case Tester => IN_REVIEW
    case Merge => DONE
    case _ => Needed(s)
  }

  predicate IsJudged(s: Option<Status>) {
    s == Some(IN_TEST) || s == Some(IN_REVIEW)
  }

  /** How each step answers to the reply it gets, and moves the item. The tester moves an item that
      stands elsewhere nowhere; the REVIEWER role's GO raises unless the item is under judgement. */
  predicate Moves(rep: Reply, dryRun: bool, s: Step, r: StepResult, before: Option<Status>, after: Option<Status>) {
    && (r.Continue? ==> Went(rep, dryRun, s))
    && (r.Restart? || r.CapReached? ==> Refused(rep, dryRun, s) && rep.opens)
    && (r.Restart? ==> IsJudged(before) && after == Some(IN_PROGRESS))
    && (r.Awaiting? ==> after == before)
    && (Refused(rep, dryRun, s) && rep.opens && rep.indexes && IsJudged(before) ==> r.Restart? || r.CapReached?)
    && (!rep.works && s != Merge ==> after == before)
    && match s
       case Dev =>
         && (r.Continue? ==> after == Some(IN_TEST))
         && (rep.works && (before == Some(IN_PROGRESS) || before == Some(IN_TEST)) ==> r.Continue?)
       case Tester =>
         && (r.Continue? ==> after == if before == Some(IN_TEST) then Some(IN_REVIEW) else before)
         && (Went(rep, dryRun, s) ==> r.Continue?)
       case Reviewer =>
         && (r.Continue? ==> if dryRun then after == before else IsJudged(before) && after == Some(IN_REVIEW))
         && (r.Raised? && Went(rep, dryRun, s) ==> after == before)
         && (Went(rep, dryRun, s) && (dryRun || IsJudged(before)) ==> r.Continue?)
       case Merge =>
         && (r.Continue? ==> after == Some(DONE))
         && (rep.works && (before == Some(IN_PROGRESS) || IsJudged(before)) ==> !r.Raised?)
       case _ => after == before && (rep.works && Went(rep, dryRun, s) ==> r.Continue?)
  }

  /** A step that starts from its status raises only when something outside fails, and leaves the
      status the next step starts from. */
  predicate Smooth(rep: Reply, dryRun: bool, s: Step, r: StepResult, before: Option<Status>, after: Option<Status>) {
    Fine(rep, dryRun, s) && before == Some(Needed(s)) ==>
      && !r.Raised?
      && (r.Continue? ==> after == Some(Leaves(s)))
      && (r.Restart? ==> after == Some(IN_PROGRESS))
  }

  lemma MovesSmoothly(rep: Reply, dryRun: bool, s: Step, r: StepResult, before: Option<Status>, after: Option<Status>)
    requires Moves(rep, dryRun, s, r, before, after)
    ensures Smooth(rep, dryRun, s, r, before, after)
  {
  }

  /** A GO of the REVIEWER role is journaled before the item is moved, so it stays when that raises. */
  predicate Reviewed(rep: Reply, dryRun: bool, s: Step, k: Kinds) {
    s == Reviewer && Went(rep, dryRun, s) ==> REVIEWER_COMPLETED in k
  }

  /** A step that cannot go through leaves no completion behind. */
  predicate Backed(rep: Reply, dryRun: bool, s: Step, k: Kinds) {
    && (!Went(rep, dryRun, s) ==>
          && WORKTREE_CREATED !in k && GATES_COMPLETED !in k && TESTER_COMPLETED !in k && REVIEWER_COMPLETED !in k
          && MERGED !in k && (s == Dev ==> DEV_COMPLETED !in k))
    && (!rep.works ==> PR_OPENED !in k)
  }

  /** The item is blocked, and of the items that depend on it none is READY. */
  ghost predicate Escalated(st: StatusMap, req: Request) {
    && Has(st, req.bl, BLOCKED)
    && (req.specs.Some? ==>
          forall n :: Graph.Reaches(GraphUpdates.DependentGraph(req.specs.value), req.bl, n) ==> !Has(st, n, READY))
  }

  // ----- the steps -----

  /** The external part of a step succeeds and the executor journals one event. */
  method Record(db: StateDatabase, e: Event, works: bool) returns (ok: bool, ghost added: seq<Event>)
    modifies db
    ensures Grew(old(db.events), db.events, e.bl, added)
    ensures ok == works
    ensures added == if ok then [e] else []
    ensures Completions(added) == if ok then Reported(e) else []
    ensures KindsOf(added) == if ok then multiset{e.kind} else multiset{}
    ensures Before(db, e.bl) == old(Before(db, e.bl))
  {
    added := [];
    GrewNothing(db.events, e.bl);
    ok := works;
    if ok {
      var _ := Log(db, e, old(db.events), []);
      ReadOne(e);
      added := [e];
    }
  }

  /** One event, then a transition that may be illegal. */
  method RecordAndMove(db: StateDatabase, e: Event, works: bool, target: Status, actor: Actor) returns (ok: bool, ghost added: seq<Event>)
    modifies db
    ensures Grew(old(db.events), db.events, e.bl, added)
    ensures ok ==> Before(db, e.bl) == Some(target) && CanMove(old(Before(db, e.bl)), target, false)
    ensures ok ==> added == [e, MoveEntry(e.bl, old(Before(db, e.bl)), target, actor, false)]
    ensures !ok ==> added == [] || added == [e]
    ensures !ok ==> Before(db, e.bl) == old(Before(db, e.bl))
    ensures if works then added != [] && ok == CanMove(old(Before(db, e.bl)), target, false) else !ok && added == []
  {
    ok, added := Record(db, e, works);
    if ok {
      ghost var before := Before(db, e.bl);
      ok := Move(db, e.bl, target, actor, false, old(db.events), added);
      if ok {
        added := [e, MoveEntry(e.bl, before, target, actor, false)];
      }
    }
  }

  method StepBranch(db: StateDatabase, req: Request, rep: Reply) returns (r: StepResult, ghost added: seq<Event>)
    modifies db
    ensures Grew(old(db.events), db.events, req.bl, added) && Shape(Branch, r, req.bl, added, 0, req.maxIterations)
    ensures Moves(rep, req.dryRun, Branch, r, old(Before(db, req.bl)), Before(db, req.bl)) && Backed(rep, req.dryRun, Branch, KindsOf(added))
    ensures r.Continue? || r.Raised?
  {
    var ok;
    ok, added := Record(db, Event(req.bl, WORKTREE_CREATED, EXECUTOR), rep.works);
    return if ok then Continue else Raised, added;
  }

  /** The executor journals the run, then the machine journals the move to IN_TEST on its own. */
  method StepDev(db: StateDatabase, req: Request, rep: Reply) returns (r: StepResult, ghost added: seq<Event>)
    modifies db
    ensures Grew(old(db.events), db.events, req.bl, added) && Shape(Dev, r, req.bl, added, 0, req.maxIterations)
    ensures Moves(rep, req.dryRun, Dev, r, old(Before(db, req.bl)), Before(db, req.bl)) && Backed(rep, req.dryRun, Dev, KindsOf(added))
    ensures r.Continue? || r.Raised?
    ensures r.Continue? ==> added == DevEntries(req.bl, old(Before(db, req.bl))) && Before(db, req.bl) == Some(IN_TEST)
  {
    var e := Event(req.bl, DEV_COMPLETED, EXECUTOR);
    var ok;
    if Before(db, req.bl) == Some(IN_TEST) {
      ok, added := Record(db, e, rep.works);
    } else {
      ok, added := RecordAndMove(db, e, rep.works, IN_TEST, DEV);
    }
    assert ok ==> added == DevEntries(req.bl, old(Before(db, req.bl)));
    return if ok then Continue else Raised, added;
  }

  /** The gates' NO GO raises as an error does, and journals nothing. */
  method StepGates(db: StateDatabase, req: Request, rep: Reply) returns (r: StepResult, ghost added: seq<Event>)
    modifies db
    ensures Grew(old(db.events), db.events, req.bl, added) && Shape(Gates, r, req.bl, added, 0, req.maxIterations)
    ensures Moves(rep, req.dryRun, Gates, r, old(Before(db, req.bl)), Before(db, req.bl)) && Backed(rep, req.dryRun, Gates, KindsOf(added))
    ensures r.Continue? <==> rep.works && (req.dryRun || rep.verdict == GO)
    ensures !r.Continue? ==> r.Raised? && added == []
  {
    if !req.dryRun && rep.verdict == NO_GO {
      GrewNothing(db.events, req.bl);
      return Raised, [];
    }
    var ok;
    ok, added := Record(db, Event(req.bl, GATES_COMPLETED, GATE), rep.works);
    return if ok then Continue else Raised, added;
  }

  /** No role, gate, branch, merge or pull request is completed by these entries. */
  predicate NothingCompleted(k: Kinds) {
    && WORKTREE_CREATED !in k && DEV_COMPLETED !in k && GATES_COMPLETED !in k && TESTER_COMPLETED !in k
    && REVIEWER_COMPLETED !in k && MERGED !in k && PR_OPENED !in k
  }

  lemma IssueCompletesNothing(e: Event)
    requires e.kind == ISSUE_OPENED
    ensures NothingCompleted(KindsOf([e]))
  {
    ReadOne(e);
  }

  lemma CorrectionCompletesNothing(t: seq<Event>)
    requires IsCorrection(t)
    ensures NothingCompleted(KindsOf(t))
  {
    CorrectionReads(t);
  }

  lemma EscalationCompletesNothing(t: seq<Event>)
    requires IsEscalation(t)
    ensures NothingCompleted(KindsOf(t))
  {
    EscalationReads(t);
  }

  /** What handling a NO GO may journal. */
  predicate FromVerdict(t: seq<Event>) {
    t == [] || (|t| == 1 && t[0].kind == ISSUE_OPENED) || IsCorrection(t) || IsEscalation(t)
  }

  lemma VerdictCompletesNothing(t: seq<Event>)
    requires FromVerdict(t)
    ensures NothingCompleted(KindsOf(t))
  {
    if IsCorrection(t) {
      CorrectionCompletesNothing(t);
    } else if IsEscalation(t) {
      EscalationCompletesNothing(t);
    } else if t != [] {
      assert t == [t[0]];
      IssueCompletesNothing(t[0]);
    }
  }

  /** Moves the item to BLOCKED and journals the escalation. */
  method PublishEscalation(db: StateDatabase, bl: string, opens: bool) returns (ok: bool, ghost added: seq<Event>)
    modifies db
    ensures Grew(old(db.events), db.events, bl, added)
    ensures ok ==> IsEscalation(added) && Before(db, bl) == Some(BLOCKED)
    ensures !ok ==> added == []
    ensures ok == (opens && CanMove(old(Before(db, bl)), BLOCKED, false))
    ensures !ok ==> Before(db, bl) == old(Before(db, bl))
  {
    added := [];
    GrewNothing(db.events, bl);
    if !opens {
      return false, [];
    }
    ghost var e := Event(bl, BL_BLOCKED, EXECUTOR);
    ok := Move(db, bl, BLOCKED, EXECUTOR, false, old(db.events), []);
    if ok {
      added := [e];
      var _ := Log(db, Event(bl, ISSUE_OPENED, EXECUTOR), old(db.events), added);
      added := added + [Event(bl, ISSUE_OPENED, EXECUTOR)];
      var _ := Log(db, Event(bl, ESCALATED, EXECUTOR), old(db.events), added);
      added := added + [Event(bl, ESCALATED, EXECUTOR)];
    }
  }

  lemma {:induction false} PairsAreOthers(ids: seq<string>, kind: EventKind, actor: Actor, bl: string)
    requires bl !in ids
    ensures forall i :: 0 <= i < |GraphUpdates.Pairs(ids, kind, actor)| ==> GraphUpdates.Pairs(ids, kind, actor)[i].bl != bl
    decreases |ids|
  {
    if ids != [] {
      PairsAreOthers(ids[..|ids|-1], kind, actor, bl);
    }
  }

  /** Demotes the dependents of the blocked item; its own journal and status stay. */
  method DemoteDependents(db: StateDatabase, bl: string, backlog: seq<BL>)
    requires Before(db, bl) == Some(BLOCKED)
    modifies db
    ensures Grew(old(db.events), db.events, bl, []) && Before(db, bl) == Some(BLOCKED)
    ensures forall n :: Graph.Reaches(GraphUpdates.DependentGraph(backlog), bl, n) ==> !Has(db.statuses, n, READY)
  {
    ghost var ev := db.events;
    var _, demoted := GraphUpdates.ApplyBlockedSideEffects(db, backlog, bl);
    PairsAreOthers(demoted, BL_STATUS_CHANGED, EXECUTOR, bl);
    GrewOthers(ev, GraphUpdates.Pairs(demoted, BL_STATUS_CHANGED, EXECUTOR), bl);
  }

  /** Blocks the item, publishes the escalation, and demotes the item's dependents. */
  method BlockForIterationCap(db: StateDatabase, req: Request, rep: Reply) returns (r: StepResult, ghost added: seq<Event>)
    modifies db
    ensures Grew(old(db.events), db.events, req.bl, added)
    ensures r.CapReached? || r.Raised?
    ensures r.CapReached? ==> IsEscalation(added) && Escalated(db.statuses, req)
    ensures r.Raised? ==> added == [] || IsEscalation(added)
    ensures NothingCompleted(KindsOf(added))
    ensures r.CapReached? <==> rep.opens && CanMove(old(Before(db, req.bl)), BLOCKED, false) && (req.specs.None? || rep.indexes)
  {
    var ok;
    ok, added := PublishEscalation(db, req.bl, rep.opens);
    VerdictCompletesNothing(added);
    if !ok {
      return Raised, added;
    }
    ghost var now := db.events;
    Others(db, req.bl);
    assert added + [] == added;
    GrewTransitive(old(db.events), now, db.events, req.bl, added, []);
    if req.specs.Some? {
      if !rep.indexes {
        return Raised, added;
      }
      now := db.events;
      DemoteDependents(db, req.bl, req.specs.value);
      GrewTransitive(old(db.events), now, db.events, req.bl, added, []);
    }
    return CapReached, added;
  }

  method LogFirst(db: StateDatabase, e: Event) returns (id: nat, ghost added: seq<Event>)
    modifies db`events
    ensures Grew(old(db.events), db.events, e.bl, added) && added == [e]
    ensures db.events == old(db.events) + [e] && id == |old(db.events)|
  {
    GrewNothing(db.events, e.bl);
    id := Log(db, e, old(db.events), []);
    added := [e];
  }

  lemma TwoFrom(ev: seq<Event>, e: Event, f: Event, bl: string)
    requires e.bl == bl && f.bl == bl
    ensures Trace(ev + [e] + [f], bl, |ev|) == [e, f]
  {
    TraceOfNothing(ev, bl);
    TraceAppend(ev, e, bl, |ev|);
    TraceAppend(ev + [e], f, bl, |ev|);
  }

  lemma CorrectionEntries(ev: seq<Event>, bl: string, before: Option<Status>, role: Actor)
    requires CanMove(before, IN_PROGRESS, true)
    ensures var e, f := Event(bl, ISSUE_OPENED, role), MoveEntry(bl, before, IN_PROGRESS, role, true);
            IsCorrection([e] + [f]) && Trace(ev + [e] + [f], bl, |ev|) == [e] + [f]
  {
    JournalTellsTransitions(before.value, IN_PROGRESS, true, false);
    TwoFrom(ev, Event(bl, ISSUE_OPENED, role), MoveEntry(bl, before, IN_PROGRESS, role, true), bl);
  }

  /** Opens the correction issue, whose journal position becomes the marker, and sends the item back. */
  method OpenEpoch(db: StateDatabase, bl: string, opens: bool, role: Actor) returns (ok: bool, id: nat, ghost added: seq<Event>)
    modifies db
    ensures Grew(old(db.events), db.events, bl, added)
    ensures ok ==> IsCorrection(added) && id <= |db.events| && Trace(db.events, bl, id) == added
    ensures !ok ==> added == [] || (|added| == 1 && added[0].kind == ISSUE_OPENED)
    ensures ok ==> Before(db, bl) == Some(IN_PROGRESS) && CanMove(old(Before(db, bl)), IN_PROGRESS, true)
    ensures NothingCompleted(KindsOf(added))
    ensures ok == (opens && CanMove(old(Before(db, bl)), IN_PROGRESS, true))
    ensures !ok ==> Before(db, bl) == old(Before(db, bl))
  {
    if !opens {
      GrewNothing(db.events, bl);
      return false, 0, [];
    }
    ghost var before := Before(db, bl);
    id, added := LogFirst(db, Event(bl, ISSUE_OPENED, role));
    ok := Move(db, bl, IN_PROGRESS, role, true, old(db.events), added);
    if ok {
      CorrectionEntries(old(db.events), bl, before, role);
      added := added + [MoveEntry(bl, before, IN_PROGRESS, role, true)];
    }
    VerdictCompletesNothing(added);
  }

  /** Counts the journaled NO-GO verdicts, then either blocks the item or opens a new epoch. */
  method HandleNoGo(db: StateDatabase, req: Request, rep: Reply, role: Actor, s: Step) returns (r: StepResult, ghost added: seq<Event>)
    requires Judges(s)
    modifies db
    ensures r.Restart? || r.CapReached? ==> rep.opens
    ensures rep.opens && rep.indexes && IsJudged(old(Before(db, req.bl))) ==> !r.Raised?
    ensures r.Restart? ==> IsJudged(old(Before(db, req.bl))) && Before(db, req.bl) == Some(IN_PROGRESS)
    ensures Grew(old(db.events), db.events, req.bl, added)
    ensures Shape(s, r, req.bl, added, CountNoGo(old(db.events), req.bl), req.maxIterations)
    ensures NothingCompleted(KindsOf(added))
    ensures r.Restart? || r.CapReached? || r.Raised?
    ensures r.Restart? ==> r.epoch <= |db.events| && Trace(db.events, req.bl, r.epoch) == added
    ensures r.CapReached? ==> Escalated(db.statuses, req)
  {
    if CountNoGo(db.events, req.bl) >= req.maxIterations {
      r, added := BlockForIterationCap(db, req, rep);
      return;
    }
    var ok, id;
    ok, id, added := OpenEpoch(db, req.bl, rep.opens, role);
    if !ok {
      return Raised, added;
    }
    return Restart(id), added;
  }

  lemma NothingIsBacked(rep: Reply, dryRun: bool, s: Step, k: Kinds)
    requires NothingCompleted(k) || (s == Merge && k <= multiset{DEV_COMPLETED, TEST_GO})
    ensures Backed(rep, dryRun, s, k)
  {
  }

  /** What handling a NO GO does is what the judging step then does. */
  lemma RefusalMoves(rep: Reply, dryRun: bool, s: Step, r: StepResult, before: Option<Status>, after: Option<Status>)
    requires Refused(rep, dryRun, s) && (r.Restart? || r.CapReached? || r.Raised?)
    requires r.Restart? || r.CapReached? ==> rep.opens
    requires r.Restart? ==> IsJudged(before) && after == Some(IN_PROGRESS)
    requires rep.opens && rep.indexes && IsJudged(before) ==> !r.Raised?
    ensures Moves(rep, dryRun, s, r, before, after)
  {
  }

  /** A tester's GO is journaled, and moves the item on from IN_TEST. */
  method AcceptTest(db: StateDatabase, req: Request, works: bool) returns (ghost added: seq<Event>)
    modifies db
    ensures Grew(old(db.events), db.events, req.bl, added)
    ensures if works then Done(Tester, req.bl, added) else added == []
    ensures Before(db, req.bl) == if works && old(Before(db, req.bl)) == Some(IN_TEST) then Some(IN_REVIEW) else old(Before(db, req.bl))
  {
    var e := Event(req.bl, TESTER_COMPLETED, TESTER);
    var ok;
    if Before(db, req.bl) == Some(IN_TEST) {
      ok, added := RecordAndMove(db, e, works, IN_REVIEW, TESTER);
    } else {
      ok, added := Record(db, e, works);
    }
  }

  /** The tester's NO GO opens an epoch or blocks the item; its GO is journaled, and moves the item on
      from IN_TEST. */
  method StepTester(db: StateDatabase, req: Request, rep: Reply) returns (r: StepResult, ghost added: seq<Event>)
    modifies db
    ensures Grew(old(db.events), db.events, req.bl, added)
    ensures Shape(Tester, r, req.bl, added, CountNoGo(old(db.events), req.bl), req.maxIterations)
    ensures Moves(rep, req.dryRun, Tester, r, old(Before(db, req.bl)), Before(db, req.bl)) && Backed(rep, req.dryRun, Tester, KindsOf(added))
    ensures r.Continue? <==> rep.works && (req.dryRun || rep.verdict == GO)
    ensures r.Restart? || r.CapReached? ==> !req.dryRun && rep.works && rep.verdict == NO_GO
    ensures !r.Continue? ==> TESTER_COMPLETED !in KindsOf(added)
    ensures !r.Awaiting?
    ensures r.Restart? ==> r.epoch <= |db.events| && Trace(db.events, req.bl, r.epoch) == added
    ensures r.CapReached? ==> Escalated(db.statuses, req)
  {
    ghost var before := Before(db, req.bl);
    if !req.dryRun && rep.works && rep.verdict == NO_GO {
      r, added := HandleNoGo(db, req, rep, TESTER, Tester);
      RefusalMoves(rep, req.dryRun, Tester, r, before, Before(db, req.bl));
      NothingIsBacked(rep, req.dryRun, Tester, KindsOf(added));
      return;
    }
    added := AcceptTest(db, req, rep.works);
    return if rep.works then Continue else Raised, added;
  }

  /** Pushing journals nothing of its own. */
  method StepPush(db: StateDatabase, req: Request, rep: Reply) returns (r: StepResult, ghost added: seq<Event>)
    modifies db
    ensures Grew(old(db.events), db.events, req.bl, added) && Shape(Push, r, req.bl, added, 0, req.maxIterations)
    ensures Moves(rep, req.dryRun, Push, r, old(Before(db, req.bl)), Before(db, req.bl)) && Backed(rep, req.dryRun, Push, KindsOf(added))
    ensures r.Continue? || r.Raised?
  {
    GrewNothing(db.events, req.bl);
    return if rep.works then Continue else Raised, [];
  }

  /** The number of the last pull request the journal can name. */
  function FindOpenPr(t: seq<Event>): (r: Option<int>)
    ensures r.None? ==> forall e :: e in t && e.kind == PR_OPENED ==> e.number.None?
    ensures r.Some? ==> exists i :: 0 <= i < |t| && t[i].kind == PR_OPENED && t[i].number == r
                                    && forall j :: i < j < |t| && t[j].kind == PR_OPENED ==> t[j].number.None?
  {
    if t == [] then None
    else if t[|t|-1].kind == PR_OPENED && t[|t|-1].number.Some? then t[|t|-1].number
    else FindOpenPr(t[..|t|-1])
  }

  /** A known number skips the step; otherwise a pull request is created, its number perhaps unread. */
  method StepPrOpen(db: StateDatabase, req: Request, rep: Reply, pr: Option<int>)
    returns (r: StepResult, number: Option<int>, ghost added: seq<Event>)
    modifies db
    ensures Grew(old(db.events), db.events, req.bl, added) && Shape(PrOpen, r, req.bl, added, 0, req.maxIterations)
    ensures Moves(rep, req.dryRun, PrOpen, r, old(Before(db, req.bl)), Before(db, req.bl)) && Backed(rep, req.dryRun, PrOpen, KindsOf(added))
    ensures r.Continue? || r.Raised?
    ensures pr.Some? ==> r.Continue? && number == pr && added == []
    ensures pr.None? ==> (r.Continue? <==> rep.works)
    ensures pr.None? && r.Continue? ==> number == (if rep.number.None? && req.dryRun then Some(1) else rep.number)
                                        && added == [Event(req.bl, PR_OPENED, EXECUTOR, number)]
  {
    number := pr;
    if pr.Some? {
      GrewNothing(db.events, req.bl);
      return Continue, pr, [];
    }
    number := rep.number;
    if number.None? && req.dryRun {
      number := Some(1);
    }
    var ok;
    ok, added := Record(db, Event(req.bl, PR_OPENED, EXECUTOR, number), rep.works);
    return if ok then Continue else Raised, number, added;
  }

  lemma FirstIsRead(t: seq<Event>)
    ensures t != [] ==> t[0].kind in KindsOf(t)
  {
    if t != [] {
      KindsMeanMembership(t, t[0].kind);
    }
  }

  /** A GO is journaled, then the item moved on if it is not under review yet. */
  method AcceptReview(db: StateDatabase, req: Request, works: bool) returns (ok: bool, ghost added: seq<Event>)
    modifies db
    ensures Grew(old(db.events), db.events, req.bl, added)
    ensures if ok then Done(Reviewer, req.bl, added) else Cut(Reviewer, req.bl, added)
    ensures ok ==> if req.dryRun then Before(db, req.bl) == old(Before(db, req.bl))
                   else IsJudged(old(Before(db, req.bl))) && Before(db, req.bl) == Some(IN_REVIEW)
    ensures !ok ==> Before(db, req.bl) == old(Before(db, req.bl))
    ensures if works then added != [] && added[0].kind == REVIEWER_COMPLETED else added == []
    ensures ok <==> works && (req.dryRun || IsJudged(old(Before(db, req.bl))))
  {
    var e := Event(req.bl, REVIEWER_COMPLETED, REVIEWER);
    if req.dryRun || Before(db, req.bl) == Some(IN_REVIEW) {
      ok, added := Record(db, e, works);
    } else {
      ok, added := RecordAndMove(db, e, works, IN_REVIEW, REVIEWER);
    }
  }

  lemma AcceptanceMoves(rep: Reply, dryRun: bool, ok: bool, k: Kinds, before: Option<Status>, after: Option<Status>)
    requires !Refused(rep, dryRun, Reviewer)
    requires ok <==> rep.works && (dryRun || IsJudged(before))
    requires ok ==> if dryRun then after == before else after == Some(IN_REVIEW)
    requires !ok ==> after == before
    requires REVIEWER_COMPLETED in k <==> rep.works
    requires !rep.works ==> NothingCompleted(k)
    ensures var r := if ok then Continue else Raised;
            Moves(rep, dryRun, Reviewer, r, before, after) && Backed(rep, dryRun, Reviewer, k) && Reviewed(rep, dryRun, Reviewer, k)
  {
  }

  /** The REVIEWER role's NO GO opens an epoch or blocks the item; its GO is journaled, and moves the
      item to IN_REVIEW if it may. */
  method StepReviewer(db: StateDatabase, req: Request, rep: Reply) returns (r: StepResult, ghost added: seq<Event>)
    modifies db
    ensures Grew(old(db.events), db.events, req.bl, added)
    ensures Shape(Reviewer, r, req.bl, added, CountNoGo(old(db.events), req.bl), req.maxIterations)
    ensures Moves(rep, req.dryRun, Reviewer, r, old(Before(db, req.bl)), Before(db, req.bl)) && Backed(rep, req.dryRun, Reviewer, KindsOf(added))
    ensures Reviewed(rep, req.dryRun, Reviewer, KindsOf(added))
    ensures r.Continue? <==> rep.works && (req.dryRun || (rep.verdict == GO && IsJudged(old(Before(db, req.bl)))))
    ensures r.Restart? || r.CapReached? ==> !req.dryRun && rep.works && rep.verdict == NO_GO
    ensures REVIEWER_COMPLETED in KindsOf(added) <==> rep.works && (req.dryRun || rep.verdict == GO)
    ensures !r.Awaiting?
    ensures r.Restart? ==> r.epoch <= |db.events| && Trace(db.events, req.bl, r.epoch) == added
    ensures r.CapReached? ==> Escalated(db.statuses, req)
  {
    ghost var before := Before(db, req.bl);
    if !req.dryRun && rep.works && rep.verdict == NO_GO {
      r, added := HandleNoGo(db, req, rep, REVIEWER, Reviewer);
      RefusalMoves(rep, req.dryRun, Reviewer, r, before, Before(db, req.bl));
      NothingIsBacked(rep, req.dryRun, Reviewer, KindsOf(added));
      return;
    }
    var ok;
    ok, added := AcceptReview(db, req, rep.works);
    FirstIsRead(added);
    AcceptanceMoves(rep, req.dryRun, ok, KindsOf(added), before, Before(db, req.bl));
    return if ok then Continue else Raised, added;
  }

  method EnsurePreMergeStatus(db: StateDatabase, bl: string) returns (ghost added: seq<Event>)
    modifies db
    ensures Grew(old(db.events), db.events, bl, added) && added == CatchUp(bl, old(Before(db, bl)))
    ensures old(Before(db, bl)) == Some(IN_PROGRESS) || IsJudged(old(Before(db, bl))) ==> Before(db, bl) == Some(IN_REVIEW)
  {
    added := [];
    GrewNothing(db.events, bl);
    if Before(db, bl) == Some(IN_PROGRESS) {
      var _ := Move(db, bl, IN_TEST, DEV, false, old(db.events), []);
      added := [Event(bl, DEV_COMPLETED, DEV)];
    }
    if Before(db, bl) == Some(IN_TEST) {
      var _ := Move(db, bl, IN_REVIEW, TESTER, false, old(db.events), added);
      added := added + [Event(bl, TEST_GO, TESTER)];
    }
  }

  /** A released merge: the item is brought up to IN_REVIEW, and moved to DONE when the merge worked. */
  method MergeReleased(db: StateDatabase, bl: string, works: bool) returns (ok: bool, ghost added: seq<Event>)
    modifies db
    ensures Grew(old(db.events), db.events, bl, added)
    ensures added == CatchUp(bl, old(Before(db, bl))) + if ok then [Event(bl, MERGED, INTEGRATOR)] else []
    ensures ok ==> works && Before(db, bl) == Some(DONE)
    ensures works && (old(Before(db, bl)) == Some(IN_PROGRESS) || IsJudged(old(Before(db, bl)))) ==> ok
  {
    added := EnsurePreMergeStatus(db, bl);
    if !works {
      return false, added;
    }
    ok := Move(db, bl, DONE, INTEGRATOR, false, old(db.events), added);
    if ok {
      added := added + [Event(bl, MERGED, INTEGRATOR)];
    }
  }

  lemma MergeAnswers(rep: Reply, dryRun: bool, bl: string, b: Option<Status>, ok: bool, added: seq<Event>, before: Option<Status>, after: Option<Status>)
    requires added == CatchUp(bl, b) + if ok then [Event(bl, MERGED, INTEGRATOR)] else []
    requires ok ==> rep.works && after == Some(DONE)
    requires rep.works && (before == Some(IN_PROGRESS) || IsJudged(before)) ==> ok
    ensures var r := if ok then Continue else Raised;
            && Moves(rep, dryRun, Merge, r, before, after) && Backed(rep, dryRun, Merge, KindsOf(added))
            && Shape(Merge, r, bl, added, 0, 0)
  {
    CatchUpReads(bl, b);
    if !ok {
      assert added == CatchUp(bl, b);
    }
  }

  /** The merge passes the approval gate, or waits; nothing is journaled while it waits. */
  method StepMerge(db: StateDatabase, queue: AQ.Queue, req: Request, rep: Reply) returns (r: StepResult, ghost added: seq<Event>)
    modifies db, queue
    ensures Grew(old(db.events), db.events, req.bl, added) && Shape(Merge, r, req.bl, added, 0, req.maxIterations)
    ensures Moves(rep, req.dryRun, Merge, r, old(Before(db, req.bl)), Before(db, req.bl)) && Backed(rep, req.dryRun, Merge, KindsOf(added))
    ensures r.Continue? || r.Raised? || r.Awaiting?
    ensures queue.rows == AQ.Apply(old(queue.rows), AQ.GateMergeOp(req.run, req.bl, req.manifest))
    ensures r.Awaiting? <==> !AQ.Released(old(queue.rows), req.run, req.bl, req.manifest)
    ensures r.Continue? ==> rep.works && Before(db, req.bl) == Some(DONE)
  {
    var released, _ := queue.GateMerge(req.run, req.bl, req.manifest);
    if !released {
      GrewNothing(db.events, req.bl);
      return Awaiting, [];
    }
    ghost var before := Before(db, req.bl);
    var ok;
    ok, added := MergeReleased(db, req.bl, rep.works);
    MergeAnswers(rep, req.dryRun, req.bl, before, ok, added, before, Before(db, req.bl));
    return if ok then Continue else Raised, added;
  }

  /** The merge waits: the action is queued, once, and not released. */
  predicate Withheld(before: seq<AQ.PendingAction>, after: seq<AQ.PendingAction>, req: Request) {
    && after == AQ.Apply(before, AQ.GateMergeOp(req.run, req.bl, req.manifest))
    && !AQ.Released(before, req.run, req.bl, req.manifest)
  }

  /** The steps that only do work: nobody judges the item in them. */
  method Work(db: StateDatabase, req: Request, rep: Reply, s: Step) returns (r: StepResult, ghost added: seq<Event>)
    requires s == Branch || s == Dev || s == Gates || s == Push
    modifies db
    ensures Grew(old(db.events), db.events, req.bl, added)
    ensures Shape(s, r, req.bl, added, CountNoGo(old(db.events), req.bl), req.maxIterations)
    ensures Moves(rep, req.dryRun, s, r, old(Before(db, req.bl)), Before(db, req.bl)) && Backed(rep, req.dryRun, s, KindsOf(added))
    ensures r.Continue? || r.Raised?
  {
    match s {
      case Branch => r, added := StepBranch(db, req, rep);
      case Dev => r, added := StepDev(db, req, rep);
      case Gates => r, added := StepGates(db, req, rep);
      case Push => r, added := StepPush(db, req, rep);
    }
  }

  /** The steps in which a role judges the item. */
  method Judge(db: StateDatabase, req: Request, rep: Reply, s: Step) returns (r: StepResult, ghost added: seq<Event>)
    requires Judges(s)
    modifies db
    ensures Grew(old(db.events), db.events, req.bl, added)
    ensures Shape(s, r, req.bl, added, CountNoGo(old(db.events), req.bl), req.maxIterations)
    ensures Moves(rep, req.dryRun, s, r, old(Before(db, req.bl)), Before(db, req.bl))
    ensures Reviewed(rep, req.dryRun, s, KindsOf(added)) && Backed(rep, req.dryRun, s, KindsOf(added))
    ensures !r.Awaiting?
    ensures r.Restart? ==> r.epoch <= |db.events| && Trace(db.events, req.bl, r.epoch) == added
    ensures r.CapReached? ==> Escalated(db.statuses, req)
  {
    if s == Tester {
      r, added := StepTester(db, req, rep);
    } else {
      r, added := StepReviewer(db, req, rep);
    }
  }

  method Dispatch(db: StateDatabase, queue: AQ.Queue, req: Request, rep: Reply, s: Step, pr: Option<int>)
    returns (r: StepResult, number: Option<int>, ghost added: seq<Event>)
    modifies db, queue
    ensures Grew(old(db.events), db.events, req.bl, added)
    ensures Shape(s, r, req.bl, added, CountNoGo(old(db.events), req.bl), req.maxIterations)
    ensures Moves(rep, req.dryRun, s, r, old(Before(db, req.bl)), Before(db, req.bl))
    ensures Reviewed(rep, req.dryRun, s, KindsOf(added)) && Backed(rep, req.dryRun, s, KindsOf(added))
    ensures r.Restart? ==> r.epoch <= |db.events| && Trace(db.events, req.bl, r.epoch) == added
    ensures r.CapReached? ==> Escalated(db.statuses, req)
    ensures s != Merge ==> queue.rows == old(queue.rows)
    ensures s == Merge && r.Continue? ==> AQ.Released(old(queue.rows), req.run, req.bl, req.manifest)
    ensures r.Awaiting? ==> Withheld(old(queue.rows), queue.rows, req)
  {
    number := pr;
    match s {
      case PrOpen => r, number, added := StepPrOpen(db, req, rep, pr);
      case Tester | Reviewer => r, added := Judge(db, req, rep, s);
      case Merge => r, added := StepMerge(db, queue, req, rep);
      case _ => r, added := Work(db, req, rep, s);
    }
  }

  lemma SameTrace(ev: seq<Event>, ev': seq<Event>, bl: string)
    requires Grew(ev, ev', bl, [])
    ensures forall f: nat :: f <= |ev| ==> Trace(ev', bl, f) == Trace(ev, bl, f)
  {
  }

  /** One step, after whatever the other workers did while the executor waited. */
  method RunStep(db: StateDatabase, queue: AQ.Queue, req: Request, rep: Reply, s: Step, pr: Option<int>)
    returns (r: StepResult, number: Option<int>, ghost added: seq<Event>)
    modifies db, queue
    ensures Grew(old(db.events), db.events, req.bl, added)
    ensures Effect(s, r, added, CountNoGo(old(db.events), req.bl), req.maxIterations)
    ensures Moves(rep, req.dryRun, s, r, old(Before(db, req.bl)), Before(db, req.bl))
    ensures Reviewed(rep, req.dryRun, s, KindsOf(added)) && Backed(rep, req.dryRun, s, KindsOf(added))
    ensures r.Restart? ==> r.epoch <= |db.events| && Trace(db.events, req.bl, r.epoch) == added
    ensures r.CapReached? ==> Escalated(db.statuses, req)
    ensures s != Merge ==> queue.rows == old(queue.rows)
    ensures s == Merge && r.Continue? ==> AQ.Released(old(queue.rows), req.run, req.bl, req.manifest)
    ensures r.Awaiting? ==> Withheld(old(queue.rows), queue.rows, req)
  {
    Others(db, req.bl);
    ghost var now := db.events;
    SameTrace(old(db.events), now, req.bl);
    r, number, added := Dispatch(db, queue, req, rep, s, pr);
    GrewTransitive(old(db.events), now, db.events, req.bl, [], added);
    assert [] + added == added;
    ShapeHasEffect(s, r, req.bl, added, CountNoGo(now, req.bl), req.maxIterations);
  }
}
