/** What a crash leaves behind, and what the next call makes of it. */
module Resume {
  import opened Domain
  import opened StateStore
  import opened Journal
  import opened Steps
  import opened Epochs
  import opened EpochRuns
  import opened Execute
  import AQ = ApprovalQueue

  /** What every call keeps of the item's trace, and every crash. */
  ghost predicate WellKept(t: seq<Event>) {
    OnceOnly(KindsOf(t)) && Vetted(t)
  }

  /** Wherever a call is cut short, the branch and the pull request are still journaled at most once,
      and the item's entries still follow each other as they may. */
  lemma CrashKeeps(t: seq<Event>, u: seq<Event>)
    requires WellKept(t + u)
    ensures WellKept(t)
  {
    KindsConcat(t, u);
    VettedPrefix(t, u);
  }

  /** The program dies: the end of the journal is lost, and the statuses are left anyhow. Before the
      next call other workers go on, and approvals come in. */
  method Crash(db: StateDatabase, queue: AQ.Queue, bl: string)
    modifies db, queue
    ensures WellKept(Trace(old(db.events), bl, 0)) ==> WellKept(Trace(db.events, bl, 0))
  {
    ghost var ev := db.events;
    var n: nat :| n <= |db.events|;
    db.events := db.events[..n];
    db.statuses := *;
    queue.rows := *;
    Others(db, bl);
    SameTrace(ev[..n], db.events, bl);
    TraceSplits(ev, bl, n);
    if WellKept(Trace(ev, bl, 0)) {
      CrashKeeps(Trace(ev[..n], bl, 0), Trace(ev, bl, n));
    }
  }

  method CallOnce(db: StateDatabase, queue: AQ.Queue, req: Request, w: World)
    modifies db, queue
    ensures WellKept(Trace(old(db.events), req.bl, 0)) ==> WellKept(Trace(db.events, req.bl, 0))
  {
    var outcome, epoch, added := Execute.Execute(db, queue, req, w);
  }

  /** Any sequence of calls for an item that the journal does not mention yet, each under conditions
      of its own and each cut short anywhere: the branch and the pull request are journaled at most
      once, and every merge follows a passed review that no NO-GO follows. */
  method CallAgain(db: StateDatabase, queue: AQ.Queue, calls: seq<(Request, World)>, bl: string)
    requires Trace(db.events, bl, 0) == [] && forall i :: 0 <= i < |calls| ==> calls[i].0.bl == bl
    modifies db, queue
    ensures WellKept(Trace(db.events, bl, 0))
  {
    for i := 0 to |calls|
      invariant WellKept(Trace(db.events, bl, 0))
    {
      CallOnce(db, queue, calls[i].0, calls[i].1);
      Crash(db, queue, bl);
    }
  }

  /** One run of the DEV role is one completion, but it is journaled twice unless the item stood
      at IN_TEST already: the journal holds DEV_COMPLETED exactly once in that case only. */
  lemma DevIsJournaledTwice(bl: string, before: Option<Status>)
    ensures Completions(DevEntries(bl, before)) == [Dev]
    ensures KindsOf(DevEntries(bl, before))[DEV_COMPLETED] == 1 <==> before == Some(IN_TEST)
    ensures KindsOf(DevEntries(bl, before))[DEV_COMPLETED] <= 2
  {
    var e, f := Event(bl, DEV_COMPLETED, EXECUTOR), Event(bl, DEV_COMPLETED, DEV);
    ReadOne(e);
    ReadTwo(e, f);
  }

  /** The kind whose entry in the current epoch completes the step, for the steps that epochs redo. */
  function EpochKind(s: Step): Option<EventKind> {
    match s
    case Dev => Some(DEV_COMPLETED)
    case Gates => Some(GATES_COMPLETED)
    case Tester => Some(TESTER_COMPLETED)
    case Push => Some(PR_OPENED)
    case Reviewer => Some(REVIEWER_COMPLETED)
    case Merge => Some(MERGED)
    case _ => None
  }

  lemma EveryStepIsListed(s: Step)
    ensures s in STEP_ORDER
  {
    assert STEP_ORDER[0] == Branch && STEP_ORDER[1] == Dev && STEP_ORDER[2] == Gates && STEP_ORDER[3] == Tester;
    assert STEP_ORDER[4] == Push && STEP_ORDER[5] == PrOpen && STEP_ORDER[6] == Reviewer && STEP_ORDER[7] == Merge;
  }

  /** A new call reads the whole journal, not the epoch the last call was in. It then takes a step
      for done that the epoch at `m` would redo exactly when the step's entry lies before `m` and
      not after. */
  lemma ResumeForgetsEpoch(ev: seq<Event>, bl: string, m: nat, s: Step)
    requires m <= |ev|
    ensures s in CompletedSteps(ev, bl, m) ==> s in CompletedSteps(ev, bl, 0)
    ensures s in CompletedSteps(ev, bl, 0) && s !in CompletedSteps(ev, bl, m) <==>
              && EpochKind(s).Some?
              && EpochKind(s).value in KindsOf(Trace(ev[..m], bl, 0))
              && EpochKind(s).value !in KindsOf(Trace(ev, bl, m))
  {
    TraceSplits(ev, bl, m);
    KindsConcat(Trace(ev[..m], bl, 0), Trace(ev, bl, m));
    EveryStepIsListed(s);
  }

  /** So a call resumed right after a NO-GO runs neither the DEV role nor the gates again for the
      correction that the verdict asked for: the epoch would redo them, the call takes them for done. */
  lemma ResumeSkipsCorrection(ev0: seq<Event>, ev: seq<Event>, bl: string, from: nat, m: nat, added: seq<Event>, max: int, s: Step)
    requires Epoch(Restart(m), ev0, ev, bl, from, added, max) && (s == Dev || s == Gates)
    ensures s !in CompletedSteps(ev, bl, m) && s in CompletedSteps(ev, bl, 0)
  {
    CorrectionIsOneNoGo(Trace(ev, bl, m));
    EveryStepIsListed(s);
  }

  lemma NoReviewBeforeVerdict(t: seq<Event>, u: seq<Event>)
    requires IsCorrection(u) && Vetted(t + u)
    ensures REVIEWER_COMPLETED !in KindsOf(t + u)
  {
    var all, n := t + u, |t| + 1;
    assert AllowedAt(all, n) && all[n] == u[1];
    assert all == all[..n] + [all[n]];
    KindsConcat(all[..n], [all[n]]);
    ReadOne(all[n]);
  }

  /** Whatever NO-GO a call was cut short after, the next one finds the item stale. */
  lemma SentBackIsStale(ev0: seq<Event>, ev: seq<Event>, bl: string, from: nat, m: nat, added: seq<Event>, max: int, w: World)
    requires Epoch(Restart(m), ev0, ev, bl, from, added, max) && Vetted(Trace(ev, bl, 0))
    ensures Stale(Start(w, 0, false, KindsOf(Trace(ev, bl, 0)), CompletedSteps(ev, bl, 0), Some(IN_PROGRESS)))
  {
    TraceSplits(ev, bl, m);
    NoReviewBeforeVerdict(Trace(ev[..m], bl, 0), Trace(ev, bl, m));
  }

  /** What the branch, the DEV role and the gates journal of an item that starts afresh, and what its
      tester adds when it sends the item back. */
  function Prepared(bl: string): seq<Event> {
    [Event(bl, WORKTREE_CREATED, EXECUTOR)] + DevEntries(bl, Some(IN_PROGRESS))
  }

  function Rejection(bl: string): seq<Event> {
    [Event(bl, ISSUE_OPENED, TESTER), Event(bl, TEST_NO_GO, TESTER)]
  }

  /** The journal of such an item; the correction's epoch starts at position 4. */
  function SentBack(bl: string): seq<Event> {
    Prepared(bl) + [Event(bl, GATES_COMPLETED, GATE)] + Rejection(bl)
  }

  lemma {:induction false} OwnTrace(ev: seq<Event>, bl: string)
    requires forall e :: e in ev ==> e.bl == bl
    ensures Trace(ev, bl, 0) == ev
    decreases |ev|
  {
    if ev != [] {
      OwnTrace(ev[..|ev|-1], bl);
    }
  }

  lemma SentBackTrace(bl: string)
    ensures Trace(SentBack(bl), bl, 0) == SentBack(bl) && Trace(SentBack(bl), bl, 4) == Rejection(bl)
  {
    var ev := SentBack(bl);
    OwnTrace(ev, bl);
    OwnTrace(ev[..4], bl);
    TraceSplits(ev, bl, 4);
    assert ev[..4] + Trace(ev, bl, 4) == ev[..4] + Rejection(bl);
    assert Trace(ev, bl, 4) == (ev[..4] + Trace(ev, bl, 4))[4..];
  }

  lemma PreparedReads(bl: string)
    ensures Completions(Prepared(bl)) == [Dev]
    ensures KindsOf(Prepared(bl)) == multiset{WORKTREE_CREATED, DEV_COMPLETED, DEV_COMPLETED}
  {
    var t := Prepared(bl);
    ReadThree(t[0], t[1], t[2]);
    assert t == [t[0], t[1], t[2]];
  }

  lemma RejectionReads(bl: string)
    ensures var u := [Event(bl, GATES_COMPLETED, GATE)] + Rejection(bl);
            Completions(u) == [Gates] && KindsOf(u) == multiset{GATES_COMPLETED, ISSUE_OPENED, TEST_NO_GO}
  {
    var u := [Event(bl, GATES_COMPLETED, GATE)] + Rejection(bl);
    ReadThree(u[0], u[1], u[2]);
    assert u == [u[0], u[1], u[2]];
  }

  lemma SentBackReads(bl: string)
    ensures Completions(SentBack(bl)) == [Dev] + [Gates]
    ensures KindsOf(SentBack(bl)) ==
            multiset{WORKTREE_CREATED, DEV_COMPLETED, DEV_COMPLETED} + multiset{GATES_COMPLETED, ISSUE_OPENED, TEST_NO_GO}
  {
    var t, u := Prepared(bl), [Event(bl, GATES_COMPLETED, GATE)] + Rejection(bl);
    assert SentBack(bl) == t + u;
    PreparedReads(bl);
    RejectionReads(bl);
    KindsConcat(t, u);
    CompletionsConcat(t, u);
  }

  lemma MayAddAtOnce(t: seq<Event>, k: Kinds)
    requires k == KindsOf(t) && REVIEWER_COMPLETED !in k && MERGED !in k
    ensures Vetted(t)
  {
    assert [] + t == t;
    VettedConcat([], t);
  }

  lemma GrewFromNothing(ev: seq<Event>, bl: string)
    ensures Grew([], ev, bl, Trace(ev, bl, 0))
  {
    assert [] + Trace(ev, bl, 0) == Trace(ev, bl, 0);
  }

  lemma SentBackCounts(k: Kinds)
    requires k == multiset{WORKTREE_CREATED, DEV_COMPLETED, DEV_COMPLETED} + multiset{GATES_COMPLETED, ISSUE_OPENED, TEST_NO_GO}
    ensures OnceOnly(k) && NoGos(k) == 1 && DEV_COMPLETED in k && GATES_COMPLETED in k
    ensures REVIEWER_COMPLETED !in k && MERGED !in k
  {
  }

  lemma NothingYet(bl: string)
    ensures DevDone([], bl, 0) == 0 && CountNoGo([], bl) == 0
  {
  }

  /** One step may take the item from one status to the other and journal exactly `t`. */
  ghost predicate Takes(s: Step, r: StepResult, bl: string, t: seq<Event>, max: int, rep: Reply, before: Status, after: Status) {
    && Shape(s, r, bl, t, 0, max)
    && Moves(rep, false, s, r, Some(before), Some(after)) && Reviewed(rep, false, s, KindsOf(t)) && Backed(rep, false, s, KindsOf(t))
  }

  /** A reply to a step that nothing fails in, with the verdict if one is asked for. */
  function Told(verdict: Verdict): Reply {
    Reply(true, verdict, true, true, None)
  }

  lemma BranchTakes(bl: string, max: int)
    ensures Takes(Branch, Continue, bl, [Event(bl, WORKTREE_CREATED, EXECUTOR)], max, Told(GO), IN_PROGRESS, IN_PROGRESS)
  {
  }

  lemma DevTakes(bl: string, max: int)
    ensures Takes(Dev, Continue, bl, DevEntries(bl, Some(IN_PROGRESS)), max, Told(GO), IN_PROGRESS, IN_TEST)
  {
  }

  lemma GatesTakes(bl: string, max: int)
    ensures Takes(Gates, Continue, bl, [Event(bl, GATES_COMPLETED, GATE)], max, Told(GO), IN_TEST, IN_TEST)
  {
  }

  lemma TesterTakes(bl: string, max: int)
    requires max > 0
    ensures Takes(Tester, Restart(4), bl, Rejection(bl), max, Told(NO_GO), IN_TEST, IN_PROGRESS)
  {
    VerdictCompletesNothing(Rejection(bl));
  }

  /** Such a journal is what the steps leave one after the other when the tester alone says NO GO. */
  lemma SentBackIsLeft(bl: string, max: int)
    requires max > 0
    ensures var branch, gates := [Event(bl, WORKTREE_CREATED, EXECUTOR)], [Event(bl, GATES_COMPLETED, GATE)];
            && Takes(Branch, Continue, bl, branch, max, Told(GO), IN_PROGRESS, IN_PROGRESS)
            && Takes(Dev, Continue, bl, DevEntries(bl, Some(IN_PROGRESS)), max, Told(GO), IN_PROGRESS, IN_TEST)
            && Takes(Gates, Continue, bl, gates, max, Told(GO), IN_TEST, IN_TEST)
            && Takes(Tester, Restart(4), bl, Rejection(bl), max, Told(NO_GO), IN_TEST, IN_PROGRESS)
            && SentBack(bl) == branch + DevEntries(bl, Some(IN_PROGRESS)) + gates + Rejection(bl)
            && Trace(SentBack(bl), bl, 4) == Rejection(bl)
  {
    BranchTakes(bl, max);
    DevTakes(bl, max);
    GatesTakes(bl, max);
    TesterTakes(bl, max);
    SentBackTrace(bl);
  }

  /** It is an epoch that a NO-GO ended, so what holds of these holds of it. */
  lemma SentBackIsEpoch(bl: string, max: int)
    requires max > 0
    ensures Epoch(Restart(4), [], SentBack(bl), bl, 0, SentBack(bl), max) && Vetted(Trace(SentBack(bl), bl, 0))
  {
    var ev := SentBack(bl);
    SentBackTrace(bl);
    SentBackReads(bl);
    SentBackCounts(KindsOf(ev));
    MayAddAtOnce(ev, KindsOf(ev));
    GrewFromNothing(ev, bl);
    NothingYet(bl);
    assert DevRuns([Dev] + [Gates]) == 1;
  }

  lemma StaleBecomesDue(s0: Start, s1: Start, outcome: Outcome, k: Kinds)
    requires Agreed(s0) && Stale(s0) && MERGED !in s0.base && Arrives(s0, outcome, k, s1.status)
    requires s1 == s0.(base := s1.base, done := s1.done, status := s1.status) && s1.base == s0.base + k
    ensures outcome == Failed && OnlyMergeDue(s1)
  {
    forall x: Step ensures Fine(ReplyTo(s1, x), s1.dryRun, x) {
      assert Fine(ReplyTo(s0, x), s0.dryRun, x);
    }
  }

  lemma DevStaysOut(ev0: seq<Event>, ev: seq<Event>, bl: string, added: seq<Event>, max: int)
    requires Bounded(ev0, ev, bl, added, max) && NoGos(KindsOf(added)) == 0 && DEV_COMPLETED in KindsOf(Trace(ev0, bl, 0))
    ensures DevRuns(Completions(added)) == 0
  {
  }

  /** A call that finds the item stale, in a world where nothing fails and nobody rejects. */
  method CallStale(db: StateDatabase, queue: AQ.Queue, req: Request, w: World) returns (outcome: Outcome, ghost added: seq<Event>)
    requires Agreed(StartOf(db, req, w, 0, 0)) && Stale(StartOf(db, req, w, 0, 0)) && MERGED !in KindsOf(Trace(db.events, req.bl, 0))
    modifies db, queue
    ensures Grew(old(db.events), db.events, req.bl, added) && DevRuns(Completions(added)) == 0
    ensures outcome == Failed && OnlyMergeDue(StartOf(db, req, w, 0, 0))
  {
    ghost var ev0, s0 := db.events, StartOf(db, req, w, 0, 0);
    ghost var epoch;
    outcome, epoch, added := Execute.Execute(db, queue, req, w);
    KindsGrew(ev0, db.events, req.bl, 0, added);
    DevStaysOut(ev0, db.events, req.bl, added, req.maxIterations);
    StaleBecomesDue(s0, StartOf(db, req, w, 0, 0), outcome, KindsOf(added));
  }

  method CallDue(db: StateDatabase, queue: AQ.Queue, req: Request, w: World) returns (outcome: Outcome, ghost added: seq<Event>)
    requires OnlyMergeDue(StartOf(db, req, w, 0, 0))
    modifies db, queue
    ensures Grew(old(db.events), db.events, req.bl, added) && DevRuns(Completions(added)) == 0
    ensures outcome == Merged || outcome == AwaitingApproval
    ensures outcome == Merged <==> AQ.Released(old(queue.rows), req.run, req.bl, req.manifest)
    ensures outcome == Merged ==> Before(db, req.bl) == Some(DONE)
  {
    ghost var ev0 := db.events;
    ghost var epoch;
    outcome, epoch, added := Execute.Execute(db, queue, req, w);
    DevStaysOut(ev0, db.events, req.bl, added, req.maxIterations);
  }

  /** The call that finds the item stale passes the test and the review of the work sent back, and
      fails; the next call merges that work, once released. The DEV role runs in neither: the
      correction is lost. */
  method MergesUncorrected(db: StateDatabase, queue: AQ.Queue, req: Request, w: World)
    returns (first: Outcome, second: Outcome, ghost rows: seq<AQ.PendingAction>, ghost added: seq<Event>)
    requires Agreed(StartOf(db, req, w, 0, 0)) && Stale(StartOf(db, req, w, 0, 0)) && MERGED !in KindsOf(Trace(db.events, req.bl, 0))
    modifies db, queue
    ensures Grew(old(db.events), db.events, req.bl, added) && DevRuns(Completions(added)) == 0
    ensures first == Failed && (second == Merged || second == AwaitingApproval)
    ensures second == Merged <==> AQ.Released(rows, req.run, req.bl, req.manifest)
    ensures second == Merged ==> Before(db, req.bl) == Some(DONE)
  {
    ghost var ev0, a, b := db.events, [], [];
    first, a := CallStale(db, queue, req, w);
    rows := queue.rows;
    ghost var ev := db.events;
    second, b := CallDue(db, queue, req, w);
    added := a + b;
    CallGrows(ev0, ev, db.events, req.bl, a, b);
  }
}
