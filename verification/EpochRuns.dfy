/** One pass over the steps: where it takes the item, and in which order the journal grows. */
module EpochRuns {
  import opened Domain
  import opened StateStore
  import opened Journal
  import opened Steps
  import opened Epochs
  import AQ = ApprovalQueue

  lemma ReviewAndMergeSteps(i: nat)
    requires i < 8
    ensures STEP_ORDER[i] == Reviewer <==> i == 6
    ensures STEP_ORDER[i] == Merge <==> i == 7
  {
  }

  // ----- where a pass takes the item -----

  /** Where the item stands before the i-th step of a chain that goes through. */
  function Stands(i: nat): Status
    requires i <= 8
  {
    if i < 8 then Needed(STEP_ORDER[i]) else DONE
  }

  lemma StepsConnect(i: nat)
    requires i < 8
    ensures Leaves(STEP_ORDER[i]) == Stands(i + 1)
  {
  }

  lemma CleanSkips(i: nat, base: Kinds, c: seq<Step>, k: Kinds, all: Kinds)
    requires i < 8 && Clean(base) && Plain(i, c, k) && IsCompleted(all, base + k, STEP_ORDER[i])
    ensures STEP_ORDER[i] == Branch || STEP_ORDER[i] == Push || STEP_ORDER[i] == PrOpen
  {
  }

  /** What is known of a pass before its first step: its round and the replies it will get, the entries
      since its marker, the steps these complete, and the item's status. */
  datatype Start = Start(w: World, round: nat, dryRun: bool, base: Kinds, done: set<Step>, status: Option<Status>)

  function ReplyTo(s: Start, x: Step): Reply {
    s.w.reply(s.round, x)
  }

  /** Nothing fails in the round. */
  ghost predicate AllFine(s: Start) {
    forall x: Step :: Fine(ReplyTo(s, x), s.dryRun, x)
  }

  /** Nothing outside fails, and the epoch is a clean one. */
  ghost predicate Smoothly(s: Start) {
    AllFine(s) && Clean(s.base) && s.status == Some(IN_PROGRESS)
  }

  /** Nothing fails, and both judging roles say GO. */
  ghost predicate Agreed(s: Start) {
    AllFine(s) && Went(ReplyTo(s, Tester), s.dryRun, Tester) && Went(ReplyTo(s, Reviewer), s.dryRun, Reviewer)
  }

  /** The item was sent back, but the epoch that redoes its work is forgotten. */
  predicate Stale(s: Start) {
    && !s.dryRun && s.status == Some(IN_PROGRESS)
    && DEV_COMPLETED in s.base && GATES_COMPLETED in s.base && REVIEWER_COMPLETED !in s.base
  }

  /** Every role has passed the item, and nothing outside fails; only the merge is due. */
  ghost predicate OnlyMergeDue(s: Start) {
    && AllFine(s) && (s.status == Some(IN_PROGRESS) || IsJudged(s.status))
    && DEV_COMPLETED in s.base && GATES_COMPLETED in s.base && TESTER_COMPLETED in s.base && REVIEWER_COMPLETED in s.base
    && MERGED !in s.base
  }

  /** How a pass stands after its first `i` steps when nothing outside fails. */
  predicate EndsWell(r: StepResult, i: nat, now: Option<Status>)
    requires i <= 8
  {
    !r.Raised? && (r.Continue? ==> now == Some(Stands(i))) && (r.Restart? ==> now == Some(IN_PROGRESS))
  }

  /** A stale pass never gets behind the review, and never restarts; left alone it passes the tests
      and the review, and raises. */
  ghost predicate StaysStuck(i: nat, s: Start, r: StepResult, k: Kinds, now: Option<Status>) {
    && !r.Restart? && !r.Awaiting? && MERGED !in k
    && (r.Continue? ==> i <= 6 && now == Some(IN_PROGRESS))
    && (!r.Continue? && Agreed(s) ==>
          r.Raised? && now == Some(IN_PROGRESS) && REVIEWER_COMPLETED in k && TESTER_COMPLETED in s.base + k)
  }

  predicate GoesToMerge(i: nat, s: Start, r: StepResult, now: Option<Status>) {
    (r.Continue? || r.Awaiting?) && (r.Continue? ==> now == if i < 8 then s.status else Some(DONE))
  }

  ghost predicate Course(i: nat, s: Start, r: StepResult, k: Kinds, now: Option<Status>)
    requires i <= 8
  {
    && (Smoothly(s) ==> EndsWell(r, i, now))
    && (Stale(s) ==> StaysStuck(i, s, r, k, now))
    && (OnlyMergeDue(s) ==> GoesToMerge(i, s, r, now))
  }

  /** In an epoch that began clean only the branch, the push and the pull request can be skipped,
      and none of them moves the item; the review of a stale pass cannot be skipped. */
  lemma CourseSkips(i: nat, s: Start, c: seq<Step>, k: Kinds, all: Kinds, now: Option<Status>)
    requires i < 8 && Course(i, s, Continue, k, now)
    requires SoFar(i, s.base, c, k) && IsCompleted(all, s.base + k, STEP_ORDER[i])
    ensures Course(i + 1, s, Continue, k, now)
  {
    if Smoothly(s) {
      CleanSkips(i, s.base, c, k, all);
      StepsConnect(i);
    }
  }

  lemma StuckSteps(i: nat, s: Start, c: seq<Step>, k: Kinds, all: Kinds, now: Option<Status>, r: StepResult, k': Kinds, after: Option<Status>)
    requires i <= 6 && Stale(s) && now == Some(IN_PROGRESS)
    requires SoFar(i, s.base, c, k) && !IsCompleted(all, s.base + k, STEP_ORDER[i])
    requires Moves(ReplyTo(s, STEP_ORDER[i]), s.dryRun, STEP_ORDER[i], r, now, after) && Reviewed(ReplyTo(s, STEP_ORDER[i]), s.dryRun, STEP_ORDER[i], k')
    requires (r.Awaiting? || MERGED in k') ==> STEP_ORDER[i] == Merge
    ensures StaysStuck(i + 1, s, r, k + k', after)
  {
  }

  lemma DueSteps(i: nat, s: Start, c: seq<Step>, k: Kinds, all: Kinds, now: Option<Status>, r: StepResult, after: Option<Status>)
    requires i < 8 && OnlyMergeDue(s) && now == s.status
    requires SoFar(i, s.base, c, k) && !IsCompleted(all, s.base + k, STEP_ORDER[i])
    requires Moves(ReplyTo(s, STEP_ORDER[i]), s.dryRun, STEP_ORDER[i], r, now, after)
    requires r.Restart? || r.CapReached? ==> Judges(STEP_ORDER[i])
    ensures GoesToMerge(i + 1, s, r, after)
  {
    ReviewAndMergeSteps(i);
  }

  lemma CourseSteps(i: nat, s: Start, c: seq<Step>, k: Kinds, all: Kinds, now: Option<Status>, r: StepResult, k': Kinds, after: Option<Status>)
    requires i < 8 && Course(i, s, Continue, k, now)
    requires SoFar(i, s.base, c, k) && !IsCompleted(all, s.base + k, STEP_ORDER[i])
    requires Moves(ReplyTo(s, STEP_ORDER[i]), s.dryRun, STEP_ORDER[i], r, now, after) && Reviewed(ReplyTo(s, STEP_ORDER[i]), s.dryRun, STEP_ORDER[i], k')
    requires (r.Awaiting? || MERGED in k') ==> STEP_ORDER[i] == Merge
    requires r.Restart? || r.CapReached? ==> Judges(STEP_ORDER[i])
    ensures Course(i + 1, s, r, k + k', after)
  {
    if Smoothly(s) {
      MovesSmoothly(ReplyTo(s, STEP_ORDER[i]), s.dryRun, STEP_ORDER[i], r, now, after);
      StepsConnect(i);
    }
    if Stale(s) {
      StuckSteps(i, s, c, k, all, now, r, k', after);
    }
    if OnlyMergeDue(s) {
      DueSteps(i, s, c, k, all, now, r, after);
    }
  }

  /** Once a pass has ended, no later step changes its course. */
  lemma CourseEnds(i: nat, s: Start, r: StepResult, k: Kinds, now: Option<Status>)
    requires i <= 8 && Course(i, s, r, k, now) && !r.Continue?
    ensures Course(8, s, r, k, now)
  {
  }

  // ----- what the replies have to do with it -----

  /** Each of the first `n` steps that was due went through. */
  ghost predicate Accepted(s: Start, n: nat)
    requires n <= 8
  {
    forall j :: 0 <= j < n && STEP_ORDER[j] !in s.done ==> Went(ReplyTo(s, STEP_ORDER[j]), s.dryRun, STEP_ORDER[j])
  }

  /** A judging role that was due said NO GO, after every step due before had gone through. */
  ghost predicate Rejected(s: Start) {
    exists i :: 0 <= i < 8 && STEP_ORDER[i] !in s.done && Refused(ReplyTo(s, STEP_ORDER[i]), s.dryRun, STEP_ORDER[i]) && Accepted(s, i)
  }

  /** A pass completes, or comes to a merge that waits, only when every step due went through; it is
      cut short for a correction or blocked only when a judging role said NO GO. */
  ghost predicate Heeds(i: nat, s: Start, r: StepResult)
    requires i <= 8
  {
    match r
    case Continue => Accepted(s, i)
    case Awaiting => Accepted(s, 7)
    case Restart(_) => Rejected(s)
    case CapReached => Rejected(s)
    case Raised => true
  }

  /** Every completion the pass has journaled stands for a step that went through. */
  predicate Vouches(s: Start, k: Kinds) {
    && (WORKTREE_CREATED in k ==> ReplyTo(s, Branch).works)
    && (GATES_COMPLETED in k ==> Went(ReplyTo(s, Gates), s.dryRun, Gates))
    && (TESTER_COMPLETED in k ==> Went(ReplyTo(s, Tester), s.dryRun, Tester))
    && (REVIEWER_COMPLETED in k ==> Went(ReplyTo(s, Reviewer), s.dryRun, Reviewer))
    && (PR_OPENED in k ==> ReplyTo(s, PrOpen).works)
    && (MERGED in k ==> ReplyTo(s, Merge).works)
  }

  lemma HeedsSteps(i: nat, s: Start, now: Option<Status>, r: StepResult, after: Option<Status>)
    requires i < 8 && Accepted(s, i) && STEP_ORDER[i] !in s.done
    requires Moves(ReplyTo(s, STEP_ORDER[i]), s.dryRun, STEP_ORDER[i], r, now, after)
    requires r.Awaiting? ==> STEP_ORDER[i] == Merge
    ensures Heeds(i + 1, s, r)
  {
    ReviewAndMergeSteps(i);
    if r.Restart? || r.CapReached? {
      assert STEP_ORDER[i] !in s.done && Refused(ReplyTo(s, STEP_ORDER[i]), s.dryRun, STEP_ORDER[i]) && Accepted(s, i);
    }
  }

  /** The completions of a step are its own. */
  predicate OwnKinds(x: Step, k: Kinds) {
    && (WORKTREE_CREATED in k ==> x == Branch) && (GATES_COMPLETED in k ==> x == Gates)
    && (TESTER_COMPLETED in k ==> x == Tester) && (REVIEWER_COMPLETED in k ==> x == Reviewer)
    && (PR_OPENED in k ==> x == PrOpen) && (MERGED in k ==> x == Merge)
  }

  lemma EffectIsOwn(x: Step, r: StepResult, more: seq<Event>, noGo: nat, max: int)
    requires Effect(x, r, more, noGo, max)
    ensures OwnKinds(x, KindsOf(more))
  {
    if r.Restart? || r.CapReached? {
      VerdictCompletesNothing(more);
    }
  }

  lemma VouchesSteps(s: Start, x: Step, k: Kinds, k': Kinds)
    requires Vouches(s, k) && OwnKinds(x, k') && Backed(ReplyTo(s, x), s.dryRun, x, k')
    ensures Vouches(s, k + k')
  {
  }

  // ----- in which order the journal grows -----

  /** An epoch sees every passed review, and the test each needs. */
  predicate SeesReviews(all: Kinds, since: Kinds) {
    && (REVIEWER_COMPLETED in all ==> REVIEWER_COMPLETED in since)
    && (REVIEWER_COMPLETED in since ==> TESTER_COMPLETED in since)
  }

  predicate Orderly(ev: seq<Event>, bl: string, from: nat) {
    Vetted(Trace(ev, bl, 0)) && SeesReviews(KindsOf(Trace(ev, bl, 0)), KindsOf(Trace(ev, bl, from)))
  }

  /** A step that brings no verdict may add its entries: a review is added by its own step only, a
      merge by the last. */
  lemma MayAddQuietly(i: nat, all: Kinds, since: Kinds, k: Kinds)
    requires i < 8 && Passed(i, since) && since <= all && SeesReviews(all, since)
    requires NoGos(k) == 0 && (REVIEWER_COMPLETED in k ==> i == 6) && (MERGED in k ==> i == 7)
    ensures MayAdd(all, k) && SeesReviews(all + k, since + k)
  {
  }

  /** A verdict is asked for only while the epoch holds none of the judge's own. */
  lemma MayAddVerdict(i: nat, all: Kinds, since: Kinds, k: Kinds)
    requires i < 8 && Judges(STEP_ORDER[i]) && !IsCompleted(all, since, STEP_ORDER[i])
    requires SeesReviews(all, since)
    requires k[REVIEWER_COMPLETED] == 0 && k[MERGED] == 0
    ensures REVIEWER_COMPLETED !in all + k
    ensures MayAdd(all, k) && SeesReviews(all + k, since + k)
  {
  }

  lemma VerdictReads(r: StepResult, more: seq<Event>)
    requires if r.Restart? then IsCorrection(more) else IsEscalation(more)
    ensures KindsOf(more)[REVIEWER_COMPLETED] == 0 && KindsOf(more)[MERGED] == 0
  {
    if r.Restart? { CorrectionReads(more); } else { EscalationReads(more); }
  }

  lemma StepMayAdd(i: nat, all: Kinds, since: Kinds, r: StepResult, more: seq<Event>, noGo: nat, max: int)
    requires i < 8 && Effect(STEP_ORDER[i], r, more, noGo, max) && !IsCompleted(all, since, STEP_ORDER[i])
    requires Passed(i, since) && since <= all && SeesReviews(all, since)
    ensures MayAdd(all, KindsOf(more)) && SeesReviews(all + KindsOf(more), since + KindsOf(more))
    ensures r.Restart? ==> REVIEWER_COMPLETED !in all + KindsOf(more)
  {
    ReviewAndMergeSteps(i);
    if r.Restart? || r.CapReached? {
      VerdictReads(r, more);
      MayAddVerdict(i, all, since, KindsOf(more));
    } else {
      MayAddQuietly(i, all, since, KindsOf(more));
    }
  }

  lemma OrderlyStep(i: nat, ev: seq<Event>, ev': seq<Event>, bl: string, from: nat, r: StepResult, more: seq<Event>, noGo: nat, max: int)
    requires i < 8 && from <= |ev| && Orderly(ev, bl, from) && Grew(ev, ev', bl, more)
    requires Effect(STEP_ORDER[i], r, more, noGo, max) && STEP_ORDER[i] !in CompletedSteps(ev, bl, from)
    requires Passed(i, KindsOf(Trace(ev, bl, from)))
    requires r.Restart? ==> r.epoch <= |ev'|
    ensures Orderly(ev', bl, if r.Restart? then r.epoch else from)
  {
    var all, since := KindsOf(Trace(ev, bl, 0)), KindsOf(Trace(ev, bl, from));
    assert !IsCompleted(all, since, STEP_ORDER[i]);
    SinceIsPart(ev, bl, from);
    StepMayAdd(i, all, since, r, more, noGo, max);
    VettedConcat(Trace(ev, bl, 0), more);
    KindsGrew(ev, ev', bl, 0, more);
    KindsGrew(ev, ev', bl, from, more);
    if r.Restart? {
      SinceIsPart(ev', bl, r.epoch);
    }
  }

  // ----- the pass -----

  /** What a step that is due leaves in the journal. */
  lemma StepEnds(i: nat, r: StepResult, ev0: seq<Event>, ev: seq<Event>, ev': seq<Event>, bl: string, from: nat,
                 before: seq<Event>, more: seq<Event>, max: int)
    requires i < 8 && Running(i, ev0, ev, bl, from, before) && STEP_ORDER[i] !in CompletedSteps(ev, bl, from)
    requires Grew(ev, ev', bl, more) && Effect(STEP_ORDER[i], r, more, CountNoGo(ev, bl), max) && !r.Continue?
    requires r.Restart? ==> r.epoch <= |ev'| && Trace(ev', bl, r.epoch) == more
    ensures Epoch(r, ev0, ev', bl, from, before + more, max)
  {
    DevNotRedone(ev0, ev, bl, from, before, STEP_ORDER[i]);
    NoVerdictYet(i, ev0, ev, bl, from, before);
    if r.Restart? {
      JudgedWork(i, ev, ev', bl, from, more);
    }
    EpochStops(i, r, ev0, ev, ev', bl, from, before, more, max);
  }

  lemma WhoEndsEarly(s: Step, r: StepResult, more: seq<Event>, noGo: nat, max: int)
    requires Effect(s, r, more, noGo, max)
    ensures (r.Awaiting? || MERGED in KindsOf(more)) ==> s == Merge
    ensures r.Restart? || r.CapReached? ==> Judges(s)
  {
    if r.Restart? { CorrectionReads(more); }
    if r.CapReached? { EscalationReads(more); }
  }

  /** The course of the item through one step that is due. */
  lemma CourseAfter(i: nat, s: Start, ev0: seq<Event>, ev: seq<Event>, bl: string, from: nat, before: seq<Event>, now: Option<Status>,
                    r: StepResult, more: seq<Event>, after: Option<Status>, noGo: nat, max: int)
    requires i < 8 && Running(i, ev0, ev, bl, from, before) && STEP_ORDER[i] !in CompletedSteps(ev, bl, from)
    requires s.base == KindsOf(Trace(ev0, bl, from)) && Course(i, s, Continue, KindsOf(before), now)
    requires Effect(STEP_ORDER[i], r, more, noGo, max)
    requires Moves(ReplyTo(s, STEP_ORDER[i]), s.dryRun, STEP_ORDER[i], r, now, after)
    requires Reviewed(ReplyTo(s, STEP_ORDER[i]), s.dryRun, STEP_ORDER[i], KindsOf(more))
    ensures Course(i + 1, s, r, KindsOf(before + more), after)
  {
    KindsGrew(ev0, ev, bl, from, before);
    KindsConcat(before, more);
    WhoEndsEarly(STEP_ORDER[i], r, more, noGo, max);
    CourseSteps(i, s, Completions(before), KindsOf(before), KindsOf(Trace(ev, bl, 0)), now, r, KindsOf(more), after);
  }

  lemma CourseKept(i: nat, s: Start, ev0: seq<Event>, ev: seq<Event>, bl: string, from: nat, before: seq<Event>, now: Option<Status>)
    requires i < 8 && Running(i, ev0, ev, bl, from, before) && STEP_ORDER[i] in CompletedSteps(ev, bl, from)
    requires s.base == KindsOf(Trace(ev0, bl, from)) && Course(i, s, Continue, KindsOf(before), now)
    ensures Course(i + 1, s, Continue, KindsOf(before), now)
  {
    KindsGrew(ev0, ev, bl, from, before);
    CourseSkips(i, s, Completions(before), KindsOf(before), KindsOf(Trace(ev, bl, 0)), now);
  }

  /** A pass that goes on: what it has journaled before its i-th step, and where it has taken the item. */
  ghost predicate Midway(i: nat, s: Start, ev0: seq<Event>, ev: seq<Event>, bl: string, from: nat, added: seq<Event>, now: Option<Status>) {
    && Running(i, ev0, ev, bl, from, added)
    && s.base == KindsOf(Trace(ev0, bl, from)) && s.done == CompletedSteps(ev0, bl, from)
    && Course(i, s, Continue, KindsOf(added), now)
    && Accepted(s, i) && Vouches(s, KindsOf(added))
    && (Orderly(ev0, bl, from) ==> Orderly(ev, bl, from))
  }

  /** A pass that has ended with `r`. */
  ghost predicate Ended(r: StepResult, s: Start, ev0: seq<Event>, ev: seq<Event>, bl: string, from: nat, added: seq<Event>,
                        max: int, now: Option<Status>) {
    && Epoch(r, ev0, ev, bl, from, added, max)
    && Course(8, s, r, KindsOf(added), now)
    && Heeds(8, s, r) && Vouches(s, KindsOf(added))
    && (Orderly(ev0, bl, from) ==> Orderly(ev, bl, if r.Restart? then r.epoch else from))
  }

  lemma PassBegins(s: Start, ev: seq<Event>, bl: string, from: nat)
    requires from <= |ev| && s.base == KindsOf(Trace(ev, bl, from)) && s.done == CompletedSteps(ev, bl, from)
    ensures Midway(0, s, ev, ev, bl, from, [], s.status)
  {
    EpochBegins(ev, bl, from);
  }

  lemma PassSkips(i: nat, s: Start, ev0: seq<Event>, ev: seq<Event>, bl: string, from: nat, added: seq<Event>, now: Option<Status>)
    requires i < 8 && Midway(i, s, ev0, ev, bl, from, added, now) && STEP_ORDER[i] in CompletedSteps(ev, bl, from)
    ensures Midway(i + 1, s, ev0, ev, bl, from, added, now) && (i == 7 ==> MERGED in s.base)
  {
    EpochSkips(i, ev0, ev, bl, from, added);
    CompletedStays(i, ev0, ev, bl, from, added);
    CourseKept(i, s, ev0, ev, bl, from, added, now);
  }

  /** What the step that is due has to do with the reply it gets. */
  lemma StepIsHeeded(i: nat, s: Start, ev0: seq<Event>, ev: seq<Event>, bl: string, from: nat, before: seq<Event>, now: Option<Status>,
                     r: StepResult, more: seq<Event>, after: Option<Status>, noGo: nat, max: int)
    requires i < 8 && Running(i, ev0, ev, bl, from, before) && STEP_ORDER[i] !in CompletedSteps(ev, bl, from)
    requires s.done == CompletedSteps(ev0, bl, from) && Accepted(s, i) && Vouches(s, KindsOf(before))
    requires Effect(STEP_ORDER[i], r, more, noGo, max) && Moves(ReplyTo(s, STEP_ORDER[i]), s.dryRun, STEP_ORDER[i], r, now, after)
    requires Backed(ReplyTo(s, STEP_ORDER[i]), s.dryRun, STEP_ORDER[i], KindsOf(more))
    ensures Heeds(i + 1, s, r) && Vouches(s, KindsOf(before + more))
  {
    CompletedStays(i, ev0, ev, bl, from, before);
    WhoEndsEarly(STEP_ORDER[i], r, more, noGo, max);
    HeedsSteps(i, s, now, r, after);
    EffectIsOwn(STEP_ORDER[i], r, more, noGo, max);
    VouchesSteps(s, STEP_ORDER[i], KindsOf(before), KindsOf(more));
    KindsConcat(before, more);
  }

  /** One step that is due takes the pass on, or ends it. */
  lemma PassSteps(i: nat, s: Start, ev0: seq<Event>, ev: seq<Event>, ev': seq<Event>, bl: string, from: nat, before: seq<Event>, now: Option<Status>,
                  r: StepResult, more: seq<Event>, after: Option<Status>, noGo: nat, max: int)
    requires i < 8 && Midway(i, s, ev0, ev, bl, from, before, now) && STEP_ORDER[i] !in CompletedSteps(ev, bl, from)
    requires Grew(ev, ev', bl, more) && Effect(STEP_ORDER[i], r, more, noGo, max) && noGo == CountNoGo(ev, bl)
    requires Moves(ReplyTo(s, STEP_ORDER[i]), s.dryRun, STEP_ORDER[i], r, now, after)
    requires Reviewed(ReplyTo(s, STEP_ORDER[i]), s.dryRun, STEP_ORDER[i], KindsOf(more))
    requires Backed(ReplyTo(s, STEP_ORDER[i]), s.dryRun, STEP_ORDER[i], KindsOf(more))
    requires r.Restart? ==> r.epoch <= |ev'| && Trace(ev', bl, r.epoch) == more
    ensures r.Continue? ==> Midway(i + 1, s, ev0, ev', bl, from, before + more, after)
    ensures !r.Continue? ==> Ended(r, s, ev0, ev', bl, from, before + more, max, after)
  {
    var added := before + more;
    NoVerdictYet(i, ev0, ev, bl, from, before);
    CourseAfter(i, s, ev0, ev, bl, from, before, now, r, more, after, noGo, max);
    StepIsHeeded(i, s, ev0, ev, bl, from, before, now, r, more, after, noGo, max);
    if Orderly(ev, bl, from) {
      OrderlyStep(i, ev, ev', bl, from, r, more, noGo, max);
    }
    if r.Continue? {
      EpochSteps(i, ev0, ev, ev', bl, from, before, more);
    } else {
      StepEnds(i, r, ev0, ev, ev', bl, from, before, more, max);
      CourseEnds(i + 1, s, r, KindsOf(added), after);
    }
  }

  /** The i-th step of an epoch, which the journal does not hold yet. */
  method TakeStep(db: StateDatabase, queue: AQ.Queue, req: Request, w: World, round: nat, from: nat, i: nat, known: Option<int>,
                  ghost ev0: seq<Event>, ghost before: seq<Event>, ghost s: Start)
    returns (r: StepResult, pr: Option<int>, ghost added: seq<Event>)
    requires i < 8 && s.w == w && s.round == round && s.dryRun == req.dryRun
    requires Midway(i, s, ev0, db.events, req.bl, from, before, Before(db, req.bl))
    requires STEP_ORDER[i] !in CompletedSteps(db.events, req.bl, from)
    modifies db, queue
    ensures r.Continue? ==> Midway(i + 1, s, ev0, db.events, req.bl, from, added, Before(db, req.bl))
    ensures !r.Continue? ==> Ended(r, s, ev0, db.events, req.bl, from, added, req.maxIterations, Before(db, req.bl))
    ensures r.CapReached? ==> Escalated(db.statuses, req)
    ensures STEP_ORDER[i] != Merge || r.Restart? || r.CapReached? ==> queue.rows == old(queue.rows)
    ensures r.Awaiting? ==> Withheld(old(queue.rows), queue.rows, req)
    ensures STEP_ORDER[i] == Merge && r.Continue? ==> AQ.Released(old(queue.rows), req.run, req.bl, req.manifest)
  {
    ghost var ev, now, more := db.events, Before(db, req.bl), [];
    ghost var noGo := CountNoGo(ev, req.bl);
    r, pr, more := RunStep(db, queue, req, w.reply(round, STEP_ORDER[i]), STEP_ORDER[i], known);
    added := before + more;
    WhoEndsEarly(STEP_ORDER[i], r, more, noGo, req.maxIterations);
    PassSteps(i, s, ev0, ev, db.events, req.bl, from, before, now, r, more, Before(db, req.bl), noGo, req.maxIterations);
  }

  /** The i-th step of an epoch: skipped when the journal already holds its entry. */
  method Advance(db: StateDatabase, queue: AQ.Queue, req: Request, w: World, round: nat, from: nat, i: nat, known: Option<int>,
                 ghost ev0: seq<Event>, ghost before: seq<Event>, ghost s: Start)
    returns (r: StepResult, pr: Option<int>, ghost added: seq<Event>)
    requires i < 8 && s.w == w && s.round == round && s.dryRun == req.dryRun
    requires Midway(i, s, ev0, db.events, req.bl, from, before, Before(db, req.bl))
    modifies db, queue
    ensures r.Continue? ==> Midway(i + 1, s, ev0, db.events, req.bl, from, added, Before(db, req.bl))
    ensures !r.Continue? ==> Ended(r, s, ev0, db.events, req.bl, from, added, req.maxIterations, Before(db, req.bl))
    ensures r.CapReached? ==> Escalated(db.statuses, req)
    ensures i < 7 || r.Restart? || r.CapReached? ==> queue.rows == old(queue.rows)
    ensures r.Awaiting? ==> Withheld(old(queue.rows), queue.rows, req)
    ensures i == 7 && r.Continue? && MERGED !in s.base ==> AQ.Released(old(queue.rows), req.run, req.bl, req.manifest)
  {
    ReviewAndMergeSteps(i);
    if STEP_ORDER[i] in CompletedSteps(db.events, req.bl, from) {
      PassSkips(i, s, ev0, db.events, req.bl, from, before, Before(db, req.bl));
      return Continue, known, before;
    }
    r, pr, added := TakeStep(db, queue, req, w, round, from, i, known, ev0, before, s);
  }

  function StartOf(db: StateDatabase, req: Request, w: World, round: nat, from: nat): Start
    reads db
  {
    Start(w, round, req.dryRun, KindsOf(Trace(db.events, req.bl, from)), CompletedSteps(db.events, req.bl, from), Before(db, req.bl))
  }

  /** One pass over the steps; `s` is what is known of its beginning. */
  method RunEpoch(db: StateDatabase, queue: AQ.Queue, req: Request, w: World, round: nat, from: nat, known: Option<int>, ghost s: Start)
    returns (r: StepResult, pr: Option<int>, ghost added: seq<Event>)
    requires from <= |db.events|
    requires s == StartOf(db, req, w, round, from)
    modifies db, queue
    ensures Ended(r, s, old(db.events), db.events, req.bl, from, added, req.maxIterations, Before(db, req.bl))
    ensures r.CapReached? ==> Escalated(db.statuses, req)
    ensures r.Restart? || r.CapReached? ==> queue.rows == old(queue.rows)
    ensures r.Awaiting? ==> Withheld(old(queue.rows), queue.rows, req)
    ensures r.Continue? && MERGED !in s.base ==> AQ.Released(old(queue.rows), req.run, req.bl, req.manifest)
  {
    pr, added, r := known, [], Continue;
    ghost var ev0 := db.events;
    PassBegins(s, ev0, req.bl, from);
    for i := 0 to 8
      invariant r == Continue && Midway(i, s, ev0, db.events, req.bl, from, added, Before(db, req.bl))
      invariant i < 8 ==> queue.rows == old(queue.rows)
      invariant i == 8 && MERGED !in s.base ==> AQ.Released(old(queue.rows), req.run, req.bl, req.manifest)
    {
      r, pr, added := Advance(db, queue, req, w, round, from, i, pr, ev0, added, s);
      if !r.Continue? {
        return;
      }
    }
    EpochCompletes(ev0, db.events, req.bl, from, added, req.maxIterations);
  }
}
