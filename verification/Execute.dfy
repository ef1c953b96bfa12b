/** A whole call of the executor: correction epochs after NO-GO verdicts, under an iteration cap. */
module Execute {
  import opened Domain
  import opened StateStore
  import opened Journal
  import opened Steps
  import opened Epochs
  import opened EpochRuns
  import AQ = ApprovalQueue

  datatype Outcome = Merged | Blocked | AwaitingApproval | Failed

  /** What the call has done before the epoch that starts at `from`: every restart followed one
      NO-GO verdict below the cap and spent at most one run of the DEV role. */
  ghost predicate Correcting(ev0: seq<Event>, ev: seq<Event>, bl: string, from: nat, added: seq<Event>, max: int) {
    && from <= |ev|
    && Grew(ev0, ev, bl, added)
    && (OnceOnly(KindsOf(Trace(ev0, bl, 0))) ==> OnceOnly(KindsOf(Trace(ev, bl, 0))))
    && var restarts := NoGos(KindsOf(added));
    && (restarts == 0 ==> from == 0 && added == [])
    && (restarts > 0 ==> DevRuns(Completions(added)) + DevDone(ev0, bl, 0) <= restarts
                         && CountNoGo(ev0, bl) + restarts <= max && IsCorrection(Trace(ev, bl, from)))
  }

  lemma CallBegins(ev: seq<Event>, bl: string, max: int)
    ensures Correcting(ev, ev, bl, 0, [], max)
  {
    GrewNothing(ev, bl);
  }

  /** The counts of two stretches of the journal, put together. */
  lemma CallGrows(ev0: seq<Event>, ev: seq<Event>, ev': seq<Event>, bl: string, a: seq<Event>, b: seq<Event>)
    requires Grew(ev0, ev, bl, a) && Grew(ev, ev', bl, b)
    ensures Grew(ev0, ev', bl, a + b)
    ensures NoGos(KindsOf(a + b)) == NoGos(KindsOf(a)) + NoGos(KindsOf(b))
    ensures DevRuns(Completions(a + b)) == DevRuns(Completions(a)) + DevRuns(Completions(b))
    ensures CountNoGo(ev, bl) == CountNoGo(ev0, bl) + NoGos(KindsOf(a))
  {
    GrewTransitive(ev0, ev, ev', bl, a, b);
    KindsConcat(a, b);
    CompletionsConcat(a, b);
    assert multiset(Completions(a + b)) == multiset(Completions(a)) + multiset(Completions(b));
    KindsGrew(ev0, ev, bl, 0, a);
  }

  /** The trace an epoch starts with: the correction that opened it, or the item's journal as the
      call found it. */
  lemma EpochStart(ev0: seq<Event>, ev: seq<Event>, bl: string, from: nat, a: seq<Event>, max: int)
    requires Correcting(ev0, ev, bl, from, a, max)
    ensures if NoGos(KindsOf(a)) > 0 then IsCorrection(Trace(ev, bl, from)) && Clean(KindsOf(Trace(ev, bl, from)))
            else from == 0 && Trace(ev, bl, 0) == Trace(ev0, bl, 0)
  {
    if NoGos(KindsOf(a)) > 0 {
      CorrectionIsOneNoGo(Trace(ev, bl, from));
    } else {
      assert Trace(ev, bl, 0) == Trace(ev0, bl, 0) + [];
    }
  }

  /** Each restart buys the DEV role one more run; a journal that holds DEV already costs one. */
  lemma DevBudget(ev0: seq<Event>, ev: seq<Event>, bl: string, from: nat, a: seq<Event>, max: int, runs: nat)
    requires Correcting(ev0, ev, bl, from, a, max) && runs + DevDone(ev, bl, from) <= 1
    ensures DevRuns(Completions(a)) + runs + DevDone(ev0, bl, 0) <= NoGos(KindsOf(a)) + 1
  {
    EpochStart(ev0, ev, bl, from, a, max);
  }

  lemma CallRestarts(ev0: seq<Event>, ev: seq<Event>, ev': seq<Event>, bl: string, from: nat, marker: nat,
                     a: seq<Event>, b: seq<Event>, max: int)
    requires Correcting(ev0, ev, bl, from, a, max) && Epoch(Restart(marker), ev, ev', bl, from, b, max)
    ensures Correcting(ev0, ev', bl, marker, a + b, max)
    ensures CountNoGo(ev, bl) < CountNoGo(ev', bl) <= max && NoGos(KindsOf(a + b)) > 0
  {
    DevBudget(ev0, ev, bl, from, a, max, DevRuns(Completions(b)));
    CallGrows(ev0, ev, ev', bl, a, b);
    CallGrows(ev, ev', ev', bl, b, []) by { GrewNothing(ev', bl); }
  }

  /** What the call leaves behind, whatever its outcome. */
  ghost predicate Bounded(ev0: seq<Event>, ev: seq<Event>, bl: string, added: seq<Event>, max: int) {
    && Grew(ev0, ev, bl, added)
    && (OnceOnly(KindsOf(Trace(ev0, bl, 0))) ==> OnceOnly(KindsOf(Trace(ev, bl, 0))))
    && var restarts := NoGos(KindsOf(added));
    && DevRuns(Completions(added)) + DevDone(ev0, bl, 0) <= restarts + 1
    && (restarts > 0 ==> CountNoGo(ev0, bl) + restarts <= max)
  }

  /** The epoch that merged: its marker is the last, and since then each role has completed exactly
      once, in order, before the merge. Without a restart the epoch is the item's whole journal. */
  ghost predicate MergedInOrder(ev0: seq<Event>, ev: seq<Event>, bl: string, from: nat, added: seq<Event>) {
    var t := Trace(ev, bl, from);
    if NoGos(KindsOf(added)) > 0 then
      2 <= |t| && IsCorrection(t[..2]) && ISSUE_OPENED !in KindsOf(t[2..]) && NoGos(KindsOf(t[2..])) == 0
      && Completions(t) == Due(8)
    else from == 0 && (Clean(KindsOf(Trace(ev0, bl, 0))) ==> Completions(t) == Due(8))
  }

  lemma {:induction false} CleanReportsNothing(t: seq<Event>)
    requires Clean(KindsOf(t))
    ensures Completions(t) == []
    decreases |t|
  {
    if t != [] {
      var k := KindsOf(t[..|t|-1]);
      assert KindsOf(t) == k + multiset{t[|t|-1].kind};
      assert t[|t|-1].kind in KindsOf(t);
      assert Clean(k) by {
        assert forall x :: x in k ==> x in KindsOf(t);
      }
      CleanReportsNothing(t[..|t|-1]);
    }
  }

  lemma CallEnds(ev0: seq<Event>, ev: seq<Event>, ev': seq<Event>, bl: string, from: nat, r: StepResult,
                 a: seq<Event>, b: seq<Event>, max: int)
    requires Correcting(ev0, ev, bl, from, a, max) && Epoch(r, ev, ev', bl, from, b, max) && !r.Restart?
    ensures Bounded(ev0, ev', bl, a + b, max)
    ensures NoGos(KindsOf(a + b)) == NoGos(KindsOf(a))
    ensures r.CapReached? ==> CountNoGo(ev', bl) >= max
  {
    DevBudget(ev0, ev, bl, from, a, max, DevRuns(Completions(b)));
    CallGrows(ev0, ev, ev', bl, a, b);
    CallGrows(ev, ev', ev', bl, b, []) by { GrewNothing(ev', bl); }
  }

  lemma FullPass(ev: seq<Event>, ev': seq<Event>, bl: string, from: nat, added: seq<Event>)
    requires Running(8, ev, ev', bl, from, added)
    ensures NoGos(KindsOf(added)) == 0 && ISSUE_OPENED !in KindsOf(added)
    ensures Clean(KindsOf(Trace(ev, bl, from))) ==> Completions(added) == Due(8)
  {
  }

  lemma MergesAfterRestart(t: seq<Event>, b: seq<Event>)
    requires IsCorrection(t) && Completions(b) == Due(8)
    ensures (t + b)[..2] == t && (t + b)[2..] == b && Completions(t + b) == Due(8)
  {
    CorrectionIsOneNoGo(t);
    CompletionsConcat(t, b);
    assert [] + Completions(b) == Completions(b);
  }

  lemma MergesAtOnce(t: seq<Event>, b: seq<Event>)
    requires Clean(KindsOf(t)) && Completions(b) == Due(8)
    ensures Completions(t + b) == Due(8)
  {
    CleanReportsNothing(t);
    CompletionsConcat(t, b);
    assert [] + Completions(b) == Completions(b);
  }

  lemma CallMerges(ev0: seq<Event>, ev: seq<Event>, ev': seq<Event>, bl: string, from: nat, a: seq<Event>, b: seq<Event>, restarts: nat)
    requires Grew(ev, ev', bl, b) && from <= |ev| && restarts == NoGos(KindsOf(a + b))
    requires NoGos(KindsOf(b)) == 0 && ISSUE_OPENED !in KindsOf(b)
    requires Clean(KindsOf(Trace(ev, bl, from))) ==> Completions(b) == Due(8)
    requires if restarts > 0 then IsCorrection(Trace(ev, bl, from)) else from == 0 && Trace(ev, bl, 0) == Trace(ev0, bl, 0)
    ensures MergedInOrder(ev0, ev', bl, from, a + b)
  {
    var t := Trace(ev, bl, from);
    assert Trace(ev', bl, from) == t + b;
    if restarts > 0 {
      CorrectionIsOneNoGo(t);
      MergesAfterRestart(t, b);
    } else if Clean(KindsOf(t)) {
      MergesAtOnce(t, b);
    }
  }

  lemma Concludes(ev0: seq<Event>, ev: seq<Event>, ev': seq<Event>, bl: string, from: nat, r: StepResult,
                  a: seq<Event>, b: seq<Event>, max: int)
    requires Correcting(ev0, ev, bl, from, a, max) && Epoch(r, ev, ev', bl, from, b, max) && !r.Restart?
    ensures Bounded(ev0, ev', bl, a + b, max)
    ensures NoGos(KindsOf(b)) == 0 && (r.CapReached? ==> CountNoGo(ev', bl) >= max)
    ensures r.Continue? ==> MergedInOrder(ev0, ev', bl, from, a + b)
  {
    CallEnds(ev0, ev, ev', bl, from, r, a, b, max);
    if r.Continue? {
      EpochStart(ev0, ev, bl, from, a, max);
      FullPass(ev, ev', bl, from, b);
      CallMerges(ev0, ev, ev', bl, from, a, b, NoGos(KindsOf(a)));
    }
  }

  function OutcomeOf(r: StepResult): Outcome {
    match r case Continue => Merged case CapReached => Blocked case Awaiting => AwaitingApproval case _ => Failed
  }

  // ----- where a call takes the item -----

  /** Nothing outside fails in any round of the call. */
  ghost predicate Sure(s0: Start) {
    forall j: nat :: AllFine(s0.(round := j))
  }

  /** The judging roles say GO in every round. */
  ghost predicate Unopposed(s0: Start) {
    forall j: nat, x: Step :: !Refused(s0.w.reply(j, x), s0.dryRun, x)
  }

  /** The item is IN_PROGRESS, and the journal holds no role, gate or merge of it. */
  predicate Fresh(s0: Start) {
    Clean(s0.base) && s0.status == Some(IN_PROGRESS)
  }

  /** The epoch that begins with `s` belongs to a call that began with `s0`. */
  ghost predicate Underway(s0: Start, s: Start, restarts: nat) {
    && s.w == s0.w && s.dryRun == s0.dryRun && s.round == restarts
    && (restarts == 0 ==> s == s0)
    && (restarts > 0 ==> forall x :: x in s.done ==> x == Branch || x == PrOpen)
    && (Sure(s0) && Fresh(s0) ==> Smoothly(s))
    && (Stale(s0) || OnlyMergeDue(s0) ==> restarts == 0)
  }

  /** What a round of the call knows of its replies: the first goes on where the journal stands, a
      later one redoes everything but the branch and the pull request. */
  function Round(s0: Start, j: nat): Start {
    if j == 0 then s0 else s0.(round := j, done := {Branch, PrOpen})
  }

  /** What the replies make of a call: every restart answers a NO GO, a call that blocks the item ends
      in one, and a call that merges it, or waits to, ends in a round in which everything due went
      through. */
  ghost predicate Answers(s0: Start, outcome: Outcome, restarts: nat) {
    && (forall j: nat :: j < restarts ==> Rejected(Round(s0, j)))
    && (outcome == Blocked ==> Rejected(Round(s0, restarts)))
    && (outcome == AwaitingApproval ==> Accepted(Round(s0, restarts), 7))
    && (outcome == Merged ==> Accepted(Round(s0, restarts), 8))
  }

  /** Where a call that began with `s0` and journaled entries of the kinds `k` has taken the item.
      Begun afresh, an item that nothing fails for is merged, blocked at the cap or left waiting. An
      item that was sent back and whose epoch is forgotten is not merged by this call, nor does its DEV
      role run: at best the call passes the test and the review, and fails. An item that every role has
      passed is merged, or waits. */
  ghost predicate Arrives(s0: Start, outcome: Outcome, k: Kinds, now: Option<Status>) {
    && (Unopposed(s0) ==> outcome != Blocked)
    && (Sure(s0) && Fresh(s0) ==> outcome != Failed && (outcome == Merged ==> now == Some(DONE)))
    && (Stale(s0) ==>
          && NoGos(k) == 0 && MERGED !in k && (outcome == Failed || outcome == Blocked)
          && (Agreed(s0) ==>
                outcome == Failed && now == Some(IN_PROGRESS) && REVIEWER_COMPLETED in k && TESTER_COMPLETED in s0.base + k))
    && (OnlyMergeDue(s0) ==>
          NoGos(k) == 0 && (outcome == Merged || outcome == AwaitingApproval) && (outcome == Merged ==> now == Some(DONE)))
  }

  lemma UnderwayAgain(s0: Start, s: Start, r: StepResult, k: Kinds, restarts: nat, s': Start)
    requires Underway(s0, s, restarts) && Course(8, s, r, k, s'.status) && r.Restart?
    requires s'.w == s.w && s'.dryRun == s.dryRun && s'.round == restarts + 1 && Clean(s'.base)
    requires forall x :: x in s'.done ==> x == Branch || x == PrOpen
    ensures Underway(s0, s', restarts + 1)
  {
    if Sure(s0) && Fresh(s0) {
      assert AllFine(s0.(round := restarts + 1));
      forall x: Step ensures Fine(ReplyTo(s', x), s'.dryRun, x) {
        assert Fine(ReplyTo(s0.(round := restarts + 1), x), s0.dryRun, x);
      }
    }
  }

  lemma RoundAccepts(s: Start, t: Start, n: nat)
    requires n <= 8 && t.w == s.w && t.round == s.round && t.dryRun == s.dryRun && s.done <= t.done && Accepted(s, n)
    ensures Accepted(t, n)
  {
    forall j | 0 <= j < n && STEP_ORDER[j] !in t.done ensures Went(ReplyTo(t, STEP_ORDER[j]), t.dryRun, STEP_ORDER[j]) {
      assert STEP_ORDER[j] !in s.done;
    }
  }

  /** A round that redoes less rejects and accepts as one that redoes more. */
  lemma RoundAgrees(s0: Start, s: Start, restarts: nat)
    requires Underway(s0, s, restarts)
    ensures Rejected(s) ==> Rejected(Round(s0, restarts))
    ensures forall n :: 0 <= n <= 8 && Accepted(s, n) ==> Accepted(Round(s0, restarts), n)
  {
    var t := Round(s0, restarts);
    if restarts > 0 {
      forall n | 0 <= n <= 8 && Accepted(s, n) ensures Accepted(t, n) {
        RoundAccepts(s, t, n);
      }
      if Rejected(s) {
        var i :| 0 <= i < 8 && STEP_ORDER[i] !in s.done && Refused(ReplyTo(s, STEP_ORDER[i]), s.dryRun, STEP_ORDER[i]) && Accepted(s, i);
        RoundAccepts(s, t, i);
        assert STEP_ORDER[i] !in t.done && Refused(ReplyTo(t, STEP_ORDER[i]), t.dryRun, STEP_ORDER[i]) && Accepted(t, i);
      }
    }
  }

  lemma NobodyRejects(s: Start, s0: Start)
    requires Unopposed(s0) && s.w == s0.w && s.dryRun == s0.dryRun
    ensures !Rejected(s)
  {
    forall x: Step ensures !Refused(ReplyTo(s, x), s.dryRun, x) {
      assert !Refused(s0.w.reply(s.round, x), s0.dryRun, x);
    }
  }

  lemma ArrivesAtLast(s0: Start, s: Start, r: StepResult, before: Kinds, k: Kinds, now: Option<Status>)
    requires Underway(s0, s, NoGos(before)) && Course(8, s, r, k, now) && Heeds(8, s, r) && !r.Restart? && NoGos(k) == 0
    requires NoGos(before) == 0 ==> before == multiset{}
    ensures Arrives(s0, OutcomeOf(r), before + k, now)
  {
    if Unopposed(s0) {
      NobodyRejects(s, s0);
    }
  }

  /** The whole journal is an epoch like any other when it is vetted. */
  lemma VettedIsOrderly(ev: seq<Event>, bl: string)
    requires Vetted(Trace(ev, bl, 0))
    ensures Orderly(ev, bl, 0)
  {
    var t := Trace(ev, bl, 0);
    KindsMeanMembership(t, REVIEWER_COMPLETED);
    KindsMeanMembership(t, TESTER_COMPLETED);
    if REVIEWER_COMPLETED in KindsOf(t) {
      var j: nat :| j < |t| && t[j].kind == REVIEWER_COMPLETED;
      var h := EntryBefore(t, j, TESTER_COMPLETED);
      assert t[h] in t;
    }
  }

  // ----- the call -----

  /** The state of a call between two epochs, in the order, the counts and the place of the item. */
  ghost predicate Between(s0: Start, s: Start, ev0: seq<Event>, ev: seq<Event>, bl: string, from: nat, added: seq<Event>, max: int) {
    && Correcting(ev0, ev, bl, from, added, max)
    && Underway(s0, s, NoGos(KindsOf(added)))
    && (forall j: nat :: j < NoGos(KindsOf(added)) ==> Rejected(Round(s0, j)))
    && (Vetted(Trace(ev0, bl, 0)) ==> Orderly(ev, bl, from))
  }

  lemma BeginsBetween(s0: Start, ev: seq<Event>, bl: string, max: int)
    requires s0.round == 0
    ensures Between(s0, s0, ev, ev, bl, 0, [], max)
  {
    CallBegins(ev, bl, max);
    assert Sure(s0) ==> AllFine(s0.(round := 0)) && s0.(round := 0) == s0;
    if Vetted(Trace(ev, bl, 0)) {
      VettedIsOrderly(ev, bl);
    }
  }

  /** A correction redoes everything but the branch and the pull request. */
  lemma CorrectionRedoes(ev: seq<Event>, bl: string, marker: nat)
    requires IsCorrection(Trace(ev, bl, marker))
    ensures Clean(KindsOf(Trace(ev, bl, marker)))
    ensures forall x :: x in CompletedSteps(ev, bl, marker) ==> x == Branch || x == PrOpen
  {
    VerdictCompletesNothing(Trace(ev, bl, marker));
  }

  lemma OneMoreRejected(s0: Start, s: Start, restarts: nat)
    requires Underway(s0, s, restarts) && Rejected(s) && forall j: nat :: j < restarts ==> Rejected(Round(s0, j))
    ensures forall j: nat :: j < restarts + 1 ==> Rejected(Round(s0, j))
  {
    RoundAgrees(s0, s, restarts);
  }

  lemma CallHandsOver(ev0: seq<Event>, ev: seq<Event>, ev': seq<Event>, bl: string, from: nat, marker: nat,
                      before: seq<Event>, more: seq<Event>, max: int)
    requires Correcting(ev0, ev, bl, from, before, max) && Epoch(Restart(marker), ev, ev', bl, from, more, max)
    ensures Correcting(ev0, ev', bl, marker, before + more, max) && NoGos(KindsOf(before + more)) == NoGos(KindsOf(before)) + 1
    ensures CountNoGo(ev, bl) < CountNoGo(ev', bl) <= max
  {
    CallRestarts(ev0, ev, ev', bl, from, marker, before, more, max);
    CallGrows(ev0, ev, ev', bl, before, more);
  }

  lemma HandsOver(s0: Start, s: Start, ev0: seq<Event>, ev: seq<Event>, ev': seq<Event>, bl: string, from: nat, marker: nat,
                  before: seq<Event>, more: seq<Event>, s': Start, max: int)
    requires Between(s0, s, ev0, ev, bl, from, before, max) && Ended(Restart(marker), s, ev, ev', bl, from, more, max, s'.status)
    requires s'.w == s.w && s'.dryRun == s.dryRun && s'.round == NoGos(KindsOf(before)) + 1
    requires s'.base == KindsOf(Trace(ev', bl, marker)) && s'.done == CompletedSteps(ev', bl, marker)
    ensures Between(s0, s', ev0, ev', bl, marker, before + more, max) && NoGos(KindsOf(before + more)) == NoGos(KindsOf(before)) + 1
    ensures CountNoGo(ev, bl) < CountNoGo(ev', bl) <= max
  {
    CallHandsOver(ev0, ev, ev', bl, from, marker, before, more, max);
    CorrectionRedoes(ev', bl, marker);
    UnderwayAgain(s0, s, Restart(marker), KindsOf(more), NoGos(KindsOf(before)), s');
    OneMoreRejected(s0, s, NoGos(KindsOf(before)));
  }

  /** What a call that ends owes. */
  ghost predicate Settles(s0: Start, r: StepResult, ev0: seq<Event>, ev: seq<Event>, bl: string, from: nat, added: seq<Event>,
                          now: Option<Status>, max: int) {
    && Bounded(ev0, ev, bl, added, max)
    && Arrives(s0, OutcomeOf(r), KindsOf(added), now) && Answers(s0, OutcomeOf(r), NoGos(KindsOf(added)))
    && Vouches(Round(s0, NoGos(KindsOf(added))), if NoGos(KindsOf(added)) > 0 then KindsOf(Trace(ev, bl, from)) else KindsOf(added))
    && (Vetted(Trace(ev0, bl, 0)) ==> Vetted(Trace(ev, bl, 0)))
    && (r.CapReached? ==> CountNoGo(ev, bl) >= max)
    && (r.Continue? ==> MergedInOrder(ev0, ev, bl, from, added))
  }

  /** What the last round has journaled stands for steps that went through in it. */
  lemma LastRoundVouches(s0: Start, s: Start, ev0: seq<Event>, ev: seq<Event>, ev': seq<Event>, bl: string, from: nat,
                         before: seq<Event>, more: seq<Event>, max: int)
    requires Correcting(ev0, ev, bl, from, before, max) && Underway(s0, s, NoGos(KindsOf(before)))
    requires Grew(ev, ev', bl, more) && Vouches(s, KindsOf(more))
    ensures Vouches(Round(s0, NoGos(KindsOf(before))),
                    if NoGos(KindsOf(before)) > 0 then KindsOf(Trace(ev', bl, from)) else KindsOf(before + more))
  {
    KindsGrew(ev, ev', bl, from, more);
    KindsConcat(before, more);
    if NoGos(KindsOf(before)) > 0 {
      VerdictCompletesNothing(Trace(ev, bl, from));
    }
  }

  lemma Closes(s0: Start, s: Start, ev0: seq<Event>, ev: seq<Event>, ev': seq<Event>, bl: string, from: nat, r: StepResult,
               before: seq<Event>, more: seq<Event>, now: Option<Status>, max: int)
    requires Between(s0, s, ev0, ev, bl, from, before, max) && Ended(r, s, ev, ev', bl, from, more, max, now) && !r.Restart?
    ensures Settles(s0, r, ev0, ev', bl, from, before + more, now, max)
  {
    Concludes(ev0, ev, ev', bl, from, r, before, more, max);
    KindsConcat(before, more);
    ArrivesAtLast(s0, s, r, KindsOf(before), KindsOf(more), now);
    RoundAgrees(s0, s, NoGos(KindsOf(before)));
    LastRoundVouches(s0, s, ev0, ev, ev', bl, from, before, more, max);
  }

  /** One epoch of a call: it ends the call, or hands over to the next. */
  method Correct(db: StateDatabase, queue: AQ.Queue, req: Request, w: World, round: nat, from: nat, known: Option<int>,
                 ghost s0: Start, ghost ev0: seq<Event>, ghost before: seq<Event>)
    returns (r: StepResult, pr: Option<int>, ghost added: seq<Event>)
    requires round == NoGos(KindsOf(before))
    requires Between(s0, StartOf(db, req, w, round, from), ev0, db.events, req.bl, from, before, req.maxIterations)
    modifies db, queue
    ensures r.Restart? ==> Between(s0, StartOf(db, req, w, round + 1, r.epoch), ev0, db.events, req.bl, r.epoch, added, req.maxIterations)
                           && round + 1 == NoGos(KindsOf(added))
                           && CountNoGo(old(db.events), req.bl) < CountNoGo(db.events, req.bl) <= req.maxIterations
                           && queue.rows == old(queue.rows)
    ensures !r.Restart? ==> Settles(s0, r, ev0, db.events, req.bl, from, added, Before(db, req.bl), req.maxIterations)
    ensures r.CapReached? ==> Escalated(db.statuses, req)
    ensures r.Continue? && MERGED !in KindsOf(Trace(ev0, req.bl, 0)) ==> AQ.Released(old(queue.rows), req.run, req.bl, req.manifest)
    ensures r.Awaiting? ==> Withheld(old(queue.rows), queue.rows, req)
  {
    ghost var ev, s, more := db.events, StartOf(db, req, w, round, from), [];
    r, pr, more := RunEpoch(db, queue, req, w, round, from, known, s);
    added := before + more;
    EpochStart(ev0, ev, req.bl, from, before, req.maxIterations);
    if r.Restart? {
      HandsOver(s0, s, ev0, ev, db.events, req.bl, from, r.epoch, before, more, StartOf(db, req, w, round + 1, r.epoch), req.maxIterations);
    } else {
      Closes(s0, s, ev0, ev, db.events, req.bl, from, r, before, more, Before(db, req.bl), req.maxIterations);
    }
  }

  /** `SequentialExecutor.execute`, from its first look at the journal. The epoch is forgotten
      between calls: every call starts from the whole journal of the item. */
  method Execute(db: StateDatabase, queue: AQ.Queue, req: Request, w: World)
    returns (outcome: Outcome, ghost epoch: nat, ghost added: seq<Event>)
    modifies db, queue
    ensures Bounded(old(db.events), db.events, req.bl, added, req.maxIterations)
    ensures outcome == Blocked ==> CountNoGo(db.events, req.bl) >= req.maxIterations && Escalated(db.statuses, req)
    ensures outcome == Merged ==> MergedInOrder(old(db.events), db.events, req.bl, epoch, added)
    ensures outcome == Merged && MERGED !in KindsOf(Trace(old(db.events), req.bl, 0)) ==>
              AQ.Released(old(queue.rows), req.run, req.bl, req.manifest)
    ensures outcome == AwaitingApproval ==> Withheld(old(queue.rows), queue.rows, req)
    ensures Arrives(old(StartOf(db, req, w, 0, 0)), outcome, KindsOf(added), Before(db, req.bl))
    ensures var s0, restarts := old(StartOf(db, req, w, 0, 0)), NoGos(KindsOf(added));
            && Answers(s0, outcome, restarts)
            && Vouches(Round(s0, restarts), if restarts > 0 then KindsOf(Trace(db.events, req.bl, epoch)) else KindsOf(added))
    ensures Vetted(Trace(old(db.events), req.bl, 0)) ==> Vetted(Trace(db.events, req.bl, 0))
  {
    var round, from, pr := 0, 0, None;
    added := [];
    ghost var ev0, s0 := db.events, StartOf(db, req, w, 0, 0);
    BeginsBetween(s0, ev0, req.bl, req.maxIterations);
    while true
      invariant round == NoGos(KindsOf(added))
      invariant Between(s0, StartOf(db, req, w, round, from), ev0, db.events, req.bl, from, added, req.maxIterations)
      invariant queue.rows == old(queue.rows)
      decreases req.maxIterations - CountNoGo(db.events, req.bl)
    {
      if pr.None? || pr == Some(0) {
        pr := FindOpenPr(Trace(db.events, req.bl, 0));
      }
      var r;
      r, pr, added := Correct(db, queue, req, w, round, from, pr, s0, ev0, added);
      if !r.Restart? {
        return OutcomeOf(r), from, added;
      }
      round, from := round + 1, r.epoch;
    }
  }
}
