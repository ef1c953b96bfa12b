/** What one correction epoch journals: a pass over the steps, each skipped when its entry is there. */
module Epochs {
  import opened Domain
  import opened StateStore
  import opened Journal
  import opened Steps

  /** WORKTREE_CREATED and PR_OPENED have been journaled at most once. */
  predicate OnceOnly(k: Kinds) {
    k[WORKTREE_CREATED] <= 1 && k[PR_OPENED] <= 1
  }

  /** No role, gate or merge has completed in this stretch. */
  predicate Clean(k: Kinds) {
    DEV_COMPLETED !in k && GATES_COMPLETED !in k && TESTER_COMPLETED !in k && REVIEWER_COMPLETED !in k && MERGED !in k
  }

  /** The completions due before the i-th step of the chain. */
  function Due(i: nat): seq<Step>
    requires i <= 8
  {
    if i <= 1 then [] else if i == 2 then [Dev] else if i == 3 then [Dev, Gates]
    else if i <= 6 then [Dev, Gates, Tester] else if i == 7 then [Dev, Gates, Tester, Reviewer]
    else [Dev, Gates, Tester, Reviewer, Merge]
  }

  /** The entry of no step from the i-th on. */
  predicate NoneAhead(i: nat, k: Kinds) {
    && (i <= 0 ==> WORKTREE_CREATED !in k) && (i <= 1 ==> DEV_COMPLETED !in k) && (i <= 2 ==> GATES_COMPLETED !in k)
    && (i <= 3 ==> TESTER_COMPLETED !in k) && (i <= 5 ==> PR_OPENED !in k) && (i <= 6 ==> REVIEWER_COMPLETED !in k)
    && (i <= 7 ==> MERGED !in k)
  }

  /** What any epoch has added before its i-th step. */
  predicate Plain(i: nat, c: seq<Step>, k: Kinds) {
    NoGos(k) == 0 && ISSUE_OPENED !in k && DevRuns(c) <= One(i > 1) && NoneAhead(i, k)
  }

  /** The entries an epoch holds before its i-th step, found or added. */
  predicate Passed(i: nat, k: Kinds) {
    && (i > 1 ==> DEV_COMPLETED in k) && (i > 2 ==> GATES_COMPLETED in k)
    && (i > 3 ==> TESTER_COMPLETED in k) && (i > 6 ==> REVIEWER_COMPLETED in k)
  }

  /** `base` is the trace the epoch began with, `k` and `c` what was added since. */
  predicate SoFar(i: nat, base: Kinds, c: seq<Step>, k: Kinds)
    requires i <= 8
  {
    && Plain(i, c, k)
    && (Clean(base) ==> c == Due(i))
    && (DEV_COMPLETED in base ==> DevRuns(c) == 0)
    && Passed(i, base + k)
  }

  lemma PlainRuns(i: nat, c: seq<Step>, k: Kinds, s: Step, c': seq<Step>, k': Kinds)
    requires i < 8 && s == STEP_ORDER[i] && Plain(i, c, k) && Progress(s, c', k')
    ensures Plain(i + 1, c + c', k + k')
  {
    assert multiset(c + c') == multiset(c) + multiset(c');
  }

  lemma DueRuns(i: nat, s: Step, c': seq<Step>, k': Kinds)
    requires i < 8 && s == STEP_ORDER[i] && Progress(s, c', k')
    ensures Due(i) + c' == Due(i + 1)
  {
  }

  lemma StepRuns(i: nat, base: Kinds, c: seq<Step>, k: Kinds, c': seq<Step>, k': Kinds)
    requires i < 8 && SoFar(i, base, c, k) && Progress(STEP_ORDER[i], c', k')
    requires DEV_COMPLETED in base ==> STEP_ORDER[i] != Dev
    ensures SoFar(i + 1, base, c + c', k + k')
  {
    assert multiset(c + c') == multiset(c) + multiset(c');
    PlainRuns(i, c, k, STEP_ORDER[i], c', k');
    DueRuns(i, STEP_ORDER[i], c', k');
  }

  /** A step is skipped when its entry is there; in a clean epoch only the unreported ones can be. */
  lemma StepSkipped(i: nat, base: Kinds, c: seq<Step>, k: Kinds, all: Kinds)
    requires i < 8 && SoFar(i, base, c, k) && IsCompleted(all, base + k, STEP_ORDER[i])
    ensures SoFar(i + 1, base, c, k)
  {
  }

  /** The epoch of `bl` that starts at `from` has come to its i-th step and journaled `added`. */
  ghost predicate Running(i: nat, ev0: seq<Event>, ev: seq<Event>, bl: string, from: nat, added: seq<Event>) {
    && i <= 8 && from <= |ev0|
    && Grew(ev0, ev, bl, added)
    && SoFar(i, KindsOf(Trace(ev0, bl, from)), Completions(added), KindsOf(added))
    && (OnceOnly(KindsOf(Trace(ev0, bl, 0))) ==> OnceOnly(KindsOf(Trace(ev, bl, 0))))
  }

  lemma EpochBegins(ev: seq<Event>, bl: string, from: nat)
    requires from <= |ev|
    ensures Running(0, ev, ev, bl, from, [])
  {
    GrewNothing(ev, bl);
  }

  lemma KindsGrew(ev: seq<Event>, ev': seq<Event>, bl: string, from: nat, added: seq<Event>)
    requires Grew(ev, ev', bl, added) && from <= |ev|
    ensures KindsOf(Trace(ev', bl, from)) == KindsOf(Trace(ev, bl, from)) + KindsOf(added)
  {
    KindsConcat(Trace(ev, bl, from), added);
  }

  /** A branch or a pull request is journaled only when the journal holds none. */
  lemma OnceOnlyStays(all: Kinds, after: Kinds, s: Step, c: seq<Step>, k: Kinds)
    requires OnceOnly(all) && !IsCompleted(all, after, s) && Progress(s, c, k)
    ensures OnceOnly(all + k)
  {
  }

  lemma AddedIsBehind(i: nat, all: Kinds, since: Kinds, k: Kinds)
    requires i < 8 && NoneAhead(i, k)
    ensures IsCompleted(all + k, since + k, STEP_ORDER[i]) <==> IsCompleted(all, since, STEP_ORDER[i])
  {
  }

  lemma EachIsListed(i: nat)
    requires i < 8
    ensures STEP_ORDER[i] in STEP_ORDER
  {
  }

  /** The executor reads what is completed again after every step. No step of the epoch adds the entry
      of a later one, so reading once, before the first, would give the same answer at each step. */
  lemma CompletedStays(i: nat, ev0: seq<Event>, ev: seq<Event>, bl: string, from: nat, added: seq<Event>)
    requires i < 8 && Running(i, ev0, ev, bl, from, added)
    ensures STEP_ORDER[i] in CompletedSteps(ev0, bl, from) <==> STEP_ORDER[i] in CompletedSteps(ev, bl, from)
  {
    var all, since, k := KindsOf(Trace(ev0, bl, 0)), KindsOf(Trace(ev0, bl, from)), KindsOf(added);
    KindsGrew(ev0, ev, bl, from, added);
    KindsGrew(ev0, ev, bl, 0, added);
    AddedIsBehind(i, all, since, k);
    EachIsListed(i);
  }

  lemma EpochSkips(i: nat, ev0: seq<Event>, ev: seq<Event>, bl: string, from: nat, added: seq<Event>)
    requires i < 8 && Running(i, ev0, ev, bl, from, added) && STEP_ORDER[i] in CompletedSteps(ev, bl, from)
    ensures Running(i + 1, ev0, ev, bl, from, added)
    ensures i == 7 ==> MERGED in KindsOf(Trace(ev0, bl, from))
  {
    KindsGrew(ev0, ev, bl, from, added);
    StepSkipped(i, KindsOf(Trace(ev0, bl, from)), Completions(added), KindsOf(added), KindsOf(Trace(ev, bl, 0)));
  }

  /** The DEV role is not run again in an epoch that holds its entry. */
  lemma DevNotRedone(ev0: seq<Event>, ev: seq<Event>, bl: string, from: nat, added: seq<Event>, s: Step)
    requires Grew(ev0, ev, bl, added) && from <= |ev0| && s in STEP_ORDER && s !in CompletedSteps(ev, bl, from)
    ensures DEV_COMPLETED in KindsOf(Trace(ev0, bl, from)) ==> s != Dev
  {
    KindsGrew(ev0, ev, bl, from, added);
  }

  lemma EpochSteps(i: nat, ev0: seq<Event>, ev: seq<Event>, ev': seq<Event>, bl: string, from: nat, added: seq<Event>, more: seq<Event>)
    requires i < 8 && Running(i, ev0, ev, bl, from, added) && STEP_ORDER[i] !in CompletedSteps(ev, bl, from)
    requires Grew(ev, ev', bl, more) && Progress(STEP_ORDER[i], Completions(more), KindsOf(more))
    ensures Running(i + 1, ev0, ev', bl, from, added + more)
  {
    GrewTransitive(ev0, ev, ev', bl, added, more);
    KindsConcat(added, more);
    CompletionsConcat(added, more);
    DevNotRedone(ev0, ev, bl, from, added, STEP_ORDER[i]);
    StepRuns(i, KindsOf(Trace(ev0, bl, from)), Completions(added), KindsOf(added), Completions(more), KindsOf(more));
    KindsGrew(ev, ev', bl, 0, more);
    if OnceOnly(KindsOf(Trace(ev0, bl, 0))) {
      OnceOnlyStays(KindsOf(Trace(ev, bl, 0)), KindsOf(Trace(ev, bl, from)), STEP_ORDER[i], Completions(more), KindsOf(more));
    }
  }

  /** 1 when the epoch that starts at `from` finds DEV completed already. */
  function DevDone(ev: seq<Event>, bl: string, from: nat): nat {
    One(DEV_COMPLETED in KindsOf(Trace(ev, bl, from)))
  }

  /** What an epoch has done to the item's journal when it ends with `r`. */
  ghost predicate Epoch(r: StepResult, ev0: seq<Event>, ev: seq<Event>, bl: string, from: nat, added: seq<Event>, max: int) {
    && from <= |ev0|
    && Grew(ev0, ev, bl, added)
    && (OnceOnly(KindsOf(Trace(ev0, bl, 0))) ==> OnceOnly(KindsOf(Trace(ev, bl, 0))))
    && DevRuns(Completions(added)) + DevDone(ev0, bl, from) <= 1
    && match r
       case Continue => Running(8, ev0, ev, bl, from, added)
       case Restart(marker) =>
         && CountNoGo(ev0, bl) < max && NoGos(KindsOf(added)) == 1
         && marker <= |ev| && IsCorrection(Trace(ev, bl, marker))
         && DEV_COMPLETED in KindsOf(Trace(ev, bl, 0)) && GATES_COMPLETED in KindsOf(Trace(ev, bl, 0))
       case CapReached => CountNoGo(ev0, bl) >= max && NoGos(KindsOf(added)) == 0
       case _ => NoGos(KindsOf(added)) == 0
  }

  lemma CorrectionIsOneNoGo(t: seq<Event>)
    requires IsCorrection(t)
    ensures Completions(t) == [] && NoGos(KindsOf(t)) == 1 && Clean(KindsOf(t))
    ensures WORKTREE_CREATED !in KindsOf(t) && PR_OPENED !in KindsOf(t)
  {
    CorrectionReads(t);
  }

  /** The step that ends an epoch early adds a verdict only when it opens the next. */
  lemma LastStepReads(s: Step, r: StepResult, more: seq<Event>, noGo: nat, max: int)
    requires Effect(s, r, more, noGo, max) && !r.Continue?
    ensures NoGos(KindsOf(more)) == One(r.Restart?)
    ensures WORKTREE_CREATED !in KindsOf(more) && PR_OPENED !in KindsOf(more)
    ensures DevRuns(Completions(more)) <= One(s == Dev)
  {
    if r.Restart? { CorrectionIsOneNoGo(more); }
    if r.CapReached? { EscalationReads(more); }
  }

  lemma CountsEnd(i: nat, r: StepResult, c: seq<Step>, k: Kinds, c': seq<Step>, k': Kinds, devDone: bool)
    requires i < 8 && Plain(i, c, k) && NoGos(k') == One(r.Restart?) && DevRuns(c') <= One(STEP_ORDER[i] == Dev)
    requires devDone ==> DevRuns(c) == 0 && STEP_ORDER[i] != Dev
    ensures NoGos(k + k') == One(r.Restart?) && DevRuns(c + c') + One(devDone) <= 1
  {
    assert multiset(c + c') == multiset(c) + multiset(c');
  }

  /** No step of the running epoch has added a verdict yet. */
  lemma NoVerdictYet(i: nat, ev0: seq<Event>, ev: seq<Event>, bl: string, from: nat, added: seq<Event>)
    requires Running(i, ev0, ev, bl, from, added)
    ensures Plain(i, Completions(added), KindsOf(added)) && CountNoGo(ev, bl) == CountNoGo(ev0, bl)
    ensures DEV_COMPLETED in KindsOf(Trace(ev0, bl, from)) ==> DevRuns(Completions(added)) == 0
    ensures Passed(i, KindsOf(Trace(ev, bl, from)))
  {
    KindsGrew(ev0, ev, bl, 0, added);
    KindsGrew(ev0, ev, bl, from, added);
  }

  lemma NoBranchAdded(ev: seq<Event>, ev': seq<Event>, bl: string, more: seq<Event>)
    requires Grew(ev, ev', bl, more) && WORKTREE_CREATED !in KindsOf(more) && PR_OPENED !in KindsOf(more)
    ensures OnceOnly(KindsOf(Trace(ev', bl, 0))) == OnceOnly(KindsOf(Trace(ev, bl, 0)))
  {
    KindsGrew(ev, ev', bl, 0, more);
  }

  /** What an epoch holds, the whole journal holds. */
  lemma SinceIsPart(ev: seq<Event>, bl: string, from: nat)
    requires from <= |ev|
    ensures KindsOf(Trace(ev, bl, from)) <= KindsOf(Trace(ev, bl, 0))
    ensures forall k :: k in KindsOf(Trace(ev, bl, from)) ==> k in KindsOf(Trace(ev, bl, 0))
  {
    TraceSplits(ev, bl, from);
    KindsConcat(Trace(ev[..from], bl, 0), Trace(ev, bl, from));
  }

  lemma JudgesComeLate(i: nat, k: Kinds)
    requires i < 8 && Judges(STEP_ORDER[i]) && Passed(i, k)
    ensures DEV_COMPLETED in k && GATES_COMPLETED in k
  {
  }

  /** The roles judge only after DEV and the gates have left their entries. */
  lemma JudgedWork(i: nat, ev: seq<Event>, ev': seq<Event>, bl: string, from: nat, more: seq<Event>)
    requires i < 8 && Judges(STEP_ORDER[i]) && from <= |ev|
    requires Passed(i, KindsOf(Trace(ev, bl, from))) && Grew(ev, ev', bl, more)
    ensures DEV_COMPLETED in KindsOf(Trace(ev', bl, 0)) && GATES_COMPLETED in KindsOf(Trace(ev', bl, 0))
  {
    JudgesComeLate(i, KindsOf(Trace(ev, bl, from)));
    SinceIsPart(ev, bl, from);
    KindsGrew(ev, ev', bl, 0, more);
  }

  lemma EpochStops(i: nat, r: StepResult, ev0: seq<Event>, ev: seq<Event>, ev': seq<Event>, bl: string, from: nat,
                   added: seq<Event>, more: seq<Event>, max: int)
    requires i < 8 && from <= |ev0| && Grew(ev0, ev, bl, added) && Plain(i, Completions(added), KindsOf(added))
    requires DEV_COMPLETED in KindsOf(Trace(ev0, bl, from)) ==> DevRuns(Completions(added)) == 0 && STEP_ORDER[i] != Dev
    requires OnceOnly(KindsOf(Trace(ev0, bl, 0))) ==> OnceOnly(KindsOf(Trace(ev, bl, 0)))
    requires Grew(ev, ev', bl, more) && Effect(STEP_ORDER[i], r, more, CountNoGo(ev0, bl), max)
    requires r.Restart? ==> DEV_COMPLETED in KindsOf(Trace(ev', bl, 0)) && GATES_COMPLETED in KindsOf(Trace(ev', bl, 0))
    requires !r.Continue? && (r.Restart? ==> r.epoch <= |ev'| && Trace(ev', bl, r.epoch) == more)
    ensures Epoch(r, ev0, ev', bl, from, added + more, max)
  {
    LastStepReads(STEP_ORDER[i], r, more, CountNoGo(ev0, bl), max);
    GrewTransitive(ev0, ev, ev', bl, added, more);
    KindsConcat(added, more);
    CompletionsConcat(added, more);
    CountsEnd(i, r, Completions(added), KindsOf(added), Completions(more), KindsOf(more), DEV_COMPLETED in KindsOf(Trace(ev0, bl, from)));
    NoBranchAdded(ev, ev', bl, more);
  }

  lemma EpochCompletes(ev0: seq<Event>, ev: seq<Event>, bl: string, from: nat, added: seq<Event>, max: int)
    requires Running(8, ev0, ev, bl, from, added)
    ensures Epoch(Continue, ev0, ev, bl, from, added, max)
  {
  }
}
