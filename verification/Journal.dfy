/** How the executor reads its progress back from the journal. */
module Journal {
  import opened Domain
  import opened StateStore

  datatype Step = Branch | Dev | Gates | Tester | Push | PrOpen | Reviewer | Merge

  const STEP_ORDER: seq<Step> := [Branch, Dev, Gates, Tester, Push, PrOpen, Reviewer, Merge]

  /** The item's events from position `from` on (`_events_for_bl_after_epoch`). */
  function Trace(events: seq<Event>, bl: string, from: nat): seq<Event> {
    if |events| <= from then [] else
      var init := Trace(events[..|events|-1], bl, from);
      if events[|events|-1].bl == bl then init + [events[|events|-1]] else init
  }

  /** The completion an entry reports. The state machine journals its own DEV_COMPLETED beside the
      executor's; only the executor's counts as a run of the role. */
  function Completion(e: Event): Option<Step> {
    match e.kind
    case DEV_COMPLETED => if e.actor == EXECUTOR then Some(Dev) else None
    case GATES_COMPLETED => Some(Gates)
    case TESTER_COMPLETED => Some(Tester)
    case REVIEWER_COMPLETED => Some(Reviewer)
    case MERGED => Some(Merge)
    case _ => None
  }

  /** The completions a stretch of trace reports, in order. */
  function Completions(t: seq<Event>): seq<Step> {
    if t == [] then [] else
      var init := Completions(t[..|t|-1]);
      if Completion(t[|t|-1]).Some? then init + [Completion(t[|t|-1]).value] else init
  }

  type Kinds = multiset<EventKind>

  /** The event types of a stretch of trace, with their multiplicities. */
  function KindsOf(t: seq<Event>): Kinds {
    if t == [] then multiset{} else KindsOf(t[..|t|-1]) + multiset{t[|t|-1].kind}
  }

  function NoGos(k: Kinds): nat {
    k[TEST_NO_GO] + k[REVIEW_NO_GO]
  }

  /** A step counts as done once its entry lies in the current epoch; the branch and the pull
      request outlive epochs, and an opened pull request counts as pushed only in its own. */
  predicate IsCompleted(all: Kinds, after: Kinds, s: Step) {
    match s
    case Branch => WORKTREE_CREATED in all
    case Dev => DEV_COMPLETED in after
    case Gates => GATES_COMPLETED in after
    case Tester => TESTER_COMPLETED in after
    case Push => PR_OPENED in after
    case PrOpen => PR_OPENED in all
    case Reviewer => REVIEWER_COMPLETED in after
    case Merge => MERGED in after
  }

  function CompletedSteps(events: seq<Event>, bl: string, from: nat): set<Step> {
    set s | s in STEP_ORDER && IsCompleted(KindsOf(Trace(events, bl, 0)), KindsOf(Trace(events, bl, from)), s)
  }

  /** `_count_no_go_events` */
  function CountNoGo(events: seq<Event>, bl: string): nat {
    NoGos(KindsOf(Trace(events, bl, 0)))
  }

  // ----- growth -----

  /** Events appended from one state to another add exactly `added` to the item's trace. */
  ghost predicate Grew(ev: seq<Event>, ev': seq<Event>, bl: string, added: seq<Event>) {
    |ev| <= |ev'| && forall f: nat :: f <= |ev| ==> Trace(ev', bl, f) == Trace(ev, bl, f) + added
  }

  lemma GrewNothing(ev: seq<Event>, bl: string)
    ensures Grew(ev, ev, bl, [])
  {
    forall f: nat | f <= |ev| ensures Trace(ev, bl, f) == Trace(ev, bl, f) + [] {
    }
  }

  lemma TraceAppend(ev: seq<Event>, e: Event, bl: string, from: nat)
    requires from <= |ev|
    ensures Trace(ev + [e], bl, from) == if e.bl == bl then Trace(ev, bl, from) + [e] else Trace(ev, bl, from)
  {
    assert (ev + [e])[..|ev|] == ev;
  }

  /** A trace from beyond the end is empty, so what grows from there is what was added. */
  lemma {:induction false} TraceOfNothing(ev: seq<Event>, bl: string)
    ensures Trace(ev, bl, |ev|) == []
  {
  }

  lemma GrewOwn(ev: seq<Event>, ev': seq<Event>, bl: string, added: seq<Event>, e: Event)
    requires Grew(ev, ev', bl, added) && e.bl == bl
    ensures Grew(ev, ev' + [e], bl, added + [e])
  {
    forall f: nat | f <= |ev| ensures Trace(ev' + [e], bl, f) == Trace(ev, bl, f) + (added + [e]) {
      TraceAppend(ev', e, bl, f);
    }
  }

  lemma {:induction false} GrewOthers(ev: seq<Event>, extra: seq<Event>, bl: string)
    requires forall i :: 0 <= i < |extra| ==> extra[i].bl != bl
    ensures Grew(ev, ev + extra, bl, [])
    decreases |extra|
  {
    if extra == [] {
      assert ev + extra == ev;
      GrewNothing(ev, bl);
    } else {
      var init, last := extra[..|extra|-1], extra[|extra|-1];
      GrewOthers(ev, init, bl);
      assert ev + extra == ev + init + [last];
      forall f: nat | f <= |ev| ensures Trace(ev + extra, bl, f) == Trace(ev, bl, f) + [] {
        TraceAppend(ev + init, last, bl, f);
      }
    }
  }

  lemma GrewTransitive(a: seq<Event>, b: seq<Event>, c: seq<Event>, bl: string, x: seq<Event>, y: seq<Event>)
    requires Grew(a, b, bl, x) && Grew(b, c, bl, y)
    ensures Grew(a, c, bl, x + y)
  {
    forall f: nat | f <= |a| ensures Trace(c, bl, f) == Trace(a, bl, f) + (x + y) {
      assert Trace(c, bl, f) == Trace(b, bl, f) + y;
    }
  }

  /** What the item's journal holds is what it held before a position and what it holds from there. */
  lemma {:induction false} TraceSplits(ev: seq<Event>, bl: string, m: nat)
    requires m <= |ev|
    ensures Trace(ev, bl, 0) == Trace(ev[..m], bl, 0) + Trace(ev, bl, m)
    decreases |ev|
  {
    if m == |ev| {
      assert ev[..m] == ev;
      TraceOfNothing(ev, bl);
    } else {
      var init, e := ev[..|ev|-1], ev[|ev|-1];
      assert init[..m] == ev[..m] && ev == init + [e];
      TraceSplits(init, bl, m);
      TraceAppend(init, e, bl, 0);
      TraceAppend(init, e, bl, m);
    }
  }

  // ----- reading a concatenation -----

  lemma {:induction false} KindsConcat(t: seq<Event>, u: seq<Event>)
    ensures KindsOf(t + u) == KindsOf(t) + KindsOf(u)
    decreases |u|
  {
    if u == [] {
      assert t + u == t;
    } else {
      assert (t + u)[..|t + u|-1] == t + u[..|u|-1];
      KindsConcat(t, u[..|u|-1]);
    }
  }

  lemma {:induction false} CompletionsConcat(t: seq<Event>, u: seq<Event>)
    ensures Completions(t + u) == Completions(t) + Completions(u)
    decreases |u|
  {
    if u == [] {
      assert t + u == t;
    } else {
      assert (t + u)[..|t + u|-1] == t + u[..|u|-1];
      CompletionsConcat(t, u[..|u|-1]);
    }
  }

  function Reported(e: Event): seq<Step> {
    if Completion(e).Some? then [Completion(e).value] else []
  }

  lemma ReadOne(e: Event)
    ensures KindsOf([e]) == multiset{e.kind} && Completions([e]) == Reported(e)
  {
    assert [e][..0] == [];
  }

  lemma ReadTwo(e: Event, f: Event)
    ensures KindsOf([e, f]) == multiset{e.kind, f.kind} && Completions([e, f]) == Reported(e) + Reported(f)
  {
    assert [e, f][..1] == [e];
    ReadOne(e);
  }

  lemma ReadThree(e: Event, f: Event, g: Event)
    ensures KindsOf([e, f, g]) == multiset{e.kind, f.kind, g.kind}
    ensures Completions([e, f, g]) == Reported(e) + Reported(f) + Reported(g)
  {
    assert [e, f, g][..2] == [e, f];
    ReadTwo(e, f);
  }

  /** The multiset of kinds answers the membership questions the source asks of its set. */
  lemma {:induction false} KindsMeanMembership(t: seq<Event>, k: EventKind)
    ensures k in KindsOf(t) <==> exists e :: e in t && e.kind == k
    decreases |t|
  {
    if t != [] {
      var init, last := t[..|t|-1], t[|t|-1];
      KindsMeanMembership(init, k);
      assert forall e :: e in t <==> e in init || e == last;
    }
  }

  // ----- what may follow what -----

  /** No verdict is a NO-GO once a review was passed, a merge follows a passed review, and a review
      follows a passed test. */
  predicate MayFollow(k: Kinds, e: EventKind) {
    && (IsNoGo(e) ==> REVIEWER_COMPLETED !in k)
    && (e == MERGED ==> REVIEWER_COMPLETED in k)
    && (e == REVIEWER_COMPLETED ==> TESTER_COMPLETED in k)
  }

  predicate AllowedAt(t: seq<Event>, i: nat)
    requires i < |t|
  {
    MayFollow(KindsOf(t[..i]), t[i].kind)
  }

  predicate Vetted(t: seq<Event>) {
    forall i :: 0 <= i < |t| ==> AllowedAt(t, i)
  }

  /** Entries that may be added together. */
  predicate MayAdd(k: Kinds, more: Kinds) {
    && (NoGos(more) > 0 ==> REVIEWER_COMPLETED !in k && REVIEWER_COMPLETED !in more)
    && (MERGED in more ==> REVIEWER_COMPLETED in k)
    && (REVIEWER_COMPLETED in more ==> TESTER_COMPLETED in k)
  }

  lemma AddsOne(k: Kinds, more: Kinds, init: Kinds, e: EventKind)
    requires MayAdd(k, more) && init + multiset{e} <= more
    ensures MayFollow(k + init, e)
  {
    assert e in more;
    assert forall x :: x in init ==> x in more;
  }

  lemma ReadUpTo(t: seq<Event>, i: nat)
    requires i < |t|
    ensures KindsOf(t[..i]) + multiset{t[i].kind} <= KindsOf(t)
  {
    assert t == t[..i] + ([t[i]] + t[i+1..]);
    KindsConcat(t[..i], [t[i]] + t[i+1..]);
    KindsConcat([t[i]], t[i+1..]);
    ReadOne(t[i]);
  }

  lemma AllowedInConcat(t: seq<Event>, x: seq<Event>, i: nat)
    requires MayAdd(KindsOf(t), KindsOf(x)) && i < |x|
    ensures AllowedAt(t + x, |t| + i)
  {
    assert (t + x)[..|t| + i] == t + x[..i];
    KindsConcat(t, x[..i]);
    ReadUpTo(x, i);
    AddsOne(KindsOf(t), KindsOf(x), KindsOf(x[..i]), x[i].kind);
  }

  lemma AllowedInPrefix(t: seq<Event>, x: seq<Event>, i: nat)
    requires i < |t|
    ensures AllowedAt(t + x, i) <==> AllowedAt(t, i)
  {
    assert (t + x)[..i] == t[..i];
  }

  lemma VettedConcat(t: seq<Event>, x: seq<Event>)
    requires Vetted(t) && MayAdd(KindsOf(t), KindsOf(x))
    ensures Vetted(t + x)
  {
    forall i | 0 <= i < |t + x| ensures AllowedAt(t + x, i) {
      if i < |t| {
        AllowedInPrefix(t, x, i);
      } else {
        AllowedInConcat(t, x, i - |t|);
      }
    }
  }

  lemma VettedPrefix(t: seq<Event>, x: seq<Event>)
    requires Vetted(t + x)
    ensures Vetted(t)
  {
    forall i | 0 <= i < |t| ensures AllowedAt(t, i) {
      AllowedInPrefix(t, x, i);
    }
  }

  lemma EntryBefore(t: seq<Event>, j: nat, k: EventKind) returns (i: nat)
    requires Vetted(t) && j < |t|
    requires (t[j].kind == MERGED && k == REVIEWER_COMPLETED) || (t[j].kind == REVIEWER_COMPLETED && k == TESTER_COMPLETED)
    ensures i < j && t[i].kind == k
  {
    assert AllowedAt(t, j);
    KindsMeanMembership(t[..j], k);
    var e :| e in t[..j] && e.kind == k;
    i :| 0 <= i < j && t[..j][i] == e;
  }

  lemma NoVerdictAfter(t: seq<Event>, i: nat, l: nat)
    requires Vetted(t) && i < l < |t| && t[i].kind == REVIEWER_COMPLETED
    ensures !IsNoGo(t[l].kind)
  {
    assert AllowedAt(t, l);
    assert t[..l][i] == t[i];
    KindsMeanMembership(t[..l], REVIEWER_COMPLETED);
  }

  /** In a vetted trace every merge comes after a passed review that no NO-GO follows, and that
      review after a passed test. */
  lemma MergesFollowReviews(t: seq<Event>, j: nat)
    requires Vetted(t) && j < |t| && t[j].kind == MERGED
    ensures exists h, i :: 0 <= h < i < j && t[h].kind == TESTER_COMPLETED && t[i].kind == REVIEWER_COMPLETED
                           && forall l :: i < l < |t| ==> !IsNoGo(t[l].kind)
  {
    var i := EntryBefore(t, j, REVIEWER_COMPLETED);
    var h := EntryBefore(t, i, TESTER_COMPLETED);
    forall l | i < l < |t| ensures !IsNoGo(t[l].kind) {
      NoVerdictAfter(t, i, l);
    }
  }
}
