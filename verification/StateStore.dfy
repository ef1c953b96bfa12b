/** The run's state: a status per backlog item and an append-only journal, changed together by
    the item state machine. An event's identifier is its position in the journal. */
module StateStore {
  import opened Domain

  datatype EventKind =
    | WORKTREE_CREATED | DEV_COMPLETED | GATES_COMPLETED | TESTER_COMPLETED | REVIEWER_COMPLETED
    | PR_OPENED | ISSUE_OPENED | MERGED | ESCALATED
    | TEST_GO | REVIEW_GO | TEST_NO_GO | REVIEW_NO_GO | BL_ASSIGNED | BL_BLOCKED | BL_STATUS_CHANGED | ROLLED_BACK
    | TAGGED | RELEASED

  datatype Actor = EXECUTOR | DEV | GATE | TESTER | REVIEWER | INTEGRATOR | RELEASE

  /** `number` is the pull request number a PR_OPENED entry carries, when it could be parsed. */
  datatype Event = Event(bl: string, kind: EventKind, actor: Actor, number: Option<int> := None)

  // ----- the state machine -----

  function LegalTargets(s: Status): set<Status> {
    match s
    case TODO => {READY, IN_PROGRESS, BLOCKED}
    case READY => {IN_PROGRESS, BLOCKED, TODO}
    case IN_PROGRESS => {IN_TEST, BLOCKED}
    case IN_TEST => {IN_REVIEW, IN_PROGRESS, BLOCKED}
    case IN_REVIEW => {DONE, IN_PROGRESS, BLOCKED}
    case BLOCKED => {IN_PROGRESS}
    case DONE => {}
  }

  predicate UnderJudgement(s: Status) {
    s == IN_TEST || s == IN_REVIEW
  }

  /** `noGo` and `reopen` mark the two privileged kinds of request. */
  predicate CanTransition(current: Status, target: Status, noGo: bool, reopen: bool) {
    if reopen then current == DONE && target in {IN_PROGRESS, TODO, BLOCKED}
    else if target !in LegalTargets(current) then false
    else if noGo then UnderJudgement(current) && target == IN_PROGRESS
    else !(target == IN_PROGRESS && UnderJudgement(current))
  }

  function TransitionEvent(current: Status, target: Status, noGo: bool, reopen: bool): EventKind {
    if reopen && current == DONE then ROLLED_BACK
    else if target == BLOCKED then BL_BLOCKED
    else if noGo && current == IN_TEST then TEST_NO_GO
    else if noGo && current == IN_REVIEW then REVIEW_NO_GO
    else if target == IN_REVIEW then TEST_GO
    else if target == DONE then MERGED
    else if target == IN_PROGRESS && (current == TODO || current == READY) then BL_ASSIGNED
    else if target == IN_TEST then DEV_COMPLETED
    else BL_STATUS_CHANGED
  }

  predicate IsNoGo(k: EventKind) {
    k == TEST_NO_GO || k == REVIEW_NO_GO
  }

  /** The legal moves, by where they lead. */
  lemma LegalMoves(current: Status, target: Status, noGo: bool, reopen: bool)
    ensures CanTransition(current, target, noGo, reopen) <==>
            if reopen then current == DONE && (target == IN_PROGRESS || target == TODO || target == BLOCKED)
            else if noGo then (current == IN_TEST || current == IN_REVIEW) && target == IN_PROGRESS
            else match target
              case BLOCKED => current != BLOCKED && current != DONE
              case IN_PROGRESS => current == TODO || current == READY || current == BLOCKED
              case READY => current == TODO
              case TODO => current == READY
              case IN_TEST => current == IN_PROGRESS
              case IN_REVIEW => current == IN_TEST
              case DONE => current == IN_REVIEW
  {
  }

  /** The journal alone tells the judged returns apart: an item goes back from test or review to
      IN_PROGRESS exactly by the transitions that journal a NO-GO, a DONE item moves exactly by
      those that journal ROLLED_BACK, and DONE is entered exactly by those that journal MERGED. */
  lemma JournalTellsTransitions(current: Status, target: Status, noGo: bool, reopen: bool)
    requires CanTransition(current, target, noGo, reopen)
    ensures IsNoGo(TransitionEvent(current, target, noGo, reopen)) <==> UnderJudgement(current) && target == IN_PROGRESS
    ensures TransitionEvent(current, target, noGo, reopen) == ROLLED_BACK <==> current == DONE
    ensures TransitionEvent(current, target, noGo, reopen) == MERGED <==> target == DONE
    ensures TransitionEvent(current, target, noGo, reopen) == TEST_NO_GO <==> current == IN_TEST && target == IN_PROGRESS
    ensures TransitionEvent(current, target, noGo, reopen) == BL_BLOCKED <==> target == BLOCKED && current != DONE
    ensures TransitionEvent(current, target, noGo, reopen) == DEV_COMPLETED <==> target == IN_TEST
    ensures TransitionEvent(current, target, noGo, reopen) == TEST_GO <==> target == IN_REVIEW
    ensures TransitionEvent(current, target, noGo, reopen) == BL_ASSIGNED <==> target == IN_PROGRESS && (current == TODO || current == READY)
  {
  }

  class StateDatabase {
    var statuses: StatusMap
    var events: seq<Event>

    constructor (statuses: StatusMap)
      ensures this.statuses == statuses && events == []
    {
      this.statuses := statuses;
      events := [];
    }

    method Append(e: Event) returns (id: nat)
      modifies this`events
      ensures events == old(events) + [e] && id == |old(events)|
    {
      id := |events|;
      events := events + [e];
    }

    /** Applies a legal transition and journals it; anything else changes nothing. */
    method Transition(bl: string, target: Status, actor: Actor, noGo: bool, reopen: bool) returns (ok: bool)
      modifies this
      ensures ok <==> bl in old(statuses) && CanTransition(old(statuses)[bl], target, noGo, reopen)
      ensures ok ==> statuses == old(statuses)[bl := target]
                     && events == old(events) + [Event(bl, TransitionEvent(old(statuses)[bl], target, noGo, reopen), actor)]
      ensures !ok ==> statuses == old(statuses) && events == old(events)
    {
      if bl !in statuses || !CanTransition(statuses[bl], target, noGo, reopen) {
        return false;
      }
      var kind := TransitionEvent(statuses[bl], target, noGo, reopen);
      statuses := statuses[bl := target];
      events := events + [Event(bl, kind, actor)];
      return true;
    }
  }
}
