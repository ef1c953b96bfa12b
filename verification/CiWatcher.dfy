/** Waiting for the checks of a pull request: their classification, and the watch that reruns
    workflows on infrastructure failures and gives up on a timeout. */
module CiWatcher {
  import Domain

  type Option<+T> = Domain.Option<T>

  datatype CheckStatus = QUEUED | RUNNING | COMPLETED

  datatype Conclusion =
    | SUCCESS | FAILURE | ABORTED | TIMED_OUT | ACTION_REQUIRED | STARTUP_FAILURE | STALE | NEUTRAL | SKIPPED | NO_CONCLUSION

  datatype Outcome = PENDING | PASSED | TEST_FAILURE | INFRA_FAILURE | CANCELLED | TIMEOUT

  datatype CheckRun = CheckRun(name: string, status: CheckStatus, conclusion: Conclusion)

  // ----- classification -----

  function ClassifyConclusion(c: Conclusion): Outcome {
    match c
    case SUCCESS => PASSED
    case NEUTRAL => PASSED
    case SKIPPED => PASSED
    case FAILURE => TEST_FAILURE
    case ACTION_REQUIRED => TEST_FAILURE
    case ABORTED => CANCELLED
    case TIMED_OUT => TIMEOUT
    case _ => INFRA_FAILURE
  }

  predicate Passing(c: Conclusion) {
    c == SUCCESS || c == NEUTRAL || c == SKIPPED
  }

  function Outcomes(checks: seq<CheckRun>): set<Outcome> {
    set c | c in checks && c.status == COMPLETED :: ClassifyConclusion(c.conclusion)
  }

  predicate AllCompleted(checks: seq<CheckRun>) {
    forall c :: c in checks ==> c.status == COMPLETED
  }

  /** A test failure decides at once; running checks keep the rest pending; then the worst wins. */
  function ClassifyChecks(checks: seq<CheckRun>): Outcome {
    if checks == [] then PENDING
    else
      var outcomes := Outcomes(checks);
      if TEST_FAILURE in outcomes then TEST_FAILURE
      else if !AllCompleted(checks) then PENDING
      else if TIMEOUT in outcomes then TIMEOUT
      else if CANCELLED in outcomes then CANCELLED
      else if INFRA_FAILURE in outcomes then INFRA_FAILURE
      else PASSED
  }

  function FailedCheckNames(checks: seq<CheckRun>): seq<string> {
    if checks == [] then [] else
      var init, last := FailedCheckNames(checks[..|checks|-1]), checks[|checks|-1];
      if last.status == COMPLETED && !Passing(last.conclusion) then init + [last.name] else init
  }

  function Severity(o: Outcome): nat {
    match o
    case PASSED => 0 case INFRA_FAILURE => 1 case CANCELLED => 2 case TIMEOUT => 3 case PENDING => 4 case TEST_FAILURE => 5
  }

  function Worse(a: Outcome, b: Outcome): Outcome {
    if Severity(a) < Severity(b) then b else a
  }

  /** What a single check makes of the outcome; running checks are pending. */
  function ClassifyOne(c: CheckRun): Outcome {
    if c.status == COMPLETED then ClassifyConclusion(c.conclusion) else PENDING
  }

  /** The class of several checks is the worst class of any of them. */
  lemma ClassIsTheWorst(checks: seq<CheckRun>)
    requires checks != []
    ensures exists c :: c in checks && ClassifyOne(c) == ClassifyChecks(checks)
    ensures forall c :: c in checks ==> Severity(ClassifyOne(c)) <= Severity(ClassifyChecks(checks))
  {
    var o := ClassifyChecks(checks);
    forall c | c in checks && c.status == COMPLETED ensures ClassifyConclusion(c.conclusion) in Outcomes(checks) {
    }
    if o == PENDING {
      var c :| c in checks && c.status != COMPLETED;
      assert ClassifyOne(c) == o;
    } else if o == PASSED {
      assert checks[0] in checks;
      assert ClassifyOne(checks[0]) == o;
    } else {
      assert o in Outcomes(checks);
      var c :| c in checks && c.status == COMPLETED && ClassifyConclusion(c.conclusion) == o;
      assert ClassifyOne(c) == o;
    }
  }

  lemma SeverityIsInjective(a: Outcome, b: Outcome)
    requires Severity(a) == Severity(b)
    ensures a == b
  {
  }

  /** Watching two sets of checks together gives the worse of their classes. */
  lemma ClassifyConcat(a: seq<CheckRun>, b: seq<CheckRun>)
    requires a != [] && b != []
    ensures ClassifyChecks(a + b) == Worse(ClassifyChecks(a), ClassifyChecks(b))
  {
    ClassIsTheWorst(a);
    ClassIsTheWorst(b);
    ClassIsTheWorst(a + b);
    assert forall c :: c in a || c in b ==> c in a + b;
    var c :| c in a + b && ClassifyOne(c) == ClassifyChecks(a + b);
    assert c in a || c in b;
    SeverityIsInjective(ClassifyChecks(a + b), Worse(ClassifyChecks(a), ClassifyChecks(b)));
  }

  ghost predicate SomeConcluded(checks: seq<CheckRun>, conclusions: set<Conclusion>) {
    exists c :: c in checks && c.status == COMPLETED && c.conclusion in conclusions
  }

  ghost predicate SomeRunning(checks: seq<CheckRun>) {
    exists c :: c in checks && c.status != COMPLETED
  }

  lemma OutcomesAre(checks: seq<CheckRun>)
    ensures TEST_FAILURE in Outcomes(checks) <==> SomeConcluded(checks, {FAILURE, ACTION_REQUIRED})
    ensures TIMEOUT in Outcomes(checks) <==> SomeConcluded(checks, {TIMED_OUT})
    ensures CANCELLED in Outcomes(checks) <==> SomeConcluded(checks, {ABORTED})
    ensures INFRA_FAILURE in Outcomes(checks) <==> SomeConcluded(checks, {STARTUP_FAILURE, STALE, NO_CONCLUSION})
  {
  }

  /** The class of a run, by the conclusions it holds: a failed check decides at once; then a running
      one keeps it pending; then a check that timed out, was aborted or never ran decides, in this order. */
  lemma ClassByConclusions(checks: seq<CheckRun>)
    ensures var failed, running := SomeConcluded(checks, {FAILURE, ACTION_REQUIRED}), SomeRunning(checks);
            var late, aborted := SomeConcluded(checks, {TIMED_OUT}), SomeConcluded(checks, {ABORTED});
            var broken := SomeConcluded(checks, {STARTUP_FAILURE, STALE, NO_CONCLUSION});
            ClassifyChecks(checks) ==
            if failed then TEST_FAILURE else if checks == [] || running then PENDING
            else if late then TIMEOUT else if aborted then CANCELLED else if broken then INFRA_FAILURE else PASSED
  {
    OutcomesAre(checks);
  }

  lemma {:induction false} NamesOfFailures(checks: seq<CheckRun>)
    ensures FailedCheckNames(checks) == [] <==> forall c :: c in checks && c.status == COMPLETED ==> Passing(c.conclusion)
    decreases |checks|
  {
    if checks != [] {
      NamesOfFailures(checks[..|checks|-1]);
      assert forall c :: c in checks <==> c in checks[..|checks|-1] || c == checks[|checks|-1];
    }
  }

  /** PASSED means checks were there, all completed and passing; the failed names are empty in
      that case, and never for a test failure. */
  lemma PassedMeansAllPassing(checks: seq<CheckRun>)
    ensures ClassifyChecks(checks) == PASSED <==>
            checks != [] && forall c :: c in checks ==> c.status == COMPLETED && Passing(c.conclusion)
    ensures ClassifyChecks(checks) == PASSED ==> FailedCheckNames(checks) == []
    ensures ClassifyChecks(checks) == TEST_FAILURE ==> FailedCheckNames(checks) != []
  {
    NamesOfFailures(checks);
    if checks != [] {
      ClassIsTheWorst(checks);
      if ClassifyChecks(checks) == PASSED {
        forall c | c in checks ensures c.status == COMPLETED && Passing(c.conclusion) {
          assert Severity(ClassifyOne(c)) == 0;
        }
      } else {
        var c :| c in checks && ClassifyOne(c) == ClassifyChecks(checks);
        assert !(c.status == COMPLETED && Passing(c.conclusion));
      }
    }
  }

  // ----- the watch -----

  /** Times are counted in ticks of the clock. */
  datatype Config = Config(timeout: int, maxApiRetries: int, maxInfraRetries: int)

  datatype Poll = Unavailable | Snapshot(checks: seq<CheckRun>)

  datatype ErrorClass = FORGE_ERROR | PROJECT_ERROR

  datatype CiEvent =
    | CI_PASSED(checks: seq<CheckRun>)
    | CI_FAILED(outcome: Outcome, errorClass: ErrorClass, paused: bool, hasLogs: bool, failed: seq<string>)
    | CI_INFRA_RETRY(attempt: nat, failed: seq<string>)

  datatype WatchResult = WatchResult(
    outcome: Outcome,
    checks: seq<CheckRun>,
    infraRetries: nat,
    paused: bool,
    timedOut: bool,
    failedChecks: seq<string>,
    failedLogs: Option<string>)

  // What the first `i` polls amount to.

  /** Consecutive unavailable polls just before the i-th. */
  function ApiFailures(poll: nat -> Poll, i: nat): nat {
    if i > 0 && poll(i - 1).Unavailable? then ApiFailures(poll, i - 1) + 1 else 0
  }

  predicate IsInfra(p: Poll) {
    p.Snapshot? && ClassifyChecks(p.checks) == INFRA_FAILURE
  }

  function InfraSeen(poll: nat -> Poll, i: nat): nat {
    if i == 0 then 0 else InfraSeen(poll, i - 1) + if IsInfra(poll(i - 1)) then 1 else 0
  }

  function LastChecks(poll: nat -> Poll, i: nat): seq<CheckRun> {
    if i == 0 then [] else if poll(i - 1).Snapshot? then poll(i - 1).checks else LastChecks(poll, i - 1)
  }

  /** The reruns announced by the first `i` polls. */
  function Retries(poll: nat -> Poll, i: nat): seq<CiEvent> {
    if i == 0 then [] else
      var init := Retries(poll, i - 1);
      if IsInfra(poll(i - 1)) then init + [CI_INFRA_RETRY(InfraSeen(poll, i), FailedCheckNames(poll(i - 1).checks))] else init
  }

  predicate Late(clock: nat -> int, cfg: Config, i: nat) {
    clock(i + 1) - clock(0) > cfg.timeout
  }

  /** The i-th round ends the watch. The clock is read once before the first round. */
  predicate Decisive(poll: nat -> Poll, clock: nat -> int, cfg: Config, i: nat) {
    Late(clock, cfg, i) ||
    match poll(i)
    case Unavailable => ApiFailures(poll, i) >= cfg.maxApiRetries
    case Snapshot(checks) =>
      var o := ClassifyChecks(checks);
      if o == INFRA_FAILURE then InfraSeen(poll, i) >= cfg.maxInfraRetries else o != PENDING
  }

  /** What the watch reports when the i-th round ends it. */
  function Verdict(poll: nat -> Poll, clock: nat -> int, cfg: Config, logs: string, i: nat): (WatchResult, CiEvent) {
    var before, k := LastChecks(poll, i), InfraSeen(poll, i);
    if Late(clock, cfg, i) then
      (WatchResult(TIMEOUT, before, k, false, true, FailedCheckNames(before), Domain.None),
       CI_FAILED(TIMEOUT, FORGE_ERROR, false, false, FailedCheckNames(before)))
    else match poll(i)
      case Unavailable =>
        (WatchResult(INFRA_FAILURE, before, k, true, false, [], Domain.None),
         CI_FAILED(INFRA_FAILURE, FORGE_ERROR, false, false, FailedCheckNames(before)))
      case Snapshot(checks) =>
        var o, names := ClassifyChecks(checks), FailedCheckNames(checks);
        if o == PASSED then (WatchResult(o, checks, k, false, false, [], Domain.None), CI_PASSED(checks))
        else if o == TEST_FAILURE then
          (WatchResult(o, checks, k, false, false, names, Domain.Some(logs)), CI_FAILED(o, PROJECT_ERROR, false, true, names))
        else
          (WatchResult(o, checks, k, o == INFRA_FAILURE, false, names, Domain.None),
           CI_FAILED(o, FORGE_ERROR, o == INFRA_FAILURE, false, names))
  }

  /** Rounds before the `n`-th let the watch go on, and the n-th ends it. */
  ghost predicate EndsAt(poll: nat -> Poll, clock: nat -> int, cfg: Config, n: nat) {
    Decisive(poll, clock, cfg, n) && forall i :: 0 <= i < n ==> !Decisive(poll, clock, cfg, i)
  }

  /** The watch ended at the `n`-th round: one rerun was announced for each infrastructure failure
      before it, then the verdict, and nothing after. */
  ghost predicate Concluded(poll: nat -> Poll, clock: nat -> int, cfg: Config, logs: string, n: nat, result: WatchResult, events: seq<CiEvent>) {
    && EndsAt(poll, clock, cfg, n)
    && result == Verdict(poll, clock, cfg, logs, n).0
    && events == Retries(poll, n) + [Verdict(poll, clock, cfg, logs, n).1]
  }

  /** A watch ends as soon as some round decides it, and there is no other way for it to end. */
  method Watch(poll: nat -> Poll, clock: nat -> int, cfg: Config, logs: string) returns (result: WatchResult, events: seq<CiEvent>)
    requires exists n: nat :: Decisive(poll, clock, cfg, n)
    ensures exists n: nat :: Concluded(poll, clock, cfg, logs, n, result, events)
  {
    var start, apiFailures, infraRetries, checks := clock(0), 0, 0, [];
    var i := 0;
    ghost var n := 0;
    ghost var last: nat :| Decisive(poll, clock, cfg, last);
    events := [];
    while true
      invariant apiFailures == ApiFailures(poll, i) && infraRetries == InfraSeen(poll, i)
      invariant checks == LastChecks(poll, i) && events == Retries(poll, i)
      invariant forall j :: 0 <= j < i ==> !Decisive(poll, clock, cfg, j)
      decreases last - i
    {
      n := i;
      if clock(i + 1) - start > cfg.timeout {
        events := events + [CI_FAILED(TIMEOUT, FORGE_ERROR, false, false, FailedCheckNames(checks))];
        result := WatchResult(TIMEOUT, checks, infraRetries, false, true, FailedCheckNames(checks), Domain.None);
        break;
      }
      var answer := poll(i);
      i := i + 1;
      if answer.Unavailable? {
        apiFailures := apiFailures + 1;
        if apiFailures > cfg.maxApiRetries {
          events := events + [CI_FAILED(INFRA_FAILURE, FORGE_ERROR, false, false, FailedCheckNames(checks))];
          result := WatchResult(INFRA_FAILURE, checks, infraRetries, true, false, [], Domain.None);
          break;
        }
        continue;
      }
      checks, apiFailures := answer.checks, 0;
      var outcome, names := ClassifyChecks(checks), FailedCheckNames(checks);
      if outcome == PENDING {
        continue;
      }
      if outcome == PASSED {
        events := events + [CI_PASSED(checks)];
        result := WatchResult(outcome, checks, infraRetries, false, false, [], Domain.None);
        break;
      }
      if outcome == TEST_FAILURE {
        events := events + [CI_FAILED(outcome, PROJECT_ERROR, false, true, names)];
        result := WatchResult(outcome, checks, infraRetries, false, false, names, Domain.Some(logs));
        break;
      }
      if outcome == INFRA_FAILURE {
        if infraRetries >= cfg.maxInfraRetries {
          events := events + [CI_FAILED(outcome, FORGE_ERROR, true, false, names)];
          result := WatchResult(outcome, checks, infraRetries, true, false, names, Domain.None);
          break;
        }
        infraRetries := infraRetries + 1;
        events := events + [CI_INFRA_RETRY(infraRetries, names)];
        continue;
      }
      events := events + [CI_FAILED(outcome, FORGE_ERROR, false, false, names)];
      result := WatchResult(outcome, checks, infraRetries, false, false, names, Domain.None);
      break;
    }
    assert Concluded(poll, clock, cfg, logs, n, result, events);
  }

  // ----- what a watch guarantees -----

  /** The reruns are numbered from 1 without a gap. */
  lemma {:induction false} RetriesAreNumbered(poll: nat -> Poll, i: nat)
    ensures |Retries(poll, i)| == InfraSeen(poll, i)
    ensures forall j :: 0 <= j < |Retries(poll, i)| ==> Retries(poll, i)[j].CI_INFRA_RETRY? && Retries(poll, i)[j].attempt == j + 1
    decreases i
  {
    if i > 0 {
      RetriesAreNumbered(poll, i - 1);
    }
  }

  /** Reruns never exceed the limit, whatever the clock reads, and no round follows one that reads a
      time past the timeout. */
  lemma {:induction false} WatchIsBounded(poll: nat -> Poll, clock: nat -> int, cfg: Config, n: nat)
    requires forall i :: 0 <= i < n ==> !Decisive(poll, clock, cfg, i)
    ensures InfraSeen(poll, n) <= if cfg.maxInfraRetries < 0 then 0 else cfg.maxInfraRetries
    ensures forall i: nat :: Late(clock, cfg, i) ==> n <= i
    decreases n
  {
    forall i: nat | Late(clock, cfg, i) ensures n <= i {
      assert Decisive(poll, clock, cfg, i);
    }
    if n > 0 {
      WatchIsBounded(poll, clock, cfg, n - 1);
      assert !Decisive(poll, clock, cfg, n - 1);
    }
  }

  ghost predicate Advancing(clock: nat -> int) {
    forall i: nat :: clock(i) < clock(i + 1)
  }

  lemma {:induction false} ClockAdvances(clock: nat -> int, n: nat)
    requires Advancing(clock)
    ensures clock(n) >= clock(0) + n
    decreases n
  {
    if n > 0 {
      ClockAdvances(clock, n - 1);
    }
  }

  lemma {:induction false} FirstDecisive(poll: nat -> Poll, clock: nat -> int, cfg: Config, n: nat) returns (m: nat)
    requires Decisive(poll, clock, cfg, n)
    ensures m <= n && EndsAt(poll, clock, cfg, m)
    decreases n
  {
    if i: nat :| i < n && Decisive(poll, clock, cfg, i) {
      m := FirstDecisive(poll, clock, cfg, i);
    } else {
      m := n;
    }
  }

  /** While the clock advances, every watch ends, after at most as many polls as the timeout has ticks. */
  lemma TimeoutEndsWatch(poll: nat -> Poll, clock: nat -> int, cfg: Config)
    requires Advancing(clock)
    ensures exists n: nat :: EndsAt(poll, clock, cfg, n) && n <= if cfg.timeout < 0 then 0 else cfg.timeout
  {
    var n: nat := if cfg.timeout < 0 then 0 else cfg.timeout;
    ClockAdvances(clock, n + 1);
    assert Decisive(poll, clock, cfg, n);
    var m := FirstDecisive(poll, clock, cfg, n);
    assert EndsAt(poll, clock, cfg, m);
  }

  /** The failed names are those of the completed checks that did not pass. */
  lemma {:induction false} FailedAreNamed(checks: seq<CheckRun>)
    ensures forall n :: n in FailedCheckNames(checks) <==>
              exists c :: c in checks && c.name == n && c.status == COMPLETED
                          && c.conclusion != SUCCESS && c.conclusion != NEUTRAL && c.conclusion != SKIPPED
    decreases |checks|
  {
    if checks != [] {
      FailedAreNamed(checks[..|checks|-1]);
      assert forall c :: c in checks <==> c in checks[..|checks|-1] || c == checks[|checks|-1];
    }
  }

  lemma {:induction false} FailuresAreLast(poll: nat -> Poll, i: nat, k: nat)
    ensures ApiFailures(poll, i) >= k <==> k <= i && forall j :: i - k <= j < i ==> poll(j).Unavailable?
    decreases i
  {
    if i > 0 && k > 0 {
      FailuresAreLast(poll, i - 1, k - 1);
    }
  }

  /** An unavailable answer ends the watch, in time, exactly when as many as the retries came just before. */
  lemma UnavailableEndsWatch(poll: nat -> Poll, clock: nat -> int, cfg: Config, i: nat)
    requires poll(i).Unavailable? && clock(i + 1) - clock(0) <= cfg.timeout && cfg.maxApiRetries >= 0
    ensures Decisive(poll, clock, cfg, i) <==>
            cfg.maxApiRetries <= i && forall j :: i - cfg.maxApiRetries <= j < i ==> poll(j).Unavailable?
  {
    FailuresAreLast(poll, i, cfg.maxApiRetries);
  }

  /** A round that comes later than the timeout ends the watch; one in time ends it on checks that
      have passed, failed, been aborted or timed out, and on broken ones once the reruns are spent. */
  lemma ChecksEndWatch(poll: nat -> Poll, clock: nat -> int, cfg: Config, i: nat)
    ensures clock(i + 1) - clock(0) > cfg.timeout ==> Decisive(poll, clock, cfg, i)
    ensures clock(i + 1) - clock(0) <= cfg.timeout && poll(i).Snapshot? ==>
              var o := ClassifyChecks(poll(i).checks);
              (Decisive(poll, clock, cfg, i) <==>
                 o == PASSED || o == TEST_FAILURE || o == CANCELLED || o == TIMEOUT
                 || (o == INFRA_FAILURE && |Retries(poll, i)| >= cfg.maxInfraRetries))
  {
    RetriesAreNumbered(poll, i);
  }

  /** PASSED is only ever reported on checks that were there and all passed; a test failure comes
      with its logs and blames the project, everything else blames the tooling; an item is paused
      exactly on an infrastructure failure that the retries did not cure. */
  lemma VerdictIsFounded(poll: nat -> Poll, clock: nat -> int, cfg: Config, logs: string, n: nat)
    requires EndsAt(poll, clock, cfg, n)
    ensures var r, e := Verdict(poll, clock, cfg, logs, n).0, Verdict(poll, clock, cfg, logs, n).1;
            && (r.outcome == PASSED ==> r.checks != [] && forall c :: c in r.checks ==> c.status == COMPLETED && Passing(c.conclusion))
            && (r.outcome == PASSED <==> e.CI_PASSED?)
            && (r.outcome == TEST_FAILURE <==> r.failedLogs.Some?)
            && (r.outcome == TEST_FAILURE ==> r.failedLogs.value == logs && r.failedChecks != [])
            && (e.CI_FAILED? ==> e.outcome == r.outcome && (e.errorClass == PROJECT_ERROR <==> r.outcome == TEST_FAILURE)
                                 && (e.hasLogs <==> r.failedLogs.Some?))
            && (r.paused <==> r.outcome == INFRA_FAILURE)
            && (r.timedOut <==> clock(n + 1) - clock(0) > cfg.timeout)
            && r.infraRetries == |Retries(poll, n)|
            && r.outcome != PENDING
    ensures !Late(clock, cfg, n) ==> Verdict(poll, clock, cfg, logs, n).0.checks == LastChecks(poll, n + 1)
  {
    RetriesAreNumbered(poll, n);
    PassedMeansAllPassing(LastChecks(poll, n + 1));
  }
}
