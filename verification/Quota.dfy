/** Reactive detection of quota exhaustion: a pattern in the output or repeated failures mark a
    provider exhausted until an estimated recharge time. */
module Quota {
  import opened Domain
  import opened Recharge
  import opened Residues

  // ----- availability -----

  datatype QuotaStatus = AVAILABLE | EXHAUSTED | FAULTY

  datatype Row = Row(status: QuotaStatus, availableUntil: Option<int>, updatedAt: int)

  /** The stored row as it reads at `wall`: an exhausted row past its time reads as available. */
  function GetProviderQuotaState(row: Option<Row>, wall: int): Option<Row> {
    if row.Some? && row.value.status == EXHAUSTED && row.value.availableUntil.Some? && wall >= row.value.availableUntil.value
    then Some(Row(AVAILABLE, None, wall))
    else row
  }

  /** `wall` is read for the stored state, `later` when the caller gives no reference time. */
  function IsProviderAvailable(row: Option<Row>, wall: int, later: int, reference: Option<int>): bool {
    match GetProviderQuotaState(row, wall)
    case None => true
    case Some(state) =>
      if state.status != EXHAUSTED then state.status == AVAILABLE
      else if state.availableUntil.None? then false
      else (if reference.Some? then reference.value else later) >= state.availableUntil.value
  }

  /** An exhausted provider is unavailable exactly until its recharge time. */
  lemma UnavailableUntilRecharge(row: Row, wall: int, later: int)
    requires row.status == EXHAUSTED && row.availableUntil.Some? && wall <= later
    ensures IsProviderAvailable(Some(row), wall, later, None) <==> later >= row.availableUntil.value
  {
  }

  /** A reference time can only bring the recharge forward: the wall clock decides first, so an
      earlier reference does not make a recharged provider unavailable again. */
  lemma ReferenceOnlyHastens(row: Row, wall: int, later: int, reference: int)
    requires row.status == EXHAUSTED && row.availableUntil.Some?
    ensures IsProviderAvailable(Some(row), wall, later, Some(reference)) <==>
            wall >= row.availableUntil.value || reference >= row.availableUntil.value
  {
  }

  // ----- the detector -----

  datatype RunnerStatus = RUN_OK | RUN_ERROR | RUN_TIMEOUT | RUN_POLICY_VIOLATION

  /** `matches` says whether the output contains an exhaustion pattern. */
  datatype RunnerResult = RunnerResult(status: RunnerStatus, matches: bool)

  datatype ProviderStatus = OK | QUOTA | ERROR | TIMEOUT | POLICY_VIOLATION

  function ClassifyRunnerResult(r: RunnerResult): ProviderStatus {
    match r.status
    case RUN_TIMEOUT => TIMEOUT
    case RUN_POLICY_VIOLATION => POLICY_VIOLATION
    case RUN_ERROR => if r.matches then QUOTA else ERROR
    case RUN_OK => if r.matches then QUOTA else OK
  }

  predicate IsFailure(s: ProviderStatus) {
    s == ERROR || s == POLICY_VIOLATION
  }

  /** What an invocation counts as: an exhaustion pattern is looked for unless it timed out or broke
      policy, and what fails without one is a failure. */
  lemma ClassifiedAs(r: RunnerResult)
    ensures ClassifyRunnerResult(r) == QUOTA <==> r.matches && (r.status == RUN_OK || r.status == RUN_ERROR)
    ensures ClassifyRunnerResult(r) == TIMEOUT <==> r.status == RUN_TIMEOUT
    ensures ClassifyRunnerResult(r) == OK <==> r.status == RUN_OK && !r.matches
    ensures IsFailure(ClassifyRunnerResult(r)) <==> r.status == RUN_POLICY_VIOLATION || (r.status == RUN_ERROR && !r.matches)
  {
  }

  datatype Reason = PATTERN | CONSECUTIVE_FAILURES

  datatype Key = Key(provider: string, run: string)

  datatype QuotaEvent = PROVIDER_EXHAUSTED(key: Key, reason: Reason, until: int)

  datatype Detection = Detection(status: ProviderStatus, reason: Option<Reason>)

  /** What one invocation showed, and the threshold configured at the time. */
  datatype Sample = Sample(status: ProviderStatus, threshold: int)

  /** What an invocation makes of the failure counter. */
  function NextCount(c: nat, s: ProviderStatus, threshold: int): nat {
    if s == TIMEOUT then c else if !IsFailure(s) || c + 1 >= threshold then 0 else c + 1
  }

  /** The failure counter after a history of invocations. */
  function Counter(h: seq<Sample>): nat {
    if h == [] then 0 else NextCount(Counter(h[..|h|-1]), h[|h|-1].status, h[|h|-1].threshold)
  }

  /** Why the last invocation of a history marks the provider exhausted, if it does. */
  function Marks(h: seq<Sample>): Option<Reason>
    requires h != []
  {
    var last := h[|h|-1];
    if last.status == QUOTA then Some(PATTERN)
    else if IsFailure(last.status) && Counter(h[..|h|-1]) + 1 >= last.threshold then Some(CONSECUTIVE_FAILURES)
    else None
  }

  function NextRow(n: nat, s: ProviderStatus): nat {
    if s == TIMEOUT then n else if IsFailure(s) then n + 1 else 0
  }

  /** The failures since the last success or exhaustion pattern, timeouts aside. */
  function FailuresInARow(h: seq<Sample>): nat {
    if h == [] then 0 else NextRow(FailuresInARow(h[..|h|-1]), h[|h|-1].status)
  }

  /** The failures since the last success or since the provider was last marked, timeouts aside. */
  function FailuresSinceMark(h: seq<Sample>): nat {
    if h == [] then 0
    else if Marks(h).Some? || h[|h|-1].status == OK then 0
    else FailuresSinceMark(h[..|h|-1]) + if IsFailure(h[|h|-1].status) then 1 else 0
  }

  /** However the threshold is edited between calls, the counter is the number of failures since
      the last success or mark. */
  lemma {:induction false} CounterCountsFailures(h: seq<Sample>)
    ensures Counter(h) == FailuresSinceMark(h)
    decreases |h|
  {
    if h != [] {
      CounterCountsFailures(h[..|h|-1]);
    }
  }

  ghost predicate FixedThreshold(h: seq<Sample>, t: nat) {
    t >= 1 && forall i :: 0 <= i < |h| ==> h[i].threshold == t
  }

  lemma FixedBefore(h: seq<Sample>, t: nat)
    requires FixedThreshold(h, t) && h != []
    ensures FixedThreshold(h[..|h|-1], t) && h[|h|-1].threshold == t
  {
  }

  function Residue(n: nat, t: nat): nat
    requires t >= 1
  {
    n % t
  }

  lemma ResidueSteps(n: nat, t: nat, s: ProviderStatus)
    requires t >= 1
    ensures NextCount(Residue(n, t), s, t) == Residue(NextRow(n, s), t)
  {
    SuccessorModulo(n, t);
  }

  /** With a fixed threshold the counter runs through the residues of the failures in a row. */
  lemma {:induction false} CounterIsResidue(h: seq<Sample>, t: nat)
    requires FixedThreshold(h, t)
    ensures Counter(h) == FailuresInARow(h) % t
    decreases |h|
  {
    if h != [] {
      FixedBefore(h, t);
      CounterIsResidue(h[..|h|-1], t);
      ResidueSteps(FailuresInARow(h[..|h|-1]), t, h[|h|-1].status);
    }
  }

  /** So the heuristic fires exactly when a failure brings their number to a multiple of it. */
  lemma HeuristicFiresAtMultiples(h: seq<Sample>, t: nat)
    requires FixedThreshold(h, t) && h != []
    ensures Marks(h) == Some(CONSECUTIVE_FAILURES) <==> IsFailure(h[|h|-1].status) && FailuresInARow(h) % t == 0
  {
    FixedBefore(h, t);
    CounterIsResidue(h[..|h|-1], t);
    SuccessorModulo(FailuresInARow(h[..|h|-1]), t);
  }

  lemma CounterSnoc(h: seq<Sample>, s: Sample)
    ensures var next := h + [s];
            && Counter(next) == NextCount(Counter(h), s.status, s.threshold)
            && Marks(next) == (if s.status == QUOTA then Some(PATTERN)
                               else if IsFailure(s.status) && Counter(h) + 1 >= s.threshold then Some(CONSECUTIVE_FAILURES)
                               else None)
  {
    assert (h + [s])[..|h|] == h;
  }

  function FailuresOf(m: map<Key, nat>, key: Key): nat {
    if key in m then m[key] else 0
  }

  function PastOf(h: map<Key, seq<Sample>>, key: Key): seq<Sample> {
    if key in h then h[key] else []
  }

  /** The stored counters are those of the histories. */
  ghost predicate Agree(m: map<Key, nat>, h: map<Key, seq<Sample>>) {
    forall key :: FailuresOf(m, key) == Counter(PastOf(h, key))
  }

  lemma AgreeAfter(m: map<Key, nat>, h: map<Key, seq<Sample>>, m': map<Key, nat>, key: Key, past: seq<Sample>)
    requires Agree(m, h) && FailuresOf(m', key) == Counter(past)
    requires forall k :: k != key ==> FailuresOf(m', k) == FailuresOf(m, k)
    ensures Agree(m', h[key := past])
  {
    forall k ensures FailuresOf(m', k) == Counter(PastOf(h[key := past], k)) {
      if k != key {
        assert PastOf(h[key := past], k) == PastOf(h, k);
      }
    }
  }

  class QuotaDetector {
    var consecutiveFailures: map<Key, nat>
    var rows: map<Key, Row>
    var events: seq<QuotaEvent>
    ghost var history: map<Key, seq<Sample>>

    ghost function Past(key: Key): seq<Sample>
      reads this
    {
      PastOf(history, key)
    }

    ghost predicate Valid()
      reads this
    {
      Agree(consecutiveFailures, history)
    }

    constructor ()
      ensures Valid() && history == map[] && rows == map[] && events == []
    {
      consecutiveFailures, rows, events, history := map[], map[], [], map[];
    }

    /** One invocation, of one provider in one run, adds to that history alone. */
    method Evaluate(key: Key, result: RunnerResult, cooldown: Cooldown, now: int) returns (outcome: Detection)
      requires Valid() && WellFormed(cooldown)
      modifies this
      ensures Valid()
      ensures history == old(history)[key := old(Past(key)) + [Sample(ClassifyRunnerResult(result), cooldown.threshold)]]
      ensures outcome.reason == Marks(Past(key))
      ensures outcome.status == if outcome.reason.Some? then QUOTA
                                else if IsFailure(ClassifyRunnerResult(result)) then ERROR
                                else ClassifyRunnerResult(result)
      ensures outcome.reason.None? ==> rows == old(rows) && events == old(events)
      ensures outcome.reason.Some? ==>
                var until := EstimateAvailableUntil(cooldown, now, outcome.reason.value == CONSECUTIVE_FAILURES);
                && now < until
                && rows == old(rows)[key := Row(EXHAUSTED, Some(until), now)]
                && events == old(events) + [PROVIDER_EXHAUSTED(key, outcome.reason.value, until)]
    {
      var status := ClassifyRunnerResult(result);
      ghost var past := Past(key) + [Sample(status, cooldown.threshold)];
      CounterSnoc(Past(key), Sample(status, cooldown.threshold));
      var failures := Count(key, status, cooldown.threshold);
      AgreeAfter(old(consecutiveFailures), history, consecutiveFailures, key, past);
      history := history[key := past];
      if status == QUOTA {
        MarkExhausted(key, PATTERN, cooldown, now);
        return Detection(QUOTA, Some(PATTERN));
      }
      if IsFailure(status) && failures >= cooldown.threshold {
        MarkExhausted(key, CONSECUTIVE_FAILURES, cooldown, now);
        return Detection(QUOTA, Some(CONSECUTIVE_FAILURES));
      }
      return Detection(if IsFailure(status) then ERROR else status, None);
    }

    /** Updates the counter of the provider and run; `failures` is what a failure brings it to. */
    method Count(key: Key, status: ProviderStatus, threshold: int) returns (failures: nat)
      modifies this`consecutiveFailures
      ensures failures == FailuresOf(old(consecutiveFailures), key) + 1
      ensures forall k :: k != key ==> FailuresOf(consecutiveFailures, k) == FailuresOf(old(consecutiveFailures), k)
      ensures FailuresOf(consecutiveFailures, key) == NextCount(FailuresOf(old(consecutiveFailures), key), status, threshold)
    {
      failures := FailuresOf(consecutiveFailures, key) + 1;
      if status == TIMEOUT {
        return;
      }
      consecutiveFailures := consecutiveFailures[key := if IsFailure(status) && failures < threshold then failures else 0];
    }

    method MarkExhausted(key: Key, reason: Reason, cooldown: Cooldown, now: int)
      requires WellFormed(cooldown)
      modifies this`rows, this`events
      ensures var until := EstimateAvailableUntil(cooldown, now, reason == CONSECUTIVE_FAILURES);
              && now < until
              && rows == old(rows)[key := Row(EXHAUSTED, Some(until), now)]
              && events == old(events) + [PROVIDER_EXHAUSTED(key, reason, until)]
    {
      var until := EstimateAvailableUntil(cooldown, now, reason == CONSECUTIVE_FAILURES);
      RechargeIsLater(cooldown, now, reason == CONSECUTIVE_FAILURES);
      rows := rows[key := Row(EXHAUSTED, Some(until), now)];
      events := events + [PROVIDER_EXHAUSTED(key, reason, until)];
    }
  }
}
