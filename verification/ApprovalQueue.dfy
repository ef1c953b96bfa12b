/** Which actions need a human approval, the queue they wait in, and the gate on merges. */
module ApprovalQueue {
  import opened Domain
  import opened Text

  datatype ActionKind =
    | REPOSITORY_CREATE | REPOSITORY_MODIFY | MERGE | TAG | RELEASE | ROLLBACK
    | BRANCH_DELETE | PR_CLOSE | RELEASE_DEPRECATE | RELEASE_YANK | BRANCH_PROTECTION_CHANGE | WORKTREE_DELETE

  datatype ConfidenceLevel = L0 | L1 | L2

  // ----- trust levels -----

  const DESTRUCTIVE: set<ActionKind> :=
    {BRANCH_DELETE, PR_CLOSE, RELEASE_DEPRECATE, RELEASE_YANK, BRANCH_PROTECTION_CHANGE, WORKTREE_DELETE}

  function SensitiveAt(level: ConfidenceLevel): set<ActionKind> {
    match level
    case L0 => {REPOSITORY_CREATE, REPOSITORY_MODIFY, MERGE, TAG, RELEASE, ROLLBACK}
    case L1 => {REPOSITORY_CREATE, REPOSITORY_MODIFY, TAG, RELEASE, ROLLBACK}
    case L2 => {}
  }

  predicate RequiresApproval(kind: ActionKind, level: ConfidenceLevel, safeMode: bool) {
    kind in SensitiveAt(level) || (safeMode && kind in DESTRUCTIVE)
  }

  function Rank(level: ConfidenceLevel): nat {
    match level case L0 => 0 case L1 => 1 case L2 => 2
  }

  /** More confidence or no safe mode never adds an approval; under safe mode the destructive
      actions are gated at every level; merges are gated at L0 only, the other sensitive actions at L1 too. */
  lemma ApprovalShrinksWithConfidence(kind: ActionKind, low: ConfidenceLevel, high: ConfidenceLevel, safe: bool, safer: bool)
    requires Rank(low) <= Rank(high) && (safe ==> safer)
    ensures RequiresApproval(kind, high, safe) ==> RequiresApproval(kind, low, safer)
    ensures kind in {BRANCH_DELETE, PR_CLOSE, RELEASE_DEPRECATE, RELEASE_YANK, BRANCH_PROTECTION_CHANGE, WORKTREE_DELETE} ==>
              (RequiresApproval(kind, high, safe) <==> safe)
    ensures RequiresApproval(MERGE, low, safe) <==> low == L0
    ensures kind in {REPOSITORY_CREATE, REPOSITORY_MODIFY, TAG, RELEASE, ROLLBACK} ==>
              (RequiresApproval(kind, low, safe) <==> low == L0 || low == L1)
  {
  }

  // ----- action identifiers -----

  const PREFIX := "pending-"

  function Zeros(k: nat): (s: string)
    ensures |s| == k && forall i :: 0 <= i < k ==> s[i] == '0'
  {
    seq(k, _ => '0')
  }

  /** `f"pending-{n:04d}"` */
  function FormatActionId(n: nat): string {
    var digits := Decimal(n);
    PREFIX + Zeros(if |digits| < 4 then 4 - |digits| else 0) + digits
  }

  /** Numbers below ten thousand are padded to four digits. */
  lemma ActionIdIsPadded(n: nat)
    requires n < 10_000
    ensures |FormatActionId(n)| == |"pending-"| + 4 && "pending-" <= FormatActionId(n)
    ensures FormatActionId(42) == "pending-0042"
  {
    assert |Decimal(n)| <= 4 by {
      assert n >= 10 ==> |Decimal(n)| == |Decimal(n / 10)| + 1;
      assert n >= 100 ==> |Decimal(n / 10)| == |Decimal(n / 100)| + 1;
      assert n >= 1000 ==> |Decimal(n / 100)| == |Decimal(n / 1000)| + 1;
    }
    assert Decimal(42) == Decimal(4) + ['2'] == "42";
    assert Zeros(2) == "00";
    assert PREFIX + "00" + "42" == "pending-0042";
  }

  function ParseActionId(id: string): Option<nat> {
    if PREFIX <= id && AllDigits(id[|PREFIX|..]) then Some(ToNat(id[|PREFIX|..])) else None
  }

  lemma {:induction false} LeadingZeros(k: nat, s: string)
    requires forall i :: 0 <= i < |s| ==> IsDigit(s[i])
    ensures forall i :: 0 <= i < k + |s| ==> IsDigit((Zeros(k) + s)[i])
    ensures ToNat(Zeros(k) + s) == ToNat(s)
    decreases |s|, k
  {
    var t := Zeros(k) + s;
    forall i | 0 <= i < k + |s| ensures IsDigit(t[i]) {
      if i >= k { assert t[i] == s[i-k]; }
    }
    if s != [] {
      assert t[..|t|-1] == Zeros(k) + s[..|s|-1];
      LeadingZeros(k, s[..|s|-1]);
    } else if k > 0 {
      assert t[..|t|-1] == Zeros(k - 1) + [];
      LeadingZeros(k - 1, []);
    }
  }

  /** Parsing undoes formatting for every row, padded or not. */
  lemma ParseUndoesFormat(n: nat)
    ensures ParseActionId(FormatActionId(n)) == Some(n)
  {
    var digits := Decimal(n);
    var k := if |digits| < 4 then 4 - |digits| else 0;
    DecimalValue(n);
    LeadingZeros(k, digits);
    var id := FormatActionId(n);
    assert id[|PREFIX|..] == Zeros(k) + digits;
  }

  // ----- the queue -----

  datatype ActionStatus = PENDING | APPROVED

  datatype PendingAction = PendingAction(run: string, bl: string, kind: ActionKind, status: ActionStatus)

  datatype QueueError = UnknownAction | AlreadyApproved

  datatype Manifest = Manifest(level: ConfidenceLevel, safeMode: bool)

  predicate Matches(a: PendingAction, run: string, bl: string, kind: ActionKind) {
    a.run == run && a.bl == bl && a.kind == kind
  }

  /** The greatest row of the kind queued for the item; rows are numbered from 1. */
  function Latest(rows: seq<PendingAction>, run: string, bl: string, kind: ActionKind): (r: Option<nat>)
    ensures r.Some? ==> 1 <= r.value <= |rows| && Matches(rows[r.value-1], run, bl, kind)
    ensures r.Some? ==> forall i :: r.value <= i < |rows| ==> !Matches(rows[i], run, bl, kind)
    ensures r.None? ==> forall i :: 0 <= i < |rows| ==> !Matches(rows[i], run, bl, kind)
  {
    if rows == [] then None
    else if Matches(rows[|rows|-1], run, bl, kind) then Some(|rows|)
    else Latest(rows[..|rows|-1], run, bl, kind)
  }

  /** The row an identifier names, if there is one. */
  function Find(rows: seq<PendingAction>, id: string): (r: Option<nat>)
    ensures r.Some? ==> 1 <= r.value <= |rows|
  {
    match ParseActionId(id)
    case None => None
    case Some(n) => if 1 <= n <= |rows| then Some(n) else None
  }

  lemma FindFormatted(rows: seq<PendingAction>, n: nat)
    requires 1 <= n <= |rows|
    ensures Find(rows, FormatActionId(n)) == Some(n)
  {
    ParseUndoesFormat(n);
  }

  lemma LatestOfNew(rows: seq<PendingAction>, a: PendingAction)
    ensures Latest(rows + [a], a.run, a.bl, a.kind) == Some(|rows| + 1)
  {
  }

  /** The two calls that change the queue on the merge path. */
  datatype Op =
    | GateMergeOp(run: string, bl: string, manifest: Option<Manifest>)
    | ApproveOp(id: string)

  function Apply(rows: seq<PendingAction>, op: Op): seq<PendingAction> {
    match op
    case GateMergeOp(run, bl, manifest) =>
      if manifest.None? || Latest(rows, run, bl, MERGE).Some?
         || !RequiresApproval(MERGE, manifest.value.level, manifest.value.safeMode)
      then rows
      else rows + [PendingAction(run, bl, MERGE, PENDING)]
    case ApproveOp(id) =>
      var n := Find(rows, id);
      if n.Some? then rows[n.value - 1 := rows[n.value - 1].(status := APPROVED)] else rows
  }

  /** Whether the merge may proceed, seen in the queue as it stood at the call. */
  predicate Released(rows: seq<PendingAction>, run: string, bl: string, manifest: Option<Manifest>) {
    manifest.None? ||
    match Latest(rows, run, bl, MERGE)
    case Some(n) => rows[n-1].status == APPROVED
    case None => !RequiresApproval(MERGE, manifest.value.level, manifest.value.safeMode)
  }

  class Queue {
    var rows: seq<PendingAction>

    constructor ()
      ensures rows == []
    {
      rows := [];
    }

    method Enqueue(run: string, bl: string, kind: ActionKind) returns (id: string)
      modifies this
      ensures rows == old(rows) + [PendingAction(run, bl, kind, PENDING)]
      ensures id == FormatActionId(|rows|)
    {
      rows := rows + [PendingAction(run, bl, kind, PENDING)];
      id := FormatActionId(|rows|);
    }

    /** Queues the action exactly when it needs an approval. */
    method Gate(run: string, bl: string, kind: ActionKind, level: ConfidenceLevel, safeMode: bool)
      returns (released: bool, pending: Option<string>)
      modifies this
      ensures released == !RequiresApproval(kind, level, safeMode)
      ensures released ==> rows == old(rows) && pending.None?
      ensures !released ==> rows == old(rows) + [PendingAction(run, bl, kind, PENDING)]
                            && pending == Some(FormatActionId(|rows|))
    {
      if !RequiresApproval(kind, level, safeMode) {
        return true, None;
      }
      var id := Enqueue(run, bl, kind);
      return false, Some(id);
    }

    method Approve(id: string) returns (r: Result<PendingAction, QueueError>)
      modifies this
      ensures rows == Apply(old(rows), ApproveOp(id))
      ensures r.Ok? <==> Find(old(rows), id).Some? && old(rows)[Find(old(rows), id).value - 1].status == PENDING
      ensures r.Ok? ==> r.value == rows[Find(old(rows), id).value - 1] && r.value.status == APPROVED
      ensures r == Err(UnknownAction) <==> Find(old(rows), id).None?
    {
      var n := Find(rows, id);
      if n.None? {
        return Err(UnknownAction);
      }
      var existing := rows[n.value - 1];
      if existing.status == APPROVED {
        assert rows[n.value - 1 := existing.(status := APPROVED)] == rows;
        return Err(AlreadyApproved);
      }
      rows := rows[n.value - 1 := existing.(status := APPROVED)];
      return Ok(rows[n.value - 1]);
    }

    /** `_gate_merge`: without a manifest merges go through; an action already queued decides;
        otherwise the trust level does. */
    method GateMerge(run: string, bl: string, manifest: Option<Manifest>) returns (released: bool, pending: Option<string>)
      modifies this
      ensures rows == Apply(old(rows), GateMergeOp(run, bl, manifest))
      ensures released == Released(old(rows), run, bl, manifest)
      ensures !released ==> pending.Some? && Find(rows, pending.value) == Latest(rows, run, bl, MERGE)
    {
      if manifest.None? {
        return true, None;
      }
      var existing := Latest(rows, run, bl, MERGE);
      if existing.Some? {
        FindFormatted(rows, existing.value);
        return rows[existing.value - 1].status == APPROVED, Some(FormatActionId(existing.value));
      }
      LatestOfNew(rows, PendingAction(run, bl, MERGE, PENDING));
      FindFormatted(rows + [PendingAction(run, bl, MERGE, PENDING)], |rows| + 1);
      released, pending := Gate(run, bl, MERGE, manifest.value.level, manifest.value.safeMode);
    }
  }

  // ----- every interleaving of the two calls -----

  function Run(ops: seq<Op>): seq<PendingAction> {
    if ops == [] then [] else Apply(Run(ops[..|ops|-1]), ops[|ops|-1])
  }

  ghost predicate OneMergePerItem(rows: seq<PendingAction>) {
    forall i, j :: 0 <= i < j < |rows| && rows[i].kind == MERGE && rows[j].kind == MERGE ==>
      rows[i].run != rows[j].run || rows[i].bl != rows[j].bl
  }

  /** Rows stay where they are, and an approved row stays approved. */
  ghost predicate Advances(a: seq<PendingAction>, b: seq<PendingAction>) {
    && |a| <= |b|
    && forall i :: 0 <= i < |a| ==> b[i].(status := PENDING) == a[i].(status := PENDING)
                                    && (a[i].status == APPROVED ==> b[i].status == APPROVED)
  }

  lemma StepKeepsOneMerge(rows: seq<PendingAction>, op: Op)
    requires OneMergePerItem(rows)
    ensures OneMergePerItem(Apply(rows, op)) && Advances(rows, Apply(rows, op))
  {
    var next := Apply(rows, op);
    if op.ApproveOp? {
      forall i | 0 <= i < |rows| ensures next[i].(status := PENDING) == rows[i].(status := PENDING) {
      }
      forall i, j | 0 <= i < j < |next| && next[i].kind == MERGE && next[j].kind == MERGE
        ensures next[i].run != next[j].run || next[i].bl != next[j].bl
      {
        assert rows[i].kind == MERGE && rows[j].kind == MERGE;
      }
    }
  }

  /** Over any interleaving, each run queues at most one merge per item. */
  lemma {:induction false} RunsQueueOneMerge(ops: seq<Op>)
    ensures OneMergePerItem(Run(ops))
    decreases |ops|
  {
    if ops != [] {
      RunsQueueOneMerge(ops[..|ops|-1]);
      StepKeepsOneMerge(Run(ops[..|ops|-1]), ops[|ops|-1]);
    }
  }

  lemma AdvancesTransitive(a: seq<PendingAction>, b: seq<PendingAction>, c: seq<PendingAction>)
    requires Advances(a, b) && Advances(b, c)
    ensures Advances(a, c)
  {
    forall i | 0 <= i < |a| ensures c[i].(status := PENDING) == a[i].(status := PENDING) {
      assert b[i].(status := PENDING) == a[i].(status := PENDING);
    }
  }

  /** Between any two moments of a run the queue only advances: no row vanishes, moves or changes
      its action, and an approval is never withdrawn. */
  lemma {:induction false} RunsAdvance(ops: seq<Op>, k: nat)
    requires k <= |ops|
    ensures Advances(Run(ops[..k]), Run(ops))
    decreases |ops|
  {
    if k == |ops| {
      assert ops[..k] == ops;
    } else {
      var init := ops[..|ops|-1];
      assert init[..k] == ops[..k];
      RunsAdvance(init, k);
      RunsQueueOneMerge(init);
      StepKeepsOneMerge(Run(init), ops[|ops|-1]);
      AdvancesTransitive(Run(ops[..k]), Run(init), Run(ops));
    }
  }

  /** The k-th call approves row `n`, which is queued by then. */
  ghost predicate Approves(ops: seq<Op>, k: nat, n: nat) {
    k < |ops| && ops[k].ApproveOp? && Find(Run(ops[..k]), ops[k].id) == Some(n)
  }

  ghost predicate ApprovedBy(ops: seq<Op>, n: nat) {
    exists k :: Approves(ops, k, n)
  }

  lemma ApprovedBySnoc(ops: seq<Op>, op: Op, n: nat)
    ensures ApprovedBy(ops + [op], n) <==> ApprovedBy(ops, n) || (op.ApproveOp? && Find(Run(ops), op.id) == Some(n))
  {
    var next := ops + [op];
    assert next[..|ops|] == ops;
    forall k: nat | k < |ops| ensures Approves(next, k, n) <==> Approves(ops, k, n) {
      assert next[..k] == ops[..k];
    }
    if op.ApproveOp? && Find(Run(ops), op.id) == Some(n) {
      assert Approves(next, |ops|, n);
    }
  }

  lemma RowAfter(rows: seq<PendingAction>, op: Op, n: nat)
    requires 1 <= n <= |Apply(rows, op)|
    ensures Apply(rows, op)[n-1].status == APPROVED <==>
            (n <= |rows| && rows[n-1].status == APPROVED) || (op.ApproveOp? && Find(rows, op.id) == Some(n))
  {
  }

  lemma {:induction false} ApprovedMeansQueued(ops: seq<Op>, n: nat)
    requires ApprovedBy(ops, n)
    ensures 1 <= n <= |Run(ops)|
  {
    var k: nat :| Approves(ops, k, n);
    RunsAdvance(ops, k);
  }

  /** A row is approved exactly when some call approved it after it was queued. */
  lemma {:induction false} RowsAreApprovedByCalls(ops: seq<Op>, n: nat)
    requires 1 <= n <= |Run(ops)|
    ensures Run(ops)[n-1].status == APPROVED <==> ApprovedBy(ops, n)
    decreases |ops|
  {
    var init, op := ops[..|ops|-1], ops[|ops|-1];
    assert ops == init + [op];
    RowAfter(Run(init), op, n);
    ApprovedBySnoc(init, op, n);
    if n <= |Run(init)| {
      RowsAreApprovedByCalls(init, n);
    } else if ApprovedBy(init, n) {
      ApprovedMeansQueued(init, n);
    }
  }

  lemma SoleMergeIsLatest(rows: seq<PendingAction>, run: string, bl: string, n: nat)
    requires OneMergePerItem(rows) && 1 <= n <= |rows| && Matches(rows[n-1], run, bl, MERGE)
    ensures Latest(rows, run, bl, MERGE) == Some(n)
  {
  }

  /** A merge the trust level gates is released at the end of a run exactly when the action queued
      for that item was approved after it was queued. */
  lemma GatedMergesWaitForApproval(ops: seq<Op>, run: string, bl: string, manifest: Manifest)
    requires RequiresApproval(MERGE, manifest.level, manifest.safeMode)
    ensures Released(Run(ops), run, bl, Some(manifest)) <==>
            exists n :: 1 <= n <= |Run(ops)| && Matches(Run(ops)[n-1], run, bl, MERGE) && ApprovedBy(ops, n)
  {
    var rows := Run(ops);
    var latest := Latest(rows, run, bl, MERGE);
    if latest.Some? {
      RowsAreApprovedByCalls(ops, latest.value);
    }
    if n :| 1 <= n <= |rows| && Matches(rows[n-1], run, bl, MERGE) && ApprovedBy(ops, n) {
      RunsQueueOneMerge(ops);
      SoleMergeIsLatest(rows, run, bl, n);
    }
  }
}
