/** The value types the planner and the executor share: backlog items, their sizes and statuses. */
module Domain {

  datatype Option<+T> = None | Some(value: T)

  datatype Result<+T, +E> = Ok(value: T) | Err(error: E)

  datatype Status = TODO | READY | IN_PROGRESS | IN_TEST | IN_REVIEW | DONE | BLOCKED

  datatype Size = S | M | L

  datatype Verdict = GO | NO_GO

  /** A validated backlog item; the frontmatter fields no planner reads are dropped. */
  datatype BL = BL(
    id: string,
    library: string,
    targetVersion: string,
    dependsOn: seq<string>,
    size: Size,
    critical: bool)

  /** A missing key stands for an unknown status, as `statuses.get(id)` returning None does. */
  type StatusMap = map<string, Status>

  predicate Has(st: StatusMap, id: string, s: Status) {
    id in st && st[id] == s
  }

  /** TODO or READY: the statuses from which work may start. */
  predicate Waiting(st: StatusMap, id: string) {
    Has(st, id, TODO) || Has(st, id, READY)
  }

  function SizeWeight(size: Size): (w: nat)
    ensures 1 <= w <= 4
  {
    match size
    case S => 1
    case M => 2
    case L => 4
  }

  /** Each size weighs twice the next smaller one, and the smallest weighs one. */
  lemma SizesDouble()
    ensures SizeWeight(S) == 1 && SizeWeight(M) == 2 * SizeWeight(S) && SizeWeight(L) == 2 * SizeWeight(M)
  {
  }
}
