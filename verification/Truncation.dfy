/** Prompt context cut down to a byte budget: logs first, then the diff, then the specification. */
module Truncation {
  import opened Domain
  import opened Utf8

  // ----- the budget -----

  datatype Field = Logs | Diff | SpecBody

  /** The truncation order. */
  function Nth(k: nat): Field
    requires k < 3
  {
    if k == 0 then Logs else if k == 1 then Diff else SpecBody
  }

  datatype Notice = Notice(field: Field, original: nat, kept: nat)

  /** The three entries of the source's dictionary of field contents. */
  datatype Fields = Fields(logs: string, diff: string, specBody: string) {
    function At(f: Field): string {
      match f case Logs => logs case Diff => diff case SpecBody => specBody
    }

    function With(f: Field, value: string): Fields {
      match f case Logs => this.(logs := value) case Diff => this.(diff := value) case SpecBody => this.(specBody := value)
    }
  }

  /** The bytes of the fields from the k-th of the truncation order on. */
  function From(m: Fields, k: nat): nat
    requires k <= 3
  {
    (if k <= 0 then Bytes(m.logs) else 0) + (if k <= 1 then Bytes(m.diff) else 0) + (if k <= 2 then Bytes(m.specBody) else 0)
  }

  function Total(m: Fields): nat {
    From(m, 0)
  }

  /** A field shortened by at least `excess` bytes: dropped when too little would remain. */
  function Shortened(content: string, excess: nat, marker: string): string {
    if Bytes(content) <= excess + Bytes(marker) then "" else Clip(content, Bytes(content) - excess - Bytes(marker)) + marker
  }

  // What becomes of each field depends only on the bytes it and the later fields hold.

  predicate Touched(m: Fields, budget: int, k: nat)
    requires k < 3
  {
    From(m, k) > budget && Bytes(m.At(Nth(k))) > 0
  }

  function Final(m: Fields, budget: int, marker: string, k: nat): string
    requires k < 3
  {
    if Touched(m, budget, k) then Shortened(m.At(Nth(k)), From(m, k) - budget, marker) else m.At(Nth(k))
  }

  /** The fields when the first `k` have been considered. */
  function Swept(m: Fields, budget: int, marker: string, k: nat): Fields
    requires k <= 3
  {
    if k == 0 then m else Swept(m, budget, marker, k - 1).With(Nth(k-1), Final(m, budget, marker, k - 1))
  }

  function Notices(m: Fields, budget: int, marker: string, k: nat): seq<Notice>
    requires k <= 3
  {
    if k == 0 then [] else
      var init := Notices(m, budget, marker, k - 1);
      if Touched(m, budget, k - 1)
      then init + [Notice(Nth(k-1), Bytes(m.At(Nth(k-1))), Bytes(Final(m, budget, marker, k - 1)))]
      else init
  }

  lemma {:induction false} BytesConcat(t: string, u: string)
    ensures Bytes(t + u) == Bytes(t) + Bytes(u)
    decreases |t|
  {
    if t == [] {
      assert t + u == u;
    } else {
      assert (t + u)[1..] == t[1..] + u;
      BytesConcat(t[1..], u);
    }
  }

  lemma ShortenedSaves(content: string, excess: nat, marker: string)
    requires Bytes(content) > 0 && excess > 0
    ensures Bytes(Shortened(content, excess, marker)) == 0 || Bytes(Shortened(content, excess, marker)) + excess <= Bytes(content)
  {
    if Bytes(content) > excess + Bytes(marker) {
      var n := Bytes(content) - excess - Bytes(marker);
      ClipFits(content, n);
      BytesConcat(Clip(content, n), marker);
    }
  }

  lemma AtWith(m: Fields, k: nat, j: nat, value: string)
    requires j < 3 && k < 3
    ensures m.With(Nth(k), value).At(Nth(j)) == if j == k then value else m.At(Nth(j))
  {
  }

  /** Fields from the k-th on are as they were; the others hold what was decided for them. */
  lemma {:induction false} SweptAt(m: Fields, budget: int, marker: string, k: nat, j: nat)
    requires k <= 3 && j < 3
    ensures Swept(m, budget, marker, k).At(Nth(j)) == if j < k then Final(m, budget, marker, j) else m.At(Nth(j))
    decreases k
  {
    if k > 0 {
      AtWith(Swept(m, budget, marker, k - 1), k - 1, j, Final(m, budget, marker, k - 1));
      SweptAt(m, budget, marker, k - 1, j);
    }
  }

  lemma Untouched(m: Fields, budget: int, marker: string, k: nat)
    requires k < 3 && !Touched(m, budget, k)
    ensures Swept(m, budget, marker, k + 1) == Swept(m, budget, marker, k)
    ensures Notices(m, budget, marker, k + 1) == Notices(m, budget, marker, k)
  {
    SweptAt(m, budget, marker, k, k);
  }

  /** Once the rest fits, nothing more changes. */
  lemma {:induction false} RestUntouched(m: Fields, budget: int, marker: string, k: nat)
    requires k <= 3 && From(m, k) <= budget
    ensures Swept(m, budget, marker, 3) == Swept(m, budget, marker, k)
    ensures Notices(m, budget, marker, 3) == Notices(m, budget, marker, k)
    decreases 3 - k
  {
    if k < 3 {
      Untouched(m, budget, marker, k);
      RestUntouched(m, budget, marker, k + 1);
    }
  }

  /** The size of the fields after `k` of them: within the budget, or what the rest holds. */
  predicate Fits(m: Fields, budget: int, k: nat, total: nat)
    requires k <= 3
  {
    total >= From(m, k) && (total > budget ==> total == From(m, k))
  }

  lemma TotalAfter(m: Fields, f: Field, value: string)
    ensures Total(m.With(f, value)) == Total(m) - Bytes(m.At(f)) + Bytes(value)
  {
  }

  lemma SweepStep(m: Fields, budget: int, marker: string, k: nat)
    requires k < 3 && Fits(m, budget, k, Total(Swept(m, budget, marker, k)))
    ensures Fits(m, budget, k + 1, Total(Swept(m, budget, marker, k + 1)))
    ensures Touched(m, budget, k) ==> Total(Swept(m, budget, marker, k + 1)) < Total(Swept(m, budget, marker, k))
  {
    SweptAt(m, budget, marker, k, k);
    TotalAfter(Swept(m, budget, marker, k), Nth(k), Final(m, budget, marker, k));
    if Touched(m, budget, k) {
      ShortenedSaves(m.At(Nth(k)), From(m, k) - budget, marker);
    }
  }

  /** Where a pass stands before the k-th field. */
  ghost predicate Sweeping(m: Fields, budget: int, marker: string, k: nat, remaining: Fields, notices: seq<Notice>,
                           total: nat, progressed: bool)
    requires k <= 3
  {
    && remaining == Swept(m, budget, marker, k) && notices == Notices(m, budget, marker, k)
    && total == Total(remaining) && Fits(m, budget, k, total)
    && (if progressed then total < Total(m) else remaining == m && notices == [])
  }

  lemma SweepPasses(m: Fields, budget: int, marker: string, k: nat, remaining: Fields, notices: seq<Notice>, total: nat, progressed: bool)
    requires k < 3 && Sweeping(m, budget, marker, k, remaining, notices, total, progressed) && !Touched(m, budget, k)
    ensures Sweeping(m, budget, marker, k + 1, remaining, notices, total, progressed)
  {
    Untouched(m, budget, marker, k);
    SweepStep(m, budget, marker, k);
  }

  lemma SweepCuts(m: Fields, budget: int, marker: string, k: nat, remaining: Fields, notices: seq<Notice>, total: nat,
                  progressed: bool, kept: string)
    requires k < 3 && Sweeping(m, budget, marker, k, remaining, notices, total, progressed) && Touched(m, budget, k)
    requires kept == Shortened(m.At(Nth(k)), From(m, k) - budget, marker)
    ensures var next := remaining.With(Nth(k), kept);
            Sweeping(m, budget, marker, k + 1, next, notices + [Notice(Nth(k), Bytes(m.At(Nth(k))), Bytes(kept))], Total(next), true)
  {
    SweepStep(m, budget, marker, k);
    assert kept == Final(m, budget, marker, k);
    assert Swept(m, budget, marker, k + 1) == remaining.With(Nth(k), kept);
    assert total <= Total(m);
  }

  method Cut(content: string, excess: nat, marker: string) returns (kept: string)
    requires Bytes(content) > 0 && excess > 0
    ensures kept == Shortened(content, excess, marker)
  {
    var size, target := Bytes(content), Bytes(content) - excess - Bytes(marker);
    if excess >= size || target <= 0 {
      return "";
    }
    kept := TruncateUtf8(content, target);
    kept := kept + marker;
  }

  /** One pass over the truncation order. */
  method Sweep(m: Fields, budget: int, marker: string) returns (remaining: Fields, notices: seq<Notice>, total: nat, progressed: bool)
    ensures Sweeping(m, budget, marker, 3, remaining, notices, total, progressed)
  {
    remaining, notices, total, progressed := m, [], Total(m), false;
    for k := 0 to 3
      invariant Sweeping(m, budget, marker, k, remaining, notices, total, progressed)
    {
      if total <= budget {
        RestUntouched(m, budget, marker, k);
        return;
      }
      var content := remaining.At(Nth(k));
      SweptAt(m, budget, marker, k, k);
      if Bytes(content) == 0 {
        SweepPasses(m, budget, marker, k, remaining, notices, total, progressed);
        continue;
      }
      var kept := Cut(content, total - budget, marker);
      SweepCuts(m, budget, marker, k, remaining, notices, total, progressed, kept);
      progressed := true;
      remaining := remaining.With(Nth(k), kept);
      notices := notices + [Notice(Nth(k), Bytes(content), Bytes(kept))];
      total := Total(remaining);
    }
  }

  lemma EarlierGone(m: Fields, budget: int, marker: string, j: nat, k: nat)
    requires j < k < 3 && From(m, k) > budget
    ensures Final(m, budget, marker, j) == ""
  {
    if !Touched(m, budget, j) {
      assert Bytes(m.At(Nth(j))) == 0;
    }
  }

  /** A field is shortened exactly when it and the fields kept more dearly exceed the budget
      together: the diff only once the logs are gone, the specification only once both are. */
  lemma TouchedInPriority(m: Fields, budget: int, marker: string, k: nat)
    requires k < 3
    ensures Final(m, budget, marker, k) != m.At(Nth(k)) <==> Touched(m, budget, k)
    ensures Touched(m, budget, k) ==> forall j :: 0 <= j < k ==> Final(m, budget, marker, j) == ""
  {
    if Touched(m, budget, k) {
      ShortenedSaves(m.At(Nth(k)), From(m, k) - budget, marker);
      forall j | 0 <= j < k ensures Final(m, budget, marker, j) == "" {
        EarlierGone(m, budget, marker, j, k);
      }
    }
  }

  /** Bytes of the three fields. */
  function Size(m: Fields): nat {
    Bytes(m.logs) + Bytes(m.diff) + Bytes(m.specBody)
  }

  /** How much of the budget is used, by the sizes alone. With the k-th field the fields exceed the
      budget, without it they do not: then what is kept of the k-th fills the budget up to the four
      bytes a character may take, or, when the marker leaves no room, is nothing. */
  ghost predicate UsesBudget(m: Fields, budget: int, marker: string, size: nat) {
    && (Size(m) <= budget ==> size == Size(m))
    && (budget < 0 ==> size == 0)
    && forall k :: 0 <= k < 3 && From(m, k + 1) <= budget < From(m, k) ==>
         if From(m, k + 1) + Bytes(marker) < budget then budget - 4 <= size <= budget else size == From(m, k + 1)
  }

  lemma CutSize(m: Fields, budget: int, marker: string, k: nat)
    requires k < 3 && From(m, k + 1) <= budget < From(m, k)
    ensures var size := From(m, k + 1) + Bytes(Final(m, budget, marker, k));
            if From(m, k + 1) + Bytes(marker) < budget then budget - 4 <= size <= budget else size == From(m, k + 1)
  {
    var content := m.At(Nth(k));
    assert From(m, k) == From(m, k + 1) + Bytes(content);
    if From(m, k + 1) + Bytes(marker) < budget {
      var n := budget - From(m, k + 1) - Bytes(marker);
      ClipFits(content, n);
      BytesConcat(Clip(content, n), marker);
    }
  }

  lemma SizeAfterCut(m: Fields, budget: int, marker: string, k: nat)
    requires k < 3 && From(m, k + 1) <= budget < From(m, k)
    ensures Total(Swept(m, budget, marker, 3)) == From(m, k + 1) + Bytes(Final(m, budget, marker, k))
  {
    RestUntouched(m, budget, marker, k + 1);
    SweptAt(m, budget, marker, k + 1, 0);
    SweptAt(m, budget, marker, k + 1, 1);
    SweptAt(m, budget, marker, k + 1, 2);
    forall j | 0 <= j < k ensures Final(m, budget, marker, j) == "" {
      EarlierGone(m, budget, marker, j, k);
    }
  }

  lemma {:induction false} NothingFitsBelowZero(m: Fields, budget: int, marker: string, j: nat)
    requires j < 3 && budget < 0
    ensures Final(m, budget, marker, j) == ""
  {
    if !Touched(m, budget, j) {
      assert m.At(Nth(j)) == "";
    }
  }

  lemma BudgetIsUsed(m: Fields, budget: int, marker: string)
    ensures UsesBudget(m, budget, marker, Size(Swept(m, budget, marker, 3)))
  {
    if From(m, 0) <= budget {
      RestUntouched(m, budget, marker, 0);
    }
    if budget < 0 {
      for j := 0 to 3
        invariant forall i :: 0 <= i < j ==> Swept(m, budget, marker, 3).At(Nth(i)) == ""
      {
        NothingFitsBelowZero(m, budget, marker, j);
        SweptAt(m, budget, marker, 3, j);
      }
      assert Nth(0) == Logs && Nth(1) == Diff && Nth(2) == SpecBody;
    }
    forall k | 0 <= k < 3 && From(m, k + 1) <= budget < From(m, k)
      ensures var size := Size(Swept(m, budget, marker, 3));
              if From(m, k + 1) + Bytes(marker) < budget then budget - 4 <= size <= budget else size == From(m, k + 1)
    {
      SizeAfterCut(m, budget, marker, k);
      CutSize(m, budget, marker, k);
    }
  }

  /** What is kept of a field is the whole, nothing, or a prefix before the marker. */
  lemma KeptIsPrefix(m: Fields, budget: int, marker: string, k: nat)
    requires k < 3
    ensures var content, kept := m.At(Nth(k)), Final(m, budget, marker, k);
            kept == content || kept == "" || exists n :: 0 <= n <= |content| && kept == content[..n] + marker
  {
    var content := m.At(Nth(k));
    if Touched(m, budget, k) && Bytes(content) > From(m, k) - budget + Bytes(marker) {
      var c := Clip(content, Bytes(content) - (From(m, k) - budget) - Bytes(marker));
      assert content[..|c|] == c;
    }
  }

  predicate IsPrefixOf(kept: string, content: string, marker: string) {
    kept == content || kept == "" || exists n :: 0 <= n <= |content| && kept == content[..n] + marker
  }

  /** The logs give way first, then the diff, then the specification; what gives way keeps a prefix. */
  predicate KeepsPriority(m: Fields, values: Fields, budget: int, marker: string) {
    && (Bytes(m.diff) + Bytes(m.specBody) <= budget ==> values.diff == m.diff)
    && (Bytes(m.specBody) <= budget ==> values.specBody == m.specBody)
    && (values.diff != m.diff ==> values.logs == "")
    && (values.specBody != m.specBody ==> values.logs == "" && values.diff == "")
    && IsPrefixOf(values.logs, m.logs, marker) && IsPrefixOf(values.diff, m.diff, marker) && IsPrefixOf(values.specBody, m.specBody, marker)
  }

  lemma SweptKeepsPriority(m: Fields, budget: int, marker: string)
    ensures KeepsPriority(m, Swept(m, budget, marker, 3), budget, marker)
  {
    for k := 0 to 3
      invariant forall i :: 0 <= i < k ==>
        var content, kept := m.At(Nth(i)), Swept(m, budget, marker, 3).At(Nth(i));
        && (From(m, i) <= budget ==> kept == content) && IsPrefixOf(kept, content, marker)
        && (kept != content ==> forall j :: 0 <= j < i ==> Swept(m, budget, marker, 3).At(Nth(j)) == "")
    {
      SweptAt(m, budget, marker, 3, k);
      TouchedInPriority(m, budget, marker, k);
      KeptIsPrefix(m, budget, marker, k);
      forall j | 0 <= j < k ensures Swept(m, budget, marker, 3).At(Nth(j)) == Final(m, budget, marker, j) {
        SweptAt(m, budget, marker, 3, j);
      }
    }
    assert Nth(0) == Logs && Nth(1) == Diff && Nth(2) == SpecBody;
  }

  /** Passes until the budget is met or nothing is left to shorten. */
  method TruncateToBudget(fields: Fields, budget: int, marker: string) returns (values: Fields, notices: seq<Notice>)
    ensures values == Swept(fields, budget, marker, 3) && notices == Notices(fields, budget, marker, 3)
    ensures Bytes(values.logs) + Bytes(values.diff) + Bytes(values.specBody) <= if budget < 0 then 0 else budget
    ensures UsesBudget(fields, budget, marker, Size(values)) && KeepsPriority(fields, values, budget, marker)
  {
    SweptKeepsPriority(fields, budget, marker);
    BudgetIsUsed(fields, budget, marker);
    var total := Total(fields);
    values, notices := fields, [];
    if total <= budget {
      RestUntouched(fields, budget, marker, 0);
      return;
    }
    ghost var swept := false;
    while total > budget
      invariant total == Total(values)
      invariant if swept then values == Swept(fields, budget, marker, 3) && notices == Notices(fields, budget, marker, 3)
                              && Fits(fields, budget, 3, total)
                else values == fields && notices == []
      decreases total
    {
      ghost var again := swept;
      var more, progressed;
      values, more, total, progressed := Sweep(values, budget, marker);
      assert again ==> !progressed;
      notices := notices + more;
      swept := true;
      if !progressed {
        break;
      }
    }
  }

  const MARKER := "\n\n[... truncated to respect role context limits ...]\n"

  function RoleBudget(role: string): int {
    if role == "tester" || role == "reviewer" then 150_000 else 120_000
  }

  /** `truncate_role_context`: the caller's budget, or the role's. */
  method TruncateRoleContext(role: string, fields: Fields, totalBytes: Option<int>) returns (values: Fields, notices: seq<Notice>)
    ensures var budget := match totalBytes case Some(b) => b case None => if role in {"tester", "reviewer"} then 150_000 else 120_000;
            && values == Swept(fields, budget, MARKER, 3) && notices == Notices(fields, budget, MARKER, 3)
            && Bytes(values.logs) + Bytes(values.diff) + Bytes(values.specBody) <= (if budget < 0 then 0 else budget)
            && UsesBudget(fields, budget, MARKER, Size(values)) && KeepsPriority(fields, values, budget, MARKER)
  {
    var budget := if totalBytes.Some? then totalBytes.value else RoleBudget(role);
    values, notices := TruncateToBudget(fields, budget, MARKER);
  }

  // ----- what the truncation keeps -----

  function Lost(notices: seq<Notice>): int {
    if notices == [] then 0 else Lost(notices[..|notices|-1]) + notices[|notices|-1].original - notices[|notices|-1].kept
  }

  function NoticeFor(m: Fields, budget: int, marker: string, j: nat): Notice
    requires j < 3
  {
    Notice(Nth(j), Bytes(m.At(Nth(j))), Bytes(Final(m, budget, marker, j)))
  }

  /** The notices account for every byte that was lost. */
  lemma {:induction false} NoticesAccountForLoss(m: Fields, budget: int, marker: string, k: nat)
    requires k <= 3
    ensures Lost(Notices(m, budget, marker, k)) == Total(m) - Total(Swept(m, budget, marker, k))
    decreases k
  {
    if k > 0 {
      NoticesAccountForLoss(m, budget, marker, k - 1);
      SweptAt(m, budget, marker, k - 1, k - 1);
      TotalAfter(Swept(m, budget, marker, k - 1), Nth(k - 1), Final(m, budget, marker, k - 1));
    }
  }

  function Position(f: Field): nat {
    match f case Logs => 0 case Diff => 1 case SpecBody => 2
  }

  ghost predicate InOrder(notices: seq<Notice>, k: nat) {
    && (forall i :: 0 <= i < |notices| ==> Position(notices[i].field) < k)
    && (forall i, j :: 0 <= i < j < |notices| ==> Position(notices[i].field) < Position(notices[j].field))
  }

  lemma InOrderSnoc(notices: seq<Notice>, k: nat, n: Notice)
    requires InOrder(notices, k) && Position(n.field) == k
    ensures InOrder(notices + [n], k + 1)
  {
  }

  /** Notices come in truncation order, so no field has two. */
  lemma {:induction false} NoticesInOrder(m: Fields, budget: int, marker: string, k: nat)
    requires k <= 3
    ensures InOrder(Notices(m, budget, marker, k), k)
    decreases k
  {
    if k > 0 {
      NoticesInOrder(m, budget, marker, k - 1);
      InOrderSnoc(Notices(m, budget, marker, k - 1), k - 1, NoticeFor(m, budget, marker, k - 1));
    }
  }

  /** Every shortened field has its notice, and nothing else has one. */
  lemma {:induction false} NoticeIffShortened(m: Fields, budget: int, marker: string, k: nat, j: nat)
    requires j < k <= 3
    ensures Touched(m, budget, j) ==> NoticeFor(m, budget, marker, j) in Notices(m, budget, marker, k)
    ensures !Touched(m, budget, j) ==> forall n :: n in Notices(m, budget, marker, k) ==> n.field != Nth(j)
    decreases k
  {
    NoticesInOrder(m, budget, marker, k - 1);
    assert Position(Nth(k-1)) == k - 1 && Position(Nth(j)) == j;
    if j < k - 1 {
      NoticeIffShortened(m, budget, marker, k - 1, j);
    }
  }
}
