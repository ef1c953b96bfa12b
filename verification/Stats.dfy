/** Consumption statistics grouped from journaled invocations, and the buckets that feed the
    provider scores. Durations are real numbers. */
module Stats {
  import opened Domain
  import opened Ordering

  datatype Record = Record(provider: string, role: string, bl: string, library: string, status: string, duration: real, iterations: int)

  // ----- sums over groups -----

  function SumOf<T>(s: seq<T>, f: T -> real): real {
    if s == [] then 0.0 else SumOf(s[..|s|-1], f) + f(s[|s|-1])
  }

  /** The elements with the given key, in order. */
  function Select<T, K(==)>(s: seq<T>, key: T -> K, k: K): seq<T> {
    if s == [] then [] else
      var init := Select(s[..|s|-1], key, k);
      if key(s[|s|-1]) == k then init + [s[|s|-1]] else init
  }

  function SumGroups<T, K(==)>(s: seq<T>, key: T -> K, f: T -> real, ks: seq<K>): real {
    if ks == [] then 0.0 else SumGroups(s, key, f, ks[..|ks|-1]) + SumOf(Select(s, key, ks[|ks|-1]), f)
  }

  lemma SelectSnoc<T, K>(s: seq<T>, x: T, key: T -> K, k: K)
    ensures Select(s + [x], key, k) == if key(x) == k then Select(s, key, k) + [x] else Select(s, key, k)
  {
    assert (s + [x])[..|s|] == s;
  }

  lemma SumSnoc<T>(s: seq<T>, x: T, f: T -> real)
    ensures SumOf(s + [x], f) == SumOf(s, f) + f(x)
  {
    assert (s + [x])[..|s|] == s;
  }

  /** One more element changes the one group it belongs to. */
  lemma {:induction false} GroupsSnoc<T, K>(s: seq<T>, x: T, key: T -> K, f: T -> real, ks: seq<K>)
    requires Distinct(ks)
    ensures SumGroups(s + [x], key, f, ks) == SumGroups(s, key, f, ks) + if key(x) in ks then f(x) else 0.0
    decreases |ks|
  {
    if ks != [] {
      var init, k := ks[..|ks|-1], ks[|ks|-1];
      GroupsSnoc(s, x, key, f, init);
      SelectSnoc(s, x, key, k);
      SumSnoc(Select(s, key, k), x, f);
      assert ks == init + [k];
    }
  }

  lemma {:induction false} EmptyGroups<T, K>(key: T -> K, f: T -> real, ks: seq<K>)
    ensures SumGroups([], key, f, ks) == 0.0
    decreases |ks|
  {
    if ks != [] {
      EmptyGroups(key, f, ks[..|ks|-1]);
    }
  }

  /** Grouping conserves every sum: the groups of all keys together hold what the whole holds. */
  lemma {:induction false} GroupingConserves<T, K>(s: seq<T>, key: T -> K, f: T -> real, ks: seq<K>)
    requires Distinct(ks) && forall x :: x in s ==> key(x) in ks
    ensures SumGroups(s, key, f, ks) == SumOf(s, f)
    decreases |s|
  {
    if s == [] {
      EmptyGroups(key, f, ks);
    } else {
      var init, x := s[..|s|-1], s[|s|-1];
      assert s == init + [x];
      GroupingConserves(init, key, f, ks);
      GroupsSnoc(init, x, key, f, ks);
    }
  }

  // ----- groups of invocations -----

  function One(r: Record): real { 1.0 }
  function Duration(r: Record): real { r.duration }
  function Iterations(r: Record): real { r.iterations as real }
  function HasStatus(status: string): Record -> real { (r: Record) => if r.status == status then 1.0 else 0.0 }

  function ByProvider(r: Record): string { r.provider }
  function ByRole(r: Record): string { r.role }
  function ByProviderRole(r: Record): string { r.provider + "/" + r.role }
  function ByItem(r: Record): string { r.bl }
  function ByLibrary(r: Record): string { r.library }

  const INVOCATION_STATUSES: set<string> := {"OK", "EXHAUSTED", "ERROR", "TIMEOUT"}

  datatype GroupStats = GroupStats(key: string, invocations: nat, totalDuration: real, statusCounts: map<string, nat>, iterations: int)

  function CountOf(counts: map<string, nat>, status: string): nat {
    if status in counts then counts[status] else 0
  }

  /** The group's figures are those of its records. */
  ghost predicate Sums(g: GroupStats, records: seq<Record>) {
    && g.invocations as real == SumOf(records, One)
    && g.totalDuration == SumOf(records, Duration)
    && g.iterations as real == SumOf(records, Iterations)
    && (forall status :: CountOf(g.statusCounts, status) as real == SumOf(records, HasStatus(status)))
    && INVOCATION_STATUSES <= g.statusCounts.Keys
  }

  lemma SumsSnoc(g: GroupStats, records: seq<Record>, r: Record)
    requires Sums(g, records)
    ensures Sums(GroupStats(g.key, g.invocations + 1, g.totalDuration + r.duration,
                            g.statusCounts[r.status := CountOf(g.statusCounts, r.status) + 1], g.iterations + r.iterations),
                 records + [r])
  {
    SumSnoc(records, r, One);
    SumSnoc(records, r, Duration);
    SumSnoc(records, r, Iterations);
    forall status {
      SumSnoc(records, r, HasStatus(status));
    }
  }

  method Group(name: string, records: seq<Record>) returns (g: GroupStats)
    ensures g.key == name && Sums(g, records)
  {
    g := GroupStats(name, 0, 0.0, map s | s in INVOCATION_STATUSES :: 0, 0);
    for i := 0 to |records|
      invariant g.key == name && Sums(g, records[..i])
    {
      var r := records[i];
      SumsSnoc(g, records[..i], r);
      assert records[..i+1] == records[..i] + [r];
      g := GroupStats(name, g.invocations + 1, g.totalDuration + r.duration,
                      g.statusCounts[r.status := CountOf(g.statusCounts, r.status) + 1], g.iterations + r.iterations);
    }
    assert records[..|records|] == records;
  }

  type Buckets = map<string, seq<Record>>

  function KeysOf(records: seq<Record>, key: Record -> string): set<string> {
    set r | r in records :: key(r)
  }

  /** The buckets are the groups of the records seen. */
  ghost predicate Holds(buckets: Buckets, records: seq<Record>, key: Record -> string) {
    buckets.Keys == KeysOf(records, key) && forall k :: k in buckets ==> buckets[k] == Select(records, key, k)
  }

  lemma {:induction false} SelectNothing<T, K>(s: seq<T>, key: T -> K, k: K)
    requires forall x :: x in s ==> key(x) != k
    ensures Select(s, key, k) == []
    decreases |s|
  {
    if s != [] {
      SelectNothing(s[..|s|-1], key, k);
    }
  }

  lemma HoldsSnoc(buckets: Buckets, records: seq<Record>, key: Record -> string, r: Record)
    requires Holds(buckets, records, key)
    ensures Holds(buckets[key(r) := (if key(r) in buckets then buckets[key(r)] else []) + [r]], records + [r], key)
  {
    var k, next := key(r), buckets[key(r) := (if key(r) in buckets then buckets[key(r)] else []) + [r]];
    if k !in buckets {
      forall x | x in records ensures key(x) != k {
        assert key(x) in KeysOf(records, key);
      }
      SelectNothing(records, key, k);
    }
    assert KeysOf(records + [r], key) == KeysOf(records, key) + {k};
    forall j | j in next ensures next[j] == Select(records + [r], key, j) {
      SelectSnoc(records, r, key, j);
    }
  }

  /** One group a key, in the order of the keys. */
  ghost predicate Groups(groups: seq<GroupStats>, records: seq<Record>, key: Record -> string) {
    var names := Sorted(KeysOf(records, key));
    |groups| == |names| &&
    forall i :: 0 <= i < |groups| ==> groups[i].key == names[i] && Sums(groups[i], Select(records, key, names[i]))
  }

  method Fill(records: seq<Record>, key: Record -> string) returns (buckets: Buckets)
    ensures Holds(buckets, records, key)
  {
    buckets := map[];
    for i := 0 to |records|
      invariant Holds(buckets, records[..i], key)
    {
      var r := records[i];
      HoldsSnoc(buckets, records[..i], key, r);
      assert records[..i+1] == records[..i] + [r];
      buckets := buckets[key(r) := (if key(r) in buckets then buckets[key(r)] else []) + [r]];
    }
    assert records[..|records|] == records;
  }

  method GroupedBy(records: seq<Record>, key: Record -> string) returns (groups: seq<GroupStats>)
    ensures Groups(groups, records, key)
  {
    var buckets := Fill(records, key);
    var names := Sorted(buckets.Keys);
    groups := [];
    for i := 0 to |names|
      invariant |groups| == i
      invariant forall j :: 0 <= j < i ==> groups[j].key == names[j] && Sums(groups[j], Select(records, key, names[j]))
    {
      assert names[i] in Elems(names);
      var g := Group(names[i], buckets[names[i]]);
      groups := groups + [g];
    }
  }

  datatype Consumption = Consumption(
    total: GroupStats,
    byProvider: seq<GroupStats>,
    byRole: seq<GroupStats>,
    byProviderRole: seq<GroupStats>,
    byItem: seq<GroupStats>,
    byLibrary: seq<GroupStats>)

  method Aggregate(records: seq<Record>) returns (c: Consumption)
    ensures Sums(c.total, records)
    ensures Groups(c.byProvider, records, ByProvider) && Groups(c.byRole, records, ByRole)
    ensures Groups(c.byProviderRole, records, ByProviderRole)
    ensures Groups(c.byItem, records, ByItem) && Groups(c.byLibrary, records, ByLibrary)
  {
    var total := Group("total", records);
    var byProvider := GroupedBy(records, ByProvider);
    var byRole := GroupedBy(records, ByRole);
    var byProviderRole := GroupedBy(records, ByProviderRole);
    var byItem := GroupedBy(records, ByItem);
    var byLibrary := GroupedBy(records, ByLibrary);
    return Consumption(total, byProvider, byRole, byProviderRole, byItem, byLibrary);
  }

  function Invocations(g: GroupStats): real { g.invocations as real }
  function TotalDuration(g: GroupStats): real { g.totalDuration }
  function TotalIterations(g: GroupStats): real { g.iterations as real }
  function StatusTotal(status: string): GroupStats -> real { (g: GroupStats) => CountOf(g.statusCounts, status) as real }

  /** A figure of the groups that measures what `f` measures of the records. */
  lemma {:induction false} SumOfGroups(groups: seq<GroupStats>, records: seq<Record>, key: Record -> string,
                                       names: seq<string>, m: GroupStats -> real, f: Record -> real)
    requires |groups| == |names|
    requires forall i :: 0 <= i < |groups| ==> m(groups[i]) == SumOf(Select(records, key, names[i]), f)
    ensures SumOf(groups, m) == SumGroups(records, key, f, names)
    decreases |groups|
  {
    if groups != [] {
      SumOfGroups(groups[..|groups|-1], records, key, names[..|names|-1], m, f);
    }
  }

  lemma GroupsConserve(groups: seq<GroupStats>, records: seq<Record>, key: Record -> string, m: GroupStats -> real, f: Record -> real)
    requires Groups(groups, records, key)
    requires forall i :: 0 <= i < |groups| ==> m(groups[i]) == SumOf(Select(records, key, groups[i].key), f)
    ensures SumOf(groups, m) == SumOf(records, f)
  {
    var names := Sorted(KeysOf(records, key));
    SumOfGroups(groups, records, key, names, m, f);
    forall x | x in records ensures key(x) in names {
      assert key(x) in Elems(names);
    }
    GroupingConserves(records, key, f, names);
  }

  /** Whatever the grouping, invocations, durations, iterations and the count of every status sum
      to those of the whole. */
  lemma AggregateConserves(groups: seq<GroupStats>, total: GroupStats, records: seq<Record>, key: Record -> string, status: string)
    requires Groups(groups, records, key) && Sums(total, records)
    ensures SumOf(groups, Invocations) == total.invocations as real
    ensures SumOf(groups, TotalDuration) == total.totalDuration
    ensures SumOf(groups, TotalIterations) == total.iterations as real
    ensures SumOf(groups, StatusTotal(status)) == CountOf(total.statusCounts, status) as real
  {
    GroupsConserve(groups, records, key, Invocations, One);
    GroupsConserve(groups, records, key, TotalDuration, Duration);
    GroupsConserve(groups, records, key, TotalIterations, Iterations);
    GroupsConserve(groups, records, key, StatusTotal(status), HasStatus(status));
  }

  // ----- provider and role in one key -----

  /** `key.split("/", 1)` of a key that has a slash. */
  function SplitKey(key: string): (string, string) {
    if key == [] then ("", "")
    else if key[0] == '/' then ("", key[1..])
    else
      var rest := SplitKey(key[1..]);
      ([key[0]] + rest.0, rest.1)
  }

  lemma {:induction false} SplitFirst(provider: string, role: string)
    requires '/' !in provider
    ensures SplitKey(provider + "/" + role) == (provider, role)
    decreases |provider|
  {
    var key := provider + "/" + role;
    if provider == [] {
      assert key[1..] == role;
    } else {
      assert key[1..] == provider[1..] + "/" + role && provider == [provider[0]] + provider[1..];
      SplitFirst(provider[1..], role);
    }
  }

  lemma {:induction false} SplitHasNoSlash(key: string)
    ensures '/' !in SplitKey(key).0
    decreases |key|
  {
    if key != [] && key[0] != '/' {
      SplitHasNoSlash(key[1..]);
    }
  }

  /** Ranking the providers of a role reads the provider back from the group's key, which works
      exactly for providers without a slash in their name. */
  lemma SplitRecoversProvider(provider: string, role: string)
    ensures SplitKey(provider + "/" + role) == (provider, role) <==> '/' !in provider
  {
    SplitHasNoSlash(provider + "/" + role);
    if '/' !in provider {
      SplitFirst(provider, role);
    }
  }

  // ----- the most effective provider of a role -----

  /** The averages a provider is ranked by in one role; better is smaller. */
  datatype Merit = Merit(failure: real, iterations: real, duration: real, provider: string)

  function Average(total: real, invocations: nat): real {
    if invocations == 0 then 0.0 else total / invocations as real
  }

  function MeritOf(g: GroupStats): Merit {
    Merit(-Average(CountOf(g.statusCounts, "OK") as real, g.invocations), Average(g.iterations as real, g.invocations),
          Average(g.totalDuration, g.invocations), SplitKey(g.key).0)
  }

  /** The lexicographic order of the sort key. */
  predicate AtLeast(a: Merit, b: Merit) {
    if a.failure != b.failure then a.failure < b.failure
    else if a.iterations != b.iterations then a.iterations < b.iterations
    else if a.duration != b.duration then a.duration < b.duration
    else Le(a.provider, b.provider)
  }

  lemma AtLeastIsTotal(a: Merit, b: Merit)
    ensures AtLeast(a, b) || AtLeast(b, a)
    ensures AtLeast(a, b) && AtLeast(b, a) ==> a == b
  {
    LeTotal(a.provider, b.provider);
    if Le(a.provider, b.provider) && Le(b.provider, a.provider) {
      LeAntisymmetric(a.provider, b.provider);
    }
  }

  lemma AtLeastIsTransitive(a: Merit, b: Merit, c: Merit)
    requires AtLeast(a, b) && AtLeast(b, c)
    ensures AtLeast(a, c)
  {
    if Le(a.provider, b.provider) && Le(b.provider, c.provider) {
      LeTransitive(a.provider, b.provider, c.provider);
    }
  }

  predicate OfRole(g: GroupStats, role: string) {
    SplitKey(g.key).1 == role
  }

  /** `best` is one of the role's groups, and no other of them ranks before it. */
  ghost predicate IsBest(best: GroupStats, groups: seq<GroupStats>, role: string) {
    && best in groups && OfRole(best, role)
    && forall g :: g in groups && OfRole(g, role) ==> AtLeast(MeritOf(best), MeritOf(g))
  }

  lemma BestSnoc(best: Option<GroupStats>, groups: seq<GroupStats>, g: GroupStats, role: string)
    requires OfRole(g, role)
    requires if best.Some? then IsBest(best.value, groups, role) else forall h :: h in groups ==> !OfRole(h, role)
    ensures best.Some? && AtLeast(MeritOf(best.value), MeritOf(g)) ==> IsBest(best.value, groups + [g], role)
    ensures best.None? || !AtLeast(MeritOf(best.value), MeritOf(g)) ==> IsBest(g, groups + [g], role)
  {
    AtLeastIsTotal(MeritOf(g), MeritOf(g));
    if best.Some? {
      AtLeastIsTotal(MeritOf(best.value), MeritOf(g));
      forall h | h in groups && OfRole(h, role) && AtLeast(MeritOf(g), MeritOf(best.value))
        ensures AtLeast(MeritOf(g), MeritOf(h))
      {
        AtLeastIsTransitive(MeritOf(g), MeritOf(best.value), MeritOf(h));
      }
    }
  }

  /** A higher share of OK invocations, then fewer iterations for each, then shorter ones, then the name. */
  predicate MoreEffective(a: GroupStats, b: GroupStats) {
    var okA, okB := Average(CountOf(a.statusCounts, "OK") as real, a.invocations), Average(CountOf(b.statusCounts, "OK") as real, b.invocations);
    var itA, itB := Average(a.iterations as real, a.invocations), Average(b.iterations as real, b.invocations);
    var durA, durB := Average(a.totalDuration, a.invocations), Average(b.totalDuration, b.invocations);
    && okA >= okB
    && (okA == okB ==> itA <= itB)
    && (okA == okB && itA == itB ==> durA <= durB)
    && (okA == okB && itA == itB && durA == durB ==> Le(SplitKey(a.key).0, SplitKey(b.key).0))
  }

  /** The best group of a role, the first of equals. */
  method MostEffective(groups: seq<GroupStats>, role: string) returns (best: Option<GroupStats>)
    ensures best.Some? ==> IsBest(best.value, groups, role)
    ensures best.Some? ==> forall g :: g in groups && OfRole(g, role) ==> MoreEffective(best.value, g)
    ensures best.None? ==> forall g :: g in groups ==> !OfRole(g, role)
  {
    best := None;
    for i := 0 to |groups|
      invariant if best.Some? then IsBest(best.value, groups[..i], role) else forall g :: g in groups[..i] ==> !OfRole(g, role)
    {
      var g := groups[i];
      assert groups[..i+1] == groups[..i] + [g];
      if OfRole(g, role) {
        BestSnoc(best, groups[..i], g, role);
        if best.None? || !AtLeast(MeritOf(best.value), MeritOf(g)) {
          best := Some(g);
        }
      }
    }
    assert groups[..|groups|] == groups;
  }
}
