/** Statistics per provider, role and item size, with the verdicts imputed to the provider whose
    DEV run they judged. */
module Buckets {
  import opened Domain
  import opened Ordering
  import opened StateStore
  import opened Journal
  import opened Stats
  import Scoring

  // ----- verdicts from the journal -----

  predicate IsGo(k: EventKind) {
    k == TEST_GO || k == REVIEW_GO
  }

  type Counts = map<string, (nat, nat)>

  function Count(counts: Counts, bl: string): (nat, nat) {
    if bl in counts then counts[bl] else (0, 0)
  }

  function Gos(k: Kinds): nat {
    k[TEST_GO] + k[REVIEW_GO]
  }

  function Judged(events: seq<Event>, bl: string): (nat, nat) {
    (Gos(KindsOf(Trace(events, bl, 0))), CountNoGo(events, bl))
  }

  function AddVerdict(c: (nat, nat), k: EventKind): (nat, nat) {
    if IsGo(k) then (c.0 + 1, c.1) else if IsNoGo(k) then (c.0, c.1 + 1) else c
  }

  lemma KindsSnoc(events: seq<Event>, e: Event, bl: string)
    ensures KindsOf(Trace(events + [e], bl, 0)) ==
            KindsOf(Trace(events, bl, 0)) + if e.bl == bl then multiset{e.kind} else multiset{}
  {
    TraceAppend(events, e, bl, 0);
    if e.bl == bl {
      KindsConcat(Trace(events, bl, 0), [e]);
      ReadOne(e);
    }
  }

  lemma AddKind(k: Kinds, kind: EventKind)
    ensures (Gos(k + multiset{kind}), NoGos(k + multiset{kind})) == AddVerdict((Gos(k), NoGos(k)), kind)
  {
  }

  lemma JudgedSnoc(events: seq<Event>, e: Event, bl: string)
    ensures Judged(events + [e], bl) == if e.bl == bl then AddVerdict(Judged(events, bl), e.kind) else Judged(events, bl)
  {
    KindsSnoc(events, e, bl);
    AddKind(KindsOf(Trace(events, bl, 0)), e.kind);
  }

  ghost predicate Counted(counts: Counts, events: seq<Event>) {
    forall bl :: Count(counts, bl) == Judged(events, bl)
  }

  lemma CountedSnoc(counts: Counts, events: seq<Event>, e: Event)
    requires Counted(counts, events)
    ensures Counted(counts[e.bl := AddVerdict(Count(counts, e.bl), e.kind)], events + [e])
    ensures !IsGo(e.kind) && !IsNoGo(e.kind) ==> Counted(counts, events + [e])
  {
    forall bl {
      JudgedSnoc(events, e, bl);
    }
  }

  /** Every item's verdicts, counted once each; the NO GO count is the one the executor holds
      against its iteration cap. */
  method VerdictCountsFromEvents(events: seq<Event>) returns (counts: Counts)
    ensures forall bl :: Count(counts, bl) == (Gos(KindsOf(Trace(events, bl, 0))), CountNoGo(events, bl))
  {
    counts := map[];
    for i := 0 to |events|
      invariant Counted(counts, events[..i])
    {
      var e := events[i];
      CountedSnoc(counts, events[..i], e);
      assert events[..i+1] == events[..i] + [e];
      if IsGo(e.kind) || IsNoGo(e.kind) {
        counts := counts[e.bl := AddVerdict(Count(counts, e.bl), e.kind)];
      }
    }
    assert events[..|events|] == events;
    assert Counted(counts, events);
  }

  // ----- buckets -----

  datatype Key = Key(provider: string, role: string, size: string)

  /** An item's verdicts; the items are listed in the order of the mapping they come from. */
  datatype Verdicts = Verdicts(bl: string, go: int, noGo: int)

  type Sizes = map<string, string>

  function SizeOf(sizes: Sizes, bl: string, default: string): string {
    if bl in sizes then sizes[bl] else default
  }

  function KeyOf(sizes: Sizes, default: string): Record -> Key {
    (r: Record) => Key(r.provider, r.role, SizeOf(sizes, r.bl, default))
  }

  /** The item's last invocation of the DEV role. */
  function LastDev(records: seq<Record>, bl: string): Option<Record> {
    if records == [] then None
    else if records[|records|-1].role == "DEV" && records[|records|-1].bl == bl then Some(records[|records|-1])
    else LastDev(records[..|records|-1], bl)
  }

  /** The bucket an item's verdicts are imputed to, if its DEV role ever ran. */
  function Imputed(records: seq<Record>, sizes: Sizes, default: string): Verdicts -> Option<Key> {
    (v: Verdicts) =>
      var dev := LastDev(records, v.bl);
      if dev.None? then None else Some(Key(dev.value.provider, "DEV", SizeOf(sizes, v.bl, default)))
  }

  function Go(v: Verdicts): real { v.go as real }
  function NoGo(v: Verdicts): real { v.noGo as real }

  function BucketKeys(records: seq<Record>, sizes: Sizes, default: string): set<Key> {
    set r | r in records :: KeyOf(sizes, default)(r)
  }

  /** The bucket accounts for exactly its invocations and the verdicts imputed to it. */
  ghost predicate Accounts(s: Scoring.Stats, records: seq<Record>, verdicts: seq<Verdicts>) {
    && s.samples as real == SumOf(records, One)
    && s.exhausted as real == SumOf(records, HasStatus("EXHAUSTED"))
    && s.totalIterations as real == SumOf(records, Iterations)
    && s.totalDuration == SumOf(records, Duration)
    && s.go as real == SumOf(verdicts, Go)
    && s.noGo as real == SumOf(verdicts, NoGo)
  }

  type Accumulators = map<Key, Scoring.Stats>

  ghost predicate AllAccount(acc: Accumulators, records: seq<Record>, sizes: Sizes, default: string,
                             verdicts: seq<Verdicts>, imputed: Verdicts -> Option<Key>) {
    && acc.Keys == BucketKeys(records, sizes, default)
    && forall k :: k in acc ==> Accounts(acc[k], Select(records, KeyOf(sizes, default), k), Select(verdicts, imputed, Some(k)))
  }

  const EMPTY := Scoring.Stats(0, 0, 0, 0, 0, 0.0)

  function AddRecord(s: Scoring.Stats, r: Record): Scoring.Stats {
    s.(samples := s.samples + 1, exhausted := s.exhausted + (if r.status == "EXHAUSTED" then 1 else 0),
       totalIterations := s.totalIterations + r.iterations, totalDuration := s.totalDuration + r.duration)
  }

  function AddVerdicts(s: Scoring.Stats, v: Verdicts): Scoring.Stats {
    s.(go := s.go + v.go, noGo := s.noGo + v.noGo)
  }

  lemma RecordAccounts(s: Scoring.Stats, records: seq<Record>, verdicts: seq<Verdicts>, r: Record)
    requires Accounts(s, records, verdicts)
    ensures Accounts(AddRecord(s, r), records + [r], verdicts)
  {
    SumSnoc(records, r, One);
    SumSnoc(records, r, HasStatus("EXHAUSTED"));
    SumSnoc(records, r, Iterations);
    SumSnoc(records, r, Duration);
  }

  lemma VerdictsAccount(s: Scoring.Stats, records: seq<Record>, verdicts: seq<Verdicts>, v: Verdicts)
    requires Accounts(s, records, verdicts)
    ensures Accounts(AddVerdicts(s, v), records, verdicts + [v])
  {
    SumSnoc(verdicts, v, Go);
    SumSnoc(verdicts, v, NoGo);
  }

  function Entry(acc: Accumulators, k: Key): Scoring.Stats {
    if k in acc then acc[k] else EMPTY
  }

  lemma EntryAccounts(acc: Accumulators, records: seq<Record>, sizes: Sizes, default: string, imputed: Verdicts -> Option<Key>, k: Key)
    requires AllAccount(acc, records, sizes, default, [], imputed)
    ensures Accounts(Entry(acc, k), Select(records, KeyOf(sizes, default), k), [])
  {
    var key := KeyOf(sizes, default);
    if k !in acc {
      forall x | x in records ensures key(x) != k {
        assert key(x) in BucketKeys(records, sizes, default);
      }
      SelectNothing(records, key, k);
      assert Accounts(EMPTY, [], []);
    }
  }

  lemma RecordKeepsOne(acc: Accumulators, records: seq<Record>, sizes: Sizes, default: string, imputed: Verdicts -> Option<Key>, r: Record, j: Key)
    requires AllAccount(acc, records, sizes, default, [], imputed) && (j in acc || j == KeyOf(sizes, default)(r))
    ensures var k := KeyOf(sizes, default)(r);
            Accounts(if j == k then AddRecord(Entry(acc, k), r) else acc[j], Select(records + [r], KeyOf(sizes, default), j), [])
  {
    var key := KeyOf(sizes, default);
    SelectSnoc(records, r, key, j);
    if j == key(r) {
      EntryAccounts(acc, records, sizes, default, imputed, j);
      RecordAccounts(Entry(acc, j), Select(records, key, j), [], r);
    }
  }

  lemma RecordKeepsAll(acc: Accumulators, records: seq<Record>, sizes: Sizes, default: string, imputed: Verdicts -> Option<Key>, r: Record)
    requires AllAccount(acc, records, sizes, default, [], imputed)
    ensures var k := KeyOf(sizes, default)(r);
            AllAccount(acc[k := AddRecord(Entry(acc, k), r)], records + [r], sizes, default, [], imputed)
  {
    var key := KeyOf(sizes, default);
    var k := key(r);
    var next := acc[k := AddRecord(Entry(acc, k), r)];
    assert BucketKeys(records + [r], sizes, default) == BucketKeys(records, sizes, default) + {k};
    forall j | j in next ensures Accounts(next[j], Select(records + [r], key, j), Select([], imputed, Some(j))) {
      RecordKeepsOne(acc, records, sizes, default, imputed, r, j);
    }
  }

  lemma LastDevOneMore(records: seq<Record>, r: Record, bl: string)
    ensures LastDev(records + [r], bl) == if r.role == "DEV" && r.bl == bl then Some(r) else LastDev(records, bl)
  {
    assert (records + [r])[..|records|] == records;
  }

  method Accumulate(records: seq<Record>, sizes: Sizes, default: string, ghost imputed: Verdicts -> Option<Key>)
    returns (acc: Accumulators, lastDev: map<string, Record>)
    ensures AllAccount(acc, records, sizes, default, [], imputed)
    ensures forall bl :: (if bl in lastDev then Some(lastDev[bl]) else None) == LastDev(records, bl)
  {
    acc, lastDev := map[], map[];
    for i := 0 to |records|
      invariant AllAccount(acc, records[..i], sizes, default, [], imputed)
      invariant forall bl :: (if bl in lastDev then Some(lastDev[bl]) else None) == LastDev(records[..i], bl)
    {
      var r := records[i];
      RecordKeepsAll(acc, records[..i], sizes, default, imputed, r);
      assert records[..i+1] == records[..i] + [r];
      forall bl {
        LastDevOneMore(records[..i], r, bl);
      }
      var k := KeyOf(sizes, default)(r);
      acc := acc[k := AddRecord(Entry(acc, k), r)];
      if r.role == "DEV" {
        lastDev := lastDev[r.bl := r];
      }
    }
    assert records[..|records|] == records;
  }

  /** The bucket verdicts are imputed to always exists: it holds the DEV run they judged. */
  lemma {:induction false} ImputedBucketExists(records: seq<Record>, sizes: Sizes, default: string, v: Verdicts)
    ensures var k := Imputed(records, sizes, default)(v);
            k.Some? ==> k.value in BucketKeys(records, sizes, default)
    decreases |records|
  {
    if records != [] {
      var last := records[|records|-1];
      if last.role == "DEV" && last.bl == v.bl {
        assert KeyOf(sizes, default)(last) in BucketKeys(records, sizes, default);
      } else {
        ImputedBucketExists(records[..|records|-1], sizes, default, v);
        assert BucketKeys(records[..|records|-1], sizes, default) <= BucketKeys(records, sizes, default);
      }
    }
  }

  lemma VerdictsKeepAll(acc: Accumulators, records: seq<Record>, sizes: Sizes, default: string,
                        verdicts: seq<Verdicts>, imputed: Verdicts -> Option<Key>, v: Verdicts)
    requires AllAccount(acc, records, sizes, default, verdicts, imputed)
    requires imputed(v).Some? ==> imputed(v).value in acc
    ensures var next := if imputed(v).Some? then acc[imputed(v).value := AddVerdicts(acc[imputed(v).value], v)] else acc;
            AllAccount(next, records, sizes, default, verdicts + [v], imputed)
  {
    var key := KeyOf(sizes, default);
    if imputed(v).Some? {
      var k := imputed(v).value;
      VerdictsAccount(acc[k], Select(records, key, k), Select(verdicts, imputed, Some(k)), v);
    }
    forall j | j in acc ensures Select(verdicts + [v], imputed, Some(j)) ==
      if imputed(v) == Some(j) then Select(verdicts, imputed, Some(j)) + [v] else Select(verdicts, imputed, Some(j))
    {
      SelectSnoc(verdicts, v, imputed, Some(j));
    }
  }

  /** Every bucket holds exactly its invocations, and exactly the verdicts of the items whose last
      DEV run belongs to it. */
  method ProviderRoleSizeStats(records: seq<Record>, sizes: Sizes, verdicts: seq<Verdicts>, default: string) returns (acc: Accumulators)
    ensures AllAccount(acc, records, sizes, default, verdicts, Imputed(records, sizes, default))
  {
    ghost var imputed := Imputed(records, sizes, default);
    var lastDev;
    acc, lastDev := Accumulate(records, sizes, default, imputed);
    for i := 0 to |verdicts|
      invariant AllAccount(acc, records, sizes, default, verdicts[..i], imputed)
    {
      var v := verdicts[i];
      ImputedBucketExists(records, sizes, default, v);
      VerdictsKeepAll(acc, records, sizes, default, verdicts[..i], imputed, v);
      assert verdicts[..i+1] == verdicts[..i] + [v];
      if v.bl in lastDev {
        assert LastDev(records, v.bl) == Some(lastDev[v.bl]);
        var k := Key(lastDev[v.bl].provider, "DEV", SizeOf(sizes, v.bl, default));
        acc := acc[k := AddVerdicts(acc[k], v)];
      } else {
        assert LastDev(records, v.bl) == None;
      }
    }
    assert verdicts[..|verdicts|] == verdicts;
  }

  // ----- what the buckets guarantee -----

  function Somes<K>(ks: seq<K>): (r: seq<Option<K>>)
    ensures |r| == |ks| && forall i :: 0 <= i < |ks| ==> r[i] == Some(ks[i])
  {
    seq(|ks|, i requires 0 <= i < |ks| => Some(ks[i]))
  }

  /** The verdicts of an item whose DEV role ran; the rest are imputed to nobody. */
  function IfImputed(imputed: Verdicts -> Option<Key>, f: Verdicts -> real): Verdicts -> real {
    (v: Verdicts) => if imputed(v).Some? then f(v) else 0.0
  }

  lemma {:induction false} ImputedGroupsSum(verdicts: seq<Verdicts>, imputed: Verdicts -> Option<Key>, f: Verdicts -> real, ks: seq<Key>)
    requires Distinct(ks) && forall v :: v in verdicts && imputed(v).Some? ==> imputed(v).value in ks
    ensures SumGroups(verdicts, imputed, f, Somes(ks)) == SumOf(verdicts, IfImputed(imputed, f))
    decreases |verdicts|
  {
    if verdicts == [] {
      EmptyGroups(imputed, f, Somes(ks));
    } else {
      var init, v := verdicts[..|verdicts|-1], verdicts[|verdicts|-1];
      assert verdicts == init + [v];
      ImputedGroupsSum(init, imputed, f, ks);
      assert Distinct(Somes(ks));
      GroupsSnoc(init, v, imputed, f, Somes(ks));
      SumSnoc(init, v, IfImputed(imputed, f));
      assert imputed(v) in Somes(ks) <==> imputed(v).Some? by {
        if imputed(v).Some? {
          var i :| 0 <= i < |ks| && ks[i] == imputed(v).value;
          assert Somes(ks)[i] == imputed(v);
        }
      }
    }
  }

  function GoCount(s: Scoring.Stats): real { s.go as real }
  function NoGoCount(s: Scoring.Stats): real { s.noGo as real }

  function SumBuckets(acc: Accumulators, ks: seq<Key>, m: Scoring.Stats -> real): real
    requires forall k :: k in ks ==> k in acc
  {
    if ks == [] then 0.0 else SumBuckets(acc, ks[..|ks|-1], m) + m(acc[ks[|ks|-1]])
  }

  lemma {:induction false} BucketsSum(acc: Accumulators, verdicts: seq<Verdicts>, imputed: Verdicts -> Option<Key>, ks: seq<Key>,
                                      m: Scoring.Stats -> real, f: Verdicts -> real)
    requires forall k :: k in ks ==> k in acc && m(acc[k]) == SumOf(Select(verdicts, imputed, Some(k)), f)
    ensures SumBuckets(acc, ks, m) == SumGroups(verdicts, imputed, f, Somes(ks))
    decreases |ks|
  {
    if ks != [] {
      BucketsSum(acc, verdicts, imputed, ks[..|ks|-1], m, f);
      assert Somes(ks)[..|ks|-1] == Somes(ks[..|ks|-1]);
    }
  }

  /** Over all buckets, listed in any order, the GO and NO GO counts sum to those of the items whose
      DEV role ran. */
  lemma VerdictsAreConserved(acc: Accumulators, records: seq<Record>, sizes: Sizes, verdicts: seq<Verdicts>, default: string, ks: seq<Key>)
    requires AllAccount(acc, records, sizes, default, verdicts, Imputed(records, sizes, default)) && Lists(ks, acc.Keys)
    ensures forall k :: k in ks ==> k in acc
    ensures SumBuckets(acc, ks, GoCount) == SumOf(verdicts, IfImputed(Imputed(records, sizes, default), Go))
    ensures SumBuckets(acc, ks, NoGoCount) == SumOf(verdicts, IfImputed(Imputed(records, sizes, default), NoGo))
  {
    var imputed := Imputed(records, sizes, default);
    forall k | k in ks ensures k in acc {
      assert k in Elems(ks);
    }
    forall v | v in verdicts && imputed(v).Some? ensures imputed(v).value in ks {
      ImputedBucketExists(records, sizes, default, v);
      assert imputed(v).value in Elems(ks);
    }
    BucketsSum(acc, verdicts, imputed, ks, GoCount, Go);
    BucketsSum(acc, verdicts, imputed, ks, NoGoCount, NoGo);
    ImputedGroupsSum(verdicts, imputed, Go, ks);
    ImputedGroupsSum(verdicts, imputed, NoGo, ks);
  }

  predicate NonNegative(records: seq<Record>, verdicts: seq<Verdicts>) {
    && (forall r :: r in records ==> r.duration >= 0.0 && r.iterations >= 0)
    && (forall v :: v in verdicts ==> v.go >= 0 && v.noGo >= 0)
  }

  lemma {:induction false} SelectIsPart<T, K>(s: seq<T>, key: T -> K, k: K)
    ensures forall x :: x in Select(s, key, k) ==> x in s
    decreases |s|
  {
    if s != [] {
      SelectIsPart(s[..|s|-1], key, k);
    }
  }

  lemma {:induction false} SumBelow<T>(s: seq<T>, f: T -> real, g: T -> real)
    requires forall x :: x in s ==> 0.0 <= f(x) <= g(x)
    ensures 0.0 <= SumOf(s, f) <= SumOf(s, g)
    decreases |s|
  {
    if s != [] {
      SumBelow(s[..|s|-1], f, g);
    }
  }

  /** On non-negative input every bucket is fit to be scored, so every score lies in [0, 1]. */
  lemma BucketsScoreWithinBounds(acc: Accumulators, records: seq<Record>, sizes: Sizes, verdicts: seq<Verdicts>, default: string, k: Key)
    requires AllAccount(acc, records, sizes, default, verdicts, Imputed(records, sizes, default))
    requires NonNegative(records, verdicts) && k in acc
    ensures Scoring.WellFormed(acc[k]) && 0.0 <= Scoring.Score(acc[k]) <= 1.0
  {
    var own, judged := Select(records, KeyOf(sizes, default), k), Select(verdicts, Imputed(records, sizes, default), Some(k));
    SelectIsPart(records, KeyOf(sizes, default), k);
    SelectIsPart(verdicts, Imputed(records, sizes, default), Some(k));
    SumBelow(own, HasStatus("EXHAUSTED"), One);
    SumBelow(own, Iterations, Iterations);
    SumBelow(own, Duration, Duration);
    SumBelow(judged, Go, Go);
    SumBelow(judged, NoGo, NoGo);
    Scoring.ScoreIsBounded(acc[k]);
  }
}
