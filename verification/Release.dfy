/** The gate a library version passes before it is tagged, and what its verdict does to the plan. */
module Release {
  import opened Domain
  import opened Ordering
  import opened Text
  import opened Versions
  import opened StateStore
  import opened SpecIndex
  import opened GraphUpdates

  /** `normalize_version` of the release phase: one leading `v` goes, then the surrounding space. */
  function Normalize(version: string): string {
    Strip(if version != [] && version[0] == 'v' then version[1..] else version)
  }

  function VersionTag(version: string): string {
    "v" + Normalize(version)
  }

  // ----- what a version consists of -----

  datatype UC = UC(id: string, library: string, targetVersion: Option<string>, hasAuto: bool, judged: seq<string>)

  datatype FEAT = FEAT(id: string, library: string, targetVersion: string, uc: string, hasAuto: bool, judged: seq<string>)

  /** A backlog item under its feature. */
  datatype Item = Item(bl: BL, feat: string)

  datatype Specs = Specs(ucs: seq<UC>, feats: seq<FEAT>, items: seq<Item>)

  function Backlog(items: seq<Item>): seq<BL> {
    if items == [] then [] else Backlog(items[..|items|-1]) + [items[|items|-1].bl]
  }

  predicate InVersion(bl: BL, library: string, version: string) {
    bl.library == library && Normalize(bl.targetVersion) == Normalize(version)
  }

  function ItemsFor(items: seq<Item>, library: string, version: string): seq<string> {
    if items == [] then [] else
      var init, bl := ItemsFor(items[..|items|-1], library, version), items[|items|-1].bl;
      if InVersion(bl, library, version) then init + [bl.id] else init
  }

  /** Every item of the version is DONE, and there is one. */
  predicate IsComplete(specs: Specs, st: StatusMap, library: string, version: string) {
    var ids := ItemsFor(specs.items, library, version);
    ids != [] && forall id :: id in ids ==> Has(st, id, DONE)
  }

  function FaultyForFeat(items: seq<Item>, feat: string): seq<string> {
    if items == [] then [] else
      var init := FaultyForFeat(items[..|items|-1], feat);
      if items[|items|-1].feat == feat then init + [items[|items|-1].bl.id] else init
  }

  function FaultyForUc(specs: Specs, uc: string, library: string, version: string): seq<string> {
    Sorted(set f, id | f in specs.feats && f.uc == uc && f.library == library && Normalize(f.targetVersion) == Normalize(version)
                       && id in FaultyForFeat(specs.items, f.id) :: id)
  }

  // ----- gates and criteria -----

  datatype Kind = UC_GATE | FEAT_GATE | INTEGRATION_GATE

  /** What one specification asks of the version, and whom to blame. */
  datatype Gate = Gate(id: string, kind: Kind, hasAuto: bool, judged: seq<string>, faulty: seq<string>)

  datatype AutoReport = AutoReport(verdict: Verdict, motifs: seq<string>)

  /** The answers of the automatic gates, by specification, and the recorded judgements, by
      specification and number; a judgement that was not recorded counts as NO GO. */
  datatype Answers = Answers(auto: string -> AutoReport, judged: (string, nat) -> Option<Verdict>)

  datatype Criterion = Criterion(gate: string, number: nat, kind: Kind, verdict: Verdict, motifs: seq<string>, faulty: seq<string>)

  datatype Report = Report(verdict: Verdict, criteria: seq<Criterion>, motifs: seq<string>)

  function Judgement(a: Answers, id: string, number: nat): Verdict {
    var v := a.judged(id, number);
    if v.Some? then v.value else NO_GO
  }

  function Blamed(v: Verdict, faulty: seq<string>): seq<string> {
    if v == NO_GO then faulty else []
  }

  /** Criterion 0 is the gate's automatic one, the others its judged ones from 1. */
  function AutoCriterion(g: Gate, a: Answers): Criterion {
    var report := a.auto(g.id);
    Criterion(g.id, 0, g.kind, report.verdict, report.motifs, Blamed(report.verdict, g.faulty))
  }

  function JudgedCriterion(g: Gate, a: Answers, number: nat): Criterion
    requires 1 <= number <= |g.judged|
  {
    var v := Judgement(a, g.id, number);
    Criterion(g.id, number, g.kind, v, if v == GO then [] else ["ai_judged not GO: " + g.judged[number - 1]], Blamed(v, g.faulty))
  }

  /** The gate's criteria as if none stopped the evaluation: the first `n` judged ones. */
  function CriteriaUpTo(g: Gate, a: Answers, n: nat): seq<Criterion>
    requires n <= |g.judged|
  {
    if n == 0 then if g.hasAuto then [AutoCriterion(g, a)] else []
    else CriteriaUpTo(g, a, n - 1) + [JudgedCriterion(g, a, n)]
  }

  function Criteria(gates: seq<Gate>, a: Answers): seq<Criterion> {
    if gates == [] then [] else
      var last := gates[|gates|-1];
      Criteria(gates[..|gates|-1], a) + CriteriaUpTo(last, a, |last.judged|)
  }

  /** The gate holds, said without criteria. */
  ghost predicate Green(g: Gate, a: Answers) {
    && (g.hasAuto ==> a.auto(g.id).verdict == GO)
    && forall n :: 1 <= n <= |g.judged| ==> a.judged(g.id, n) == Some(GO)
  }

  ghost predicate AllGreen(gates: seq<Gate>, a: Answers) {
    forall g :: g in gates ==> Green(g, a)
  }

  predicate AllGo(c: seq<Criterion>) {
    forall i :: 0 <= i < |c| ==> c[i].verdict == GO
  }

  /** The criteria up to the first NO GO, that one included. */
  function UpToNoGo(c: seq<Criterion>): seq<Criterion> {
    if c == [] then [] else
      var init := UpToNoGo(c[..|c|-1]);
      if AllGo(c[..|c|-1]) then init + [c[|c|-1]] else init
  }

  lemma {:induction false} UpToNoGoOfGo(c: seq<Criterion>)
    requires AllGo(c)
    ensures UpToNoGo(c) == c
    decreases |c|
  {
    if c != [] {
      UpToNoGoOfGo(c[..|c|-1]);
    }
  }

  /** At most one NO GO is reported, and it comes last. */
  lemma {:induction false} NoGoComesLast(c: seq<Criterion>)
    ensures UpToNoGo(c) <= c
    ensures forall i :: 0 <= i < |UpToNoGo(c)| - 1 ==> UpToNoGo(c)[i].verdict == GO
    ensures AllGo(UpToNoGo(c)) <==> AllGo(c)
    ensures AllGo(c) ==> UpToNoGo(c) == c
    decreases |c|
  {
    if c != [] {
      var init := c[..|c|-1];
      NoGoComesLast(init);
      assert c == init + [c[|c|-1]];
    }
  }

  lemma AllGoConcat(c: seq<Criterion>, d: seq<Criterion>)
    ensures AllGo(c + d) <==> AllGo(c) && AllGo(d)
  {
    if AllGo(c + d) {
      assert forall i :: 0 <= i < |c| ==> c[i] == (c + d)[i];
      assert forall i :: 0 <= i < |d| ==> d[i] == (c + d)[|c| + i];
    }
  }

  lemma {:induction false} UpToNoGoIsWithin(c: seq<Criterion>)
    ensures forall x :: x in UpToNoGo(c) ==> x in c
    decreases |c|
  {
    if c != [] {
      UpToNoGoIsWithin(c[..|c|-1]);
    }
  }

  lemma {:induction false} UpToNoGoConcat(c: seq<Criterion>, d: seq<Criterion>)
    ensures UpToNoGo(c + d) == if AllGo(c) then c + UpToNoGo(d) else UpToNoGo(c)
    decreases |d|
  {
    if d == [] {
      assert c + d == c;
      NoGoComesLast(c);
    } else {
      var init, last := d[..|d|-1], d[|d|-1];
      assert (c + d)[..|c + d|-1] == c + init;
      UpToNoGoConcat(c, init);
      AllGoConcat(c, init);
    }
  }

  lemma AllGoOne(x: Criterion)
    ensures AllGo([x]) <==> x.verdict == GO
  {
    assert [x][0] == x;
  }

  lemma {:induction false} CriteriaOfGate(g: Gate, a: Answers, n: nat)
    requires n <= |g.judged|
    ensures AllGo(CriteriaUpTo(g, a, n)) <==>
            (g.hasAuto ==> a.auto(g.id).verdict == GO) && forall k :: 1 <= k <= n ==> a.judged(g.id, k) == Some(GO)
    decreases n
  {
    if n > 0 {
      CriteriaOfGate(g, a, n - 1);
      AllGoConcat(CriteriaUpTo(g, a, n - 1), [JudgedCriterion(g, a, n)]);
      AllGoOne(JudgedCriterion(g, a, n));
    } else if g.hasAuto {
      AllGoOne(AutoCriterion(g, a));
    }
  }

  lemma GreenIff(g: Gate, a: Answers)
    ensures Green(g, a) <==> AllGo(CriteriaUpTo(g, a, |g.judged|))
  {
    CriteriaOfGate(g, a, |g.judged|);
  }

  lemma {:induction false} AllGoMeansAllGreen(gates: seq<Gate>, a: Answers)
    ensures AllGo(Criteria(gates, a)) <==> AllGreen(gates, a)
    decreases |gates|
  {
    if gates != [] {
      var init, last := gates[..|gates|-1], gates[|gates|-1];
      AllGoMeansAllGreen(init, a);
      AllGoConcat(Criteria(init, a), CriteriaUpTo(last, a, |last.judged|));
      assert forall g :: g in gates <==> g in init || g == last;
      GreenIff(last, a);
    }
  }

  lemma CriteriaOneMore(gates: seq<Gate>, g: Gate, a: Answers)
    ensures Criteria(gates + [g], a) == Criteria(gates, a) + CriteriaUpTo(g, a, |g.judged|)
  {
    assert (gates + [g])[..|gates|] == gates;
  }

  lemma Regroup<T>(x: seq<T>, y: seq<T>, z: seq<T>)
    ensures x + y + z == x + (y + z)
  {
  }

  lemma Rejoin<T>(s: seq<T>)
    requires s != []
    ensures s[..|s|-1] + [s[|s|-1]] == s
  {
  }

  lemma CriteriaConcatStep(g: seq<Gate>, init: seq<Gate>, last: Gate, a: Answers)
    requires Criteria(g + init, a) == Criteria(g, a) + Criteria(init, a)
    ensures Criteria(g + (init + [last]), a) == Criteria(g, a) + Criteria(init + [last], a)
  {
    Regroup(g, init, [last]);
    CriteriaOneMore(g + init, last, a);
    CriteriaOneMore(init, last, a);
    Regroup(Criteria(g, a), Criteria(init, a), CriteriaUpTo(last, a, |last.judged|));
  }

  lemma CriteriaConcatNothing(g: seq<Gate>, a: Answers)
    ensures Criteria(g + [], a) == Criteria(g, a) + Criteria([], a)
  {
    assert g + [] == g && Criteria(g, a) + [] == Criteria(g, a);
  }

  lemma {:induction false} CriteriaConcat(g: seq<Gate>, h: seq<Gate>, a: Answers)
    ensures Criteria(g + h, a) == Criteria(g, a) + Criteria(h, a)
    decreases |h|
  {
    if h == [] {
      CriteriaConcatNothing(g, a);
    } else {
      CriteriaConcat(g, h[..|h|-1], a);
      CriteriaConcatStep(g, h[..|h|-1], h[|h|-1], a);
      Rejoin(h);
    }
  }

  lemma NoGoStays(c: seq<Criterion>, x: Criterion)
    requires !AllGo(c)
    ensures UpToNoGo(c + [x]) == UpToNoGo(c) && !AllGo(c + [x])
  {
    UpToNoGoConcat(c, [x]);
    AllGoConcat(c, [x]);
  }

  /** Nothing after a NO GO changes what is reported. */
  lemma {:induction false} StoppedEarly(g: Gate, a: Answers, n: nat, m: nat)
    requires n <= m <= |g.judged| && !AllGo(CriteriaUpTo(g, a, n))
    ensures UpToNoGo(CriteriaUpTo(g, a, m)) == UpToNoGo(CriteriaUpTo(g, a, n)) && !AllGo(CriteriaUpTo(g, a, m))
    decreases m
  {
    if n < m {
      StoppedEarly(g, a, n, m - 1);
      NoGoStays(CriteriaUpTo(g, a, m - 1), JudgedCriterion(g, a, m));
    }
  }

  lemma FirstNoGo(c: seq<Criterion>, x: Criterion)
    requires AllGo(c) && x.verdict == NO_GO
    ensures UpToNoGo(c + [x]) == c + [x] && !AllGo(c + [x])
  {
    UpToNoGoConcat(c, [x]);
    assert UpToNoGo([x]) == UpToNoGo([]) + [x];
    assert (c + [x])[|c|] == x;
  }

  // ----- evaluation -----

  lemma NoGoAlone(x: Criterion)
    requires x.verdict == NO_GO
    ensures UpToNoGo([x]) == [x] && !AllGo([x])
  {
    assert [x][..0] == [] && [x][0] == x;
  }

  lemma StopsAtAuto(g: Gate, a: Answers)
    requires g.hasAuto && AutoCriterion(g, a).verdict == NO_GO
    ensures UpToNoGo(CriteriaUpTo(g, a, |g.judged|)) == [AutoCriterion(g, a)]
  {
    NoGoAlone(AutoCriterion(g, a));
    StoppedEarly(g, a, 0, |g.judged|);
  }

  lemma StopsAtJudged(g: Gate, a: Answers, i: nat)
    requires i < |g.judged| && AllGo(CriteriaUpTo(g, a, i)) && JudgedCriterion(g, a, i + 1).verdict == NO_GO
    ensures UpToNoGo(CriteriaUpTo(g, a, |g.judged|)) == CriteriaUpTo(g, a, i) + [JudgedCriterion(g, a, i + 1)]
  {
    FirstNoGo(CriteriaUpTo(g, a, i), JudgedCriterion(g, a, i + 1));
    StoppedEarly(g, a, i + 1, |g.judged|);
  }

  /** The automatic gate first, then the judgements, up to the first NO GO. */
  method EvaluateSpecGates(g: Gate, a: Answers) returns (results: seq<Criterion>)
    ensures results == UpToNoGo(CriteriaUpTo(g, a, |g.judged|))
  {
    results := [];
    if g.hasAuto {
      var x := AutoCriterion(g, a);
      results := [x];
      if x.verdict == NO_GO {
        StopsAtAuto(g, a);
        return;
      }
    }
    for i := 0 to |g.judged|
      invariant results == CriteriaUpTo(g, a, i) && AllGo(results)
    {
      var x := JudgedCriterion(g, a, i + 1);
      results := results + [x];
      if x.verdict == NO_GO {
        StopsAtJudged(g, a, i);
        return;
      }
    }
    NoGoComesLast(results);
  }

  predicate EndsNoGo(c: seq<Criterion>) {
    c != [] && c[|c|-1].verdict == NO_GO
  }

  lemma EndsNoGoMeans(c: seq<Criterion>)
    ensures EndsNoGo(UpToNoGo(c)) <==> !AllGo(c)
  {
    NoGoComesLast(c);
  }

  lemma RestIgnored(gates: seq<Gate>, a: Answers, n: nat)
    requires n <= |gates| && !AllGo(Criteria(gates[..n], a))
    ensures UpToNoGo(Criteria(gates, a)) == UpToNoGo(Criteria(gates[..n], a)) && !AllGo(Criteria(gates, a))
  {
    assert gates == gates[..n] + gates[n..];
    CriteriaConcat(gates[..n], gates[n..], a);
    UpToNoGoConcat(Criteria(gates[..n], a), Criteria(gates[n..], a));
    AllGoConcat(Criteria(gates[..n], a), Criteria(gates[n..], a));
  }

  /** One stage of the gate: its specifications in order, until one ends in NO GO. */
  method EvaluateStage(gates: seq<Gate>, a: Answers) returns (criteria: seq<Criterion>, stopped: bool)
    ensures criteria == UpToNoGo(Criteria(gates, a)) && (stopped <==> !AllGo(Criteria(gates, a)))
  {
    criteria := [];
    for i := 0 to |gates|
      invariant criteria == Criteria(gates[..i], a) && AllGo(criteria)
    {
      assert gates[..i+1][..i] == gates[..i];
      ghost var own := CriteriaUpTo(gates[i], a, |gates[i].judged|);
      var results := EvaluateSpecGates(gates[i], a);
      EndsNoGoMeans(own);
      NoGoComesLast(own);
      UpToNoGoConcat(criteria, own);
      AllGoConcat(criteria, own);
      criteria := criteria + results;
      if EndsNoGo(results) {
        RestIgnored(gates, a, i + 1);
        return criteria, true;
      }
    }
    assert gates[..|gates|] == gates;
    NoGoComesLast(criteria);
    return criteria, false;
  }

  function UcGates(specs: Specs, ucs: seq<UC>, library: string, version: string): seq<Gate> {
    if ucs == [] then [] else
      var init, uc := UcGates(specs, ucs[..|ucs|-1], library, version), ucs[|ucs|-1];
      if uc.library == library && (uc.targetVersion.None? || Normalize(uc.targetVersion.value) == Normalize(version))
      then init + [Gate(uc.id, UC_GATE, uc.hasAuto, uc.judged, FaultyForUc(specs, uc.id, library, version))]
      else init
  }

  function FeatGates(specs: Specs, feats: seq<FEAT>, library: string, version: string): seq<Gate> {
    if feats == [] then [] else
      var init, feat := FeatGates(specs, feats[..|feats|-1], library, version), feats[|feats|-1];
      if feat.library == library && Normalize(feat.targetVersion) == Normalize(version)
      then init + [Gate(feat.id, FEAT_GATE, feat.hasAuto, feat.judged, FaultyForFeat(specs.items, feat.id))]
      else init
  }

  function IntegrationGate(specs: Specs, library: string, version: string, commands: bool): Gate {
    Gate("integration", INTEGRATION_GATE, commands, [], ItemsFor(specs.items, library, version))
  }

  /** Every gate of the version: use cases, features, then integration. The version is normalized
      before it is compared with normalized versions again. */
  function Gates(specs: Specs, library: string, version: string, commands: bool): seq<Gate> {
    var v := Normalize(version);
    UcGates(specs, specs.ucs, library, v) + FeatGates(specs, specs.feats, library, v)
    + [IntegrationGate(specs, library, v, commands)]
  }

  /** A use case is asked for the version when it belongs to the library and to the version or to none. */
  predicate UcConcerns(uc: UC, library: string, version: string) {
    uc.library == library && (uc.targetVersion.None? || Normalize(uc.targetVersion.value) == Normalize(version))
  }

  predicate FeatConcerns(feat: FEAT, library: string, version: string) {
    feat.library == library && Normalize(feat.targetVersion) == Normalize(version)
  }

  /** The use-case gates are those of the use cases that concern the version, and no others. */
  lemma {:induction false} UcGatesAre(specs: Specs, ucs: seq<UC>, library: string, version: string)
    ensures forall g :: g in UcGates(specs, ucs, library, version) <==>
              exists uc :: uc in ucs && UcConcerns(uc, library, version)
                           && g == Gate(uc.id, UC_GATE, uc.hasAuto, uc.judged, FaultyForUc(specs, uc.id, library, version))
    decreases |ucs|
  {
    if ucs != [] {
      UcGatesAre(specs, ucs[..|ucs|-1], library, version);
      assert forall uc :: uc in ucs <==> uc in ucs[..|ucs|-1] || uc == ucs[|ucs|-1];
    }
  }

  /** The same for features. */
  lemma {:induction false} FeatGatesAre(specs: Specs, feats: seq<FEAT>, library: string, version: string)
    ensures forall g :: g in FeatGates(specs, feats, library, version) <==>
              exists feat :: feat in feats && FeatConcerns(feat, library, version)
                             && g == Gate(feat.id, FEAT_GATE, feat.hasAuto, feat.judged, FaultyForFeat(specs.items, feat.id))
    decreases |feats|
  {
    if feats != [] {
      FeatGatesAre(specs, feats[..|feats|-1], library, version);
      assert forall feat :: feat in feats <==> feat in feats[..|feats|-1] || feat == feats[|feats|-1];
    }
  }

  /** The automatic gate of a specification says GO, and every judgement was recorded as GO. */
  predicate Passes(id: string, hasAuto: bool, judged: seq<string>, a: Answers) {
    (hasAuto ==> a.auto(id).verdict == GO) && forall n :: 1 <= n <= |judged| ==> a.judged(id, n) == Some(GO)
  }

  /** Everything that concerns the version passes, said over the specifications: each use case and
      feature of the library at that version, and the integration commands. */
  ghost predicate VersionPasses(specs: Specs, library: string, version: string, commands: bool, a: Answers) {
    && (forall uc :: uc in specs.ucs && uc.library == library
                     && (uc.targetVersion.None? || Normalize(uc.targetVersion.value) == Normalize(Normalize(version))) ==>
          Passes(uc.id, uc.hasAuto, uc.judged, a))
    && (forall feat :: feat in specs.feats && feat.library == library
                       && Normalize(feat.targetVersion) == Normalize(Normalize(version)) ==>
          Passes(feat.id, feat.hasAuto, feat.judged, a))
    && (commands ==> a.auto("integration").verdict == GO)
  }

  lemma UcsGreen(specs: Specs, library: string, version: string, a: Answers)
    ensures AllGreen(UcGates(specs, specs.ucs, library, version), a) <==>
            forall uc :: uc in specs.ucs && UcConcerns(uc, library, version) ==> Passes(uc.id, uc.hasAuto, uc.judged, a)
  {
    var gates := UcGates(specs, specs.ucs, library, version);
    UcGatesAre(specs, specs.ucs, library, version);
    forall uc | uc in specs.ucs && UcConcerns(uc, library, version)
      ensures Gate(uc.id, UC_GATE, uc.hasAuto, uc.judged, FaultyForUc(specs, uc.id, library, version)) in gates
    {
    }
    forall uc | uc in specs.ucs && UcConcerns(uc, library, version)
      ensures Green(Gate(uc.id, UC_GATE, uc.hasAuto, uc.judged, FaultyForUc(specs, uc.id, library, version)), a) <==>
              Passes(uc.id, uc.hasAuto, uc.judged, a)
    {
    }
  }

  lemma FeatsGreen(specs: Specs, library: string, version: string, a: Answers)
    ensures AllGreen(FeatGates(specs, specs.feats, library, version), a) <==>
            forall feat :: feat in specs.feats && FeatConcerns(feat, library, version) ==> Passes(feat.id, feat.hasAuto, feat.judged, a)
  {
    var gates := FeatGates(specs, specs.feats, library, version);
    FeatGatesAre(specs, specs.feats, library, version);
    forall feat | feat in specs.feats && FeatConcerns(feat, library, version)
      ensures Gate(feat.id, FEAT_GATE, feat.hasAuto, feat.judged, FaultyForFeat(specs.items, feat.id)) in gates
    {
    }
    forall feat | feat in specs.feats && FeatConcerns(feat, library, version)
      ensures Green(Gate(feat.id, FEAT_GATE, feat.hasAuto, feat.judged, FaultyForFeat(specs.items, feat.id)), a) <==>
              Passes(feat.id, feat.hasAuto, feat.judged, a)
    {
    }
  }

  lemma GreenConcat(g: seq<Gate>, h: seq<Gate>, a: Answers)
    ensures AllGreen(g + h, a) <==> AllGreen(g, a) && AllGreen(h, a)
  {
    assert forall x :: x in g + h <==> x in g || x in h;
  }

  /** Use cases are asked before features, and the integration suite last. */
  lemma GatesInOrder(specs: Specs, library: string, version: string, commands: bool, i: nat, j: nat)
    requires i < j < |Gates(specs, library, version, commands)|
    ensures var gates := Gates(specs, library, version, commands);
            && gates[i].kind != INTEGRATION_GATE && (gates[i].kind == FEAT_GATE ==> gates[j].kind != UC_GATE)
            && gates[|gates|-1].kind == INTEGRATION_GATE && gates[|gates|-1].id == "integration"
  {
    var v := Normalize(version);
    var ucs, feats := UcGates(specs, specs.ucs, library, v), FeatGates(specs, specs.feats, library, v);
    UcGatesAre(specs, specs.ucs, library, v);
    FeatGatesAre(specs, specs.feats, library, v);
    assert i < |ucs| ==> Gates(specs, library, version, commands)[i] == ucs[i] && ucs[i] in ucs;
    assert |ucs| <= i ==> Gates(specs, library, version, commands)[i] == feats[i - |ucs|] && feats[i - |ucs|] in feats;
    assert |ucs| <= j < |ucs| + |feats| ==> Gates(specs, library, version, commands)[j] == feats[j - |ucs|] && feats[j - |ucs|] in feats;
  }

  /** The gates of a version are all green exactly when everything that concerns it passes. */
  lemma AllGreenMeansPasses(specs: Specs, library: string, version: string, commands: bool, a: Answers)
    ensures AllGreen(Gates(specs, library, version, commands), a) <==> VersionPasses(specs, library, version, commands, a)
  {
    var v := Normalize(version);
    var ucs, feats := UcGates(specs, specs.ucs, library, v), FeatGates(specs, specs.feats, library, v);
    var integration := IntegrationGate(specs, library, v, commands);
    UcsGreen(specs, library, v, a);
    FeatsGreen(specs, library, v, a);
    GreenConcat(ucs + feats, [integration], a);
    GreenConcat(ucs, feats, a);
    assert AllGreen([integration], a) <==> Green(integration, a) by { assert integration in [integration]; }
  }

  function KindName(k: Kind): string {
    match k case UC_GATE => "uc" case FEAT_GATE => "feat" case INTEGRATION_GATE => "integration"
  }

  /** The motifs of the failed criteria, one at least for each. */
  function Motifs(c: seq<Criterion>): seq<string> {
    if c == [] then [] else
      var init, last := Motifs(c[..|c|-1]), c[|c|-1];
      if last.verdict == GO then init
      else init + if last.motifs == [] then [KindName(last.kind) + " gate failed"] else last.motifs
  }

  lemma {:induction false} NoMotifsMeansGo(c: seq<Criterion>)
    ensures Motifs(c) == [] <==> AllGo(c)
    decreases |c|
  {
    if c != [] {
      NoMotifsMeansGo(c[..|c|-1]);
      assert c == c[..|c|-1] + [c[|c|-1]];
    }
  }

  lemma StagesConcat(ucs: seq<Gate>, feats: seq<Gate>, g: Gate, a: Answers)
    ensures var own := CriteriaUpTo(g, a, |g.judged|);
            UpToNoGo(Criteria(ucs + feats + [g], a)) ==
            if !AllGo(Criteria(ucs, a)) then UpToNoGo(Criteria(ucs, a))
            else if !AllGo(Criteria(feats, a)) then Criteria(ucs, a) + UpToNoGo(Criteria(feats, a))
            else Criteria(ucs, a) + Criteria(feats, a) + UpToNoGo(own)
  {
    var own := CriteriaUpTo(g, a, |g.judged|);
    assert (ucs + feats + [g])[..|ucs + feats|] == ucs + feats;
    CriteriaConcat(ucs, feats, a);
    UpToNoGoConcat(Criteria(ucs + feats, a), own);
    UpToNoGoConcat(Criteria(ucs, a), Criteria(feats, a));
    AllGoConcat(Criteria(ucs, a), Criteria(feats, a));
  }

  /** A criterion that is GO blames no item. */
  lemma {:induction false} UpToGoBlamesNoItem(g: Gate, a: Answers, n: nat)
    requires n <= |g.judged|
    ensures forall c :: c in CriteriaUpTo(g, a, n) && c.verdict == GO ==> c.faulty == []
  {
    if n > 0 {
      UpToGoBlamesNoItem(g, a, n - 1);
    }
  }

  lemma {:induction false} GoBlamesNoItem(gates: seq<Gate>, a: Answers)
    ensures forall c :: c in Criteria(gates, a) && c.verdict == GO ==> c.faulty == []
    decreases |gates|
  {
    if gates != [] {
      GoBlamesNoItem(gates[..|gates|-1], a);
      UpToGoBlamesNoItem(gates[|gates|-1], a, |gates[|gates|-1].judged|);
    }
  }

  /** The report lists the criteria in order up to the first NO GO, and says GO exactly when every
      gate of the version is green. */
  method EvaluateVersionGate(specs: Specs, library: string, version: string, commands: bool, a: Answers) returns (report: Report)
    ensures report.criteria == UpToNoGo(Criteria(Gates(specs, library, version, commands), a))
    ensures report.verdict == GO <==> VersionPasses(specs, library, version, commands, a)
    ensures report.verdict == NO_GO <==> EndsNoGo(report.criteria)
    ensures report.motifs == [] <==> report.verdict == GO
    ensures forall c :: c in report.criteria && c.verdict == GO ==> c.faulty == []
  {
    var v := Normalize(version);
    var ucs, feats := UcGates(specs, specs.ucs, library, v), FeatGates(specs, specs.feats, library, v);
    var integration := IntegrationGate(specs, library, v, commands);
    ghost var gates := Gates(specs, library, version, commands);
    StagesConcat(ucs, feats, integration, a);
    var criteria, stopped := EvaluateStage(ucs, a);
    if !stopped {
      NoGoComesLast(Criteria(ucs, a));
      var more;
      more, stopped := EvaluateStage(feats, a);
      criteria := criteria + more;
      if !stopped {
        NoGoComesLast(Criteria(feats, a));
        more := EvaluateSpecGates(integration, a);
        criteria := criteria + more;
      }
    }
    assert criteria == UpToNoGo(Criteria(gates, a));
    NoGoComesLast(Criteria(gates, a));
    NoMotifsMeansGo(criteria);
    GoBlamesNoItem(gates, a);
    UpToNoGoIsWithin(Criteria(gates, a));
    AllGoMeansAllGreen(gates, a);
    AllGreenMeansPasses(specs, library, version, commands, a);
    EndsNoGoMeans(Criteria(gates, a));
    return Report(if Motifs(criteria) == [] then GO else NO_GO, criteria, Motifs(criteria));
  }

  // ----- the release -----

  datatype Outcome =
    | NotReady
    | Released(report: Report, tag: string)
    | Rejected(report: Report, reopened: seq<string>, runnable: seq<string>)
    | Failed

  function FaultyIds(c: seq<Criterion>): set<string> {
    if c == [] then {} else
      var init, last := FaultyIds(c[..|c|-1]), c[|c|-1];
      if last.verdict == NO_GO then init + Elems(last.faulty) else init
  }

  lemma {:induction false} GoBlamesNobody(c: seq<Criterion>)
    requires AllGo(c)
    ensures FaultyIds(c) == {}
    decreases |c|
  {
    if c != [] {
      GoBlamesNobody(c[..|c|-1]);
    }
  }

  /** Only the criterion that stopped the gate is blamed. */
  lemma LastIsBlamed(c: seq<Criterion>)
    requires !AllGo(c)
    ensures var reported := UpToNoGo(c);
            EndsNoGo(reported) && FaultyIds(reported) == Elems(reported[|reported|-1].faulty)
  {
    EndsNoGoMeans(c);
    NoGoComesLast(c);
    var reported := UpToNoGo(c);
    GoBlamesNobody(reported[..|reported|-1]);
  }

  // ----- the gate that rejects -----

  /** The i-th gate rejects: it is the first that is not green. */
  ghost predicate Rejects(gates: seq<Gate>, a: Answers, i: nat) {
    i < |gates| && AllGreen(gates[..i], a) && !Green(gates[i], a)
  }

  lemma {:induction false} SomeGateRejects(gates: seq<Gate>, a: Answers) returns (i: nat)
    requires !AllGreen(gates, a)
    ensures Rejects(gates, a, i)
    decreases |gates|
  {
    var init := gates[..|gates|-1];
    assert forall g :: g in gates <==> g in init || g == gates[|gates|-1];
    if AllGreen(init, a) {
      i := |init|;
    } else {
      i := SomeGateRejects(init, a);
      assert gates[..i] == init[..i];
    }
  }

  lemma {:induction false} NoGoBlamesGate(g: Gate, a: Answers, n: nat)
    requires n <= |g.judged|
    ensures forall c :: c in CriteriaUpTo(g, a, n) && c.verdict == NO_GO ==> c.faulty == g.faulty
    decreases n
  {
    if n > 0 {
      NoGoBlamesGate(g, a, n - 1);
    }
  }

  /** What a gate that is not green reports ends in a NO GO that blames the gate's items. */
  lemma OwnNoGoIsLast(g: Gate, a: Answers)
    requires !Green(g, a)
    ensures var own := UpToNoGo(CriteriaUpTo(g, a, |g.judged|));
            EndsNoGo(own) && own[|own|-1].faulty == g.faulty
  {
    var own := CriteriaUpTo(g, a, |g.judged|);
    GreenIff(g, a);
    EndsNoGoMeans(own);
    UpToNoGoIsWithin(own);
    NoGoBlamesGate(g, a, |g.judged|);
    assert UpToNoGo(own)[|UpToNoGo(own)|-1] in own;
  }

  /** The rejecting gate's criteria come after those of the gates before it, which are all GO. */
  lemma RejectingGateComesLast(gates: seq<Gate>, a: Answers, i: nat)
    requires Rejects(gates, a, i)
    ensures UpToNoGo(Criteria(gates, a)) ==
            Criteria(gates[..i], a) + UpToNoGo(CriteriaUpTo(gates[i], a, |gates[i].judged|))
  {
    var own := CriteriaUpTo(gates[i], a, |gates[i].judged|);
    assert gates[..i+1][..i] == gates[..i];
    AllGoMeansAllGreen(gates[..i], a);
    GreenIff(gates[i], a);
    AllGoConcat(Criteria(gates[..i], a), own);
    RestIgnored(gates, a, i + 1);
    UpToNoGoConcat(Criteria(gates[..i], a), own);
  }

  /** The report ends in the rejecting gate's NO GO, which blames that gate's items. */
  lemma RejectingGateIsReported(gates: seq<Gate>, a: Answers, i: nat)
    requires Rejects(gates, a, i)
    ensures var reported := UpToNoGo(Criteria(gates, a));
            EndsNoGo(reported) && reported[|reported|-1].faulty == gates[i].faulty
  {
    RejectingGateComesLast(gates, a, i);
    OwnNoGoIsLast(gates[i], a);
  }

  /** The gate blames no item of the version. */
  predicate Harmless(specs: Specs, library: string, version: string, g: Gate) {
    forall id :: id in ItemsFor(specs.items, library, version) ==> id !in g.faulty
  }

  /** A rejected version stays complete, and may enter the gate again as it is, exactly when the
      rejecting gate blames none of its items. */
  lemma StillComplete(specs: Specs, before: StatusMap, after: StatusMap, library: string, version: string, g: Gate, reopened: seq<string>)
    requires IsComplete(specs, before, library, version) && after.Keys == before.Keys
    requires forall n :: n in reopened <==> n in g.faulty && Has(before, n, DONE)
    requires forall n :: n in after ==> after[n] == if n in reopened then IN_PROGRESS else before[n]
    ensures IsComplete(specs, after, library, version) <==> Harmless(specs, library, version, g)
  {
    var ids := ItemsFor(specs.items, library, version);
    forall id | id in ids ensures Has(after, id, DONE) <==> id !in g.faulty {
      assert Has(before, id, DONE);
    }
  }

  // Which gates blame none of the version's items, read off the specifications.

  ghost predicate UniqueItems(items: seq<Item>) {
    forall x, y :: x in items && y in items && x.bl.id == y.bl.id ==> x == y
  }

  /** An item of the version stands under the feature. */
  predicate UnderFeat(items: seq<Item>, feat: string, library: string, version: string) {
    exists x :: x in items && x.feat == feat && InVersion(x.bl, library, version)
  }

  /** One stands under some feature of the use case in the version. */
  predicate UnderUc(specs: Specs, uc: string, library: string, version: string) {
    exists f :: f in specs.feats && f.uc == uc && f.library == library && Normalize(f.targetVersion) == Normalize(version)
                && UnderFeat(specs.items, f.id, library, version)
  }

  lemma {:induction false} ItemsForAre(items: seq<Item>, library: string, version: string)
    ensures forall id :: id in ItemsFor(items, library, version) <==>
              exists x :: x in items && x.bl.id == id && InVersion(x.bl, library, version)
    decreases |items|
  {
    if items != [] {
      ItemsForAre(items[..|items|-1], library, version);
      assert forall x :: x in items <==> x in items[..|items|-1] || x == items[|items|-1];
    }
  }

  lemma {:induction false} FaultyForFeatAre(items: seq<Item>, feat: string)
    ensures forall id :: id in FaultyForFeat(items, feat) <==> exists x :: x in items && x.bl.id == id && x.feat == feat
    decreases |items|
  {
    if items != [] {
      FaultyForFeatAre(items[..|items|-1], feat);
      assert forall x :: x in items <==> x in items[..|items|-1] || x == items[|items|-1];
    }
  }

  /** An item of the version is blamed for a feature exactly when one stands under it. */
  lemma FeatBlames(items: seq<Item>, feat: string, library: string, version: string)
    requires UniqueItems(items)
    ensures (exists id :: id in ItemsFor(items, library, version) && id in FaultyForFeat(items, feat)) <==>
            UnderFeat(items, feat, library, version)
  {
    ItemsForAre(items, library, version);
    FaultyForFeatAre(items, feat);
    if UnderFeat(items, feat, library, version) {
      var x :| x in items && x.feat == feat && InVersion(x.bl, library, version);
      assert x.bl.id in ItemsFor(items, library, version) && x.bl.id in FaultyForFeat(items, feat);
    }
  }

  /** The same for a use case and the features under it. */
  lemma UcBlames(specs: Specs, uc: string, library: string, version: string)
    requires UniqueItems(specs.items)
    ensures (exists id :: id in ItemsFor(specs.items, library, version) && id in FaultyForUc(specs, uc, library, version)) <==>
            UnderUc(specs, uc, library, version)
  {
    var ids, faulty := ItemsFor(specs.items, library, version), FaultyForUc(specs, uc, library, version);
    if id :| id in ids && id in faulty {
      assert id in Elems(faulty);
      var f :| f in specs.feats && f.uc == uc && f.library == library && Normalize(f.targetVersion) == Normalize(version)
               && id in FaultyForFeat(specs.items, f.id);
      FeatBlames(specs.items, f.id, library, version);
    }
    if UnderUc(specs, uc, library, version) {
      var f :| f in specs.feats && f.uc == uc && f.library == library && Normalize(f.targetVersion) == Normalize(version)
               && UnderFeat(specs.items, f.id, library, version);
      FeatBlames(specs.items, f.id, library, version);
      var id :| id in ids && id in FaultyForFeat(specs.items, f.id);
      assert id in Elems(faulty);
    }
  }

  lemma SameItems(items: seq<Item>, library: string, version: string, w: string, id: string)
    requires Normalize(version) == Normalize(w)
    ensures id in ItemsFor(items, library, version) <==> id in ItemsFor(items, library, w)
  {
    ItemsForAre(items, library, version);
    ItemsForAre(items, library, w);
  }

  /** The version of each item is as the models validate it. */
  ghost predicate Versioned(items: seq<Item>) {
    forall x :: x in items ==> IsSemVer(x.bl.targetVersion)
  }

  /** A version that some item has is normalized at once. */
  lemma NormalizesOnce(items: seq<Item>, library: string, version: string)
    requires Versioned(items) && ItemsFor(items, library, version) != []
    ensures Normalize(Normalize(version)) == Normalize(version)
  {
    ItemsForAre(items, library, version);
    var id := ItemsFor(items, library, version)[0];
    assert id in ItemsFor(items, library, version);
    var x :| x in items && x.bl.id == id && InVersion(x.bl, library, version);
    var s: SemVer :| s.Writes(x.bl.targetVersion);
    SemVerStands(s, x.bl.targetVersion);
  }

  /** Which gates can reject a version and leave it complete: never integration; a feature or a use
      case exactly when no item of the version stands under it. */
  lemma HarmlessByKind(specs: Specs, library: string, version: string, commands: bool, g: Gate)
    requires UniqueItems(specs.items) && Versioned(specs.items) && ItemsFor(specs.items, library, version) != []
    requires g in Gates(specs, library, version, commands)
    ensures Harmless(specs, library, version, g) <==>
            match g.kind
            case INTEGRATION_GATE => false
            case FEAT_GATE => !UnderFeat(specs.items, g.id, library, version)
            case UC_GATE => !UnderUc(specs, g.id, library, version)
  {
    var v := Normalize(version);
    NormalizesOnce(specs.items, library, version);
    UcGatesAre(specs, specs.ucs, library, v);
    FeatGatesAre(specs, specs.feats, library, v);
    match g.kind {
      case INTEGRATION_GATE =>
        SameItems(specs.items, library, version, v, ItemsFor(specs.items, library, version)[0]);
      case FEAT_GATE =>
        FeatBlames(specs.items, g.id, library, version);
      case UC_GATE =>
        UcBlames(specs, g.id, library, version);
        assert FaultyForUc(specs, g.id, library, v) == FaultyForUc(specs, g.id, library, version);
    }
  }

  lemma SomethingListed(s: seq<string>)
    ensures s != [] ==> Elems(s) != {}
  {
    if s != [] {
      assert s[0] in Elems(s);
    }
  }

  /** The documents that stand behind the specifications. */
  function Documents(specs: Specs): seq<Document> {
    seq(|specs.ucs|, i requires 0 <= i < |specs.ucs| => Document.UseCase(specs.ucs[i].id))
    + seq(|specs.feats|, i requires 0 <= i < |specs.feats| => Document.Feature(specs.feats[i].id, specs.feats[i].uc))
    + seq(|specs.items|, i requires 0 <= i < |specs.items| => Document.Backlog(specs.items[i].bl, specs.items[i].feat))
  }

  /** A use case without features beside one whose only feature holds the only item. */
  function TwoUseCases(): Specs {
    Specs([UC("UC-x-001", "lib", None, true, []), UC("UC-x-002", "lib", None, false, [])],
          [FEAT("FEAT-x-001", "lib", "1.0.0", "UC-x-002", false, [])],
          [Item(BL("BL-x-001", "lib", "1.0.0", [], S, false), "FEAT-x-001")])
  }

  /** Four documents, each under the one before it but for the first. */
  lemma ChainIsConsistent(docs: seq<Document>)
    requires |docs| == 4 && docs[0].UseCase? && docs[1].UseCase? && docs[2].Feature? && docs[3].Backlog?
    requires docs[2].ucParent == docs[1].ucId && docs[3].featParent == docs[2].featId && docs[3].item.dependsOn == []
    requires UniqueIds(docs)
    ensures Consistent(docs)
  {
    assert docs[1] in docs && docs[2] in docs;
    assert docs[1].Id() == docs[1].ucId && docs[2].Id() == docs[2].featId;
  }

  lemma TwoUseCasesAreConsistent()
    ensures Consistent(Documents(TwoUseCases()))
  {
    var docs := Documents(TwoUseCases());
    assert docs[0].Id()[7] == '1' && docs[1].Id()[7] == '2' && docs[2].Id()[0] == 'F' && docs[3].Id()[0] == 'B';
    ChainIsConsistent(docs);
  }

  lemma FirstUseCaseBlamesNobody(v: string)
    requires v == Normalize("1.0.0")
    ensures var specs := TwoUseCases();
            UcGates(specs, specs.ucs[..1], "lib", v) == [Gate("UC-x-001", UC_GATE, true, [], [])]
  {
    var specs := TwoUseCases();
    var faulty := FaultyForUc(specs, "UC-x-001", "lib", v);
    assert specs.feats[0].uc != "UC-x-001" by { assert "UC-x-001"[7] != "UC-x-002"[7]; }
    assert Elems(faulty) == {};
    SomethingListed(faulty);
    assert specs.ucs[..1][..0] == [] && specs.ucs[..1][0] == UC("UC-x-001", "lib", None, true, []);
  }

  lemma OnlyItemOfTwoUseCases()
    ensures ItemsFor(TwoUseCases().items, "lib", "1.0.0") == ["BL-x-001"]
  {
    var items := TwoUseCases().items;
    assert InVersion(items[0].bl, "lib", "1.0.0") && items[..0] == [];
  }

  lemma FirstGateOfTwoUseCases()
    ensures var gates := Gates(TwoUseCases(), "lib", "1.0.0", true);
            gates[0] == Gate("UC-x-001", UC_GATE, true, [], [])
  {
    var specs, v := TwoUseCases(), Normalize("1.0.0");
    FirstUseCaseBlamesNobody(v);
    assert specs.ucs[..|specs.ucs|-1] == specs.ucs[..1];
    assert UcGates(specs, specs.ucs, "lib", v)[0] == UcGates(specs, specs.ucs[..1], "lib", v)[0];
  }

  lemma FirstGateRejects(gates: seq<Gate>, a: Answers)
    requires gates != [] && gates[0].hasAuto && a.auto(gates[0].id).verdict == NO_GO
    ensures Rejects(gates, a, 0)
  {
    assert gates[..0] == [];
  }

  /** Such a release: the only item is DONE, and the use case without features says NO GO. Nothing is
      reopened and the version may enter the gate again as it is. */
  lemma RejectedUntouched()
    ensures var specs := TwoUseCases();
            var a := Answers(_ => AutoReport(NO_GO, []), (_, _) => None);
            var gates := Gates(specs, "lib", "1.0.0", true);
            && Consistent(Documents(specs))
            && IsComplete(specs, map["BL-x-001" := DONE], "lib", "1.0.0")
            && Rejects(gates, a, 0) && Harmless(specs, "lib", "1.0.0", gates[0])
  {
    TwoUseCasesAreConsistent();
    OnlyItemOfTwoUseCases();
    FirstGateOfTwoUseCases();
    FirstGateRejects(Gates(TwoUseCases(), "lib", "1.0.0", true), Answers(_ => AutoReport(NO_GO, []), (_, _) => None));
  }

  /** Whom a gate blames, read off the specifications: the items under a use case at the version, the
      items of a feature, or every item of the version. */
  ghost predicate IsBlamed(specs: Specs, library: string, version: string, g: Gate, n: string) {
    match g.kind
    case UC_GATE =>
      exists f, x :: f in specs.feats && x in specs.items && f.uc == g.id && f.library == library
                     && Normalize(f.targetVersion) == Normalize(Normalize(version)) && x.feat == f.id && x.bl.id == n
    case FEAT_GATE => exists x :: x in specs.items && x.feat == g.id && x.bl.id == n
    case INTEGRATION_GATE =>
      exists x :: x in specs.items && x.bl.library == library
                  && Normalize(x.bl.targetVersion) == Normalize(Normalize(version)) && x.bl.id == n
  }

  lemma FaultyForUcAre(specs: Specs, uc: string, library: string, version: string, n: string)
    ensures n in FaultyForUc(specs, uc, library, version) <==>
            exists f, x :: f in specs.feats && x in specs.items && f.uc == uc && f.library == library
                           && Normalize(f.targetVersion) == Normalize(version) && x.feat == f.id && x.bl.id == n
  {
    var faulty := FaultyForUc(specs, uc, library, version);
    if n in faulty {
      assert n in Elems(faulty);
      var f :| f in specs.feats && f.uc == uc && f.library == library && Normalize(f.targetVersion) == Normalize(version)
               && n in FaultyForFeat(specs.items, f.id);
      FaultyForFeatAre(specs.items, f.id);
    }
    if f, x :| f in specs.feats && x in specs.items && f.uc == uc && f.library == library
               && Normalize(f.targetVersion) == Normalize(version) && x.feat == f.id && x.bl.id == n {
      FaultyForFeatAre(specs.items, f.id);
      assert n in FaultyForFeat(specs.items, f.id);
      assert n in Elems(faulty);
    }
  }

  lemma GatesBlame(specs: Specs, library: string, version: string, commands: bool, g: Gate)
    requires g in Gates(specs, library, version, commands)
    ensures forall n :: n in g.faulty <==> IsBlamed(specs, library, version, g, n)
  {
    var v := Normalize(version);
    UcGatesAre(specs, specs.ucs, library, v);
    FeatGatesAre(specs, specs.feats, library, v);
    forall n ensures n in g.faulty <==> IsBlamed(specs, library, version, g, n) {
      match g.kind
      case UC_GATE => FaultyForUcAre(specs, g.id, library, v, n);
      case FEAT_GATE => FaultyForFeatAre(specs.items, g.id);
      case INTEGRATION_GATE => ItemsForAre(specs.items, library, v);
    }
  }

  /** The version has an item, and each of its items is DONE. */
  ghost predicate VersionDone(specs: Specs, st: StatusMap, library: string, version: string) {
    && (exists x :: x in specs.items && x.bl.library == library && Normalize(x.bl.targetVersion) == Normalize(version))
    && forall x :: x in specs.items && x.bl.library == library && Normalize(x.bl.targetVersion) == Normalize(version) ==>
         Has(st, x.bl.id, DONE)
  }

  lemma CompleteMeansDone(specs: Specs, st: StatusMap, library: string, version: string)
    ensures IsComplete(specs, st, library, version) <==> VersionDone(specs, st, library, version)
  {
    var ids := ItemsFor(specs.items, library, version);
    ItemsForAre(specs.items, library, version);
    assert forall x :: x in specs.items && InVersion(x.bl, library, version) ==> x.bl.id in ids;
    if ids != [] {
      assert ids[0] in ids;
    }
  }

  /** A leading `v` is no part of a version. */
  lemma NormalizeDropsV(version: string)
    requires IsSemVer(version)
    ensures Normalize(version) == version && Normalize("v" + version) == version
  {
    var s: SemVer :| s.Writes(version);
    SemVerStands(s, version);
    assert ("v" + version)[1..] == version;
  }

  /** The tag names the version as its items do. */
  lemma TagNamesVersion(items: seq<Item>, library: string, version: string)
    requires Versioned(items)
    ensures forall x :: x in items && x.bl.library == library && Normalize(x.bl.targetVersion) == Normalize(version) ==>
              VersionTag(version) == "v" + x.bl.targetVersion
  {
    forall x | x in items {
      NormalizeDropsV(x.bl.targetVersion);
    }
  }

  // ----- the call -----

  /** What a rejection by the gate `red` leaves behind. */
  ghost predicate RolledBack(specs: Specs, library: string, version: string, red: Gate, o: Outcome, st: StatusMap, ev: seq<Event>,
                             st1: StatusMap, ev1: seq<Event>)
    requires o.Rejected?
  {
    && (forall n :: n in o.reopened <==> n in red.faulty && Has(st, n, DONE))
    && st1.Keys == st.Keys && (forall n :: n in st1 ==> st1[n] == if n in o.reopened then IN_PROGRESS else st[n])
    && ev1 == ev + Pairs(o.reopened, ROLLED_BACK, RELEASE) + [Event("", ISSUE_OPENED, RELEASE)]
    && o.runnable == RunnableBacklogItems(Backlog(specs.items), st1)
    && (IsComplete(specs, st1, library, version) <==> Harmless(specs, library, version, red))
  }

  /** Blames, reopens and journals. */
  method Reject(db: StateDatabase, specs: Specs, library: string, version: string, report: Report,
                ghost all: seq<Criterion>, ghost red: Gate)
    returns (o: Outcome)
    requires IsComplete(specs, db.statuses, library, version)
    requires report.criteria == UpToNoGo(all) && !AllGo(all)
    requires EndsNoGo(report.criteria) && report.criteria[|report.criteria|-1].faulty == red.faulty
    modifies db
    ensures o.Rejected? && o.report == report
    ensures RolledBack(specs, library, version, red, o, old(db.statuses), old(db.events), db.statuses, db.events)
  {
    LastIsBlamed(all);
    var reopened, runnable := ApplyVersionNoGoSideEffects(db, Backlog(specs.items), FaultyIds(report.criteria));
    StillComplete(specs, old(db.statuses), db.statuses, library, version, red, reopened);
    var _ := db.Append(Event("", ISSUE_OPENED, RELEASE));
    return Rejected(report, reopened, runnable);
  }

  /** Some gate rejects the version, the first that is not green, and rolls back those it blames. */
  ghost predicate RolledBackBySome(gates: seq<Gate>, a: Answers, specs: Specs, library: string, version: string, o: Outcome,
                                   st: StatusMap, ev: seq<Event>, st1: StatusMap, ev1: seq<Event>)
    requires o.Rejected?
  {
    exists i: nat :: Rejects(gates, a, i)
                && (forall n :: n in gates[i].faulty <==> IsBlamed(specs, library, version, gates[i], n))
                && RolledBack(specs, library, version, gates[i], o, st, ev, st1, ev1)
  }

  method RejectVersion(db: StateDatabase, specs: Specs, library: string, version: string, report: Report,
                       ghost commands: bool, ghost a: Answers)
    returns (o: Outcome)
    requires IsComplete(specs, db.statuses, library, version) && !VersionPasses(specs, library, version, commands, a)
    requires report.criteria == UpToNoGo(Criteria(Gates(specs, library, version, commands), a))
    modifies db
    ensures o.Rejected? && o.report == report
    ensures RolledBackBySome(Gates(specs, library, version, commands), a, specs, library, version, o,
                             old(db.statuses), old(db.events), db.statuses, db.events)
  {
    ghost var gates := Gates(specs, library, version, commands);
    AllGoMeansAllGreen(gates, a);
    AllGreenMeansPasses(specs, library, version, commands, a);
    ghost var i := SomeGateRejects(gates, a);
    RejectingGateIsReported(gates, a, i);
    GatesBlame(specs, library, version, commands, gates[i]);
    o := Reject(db, specs, library, version, report, Criteria(gates, a), gates[i]);
  }

  /** The tag names the version as its items do. */
  ghost predicate NamesVersion(tag: string, items: seq<Item>, library: string, version: string) {
    forall x :: x in items && x.bl.library == library && Normalize(x.bl.targetVersion) == Normalize(version) ==>
      tag == "v" + x.bl.targetVersion
  }

  /** Tags the version and publishes its release. */
  method TagVersion(db: StateDatabase, version: string, report: Report, ghost items: seq<Item>, ghost library: string) returns (o: Outcome)
    modifies db
    ensures o == Released(report, VersionTag(version)) && db.statuses == old(db.statuses)
    ensures db.events == old(db.events) + [Event("", TAGGED, INTEGRATOR), Event("", RELEASED, INTEGRATOR)]
    ensures Versioned(items) ==> NamesVersion(o.tag, items, library, version)
  {
    if Versioned(items) {
      TagNamesVersion(items, library, version);
    }
    var _ := db.Append(Event("", TAGGED, INTEGRATOR));
    var _ := db.Append(Event("", RELEASED, INTEGRATOR));
    return Released(report, VersionTag(version));
  }

  /** Tags and releases exactly a version whose items are all DONE and whose gates are all green; a
      version that is not ready changes nothing, nor does one for which git and GitHub cannot be
      reached (`reachable`). Otherwise the first gate that is not green rolls its items back. */
  method ExecuteVersionRelease(db: StateDatabase, specs: Specs, library: string, version: string, commands: bool, a: Answers, reachable: bool)
    returns (o: Outcome)
    modifies db
    ensures o.NotReady? <==> !VersionDone(specs, old(db.statuses), library, version)
    ensures o.Failed? <==> !o.NotReady? && !reachable
    ensures o.Released? <==> !o.NotReady? && reachable && VersionPasses(specs, library, version, commands, a)
    ensures o.Released? ==>
              && o.tag == VersionTag(version)
              && db.statuses == old(db.statuses)
              && db.events == old(db.events) + [Event("", TAGGED, INTEGRATOR), Event("", RELEASED, INTEGRATOR)]
    ensures o.Released? && Versioned(specs.items) ==> NamesVersion(o.tag, specs.items, library, version)
    ensures o.Rejected? ==>
              RolledBackBySome(Gates(specs, library, version, commands), a, specs, library, version, o,
                               old(db.statuses), old(db.events), db.statuses, db.events)
    ensures o.NotReady? || o.Failed? ==> db.statuses == old(db.statuses) && db.events == old(db.events)
  {
    CompleteMeansDone(specs, db.statuses, library, version);
    if !IsComplete(specs, db.statuses, library, version) {
      return NotReady;
    }
    var report := EvaluateVersionGate(specs, library, version, commands, a);
    if !reachable {
      return Failed;
    }
    if report.verdict == GO {
      o := TagVersion(db, version, report, specs.items, library);
      return;
    }
    o := RejectVersion(db, specs, library, version, report, commands, a);
  }
}
