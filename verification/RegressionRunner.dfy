/** Running a regression dataset against backends, and folding the outcomes into a report. */
module RegressionRunner {
  import opened Vocabulary
  import opened Domain
  import opened Sorting

  datatype MatchOutcome = NoMatch | PartialMatch | ExactMatch

  datatype Outcome = Outcome(
    backend: string, listingId: string, outcome: MatchOutcome, latency: int,
    got: seq<Component>, expected: seq<Component>)

  datatype OutcomeCounts = OutcomeCounts(noMatch: int, partialMatch: int, exactMatch: int)

  datatype BackendReport = BackendReport(
    name: string, accuracy: real, perKindAccuracy: map<string, real>,
    latencyP50: int, latencyP95: int, counts: OutcomeCounts, results: seq<Outcome>)

  // ---- matching ----

  /** Components agree position by position in their kind. */
  ghost predicate SameKinds(got: seq<Component>, expected: seq<Component>) {
    |got| == |expected| && forall i :: 0 <= i < |got| ==> got[i].kind == expected[i].kind
  }

  method MatchComponents(got: seq<Component>, expected: seq<Component>) returns (outcome: MatchOutcome)
    ensures outcome == if SameKinds(got, expected) then ExactMatch else NoMatch
  {
    if |got| != |expected| {
      return NoMatch;
    }
    var exact, partial := true, true;
    for i := 0 to |got|
      invariant exact == partial == forall j :: 0 <= j < i ==> got[j].kind == expected[j].kind
    {
      if got[i].kind != expected[i].kind {
        partial := false;
        exact := false;
      }
    }
    if exact {
      return ExactMatch;
    } else if partial {
      return PartialMatch;
    }
    return NoMatch;
  }

  // ---- latency percentiles ----

  function IntLess(): (int, int) -> bool {
    (a: int, b: int) => a < b
  }

  lemma IntOrder()
    ensures StrictWeakOrder(IntLess())
  {
  }

  /** The position the code looks at. */
  function Rank(p: nat, n: nat): int
    requires n > 0
  {
    Min((p * n) / 100, n - 1)
  }

  method Percentile(input: seq<int>, p: nat) returns (v: int)
    ensures input == [] ==> v == 0
    ensures input != [] ==> AtRank(IntLess(), v, input, Rank(p, |input|))
  {
    if |input| == 0 {
      return 0;
    }
    IntOrder();
    var dup := SortSlice(input, IntLess());
    assert |multiset(dup)| == |multiset(input)|;
    var idx := (p * |dup|) / 100;
    if idx >= |dup| {
      idx := |dup| - 1;
    }
    SortedAtRank(IntLess(), dup, input, idx);
    v := dup[idx];
  }

  lemma RankBelow100(p: nat, n: nat)
    requires n > 0 && p < 100
    ensures Rank(p, n) == (p * n) / 100
  {
    HundredthBelow(p * n, n) by {
      assert p * n <= 99 * n;
    }
  }

  lemma HundredthBelow(x: nat, n: nat)
    requires n > 0 && x <= 99 * n
    ensures x / 100 <= n - 1
  {
  }

  /** Below 100, the percentile splits the input: more than p% are at most v, at most p% are below it. */
  lemma PercentileBounds(s: seq<int>, p: nat, v: int)
    requires s != [] && p < 100 && AtRank(IntLess(), v, s, Rank(p, |s|))
    ensures 100 * |Filter(NotAbove(IntLess(), v), s)| > p * |s|
    ensures 100 * |Filter(Below(IntLess(), v), s)| <= p * |s|
  {
    RankBelow100(p, |s|);
    Hundredths(p * |s|, |Filter(Below(IntLess(), v), s)|, |Filter(NotAbove(IntLess(), v), s)|);
  }

  lemma Hundredths(x: nat, lo: nat, hi: nat)
    requires lo <= x / 100 < hi
    ensures 100 * lo <= x < 100 * hi
  {
  }

  /** The (1-based) nearest rank is ceil(p * n / 100); this is its position from 0. */
  function NearestRank(p: nat, n: nat): int {
    (p * n + 99) / 100 - 1
  }

  lemma CeilingIsFloorIff(x: nat)
    ensures (x + 99) / 100 - 1 == if x % 100 == 0 then x / 100 - 1 else x / 100
  {
  }

  /** The latencies at positions k - 1 and k of the sorted input are the same. */
  ghost predicate TiedAt(s: seq<int>, k: int) {
    exists w :: AtRank(IntLess(), w, s, k - 1) && AtRank(IntLess(), w, s, k)
  }

  /**
   The comment calls this the nearest-rank method. The position is one too high whenever p * n is a
   multiple of 100, and the latency then differs unless the two neighbouring latencies are the same.
   */
  lemma NearestRankIff(s: seq<int>, p: nat, v: int)
    requires s != [] && 0 < p < 100 && AtRank(IntLess(), v, s, Rank(p, |s|))
    ensures AtRank(IntLess(), v, s, NearestRank(p, |s|))
       <==> (p * |s|) % 100 != 0 || TiedAt(s, (p * |s|) / 100)
  {
    var k := (p * |s|) / 100;
    RankBelow100(p, |s|);
    CeilingIsFloorIff(p * |s|);
    IntOrder();
    if w :| AtRank(IntLess(), w, s, k - 1) && AtRank(IntLess(), w, s, k) {
      RankIsMonotone(IntLess(), s, v, k, w, k);
      RankIsMonotone(IntLess(), s, w, k, v, k);
    }
  }

  /** On distinct latencies the two percentiles agree exactly when p * n is not a multiple of 100. */
  lemma NearestRankOfDistinct(s: seq<int>, p: nat, v: int)
    requires s != [] && 0 < p < 100 && Distinct(s) && AtRank(IntLess(), v, s, Rank(p, |s|))
    ensures AtRank(IntLess(), v, s, NearestRank(p, |s|)) <==> (p * |s|) % 100 != 0
  {
    NearestRankIff(s, p, v);
    if w :| AtRank(IntLess(), w, s, (p * |s|) / 100 - 1) && AtRank(IntLess(), w, s, (p * |s|) / 100) {
      OneAtEachRank(s, w);
    }
  }

  /** The median of 1 and 2 by nearest rank is 1; the code gives 2. */
  lemma NearestRankCounterexample()
    ensures AtRank(IntLess(), 2, [1, 2], Rank(50, 2)) && AtRank(IntLess(), 1, [1, 2], NearestRank(50, 2))
  {
    IntOrder();
    OrderedAtRank(IntLess(), [1, 2], 1);
    OrderedAtRank(IntLess(), [1, 2], 0);
  }

  lemma {:induction false} OneAtEachRank(s: seq<int>, v: int)
    requires Distinct(s)
    ensures |Filter(NotAbove(IntLess(), v), s)| == |Filter(Below(IntLess(), v), s)| + if v in s then 1 else 0
  {
    if s != [] {
      OneAtEachRank(s[1..], v);
    }
  }

  // ---- aggregation ----

  function KindOf(o: Outcome): string {
    if |o.expected| > 0 then o.expected[0].kind else "<no-kind>"
  }

  function HasOutcome(m: MatchOutcome): Outcome -> bool {
    (o: Outcome) => o.outcome == m
  }

  function HasKind(kind: string): Outcome -> bool {
    (o: Outcome) => KindOf(o) == kind
  }

  function CorrectOfKind(kind: string): Outcome -> bool {
    (o: Outcome) => KindOf(o) == kind && o.outcome == ExactMatch
  }

  function Latencies(results: seq<Outcome>): seq<int> {
    Map((o: Outcome) => o.latency, results)
  }

  datatype Tally = Tally(correct: int, total: int)

  function TallyOf(kind: string, results: seq<Outcome>): Tally {
    Tally(|Filter(CorrectOfKind(kind), results)|, |Filter(HasKind(kind), results)|)
  }

  predicate Occurs(kind: string, results: seq<Outcome>) {
    TallyOf(kind, results).total > 0
  }

  ghost predicate Tallies(perKind: map<string, Tally>, results: seq<Outcome>) {
    && (forall kind :: kind in perKind <==> Occurs(kind, results))
    && (forall kind :: kind in perKind ==>
         perKind[kind] == TallyOf(kind, results))
  }

  function CountsOf(results: seq<Outcome>): OutcomeCounts {
    OutcomeCounts(
      |Filter(HasOutcome(NoMatch), results)|, |Filter(HasOutcome(PartialMatch), results)|,
      |Filter(HasOutcome(ExactMatch), results)|)
  }

  function Ratio(t: Tally): real {
    if t.total == 0 then 0.0 else t.correct as real / t.total as real
  }

  ghost predicate KindAccuracies(accuracy: map<string, real>, results: seq<Outcome>) {
    && (forall kind :: kind in accuracy <==> Occurs(kind, results))
    && (forall kind :: kind in accuracy ==> accuracy[kind] == Ratio(TallyOf(kind, results)))
  }

  ghost predicate Percentiles(p50: int, p95: int, results: seq<Outcome>) {
    if results == [] then p50 == p95 == 0
    else
      && AtRank(IntLess(), p50, Latencies(results), Rank(50, |results|))
      && AtRank(IntLess(), p95, Latencies(results), Rank(95, |results|))
  }

  ghost predicate IsReport(r: BackendReport, name: string, results: seq<Outcome>) {
    && r.name == name && r.results == results && r.counts == CountsOf(results)
    && r.accuracy == Ratio(Tally(r.counts.exactMatch, |results|))
    && KindAccuracies(r.perKindAccuracy, results)
    && Percentiles(r.latencyP50, r.latencyP95, results)
  }

  function Bumped(k: Tally, o: Outcome): Tally {
    Tally(k.correct + (if o.outcome == ExactMatch then 1 else 0), k.total + 1)
  }

  function CurrentTally(perKind: map<string, Tally>, kind: string): Tally {
    if kind in perKind then perKind[kind] else Tally(0, 0)
  }

  lemma TallyOne(perKind: map<string, Tally>, results: seq<Outcome>, o: Outcome)
    requires Tallies(perKind, results)
    ensures Tallies(perKind[KindOf(o) := Bumped(CurrentTally(perKind, KindOf(o)), o)], results + [o])
  {
    var more := perKind[KindOf(o) := Bumped(CurrentTally(perKind, KindOf(o)), o)];
    forall kind
      ensures TallyOf(kind, results + [o])
           == if kind == KindOf(o) then Bumped(CurrentTally(perKind, kind), o) else CurrentTally(perKind, kind)
    {
      TallyOfOne(kind, results, o);
      CurrentIsTally(perKind, results, kind);
    }
  }

  lemma CurrentIsTally(perKind: map<string, Tally>, results: seq<Outcome>, kind: string)
    requires Tallies(perKind, results)
    ensures CurrentTally(perKind, kind) == TallyOf(kind, results)
  {
    CorrectAtMostTotal(kind, results);
  }

  lemma TallyOfOne(kind: string, results: seq<Outcome>, o: Outcome)
    ensures TallyOf(kind, results + [o])
         == if kind == KindOf(o) then Bumped(TallyOf(kind, results), o) else TallyOf(kind, results)
  {
    FilterConcat(HasKind(kind), results, [o]);
    FilterConcat(CorrectOfKind(kind), results, [o]);
  }

  lemma {:induction false} CorrectAtMostTotal(kind: string, results: seq<Outcome>)
    ensures 0 <= TallyOf(kind, results).correct <= TallyOf(kind, results).total
  {
    if results != [] {
      CorrectAtMostTotal(kind, results[1..]);
    }
  }

  function Counted(c: OutcomeCounts, outcome: MatchOutcome): OutcomeCounts {
    match outcome
    case NoMatch => c.(noMatch := c.noMatch + 1)
    case PartialMatch => c.(partialMatch := c.partialMatch + 1)
    case ExactMatch => c.(exactMatch := c.exactMatch + 1)
  }

  lemma CountOne(results: seq<Outcome>, o: Outcome)
    ensures CountsOf(results + [o]) == Counted(CountsOf(results), o.outcome)
  {
    FilterConcat(HasOutcome(NoMatch), results, [o]);
    FilterConcat(HasOutcome(PartialMatch), results, [o]);
    FilterConcat(HasOutcome(ExactMatch), results, [o]);
  }

  lemma NextResult(results: seq<Outcome>, i: nat, perKind: map<string, Tally>)
    requires i < |results| && Tallies(perKind, results[..i])
    ensures var o := results[i];
      && Tallies(perKind[KindOf(o) := Bumped(CurrentTally(perKind, KindOf(o)), o)], results[..i + 1])
      && CountsOf(results[..i + 1]) == Counted(CountsOf(results[..i]), o.outcome)
      && Latencies(results)[..i + 1] == Latencies(results)[..i] + [o.latency]
  {
    assert results[..i + 1] == results[..i] + [results[i]];
    TallyOne(perKind, results[..i], results[i]);
    CountOne(results[..i], results[i]);
  }

  method Aggregate(name: string, results: seq<Outcome>) returns (r: BackendReport)
    ensures IsReport(r, name, results)
  {
    if |results| == 0 {
      return BackendReport(name, 0.0, map[], 0, 0, OutcomeCounts(0, 0, 0), results);
    }
    var counts, totalCorrect, perKind, latencies := Tallied(results);
    var accuracy := totalCorrect as real / |results| as real;
    var perKindAccuracy := Accuracies(perKind, results);
    var p50 := Percentile(latencies, 50);
    var p95 := Percentile(latencies, 95);
    r := BackendReport(name, accuracy, perKindAccuracy, p50, p95, counts, results);
  }

  /** The counting loop of Aggregate. */
  method Tallied(results: seq<Outcome>)
    returns (counts: OutcomeCounts, totalCorrect: int, perKind: map<string, Tally>, latencies: seq<int>)
    ensures counts == CountsOf(results) && totalCorrect == counts.exactMatch
    ensures Tallies(perKind, results) && latencies == Latencies(results)
  {
    totalCorrect, counts, perKind, latencies := 0, OutcomeCounts(0, 0, 0), map[], [];
    for i := 0 to |results|
      invariant latencies == Latencies(results)[..i]
      invariant counts == CountsOf(results[..i]) && totalCorrect == counts.exactMatch
      invariant Tallies(perKind, results[..i])
    {
      var res := results[i];
      NextResult(results, i, perKind);
      latencies := latencies + [res.latency];
      var kind := if |res.expected| > 0 then res.expected[0].kind else "<no-kind>";
      var k := if kind in perKind then perKind[kind] else Tally(0, 0);
      k := k.(total := k.total + 1);
      match res.outcome {
        case ExactMatch =>
          counts := counts.(exactMatch := counts.exactMatch + 1);
          totalCorrect := totalCorrect + 1;
          k := k.(correct := k.correct + 1);
        case PartialMatch =>
          counts := counts.(partialMatch := counts.partialMatch + 1);
        case NoMatch =>
          counts := counts.(noMatch := counts.noMatch + 1);
      }
      perKind := perKind[kind := k];
    }
    assert results[..|results|] == results;
  }

  /** The kinds dealt with so far have their accuracies. */
  ghost predicate AccuraciesOf(out: map<string, real>, perKind: map<string, Tally>, dealt: set<string>) {
    out.Keys == dealt <= perKind.Keys && forall kind :: kind in out ==> out[kind] == Ratio(perKind[kind])
  }

  lemma NextAccuracy(out: map<string, real>, perKind: map<string, Tally>, dealt: set<string>, kind: string)
    requires AccuraciesOf(out, perKind, dealt) && kind in perKind
    ensures AccuraciesOf(out[kind := Ratio(perKind[kind])], perKind, dealt + {kind})
  {
  }

  lemma AllAccuracies(out: map<string, real>, perKind: map<string, Tally>, results: seq<Outcome>)
    requires Tallies(perKind, results) && AccuraciesOf(out, perKind, perKind.Keys)
    ensures KindAccuracies(out, results)
  {
    forall kind
      ensures kind in out <==> Occurs(kind, results)
    {
      assert kind in out.Keys <==> kind in perKind.Keys;
    }
  }

  /** Ranging over perKind, in an arbitrary order. */
  method Accuracies(perKind: map<string, Tally>, ghost results: seq<Outcome>) returns (out: map<string, real>)
    requires Tallies(perKind, results)
    ensures KindAccuracies(out, results)
  {
    out := map[];
    var left := perKind.Keys;
    while left != {}
      invariant left <= perKind.Keys && AccuraciesOf(out, perKind, perKind.Keys - left)
      decreases |left|
    {
      var kind :| kind in left;
      var v := perKind[kind];
      assert Occurs(kind, results);
      NextAccuracy(out, perKind, perKind.Keys - left, kind);
      assert perKind.Keys - (left - {kind}) == perKind.Keys - left + {kind};
      if v.total != 0 {
        out := out[kind := v.correct as real / v.total as real];
      }
      left := left - {kind};
    }
    AllAccuracies(out, perKind, results);
  }

  // ---- conservation ----

  function SumTotals(kinds: seq<string>, results: seq<Outcome>): int {
    if kinds == [] then 0 else TallyOf(kinds[0], results).total + SumTotals(kinds[1..], results)
  }

  function SumCorrect(kinds: seq<string>, results: seq<Outcome>): int {
    if kinds == [] then 0 else TallyOf(kinds[0], results).correct + SumCorrect(kinds[1..], results)
  }

  lemma {:induction false} SumsOne(kinds: seq<string>, results: seq<Outcome>, o: Outcome)
    requires Distinct(kinds)
    ensures SumTotals(kinds, results + [o]) == SumTotals(kinds, results) + if KindOf(o) in kinds then 1 else 0
    ensures SumCorrect(kinds, results + [o])
         == SumCorrect(kinds, results) + if KindOf(o) in kinds && o.outcome == ExactMatch then 1 else 0
  {
    if kinds != [] {
      TallyOfOne(kinds[0], results, o);
      SumsOne(kinds[1..], results, o);
    }
  }

  lemma {:induction false} SumsOfNone(kinds: seq<string>)
    ensures SumTotals(kinds, []) == 0 && SumCorrect(kinds, []) == 0
  {
    if kinds != [] {
      SumsOfNone(kinds[1..]);
    }
  }

  /** The per-kind tallies add up to the whole, and so do the outcome counts. */
  lemma {:induction false} TalliesAddUp(kinds: seq<string>, results: seq<Outcome>)
    requires Distinct(kinds) && forall o :: o in results ==> KindOf(o) in kinds
    ensures SumTotals(kinds, results) == |results|
    ensures SumCorrect(kinds, results) == CountsOf(results).exactMatch
    ensures var c := CountsOf(results); c.noMatch + c.partialMatch + c.exactMatch == |results|
    decreases |results|
  {
    if results == [] {
      SumsOfNone(kinds);
    } else {
      var init, last := results[..|results| - 1], results[|results| - 1];
      assert results == init + [last] && last in results;
      TalliesAddUp(kinds, init);
      SumsOne(kinds, init, last);
      CountOne(init, last);
    }
  }

  /** What a kind adds to the weighted sum of accuracies. */
  function Weight(accuracy: real, total: int): real {
    accuracy * total as real
  }

  function WeightedSum(kinds: seq<string>, r: BackendReport): real
    requires forall kind :: kind in kinds ==> kind in r.perKindAccuracy
  {
    if kinds == [] then 0.0
    else Weight(r.perKindAccuracy[kinds[0]], TallyOf(kinds[0], r.results).total) + WeightedSum(kinds[1..], r)
  }

  lemma {:induction false} WeightedSumIsCorrect(kinds: seq<string>, r: BackendReport)
    requires KindAccuracies(r.perKindAccuracy, r.results)
    requires forall kind :: kind in kinds ==> kind in r.perKindAccuracy
    ensures WeightedSum(kinds, r) == SumCorrect(kinds, r.results) as real
  {
    if kinds != [] {
      KindWeight(r, kinds[0]);
      WeightedSumIsCorrect(kinds[1..], r);
    }
  }

  lemma KindWeight(r: BackendReport, kind: string)
    requires KindAccuracies(r.perKindAccuracy, r.results) && kind in r.perKindAccuracy
    ensures Weight(r.perKindAccuracy[kind], TallyOf(kind, r.results).total)
         == TallyOf(kind, r.results).correct as real
  {
    assert Occurs(kind, r.results);
    RatioTimesTotal(TallyOf(kind, r.results));
  }

  lemma RatioTimesTotal(t: Tally)
    requires t.total != 0
    ensures Weight(Ratio(t), t.total) == t.correct as real
  {
  }

  /** The first expected component is of the kind; an entry that expects none has a kind of its own. */
  predicate ExpectsFirst(o: Outcome, kind: string) {
    if o.expected == [] then kind == "<no-kind>" else o.expected[0].kind == kind
  }

  function Expecting(kind: string, results: seq<Outcome>): seq<Outcome> {
    Filter((o: Outcome) => ExpectsFirst(o, kind), results)
  }

  lemma TallyCountsExpecting(kind: string, results: seq<Outcome>)
    ensures TallyOf(kind, results).total == |Expecting(kind, results)|
    ensures TallyOf(kind, results).correct == |Filter(HasOutcome(ExactMatch), Expecting(kind, results))|
  {
    var expects := (o: Outcome) => ExpectsFirst(o, kind);
    FilterSame(expects, HasKind(kind), results);
    FilterTwice(expects, HasOutcome(ExactMatch), CorrectOfKind(kind), results);
  }

  /** The accuracy of a kind is its share of exact matches among the results that expect the kind first. */
  lemma KindAccuracyIsShare(r: BackendReport, name: string, kind: string)
    requires IsReport(r, name, r.results)
    ensures kind in r.perKindAccuracy <==> Expecting(kind, r.results) != []
    ensures kind in r.perKindAccuracy ==>
      var all := Expecting(kind, r.results);
      Weight(r.perKindAccuracy[kind], |all|) == |Filter(HasOutcome(ExactMatch), all)| as real
  {
    TallyCountsExpecting(kind, r.results);
    assert kind in r.perKindAccuracy <==> Occurs(kind, r.results);
    if kind in r.perKindAccuracy {
      KindWeight(r, kind);
    }
  }

  /**
   The overall accuracy is the mean of the per-kind accuracies weighted by their totals, over any
   enumeration of the kinds; and the outcome counts add up to the number of results.
   */
  lemma AccuracyIsWeightedMean(kinds: seq<string>, name: string, r: BackendReport)
    requires IsReport(r, name, r.results) && Enumerates(kinds, r.perKindAccuracy.Keys)
    ensures r.counts.noMatch + r.counts.partialMatch + r.counts.exactMatch == |r.results|
    ensures SumTotals(kinds, r.results) == |r.results|
    ensures forall kind :: kind in kinds ==> kind in r.perKindAccuracy
    ensures Weight(r.accuracy, |r.results|) == WeightedSum(kinds, r)
  {
    AllKindsListed(kinds, r);
    TalliesAddUp(kinds, r.results);
    WeightedSumIsCorrect(kinds, r);
    OverallWeight(r.counts.exactMatch, r.results, r.accuracy);
  }

  lemma OverallWeight(correct: nat, results: seq<Outcome>, accuracy: real)
    requires accuracy == Ratio(Tally(correct, |results|)) && correct <= |results|
    ensures Weight(accuracy, |results|) == correct as real
  {
    if results != [] {
      RatioTimesTotal(Tally(correct, |results|));
    }
  }

  lemma AllKindsListed(kinds: seq<string>, r: BackendReport)
    requires KindAccuracies(r.perKindAccuracy, r.results) && Enumerates(kinds, r.perKindAccuracy.Keys)
    ensures forall kind :: kind in kinds ==> kind in r.perKindAccuracy
    ensures forall o :: o in r.results ==> KindOf(o) in kinds
  {
    assert forall kind :: kind in kinds <==> kind in Elements(kinds);
    forall o | o in r.results
      ensures KindOf(o) in kinds
    {
      FilterMembers(HasKind(KindOf(o)), r.results);
      assert o in Filter(HasKind(KindOf(o)), r.results);
      assert Occurs(KindOf(o), r.results);
    }
  }

  /** A higher percentile is never a smaller latency. */
  lemma PercentileIsMonotone(s: seq<int>, p: nat, v: int, q: nat, w: int)
    requires s != [] && p <= q
    requires AtRank(IntLess(), v, s, Rank(p, |s|)) && AtRank(IntLess(), w, s, Rank(q, |s|))
    ensures v <= w
  {
    RankGrows(p, q, |s|);
    IntOrder();
    RankIsMonotone(IntLess(), s, v, Rank(p, |s|), w, Rank(q, |s|));
  }

  lemma RankGrows(p: nat, q: nat, n: nat)
    requires n > 0 && p <= q
    ensures 0 <= Rank(p, n) <= Rank(q, n)
  {
    assert q * n - p * n == (q - p) * n >= 0;
    HundredthsOrdered(p * n, q * n);
  }

  lemma HundredthsOrdered(x: nat, y: nat)
    requires x <= y
    ensures x / 100 <= y / 100
  {
  }

  /** Every report's median latency is at most its 95th percentile. */
  lemma MedianAtMostP95(name: string, r: BackendReport)
    requires IsReport(r, name, r.results)
    ensures r.latencyP50 <= r.latencyP95
  {
    if r.results != [] {
      PercentileIsMonotone(Latencies(r.results), 50, r.latencyP50, 95, r.latencyP95);
    }
  }

  // ---- the order of results does not matter ----

  lemma LatenciesPermute(a: seq<Outcome>, b: seq<Outcome>)
    requires multiset(a) == multiset(b)
    ensures multiset(Latencies(a)) == multiset(Latencies(b))
  {
    MapPermutation((o: Outcome) => o.latency, a, b);
  }

  function Cut<T>(s: seq<T>, i: nat): (r: seq<T>)
    requires i < |s|
    ensures |r| == |s| - 1
  {
    s[..i] + s[i + 1..]
  }

  lemma {:induction false} MapPermutation<A(!new), B>(f: A -> B, a: seq<A>, b: seq<A>)
    requires multiset(a) == multiset(b)
    ensures multiset(Map(f, a)) == multiset(Map(f, b))
    decreases |a|
  {
    if a == [] {
      assert |multiset(b)| == 0;
    } else {
      var i := CutBoth(a, b);
      MapPermutation(f, Cut(a, 0), Cut(b, i));
      MapCut(f, a, 0);
      MapCut(f, b, i);
    }
  }

  lemma CutBoth<T>(a: seq<T>, b: seq<T>) returns (i: nat)
    requires multiset(a) == multiset(b) && a != []
    ensures i < |b| && b[i] == a[0] && multiset(Cut(a, 0)) == multiset(Cut(b, i))
  {
    assert a[0] in multiset(b);
    i :| 0 <= i < |b| && b[i] == a[0];
    CutOne(a, 0);
    CutOne(b, i);
  }

  lemma CutOne<T>(s: seq<T>, i: nat)
    requires i < |s|
    ensures multiset(Cut(s, i)) == multiset(s) - multiset{s[i]}
  {
    assert s == s[..i] + ([s[i]] + s[i + 1..]);
  }

  lemma MapCut<A, B>(f: A -> B, s: seq<A>, i: nat)
    requires i < |s|
    ensures multiset(Map(f, s)) == multiset(Map(f, Cut(s, i))) + multiset{f(s[i])}
  {
    var before, after := Map(f, s[..i]), Map(f, s[i + 1..]);
    assert Map(f, s) == before + ([f(s[i])] + after);
    assert Map(f, Cut(s, i)) == before + after;
  }

  /** Reports on the same results in different orders agree in every number. */
  lemma ReportIgnoresOrder(name: string, r: BackendReport, s: BackendReport)
    requires IsReport(r, name, r.results) && IsReport(s, name, s.results)
    requires multiset(r.results) == multiset(s.results)
    ensures s == r.(results := s.results)
  {
    assert |multiset(r.results)| == |r.results| && |multiset(s.results)| == |s.results|;
    CountsIgnoreOrder(r.results, s.results);
    PerKindIgnoresOrder(r, s);
    if r.results != [] {
      LatenciesPermute(r.results, s.results);
      RankIgnoresOrder(r.latencyP50, s.latencyP50, Latencies(r.results), Latencies(s.results), Rank(50, |r.results|));
      RankIgnoresOrder(r.latencyP95, s.latencyP95, Latencies(r.results), Latencies(s.results), Rank(95, |r.results|));
    }
  }

  lemma CountsIgnoreOrder(a: seq<Outcome>, b: seq<Outcome>)
    requires multiset(a) == multiset(b)
    ensures CountsOf(a) == CountsOf(b)
  {
    FilterPermutation(HasOutcome(NoMatch), a, b);
    FilterPermutation(HasOutcome(PartialMatch), a, b);
    FilterPermutation(HasOutcome(ExactMatch), a, b);
  }

  lemma RankIgnoresOrder(v: int, w: int, a: seq<int>, b: seq<int>, rank: int)
    requires multiset(a) == multiset(b) && AtRank(IntLess(), v, a, rank) && AtRank(IntLess(), w, b, rank)
    ensures v == w
  {
    IntOrder();
    AtRankPermutes(IntLess(), v, a, b, rank);
    RankIsMonotone(IntLess(), b, v, rank, w, rank);
    RankIsMonotone(IntLess(), b, w, rank, v, rank);
  }

  lemma PerKindIgnoresOrder(r: BackendReport, s: BackendReport)
    requires KindAccuracies(r.perKindAccuracy, r.results) && KindAccuracies(s.perKindAccuracy, s.results)
    requires multiset(r.results) == multiset(s.results)
    ensures r.perKindAccuracy == s.perKindAccuracy
  {
    forall kind
      ensures Occurs(kind, r.results) <==> Occurs(kind, s.results)
      ensures TallyOf(kind, r.results) == TallyOf(kind, s.results)
    {
      FilterPermutation(HasKind(kind), r.results, s.results);
      FilterPermutation(CorrectOfKind(kind), r.results, s.results);
    }
    assert r.perKindAccuracy.Keys == s.perKindAccuracy.Keys;
  }

  // ---- running backends ----

  datatype DatasetEntry = DatasetEntry(listing: Listing, expected: seq<Component>)

  datatype Backend = Backend(name: string, extract: Listing -> Result<seq<Component>, string>)

  /** The outcome recorded for an entry, whatever time the call took. */
  ghost predicate RecordsEntry(o: Outcome, b: Backend, entry: DatasetEntry) {
    && o.backend == b.name && o.listingId == entry.listing.id && o.expected == entry.expected
    && match b.extract(entry.listing)
       case Failure(_) => o.outcome == NoMatch && o.got == []
       case Success(got) =>
         o.got == got && o.outcome == if SameKinds(got, entry.expected) then ExactMatch else NoMatch
  }

  ghost predicate RecordsAll(results: seq<Outcome>, b: Backend, entries: seq<DatasetEntry>) {
    |results| == |entries| && forall i :: 0 <= i < |entries| ==> RecordsEntry(results[i], b, entries[i])
  }

  method ExecuteBackend(b: Backend, entries: seq<DatasetEntry>) returns (out: seq<Outcome>)
    ensures RecordsAll(out, b, entries)
  {
    out := [];
    for i := 0 to |entries|
      invariant RecordsAll(out, b, entries[..i])
    {
      var entry := entries[i];
      var got := b.extract(entry.listing);
      var latency: int := *;
      if got.Failure? {
        out := out + [Outcome(b.name, entry.listing.id, NoMatch, latency, [], entry.expected)];
        continue;
      }
      var outcome := MatchComponents(got.value, entry.expected);
      out := out + [Outcome(b.name, entry.listing.id, outcome, latency, got.value, entry.expected)];
    }
    assert entries[..|entries|] == entries;
  }

  method ExecuteAll(entries: seq<DatasetEntry>, backends: seq<Backend>) returns (reports: seq<BackendReport>)
    ensures |reports| == |backends|
    ensures forall i :: 0 <= i < |backends| ==>
      RecordsAll(reports[i].results, backends[i], entries)
      && IsReport(reports[i], backends[i].name, reports[i].results)
  {
    reports := [];
    for i := 0 to |backends|
      invariant |reports| == i
      invariant forall j :: 0 <= j < i ==>
        RecordsAll(reports[j].results, backends[j], entries)
        && IsReport(reports[j], backends[j].name, reports[j].results)
    {
      var results := ExecuteBackend(backends[i], entries);
      var report := Aggregate(backends[i].name, results);
      reports := reports + [report];
    }
  }

  /** With kinds as the only compared field no partial match ever shows up in a report. */
  lemma NoPartialMatches(results: seq<Outcome>, b: Backend, entries: seq<DatasetEntry>)
    requires RecordsAll(results, b, entries)
    ensures CountsOf(results).partialMatch == 0
  {
    forall o | o in results
      ensures o.outcome != PartialMatch
    {
      var i :| 0 <= i < |results| && results[i] == o;
      assert RecordsEntry(results[i], b, entries[i]);
    }
    FilterAll(HasOutcome(PartialMatch), results);
  }
}
