/** Surfacing candidates for human judgment: near a quartile of the scores, or at their top. */
module JudgeBootstrap {
  import opened Vocabulary
  import opened Domain
  import opened Sorting

  /** Why a candidate was surfaced; the source renders this as text. */
  datatype Why =
    | Unset
    | NearBoundary(distance: real)
    | TopDecile
    | LowConfidence(lowest: real, threshold: real)
    | PriorJudgment(judgment: Judgment)

  datatype Verdict = Agrees | Disagrees | Uncertain

  datatype Judgment = Judgment(verdict: Verdict, createdAt: int)

  datatype Candidate = Candidate(
    listingId: string, scoreId: string, scoreValue: real, components: seq<Component>, why: Why)

  /** The datastore, as far as the strategies read it; any of the three reads may fail. */
  datatype Reader = Reader(
    listingsSince: Result<seq<Listing>, string>,
    componentsForListing: string -> Result<seq<Component>, string>,
    scoresForListings: seq<string> -> Result<map<string, Score>, string>)

  // ---- loading ----

  function HasScore(scores: map<string, Score>): Listing -> bool {
    (l: Listing) => l.id in scores
  }

  function Ids(listings: seq<Listing>): seq<string> {
    Map((l: Listing) => l.id, listings)
  }

  /** c is the candidate made from a scored listing. */
  predicate IsCandidateOf(c: Candidate, l: Listing, scores: map<string, Score>, reader: Reader) {
    && l.id in scores
    && c.listingId == l.id && c.scoreId == scores[l.id].id && c.scoreValue == scores[l.id].value
    && reader.componentsForListing(l.id) == Success(c.components) && c.why == Unset
  }

  /** The candidates are the scored listings, in order. */
  ghost predicate Joins(cs: seq<Candidate>, listings: seq<Listing>, scores: map<string, Score>, reader: Reader) {
    var scored := Filter(HasScore(scores), listings);
    |cs| == |scored| && forall i :: 0 <= i < |cs| ==> IsCandidateOf(cs[i], scored[i], scores, reader)
  }

  ghost predicate AllComponentsLoad(listings: seq<Listing>, reader: Reader) {
    forall l :: l in listings ==> reader.componentsForListing(l.id).Success?
  }

  /** cs is what a reader whose reads all succeed loads. */
  ghost predicate Loads(reader: Reader, cs: seq<Candidate>) {
    reader.listingsSince.Success?
    && var listings := reader.listingsSince.value;
       var found := reader.scoresForListings(Ids(listings));
       found.Success? && AllComponentsLoad(listings, reader) && Joins(cs, listings, found.value, reader)
  }

  ghost predicate CanLoad(reader: Reader) {
    && reader.listingsSince.Success?
    && reader.scoresForListings(Ids(reader.listingsSince.value)).Success?
    && AllComponentsLoad(reader.listingsSince.value, reader)
  }

  datatype LoadError =
    | ListListings(cause: string)
    | ListScores(cause: string)
    | ComponentsFor(id: string, cause: string)

  /** Listing i is the first whose components cannot be read. */
  ghost predicate FirstUnreadable(listings: seq<Listing>, reader: Reader, i: nat, id: string, cause: string) {
    && i < |listings| && listings[i].id == id && reader.componentsForListing(id) == Failure(cause)
    && AllComponentsLoad(listings[..i], reader)
  }

  /** The reads happen in this order, and the first that fails is the error. */
  ghost predicate FailsWith(reader: Reader, e: LoadError) {
    match e
    case ListListings(cause) => reader.listingsSince == Failure(cause)
    case ListScores(cause) =>
      reader.listingsSince.Success? && reader.scoresForListings(Ids(reader.listingsSince.value)) == Failure(cause)
    case ComponentsFor(id, cause) =>
      && reader.listingsSince.Success? && reader.scoresForListings(Ids(reader.listingsSince.value)).Success?
      && exists i :: FirstUnreadable(reader.listingsSince.value, reader, i, id, cause)
  }

  /** Components are read for every listing, so a failing read fails the load even without a score. */
  method LoadAllCandidates(reader: Reader) returns (r: Result<seq<Candidate>, LoadError>)
    ensures r.Success? <==> CanLoad(reader)
    ensures r.Success? ==> Loads(reader, r.value)
    ensures r.Failure? ==> FailsWith(reader, r.error)
  {
    if reader.listingsSince.Failure? {
      return Failure(ListListings(reader.listingsSince.error));
    }
    var listings := reader.listingsSince.value;
    var ids := seq(|listings|, i requires 0 <= i < |listings| => listings[i].id);
    assert ids == Ids(listings);
    var found := reader.scoresForListings(ids);
    if found.Failure? {
      return Failure(ListScores(found.error));
    }
    var scores := found.value;
    var out: seq<Candidate> := [];
    for i := 0 to |listings|
      invariant AllComponentsLoad(listings[..i], reader)
      invariant Joins(out, listings[..i], scores, reader)
    {
      var l := listings[i];
      JoinsNext(out, listings, i, scores, reader);
      var comps := reader.componentsForListing(l.id);
      if comps.Failure? {
        assert l in listings && FirstUnreadable(listings, reader, i, l.id, comps.error);
        return Failure(ComponentsFor(l.id, comps.error));
      }
      if l.id !in scores {
        continue;
      }
      var s := scores[l.id];
      var c := Candidate(l.id, s.id, s.value, comps.value, Unset);
      assert IsCandidateOf(c, l, scores, reader);
      out := out + [c];
    }
    assert listings[..|listings|] == listings;
    r := Success(out);
  }

  lemma JoinsNext(
    out: seq<Candidate>, listings: seq<Listing>, i: nat, scores: map<string, Score>, reader: Reader)
    requires i < |listings| && AllComponentsLoad(listings[..i], reader) && Joins(out, listings[..i], scores, reader)
    ensures reader.componentsForListing(listings[i].id).Success? ==> AllComponentsLoad(listings[..i + 1], reader)
    ensures listings[i].id !in scores ==> Joins(out, listings[..i + 1], scores, reader)
    ensures forall c :: IsCandidateOf(c, listings[i], scores, reader) ==>
      Joins(out + [c], listings[..i + 1], scores, reader)
  {
    assert listings[..i + 1] == listings[..i] + [listings[i]];
    FilterConcat(HasScore(scores), listings[..i], [listings[i]]);
    FilterOne(HasScore(scores), listings[i]);
  }

  // ---- quartile marks ----

  function RealLess(): (real, real) -> bool {
    (a: real, b: real) => a < b
  }

  lemma RealOrder()
    ensures StrictWeakOrder(RealLess())
  {
  }

  function Values(cs: seq<Candidate>): seq<real> {
    Map((c: Candidate) => c.scoreValue, cs)
  }

  /** The marks are the values at one, two and three quarters of the sorted scores. */
  ghost predicate Quartiles(marks: seq<real>, values: seq<real>) {
    && |marks| == 3
    && AtRank(RealLess(), marks[0], values, |values| / 4)
    && AtRank(RealLess(), marks[1], values, |values| / 2)
    && AtRank(RealLess(), marks[2], values, 3 * |values| / 4)
  }

  method PercentileBoundaries(cs: seq<Candidate>) returns (marks: seq<real>)
    ensures cs == [] ==> marks == []
    ensures cs != [] ==> Quartiles(marks, Values(cs))
  {
    if |cs| == 0 {
      return [];
    }
    var vals := seq(|cs|, i requires 0 <= i < |cs| => cs[i].scoreValue);
    assert vals == Values(cs);
    RealOrder();
    vals := SortSlice(vals, RealLess());
    assert |multiset(vals)| == |multiset(Values(cs))|;
    SortedAtRank(RealLess(), vals, Values(cs), |vals| / 4);
    SortedAtRank(RealLess(), vals, Values(cs), |vals| / 2);
    SortedAtRank(RealLess(), vals, Values(cs), 3 * |vals| / 4);
    return [vals[|vals| / 4], vals[|vals| / 2], vals[3 * |vals| / 4]];
  }

  /** Marks do not decrease and are scores of the population. */
  lemma QuartilesAreOrderedScores(marks: seq<real>, values: seq<real>)
    requires Quartiles(marks, values)
    ensures marks[0] <= marks[1] <= marks[2]
    ensures marks[0] in values && marks[1] in values && marks[2] in values
  {
    RanksOrdered(values, marks[0], |values| / 4, marks[1], |values| / 2);
    RanksOrdered(values, marks[1], |values| / 2, marks[2], 3 * |values| / 4);
  }

  lemma RanksOrdered(values: seq<real>, v: real, i: int, w: real, j: int)
    requires AtRank(RealLess(), v, values, i) && AtRank(RealLess(), w, values, j) && i <= j
    ensures v <= w
  {
    RealOrder();
    RankIsMonotone(RealLess(), values, v, i, w, j);
  }

  /** Marks do not depend on the order of the population. */
  lemma QuartilesIgnoreOrder(marks: seq<real>, values: seq<real>, others: seq<real>, permuted: seq<real>)
    requires Quartiles(marks, values) && Quartiles(others, permuted) && multiset(values) == multiset(permuted)
    ensures marks == others
  {
    assert |multiset(values)| == |values| && |multiset(permuted)| == |permuted|;
    SameRank(marks[0], values, others[0], permuted, |values| / 4);
    SameRank(marks[1], values, others[1], permuted, |values| / 2);
    SameRank(marks[2], values, others[2], permuted, 3 * |values| / 4);
  }

  lemma SameRank(v: real, a: seq<real>, w: real, b: seq<real>, rank: int)
    requires multiset(a) == multiset(b) && AtRank(RealLess(), v, a, rank) && AtRank(RealLess(), w, b, rank)
    ensures v == w
  {
    RealOrder();
    AtRankPermutes(RealLess(), v, a, b, rank);
    RankIsMonotone(RealLess(), b, v, rank, w, rank);
    RankIsMonotone(RealLess(), b, w, rank, v, rank);
  }

  // ---- distance to the nearest mark ----

  function Abs(x: real): real {
    if x < 0.0 then -x else x
  }

  ghost predicate IsDistance(d: real, v: real, marks: seq<real>) {
    && (exists i :: 0 <= i < |marks| && d == Abs(v - marks[i]))
    && (forall i :: 0 <= i < |marks| ==> d <= Abs(v - marks[i]))
  }

  function Distance(v: real, marks: seq<real>): (d: real)
    requires marks != []
    ensures IsDistance(d, v, marks)
  {
    var n := |marks| - 1;
    var last := Abs(v - marks[n]);
    if n == 0 then last
    else
      var before := Distance(v, marks[..n]);
      assert forall i :: 0 <= i < n ==> marks[..n][i] == marks[i];
      if last < before then last else before
  }

  lemma DistanceStep(v: real, marks: seq<real>, i: nat)
    requires 0 < i < |marks|
    ensures Distance(v, marks[..i + 1])
         == var d, before := Abs(v - marks[i]), Distance(v, marks[..i]); if d < before then d else before
  {
    assert marks[..i + 1][..i] == marks[..i];
  }

  /** None stands for the infinite distance to no marks at all. */
  method DistanceToNearest(v: real, marks: seq<real>) returns (best: Option<real>)
    ensures best == if marks == [] then None else Some(Distance(v, marks))
  {
    best := None;
    for i := 0 to |marks|
      invariant best == if i == 0 then None else Some(Distance(v, marks[..i]))
    {
      if i > 0 {
        DistanceStep(v, marks, i);
      }
      var d := Abs(v - marks[i]);
      if best.None? || d < best.value {
        best := Some(d);
      }
    }
    assert marks[..|marks|] == marks;
  }

  // ---- the ambiguous strategy ----

  datatype Scored = Scored(c: Candidate, distance: real)

  function ByDistance(): (Scored, Scored) -> bool {
    (a: Scored, b: Scored) => a.distance < b.distance
  }

  lemma DistanceOrder()
    ensures StrictWeakOrder(ByDistance())
  {
  }

  function Measured(marks: seq<real>): Candidate -> Scored
    requires marks != []
  {
    (c: Candidate) => Scored(c, Distance(c.scoreValue, marks))
  }

  function InBand(limit: real): Scored -> bool {
    (s: Scored) => s.distance <= limit
  }

  function Surfaced(s: Scored): Candidate {
    s.c.(why := NearBoundary(s.distance))
  }

  /**
   out holds the min(n, number in band) candidates closest to a mark, nearest first; chosen are their
   scored forms and rest all others, none of which is in band and closer than a chosen one.
   */
  ghost predicate Closest(
    out: seq<Candidate>, all: seq<Scored>, limit: real, n: nat, chosen: seq<Scored>, rest: seq<Scored>)
  {
    && out == Map(Surfaced, chosen)
    && multiset(chosen + rest) == multiset(all)
    && |chosen| == Min(n, |Filter(InBand(limit), all)|)
    && (forall s :: s in chosen ==> s.distance <= limit)
    && (forall i, j :: 0 <= i < j < |chosen| ==> chosen[i].distance <= chosen[j].distance)
    && (forall s, t :: s in chosen && t in rest ==> s.distance <= t.distance)
  }

  ghost predicate ClosestOf(out: seq<Candidate>, all: seq<Scored>, limit: real, n: nat) {
    exists chosen, rest :: Closest(out, all, limit, n, chosen, rest)
  }

  /** The loop stops at the first candidate out of band; sorting makes that the last one worth a look. */
  method TakeClosest(all: seq<Scored>, limit: real, n: nat) returns (out: seq<Candidate>)
    requires Ordered(ByDistance(), all)
    ensures ClosestOf(out, all, limit, n)
  {
    out := [];
    for i := 0 to |all|
      invariant |out| == i <= n
      invariant out == Map(Surfaced, all[..i])
      invariant forall j :: 0 <= j < i ==> all[j].distance <= limit
    {
      var sc := all[i];
      if |out| >= n {
        break;
      }
      if sc.distance > limit {
        break;
      }
      assert all[..i + 1] == all[..i] + [sc];
      out := out + [Surfaced(sc)];
    }
    PrefixIsClosest(out, all, limit, n);
  }

  lemma PrefixIsClosest(out: seq<Candidate>, all: seq<Scored>, limit: real, n: nat)
    requires Ordered(ByDistance(), all) && |out| <= |all| && |out| <= n
    requires out == Map(Surfaced, all[..|out|])
    requires forall j :: 0 <= j < |out| ==> all[j].distance <= limit
    requires |out| == |all| || |out| == n || all[|out|].distance > limit
    ensures ClosestOf(out, all, limit, n)
  {
    DistancesIncrease(all);
    InBandCount(all, limit, n, |out|);
    SplitByDistance(all, |out|);
    assert Closest(out, all, limit, n, all[..|out|], all[|out|..]);
  }

  lemma InBandCount(all: seq<Scored>, limit: real, n: nat, k: nat)
    requires forall i, j :: 0 <= i <= j < |all| ==> all[i].distance <= all[j].distance
    requires k <= |all| && k <= n && forall j :: 0 <= j < k ==> all[j].distance <= limit
    requires k == |all| || k == n || all[k].distance > limit
    ensures k == Min(n, |Filter(InBand(limit), all)|)
  {
    var head, tail := all[..k], all[k..];
    assert all == head + tail;
    FilterConcat(InBand(limit), head, tail);
    assert forall s :: s in head ==> InBand(limit)(s);
    FilterAll(InBand(limit), head);
    if k < |all| && all[k].distance > limit {
      NoneInBand(all, limit, k);
    }
  }

  lemma SplitByDistance(all: seq<Scored>, k: nat)
    requires forall i, j :: 0 <= i <= j < |all| ==> all[i].distance <= all[j].distance
    requires k <= |all|
    ensures all == all[..k] + all[k..]
    ensures forall s, t :: s in all[..k] && t in all[k..] ==> s.distance <= t.distance
  {
    forall s, t | s in all[..k] && t in all[k..]
      ensures s.distance <= t.distance
    {
      var i :| 0 <= i < k && all[i] == s;
      var j :| k <= j < |all| && all[j] == t;
    }
  }

  lemma DistancesIncrease(all: seq<Scored>)
    requires Ordered(ByDistance(), all)
    ensures forall i, j :: 0 <= i <= j < |all| ==> all[i].distance <= all[j].distance
  {
    forall i, j | 0 <= i < j < |all|
      ensures all[i].distance <= all[j].distance
    {
      assert !ByDistance()(all[j], all[i]);
    }
  }

  lemma NoneInBand(all: seq<Scored>, limit: real, k: nat)
    requires forall i, j :: 0 <= i <= j < |all| ==> all[i].distance <= all[j].distance
    requires k < |all| && all[k].distance > limit
    ensures Filter(InBand(limit), all[k..]) == []
  {
    forall t | t in all[k..]
      ensures !InBand(limit)(t)
    {
      var j :| 0 <= j < |all[k..]| && all[k..][j] == t;
      assert all[k].distance <= all[k + j].distance;
    }
    FilterAll(InBand(limit), all[k..]);
  }

  /** The band is configured as a fraction; distances are in points. */
  function BandLimit(bandPct: real): real {
    bandPct * 100.0
  }

  ghost predicate AmbiguousFor(out: seq<Candidate>, cs: seq<Candidate>, marks: seq<real>, limit: real, n: nat) {
    Quartiles(marks, Values(cs)) && ClosestOf(out, Map(Measured(marks), cs), limit, n)
  }

  /** What the ambiguous strategy returns for loaded candidates. */
  ghost predicate IsAmbiguous(out: seq<Candidate>, cs: seq<Candidate>, bandPct: real, n: nat) {
    if cs == [] then out == [] else exists marks :: AmbiguousFor(out, cs, marks, BandLimit(bandPct), n)
  }

  class AmbiguousStrategy {
    const bandPct: real

    constructor (bandPct: real)
      ensures this.bandPct == bandPct
    {
      this.bandPct := bandPct;
    }

    /** n is the capacity of the result, which Go requires not to be negative. */
    method Surface(reader: Reader, n: nat) returns (r: Result<seq<Candidate>, LoadError>)
      ensures r.Success? <==> CanLoad(reader)
      ensures r.Failure? ==> FailsWith(reader, r.error)
      ensures r.Success? ==> exists cs :: Loads(reader, cs) && IsAmbiguous(r.value, cs, bandPct, n)
    {
      var loaded := LoadAllCandidates(reader);
      if loaded.Failure? {
        return Failure(loaded.error);
      }
      var candidates := loaded.value;
      if |candidates| == 0 {
        return Success([]);
      }
      var out := SurfaceLoaded(candidates, n);
      return Success(out);
    }

    method SurfaceLoaded(candidates: seq<Candidate>, n: nat) returns (out: seq<Candidate>)
      requires candidates != []
      ensures IsAmbiguous(out, candidates, bandPct, n)
    {
      var marks := PercentileBoundaries(candidates);
      var all := MeasureAll(candidates, marks);
      DistanceOrder();
      var sorted := SortSlice(all, ByDistance());
      var limit := bandPct * 100.0;
      out := TakeClosest(sorted, limit, n);
      assert limit == BandLimit(bandPct);
      ClosestPermutes(out, sorted, all, BandLimit(bandPct), n);
      assert AmbiguousFor(out, candidates, marks, BandLimit(bandPct), n);
    }
  }

  method MeasureAll(candidates: seq<Candidate>, marks: seq<real>) returns (all: seq<Scored>)
    requires marks != []
    ensures all == Map(Measured(marks), candidates)
  {
    all := [];
    for i := 0 to |candidates|
      invariant all == Map(Measured(marks), candidates)[..i]
    {
      var d := DistanceToNearest(candidates[i].scoreValue, marks);
      all := all + [Scored(candidates[i], d.value)];
    }
  }

  lemma ClosestPermutes(out: seq<Candidate>, a: seq<Scored>, b: seq<Scored>, limit: real, n: nat)
    requires ClosestOf(out, a, limit, n) && multiset(a) == multiset(b)
    ensures ClosestOf(out, b, limit, n)
  {
    var chosen, rest :| Closest(out, a, limit, n, chosen, rest);
    FilterPermutation(InBand(limit), a, b);
    assert Closest(out, b, limit, n, chosen, rest);
  }

  /**
   The strategy returns nothing only if there are no candidates, none are asked for or the band is
   negative; and the first candidate it returns, if any, has exactly a quartile's score.
   */
  lemma AmbiguousIsEmptyIff(out: seq<Candidate>, cs: seq<Candidate>, bandPct: real, n: nat)
    requires IsAmbiguous(out, cs, bandPct, n)
    ensures out == [] <==> cs == [] || n == 0 || bandPct < 0.0
    ensures out != [] ==> out[0].why == NearBoundary(0.0)
    ensures out != [] ==> exists marks :: Quartiles(marks, Values(cs)) && out[0].scoreValue in marks
  {
    if cs != [] {
      var marks :| AmbiguousFor(out, cs, marks, BandLimit(bandPct), n);
      var zero := MarkIsMeasured(marks, cs);
      var all := Map(Measured(marks), cs);
      if n >= 1 && bandPct >= 0.0 {
        var first := NearestFirst(out, all, BandLimit(bandPct), n, zero);
        AtMark(marks, cs, first);
      } else {
        NothingInBand(out, all, BandLimit(bandPct), n);
      }
    }
  }

  lemma NothingInBand(out: seq<Candidate>, all: seq<Scored>, limit: real, n: nat)
    requires ClosestOf(out, all, limit, n) && (n == 0 || limit < 0.0)
    requires forall s :: s in all ==> s.distance >= 0.0
    ensures out == []
  {
    FilterAll(InBand(limit), all);
    var chosen: seq<Scored>, rest: seq<Scored> :| Closest(out, all, limit, n, chosen, rest);
  }

  lemma AtMark(marks: seq<real>, cs: seq<Candidate>, s: Scored)
    requires marks != [] && s in Map(Measured(marks), cs) && s.distance == 0.0
    ensures s.c.scoreValue in marks
  {
    var i :| 0 <= i < |cs| && Map(Measured(marks), cs)[i] == s;
    assert IsDistance(s.distance, cs[i].scoreValue, marks);
    var m :| 0 <= m < |marks| && 0.0 == Abs(s.c.scoreValue - marks[m]);
    assert s.c.scoreValue == marks[m];
  }

  /** The score is within so many points of some mark. */
  ghost predicate Near(c: Candidate, marks: seq<real>, points: real) {
    exists i :: 0 <= i < |marks| && -points <= c.scoreValue - marks[i] <= points
  }

  ghost function IsNear(marks: seq<real>, points: real): Candidate -> bool {
    (c: Candidate) => Near(c, marks, points)
  }

  lemma NearIff(c: Candidate, marks: seq<real>, points: real)
    requires marks != []
    ensures Near(c, marks, points) <==> Distance(c.scoreValue, marks) <= points
  {
    var d := Distance(c.scoreValue, marks);
    assert IsDistance(d, c.scoreValue, marks);
    var i :| 0 <= i < |marks| && d == Abs(c.scoreValue - marks[i]);
    if d <= points {
      assert -points <= c.scoreValue - marks[i] <= points;
    }
  }

  lemma {:induction false} NearCount(cs: seq<Candidate>, marks: seq<real>, points: real)
    requires marks != []
    ensures |Filter(InBand(points), Map(Measured(marks), cs))| == |Filter(IsNear(marks, points), cs)|
    decreases |cs|
  {
    if cs != [] {
      NearIff(cs[0], marks, points);
      NearCount(cs[1..], marks, points);
      assert Map(Measured(marks), cs)[1..] == Map(Measured(marks), cs[1..]);
    }
  }

  /** o is one of the candidates, given a reason. */
  ghost predicate Returns(out: seq<Candidate>, c: Candidate) {
    exists o :: o in out && o == c.(why := o.why)
  }

  /**
   Everything in out lies within so many points of a mark, it is as many as do or as n allows, and if
   fewer than n, then all that do.
   */
  ghost predicate TakesNear(out: seq<Candidate>, cs: seq<Candidate>, marks: seq<real>, points: real, n: nat) {
    && (forall o :: o in out ==> Near(o, marks, points))
    && |out| == Min(n, |Filter(IsNear(marks, points), cs)|)
    && (|out| < n ==> forall c :: c in cs && Near(c, marks, points) ==> Returns(out, c))
  }

  /** The band reaches 100 points times BandPct to each side of every quartile. */
  lemma BandIsInPoints(out: seq<Candidate>, cs: seq<Candidate>, bandPct: real, n: nat)
    returns (marks: seq<real>, points: real)
    requires IsAmbiguous(out, cs, bandPct, n) && cs != []
    ensures points == 100.0 * bandPct
    ensures Quartiles(marks, Values(cs)) && TakesNear(out, cs, marks, points, n)
  {
    points := BandLimit(bandPct);
    marks :| AmbiguousFor(out, cs, marks, BandLimit(bandPct), n);
    ClosestAreNear(out, cs, marks, BandLimit(bandPct), n);
  }

  lemma ClosestAreNear(out: seq<Candidate>, cs: seq<Candidate>, marks: seq<real>, points: real, n: nat)
    requires marks != [] && ClosestOf(out, Map(Measured(marks), cs), points, n)
    ensures TakesNear(out, cs, marks, points, n)
  {
    var all := Map(Measured(marks), cs);
    var chosen: seq<Scored>, rest: seq<Scored> :| Closest(out, all, points, n, chosen, rest);
    NearCount(cs, marks, points);
    ReturnedAreNear(out, cs, marks, points, n, chosen, rest);
    if |out| < n {
      forall c | c in cs && Near(c, marks, points)
        ensures Returns(out, c)
      {
        NearIsReturned(out, cs, marks, points, n, chosen, rest, c);
      }
    }
  }

  lemma ReturnedAreNear(
    out: seq<Candidate>, cs: seq<Candidate>, marks: seq<real>, points: real, n: nat,
    chosen: seq<Scored>, rest: seq<Scored>)
    requires marks != [] && Closest(out, Map(Measured(marks), cs), points, n, chosen, rest)
    ensures forall o :: o in out ==> Near(o, marks, points)
  {
    forall o | o in out
      ensures Near(o, marks, points)
    {
      var i :| 0 <= i < |out| && out[i] == o;
      var s := chosen[i];
      MemberOfEither(chosen, rest, Map(Measured(marks), cs), s);
      var k :| 0 <= k < |cs| && Map(Measured(marks), cs)[k] == s;
      assert s.distance <= points;
      NearIff(o, marks, points);
    }
  }

  lemma NearIsReturned(
    out: seq<Candidate>, cs: seq<Candidate>, marks: seq<real>, points: real, n: nat,
    chosen: seq<Scored>, rest: seq<Scored>, c: Candidate)
    requires marks != [] && Closest(out, Map(Measured(marks), cs), points, n, chosen, rest) && |out| < n
    requires c in cs && Near(c, marks, points)
    ensures Returns(out, c)
  {
    var all, s := Map(Measured(marks), cs), Measured(marks)(c);
    var k :| 0 <= k < |cs| && cs[k] == c;
    assert all[k] == s;
    NearIff(c, marks, points);
    ChosenAreAllInBand(all, points, chosen, rest);
    MemberOfEither(chosen, rest, all, s);
    FilterMembers(InBand(points), rest);
    assert s !in rest by {
      assert s in rest ==> s in Filter(InBand(points), rest);
    }
    var i :| 0 <= i < |chosen| && chosen[i] == s;
    assert out[i] == c.(why := out[i].why);
  }

  /** If as many are chosen as are in band, no others are in band. */
  lemma ChosenAreAllInBand(all: seq<Scored>, limit: real, chosen: seq<Scored>, rest: seq<Scored>)
    requires multiset(chosen + rest) == multiset(all) && |chosen| == |Filter(InBand(limit), all)|
    requires forall s :: s in chosen ==> s.distance <= limit
    ensures Filter(InBand(limit), rest) == []
  {
    FilterPermutation(InBand(limit), chosen + rest, all);
    FilterConcat(InBand(limit), chosen, rest);
    FilterAll(InBand(limit), chosen);
  }

  /** The candidate whose score is the lower quartile has distance 0; no distance is negative. */
  lemma MarkIsMeasured(marks: seq<real>, cs: seq<Candidate>) returns (zero: Scored)
    requires marks != [] && marks[0] in Values(cs)
    ensures var all := Map(Measured(marks), cs);
      zero in all && zero.distance == 0.0 && forall s :: s in all ==> s.distance >= 0.0
  {
    var all := Map(Measured(marks), cs);
    var i :| 0 <= i < |cs| && Values(cs)[i] == marks[0];
    zero := all[i];
    DistanceToItself(marks, 0);
    forall s | s in all
      ensures s.distance >= 0.0
    {
      var m :| 0 <= m < |all| && all[m] == s;
      assert IsDistance(s.distance, cs[m].scoreValue, marks);
    }
  }

  /** If some element is at distance 0 and none is closer, the first one returned is at distance 0. */
  lemma NearestFirst(out: seq<Candidate>, all: seq<Scored>, limit: real, n: nat, zero: Scored) returns (first: Scored)
    requires ClosestOf(out, all, limit, n) && n >= 1 && limit >= 0.0
    requires zero in all && zero.distance == 0.0 && forall s :: s in all ==> s.distance >= 0.0
    ensures first in all && first.distance == 0.0 && out != [] && out[0] == Surfaced(first)
  {
    var chosen: seq<Scored>, rest: seq<Scored> :| Closest(out, all, limit, n, chosen, rest);
    AnyInBand(all, limit, zero);
    assert chosen != [];
    MemberOfEither(chosen, rest, all, zero);
    FirstIsNearest(chosen, rest, zero);
    MemberOfEither(chosen, rest, all, chosen[0]);
    first := chosen[0];
    assert out[0] == Surfaced(first);
  }

  lemma AnyInBand(all: seq<Scored>, limit: real, s: Scored)
    requires s in all && s.distance <= limit
    ensures |Filter(InBand(limit), all)| >= 1
  {
    FilterMembers(InBand(limit), all);
    assert s in Filter(InBand(limit), all);
  }

  lemma FirstIsNearest(chosen: seq<Scored>, rest: seq<Scored>, s: Scored)
    requires chosen != [] && (s in chosen || s in rest)
    requires forall i, j :: 0 <= i < j < |chosen| ==> chosen[i].distance <= chosen[j].distance
    requires forall c, t :: c in chosen && t in rest ==> c.distance <= t.distance
    ensures chosen[0].distance <= s.distance
  {
    if s in chosen {
      var j :| 0 <= j < |chosen| && chosen[j] == s;
      assert j > 0 ==> chosen[0].distance <= chosen[j].distance;
    } else {
      assert chosen[0] in chosen;
    }
  }

  lemma MemberOfEither(a: seq<Scored>, b: seq<Scored>, c: seq<Scored>, x: Scored)
    requires multiset(a + b) == multiset(c)
    ensures x in c <==> x in a || x in b
  {
    assert x in c <==> x in multiset(c);
    assert x in a + b <==> x in multiset(a + b);
  }

  lemma DistanceToItself(marks: seq<real>, i: nat)
    requires i < |marks|
    ensures Distance(marks[i], marks) == 0.0
  {
    assert IsDistance(Distance(marks[i], marks), marks[i], marks);
    assert Abs(marks[i] - marks[i]) == 0.0;
  }

  // ---- the high-stakes strategy ----

  function ByScoreDescending(): (Candidate, Candidate) -> bool {
    (a: Candidate, b: Candidate) => a.scoreValue > b.scoreValue
  }

  lemma ScoreOrder()
    ensures StrictWeakOrder(ByScoreDescending())
  {
  }

  function Marked(c: Candidate): Candidate {
    c.(why := TopDecile)
  }

  /** out holds min(n, all) candidates with the highest scores, highest first; rest are the others. */
  ghost predicate Highest(
    out: seq<Candidate>, cs: seq<Candidate>, n: nat, chosen: seq<Candidate>, rest: seq<Candidate>)
  {
    && out == Map(Marked, chosen)
    && multiset(chosen + rest) == multiset(cs)
    && |chosen| == Min(n, |cs|)
    && (forall i, j :: 0 <= i < j < |chosen| ==> chosen[i].scoreValue >= chosen[j].scoreValue)
    && (forall s, t :: s in chosen && t in rest ==> s.scoreValue >= t.scoreValue)
  }

  ghost predicate HighestOf(out: seq<Candidate>, cs: seq<Candidate>, n: nat) {
    exists chosen, rest :: Highest(out, cs, n, chosen, rest)
  }

  class HighStakesStrategy {
    constructor () {
    }

    /** n bounds a slice, which Go requires not to be negative. */
    method Surface(reader: Reader, n: nat) returns (r: Result<seq<Candidate>, LoadError>)
      ensures r.Success? <==> CanLoad(reader)
      ensures r.Failure? ==> FailsWith(reader, r.error)
      ensures r.Success? ==> exists cs :: Loads(reader, cs) && HighestOf(r.value, cs, n)
    {
      var loaded := LoadAllCandidates(reader);
      if loaded.Failure? {
        return Failure(loaded.error);
      }
      var out := SurfaceHighest(loaded.value, n);
      return Success(out);
    }
  }

  method SurfaceHighest(candidates: seq<Candidate>, n: nat) returns (out: seq<Candidate>)
    ensures HighestOf(out, candidates, n)
  {
    ScoreOrder();
    var sorted := SortSlice(candidates, ByScoreDescending());
    assert |multiset(sorted)| == |multiset(candidates)|;
    var cutoff := |sorted| / 10;
    if cutoff < n {
      cutoff := n;
    }
    if cutoff > |sorted| {
      cutoff := |sorted|;
    }
    var top := sorted[..cutoff];
    if |top| > n {
      top := top[..n];
    }
    assert top == sorted[..|top|];
    out := MarkAll(top);
    TopIsHighest(out, candidates, n, sorted, |top|);
  }

  lemma TopIsHighest(out: seq<Candidate>, cs: seq<Candidate>, n: nat, sorted: seq<Candidate>, k: nat)
    requires Sorts(ByScoreDescending(), sorted, cs) && k == Min(n, |cs|) <= |sorted|
    requires out == Map(Marked, sorted[..k])
    ensures HighestOf(out, cs, n)
  {
    OrderedSplits(sorted, k);
    assert Highest(out, cs, n, sorted[..k], sorted[k..]);
  }

  method MarkAll(top: seq<Candidate>) returns (out: seq<Candidate>)
    ensures out == Map(Marked, top)
  {
    out := top;
    for i := 0 to |out|
      invariant |out| == |top|
      invariant forall j :: 0 <= j < |top| ==> out[j] == if j < i then Marked(top[j]) else top[j]
    {
      out := out[i := out[i].(why := TopDecile)];
    }
  }

  lemma OrderedSplits(sorted: seq<Candidate>, k: nat)
    requires Ordered(ByScoreDescending(), sorted) && k <= |sorted|
    ensures sorted == sorted[..k] + sorted[k..]
    ensures forall i, j :: 0 <= i < j < k ==> sorted[i].scoreValue >= sorted[j].scoreValue
    ensures forall s, t :: s in sorted[..k] && t in sorted[k..] ==> s.scoreValue >= t.scoreValue
  {
    forall i, j | 0 <= i < j < |sorted|
      ensures sorted[i].scoreValue >= sorted[j].scoreValue
    {
      assert !ByScoreDescending()(sorted[j], sorted[i]);
    }
  }

  // ---- the top decile ----

  /** Fewer than a tenth of the candidates score higher. */
  ghost predicate InTopDecile(c: Candidate, cs: seq<Candidate>) {
    |Filter(Below(ByScoreDescending(), c), cs)| < |cs| / 10
  }

  /** The scores at positions i and j, counted from the highest, are the same. */
  ghost predicate SameScoreAt(cs: seq<Candidate>, i: int, j: int) {
    exists w :: AtRank(ByScoreDescending(), w, cs, i) && AtRank(ByScoreDescending(), w, cs, j)
  }

  /** The last candidate chosen stands at the last of the chosen ranks. */
  lemma LastChosenAtRank(out: seq<Candidate>, cs: seq<Candidate>, n: nat, chosen: seq<Candidate>, rest: seq<Candidate>)
    requires Highest(out, cs, n, chosen, rest) && chosen != []
    ensures AtRank(ByScoreDescending(), chosen[|chosen| - 1], cs, |chosen| - 1)
  {
    var k := |chosen| - 1;
    var last := chosen[k];
    var above, notBelow := Below(ByScoreDescending(), last), NotAbove(ByScoreDescending(), last);
    assert chosen == chosen[..k] + chosen[k..];
    FilterConcat(above, chosen[..k], chosen[k..]);
    FilterAll(above, chosen[k..]);
    FilterNoLonger(above, chosen[..k]);
    FilterConcat(above, chosen, rest);
    assert last in chosen;
    FilterAll(above, rest);
    FilterConcat(notBelow, chosen, rest);
    FilterAll(notBelow, chosen);
    assert last in chosen + rest;
    AtRankPermutes(ByScoreDescending(), last, chosen + rest, cs, k);
  }

  /** What scores at least as high as a member of the top decile is in it too. */
  lemma HigherIsInDecile(c: Candidate, d: Candidate, cs: seq<Candidate>)
    requires c.scoreValue >= d.scoreValue && InTopDecile(d, cs)
    ensures InTopDecile(c, cs)
  {
    FilterImplies(Below(ByScoreDescending(), c), Below(ByScoreDescending(), d), cs);
  }

  /** Whether everything returned is in the top decile is decided by the last candidate chosen. */
  lemma LastDecides(out: seq<Candidate>, cs: seq<Candidate>, n: nat, chosen: seq<Candidate>, rest: seq<Candidate>)
    requires Highest(out, cs, n, chosen, rest) && chosen != []
    ensures (forall c :: c in out ==> InTopDecile(c, cs)) <==> InTopDecile(chosen[|chosen| - 1], cs)
  {
    var last := chosen[|chosen| - 1];
    if InTopDecile(last, cs) {
      forall c | c in out
        ensures InTopDecile(c, cs)
      {
        var i :| 0 <= i < |out| && out[i] == c;
        assert c.scoreValue == chosen[i].scoreValue >= last.scoreValue;
        HigherIsInDecile(c, last, cs);
      }
    } else {
      var marked := out[|out| - 1];
      assert marked in out && marked.scoreValue == last.scoreValue;
      if InTopDecile(marked, cs) {
        HigherIsInDecile(last, marked, cs);
      }
    }
  }

  /** The candidate at rank k is in the top decile if k is within it, or ties with the decile's last rank. */
  lemma RankInDecileIff(v: Candidate, cs: seq<Candidate>, k: nat)
    requires AtRank(ByScoreDescending(), v, cs, k)
    ensures InTopDecile(v, cs) <==> k < |cs| / 10 || SameScoreAt(cs, |cs| / 10 - 1, k)
  {
    var less, d := ByScoreDescending(), |cs| / 10;
    ScoreOrder();
    if k >= d && InTopDecile(v, cs) {
      assert AtRank(less, v, cs, d - 1);
    }
    if w :| AtRank(less, w, cs, d - 1) && AtRank(less, w, cs, k) {
      RankIsMonotone(less, cs, v, k, w, k);
      RankIsMonotone(less, cs, w, k, v, k);
      assert InTopDecile(w, cs);
      HigherIsInDecile(v, w, cs);
    }
  }

  /**
   The strategy is described as surfacing the top decile. It returns nothing else exactly if no more than a
   tenth of the candidates were asked for, or there are none, or the scores are tied from the last rank of
   the decile down to the last rank returned.
   */
  lemma WithinDecileIff(out: seq<Candidate>, cs: seq<Candidate>, n: nat)
    requires HighestOf(out, cs, n)
    ensures (forall c :: c in out ==> InTopDecile(c, cs))
       <==> n == 0 || cs == [] || n <= |cs| / 10 || SameScoreAt(cs, |cs| / 10 - 1, Min(n, |cs|) - 1)
  {
    var chosen: seq<Candidate>, rest: seq<Candidate> :| Highest(out, cs, n, chosen, rest);
    if chosen != [] {
      LastChosenAtRank(out, cs, n, chosen, rest);
      LastDecides(out, cs, n, chosen, rest);
      RankInDecileIff(chosen[|chosen| - 1], cs, |chosen| - 1);
    }
  }

  /** Of ten candidates with different scores, the second returned is not in the top decile. */
  lemma BelowTheDecile(cs: seq<Candidate>)
    requires |cs| == 10 && forall i, j :: 0 <= i < j < 10 ==> cs[i].scoreValue > cs[j].scoreValue
    ensures HighestOf([Marked(cs[0]), Marked(cs[1])], cs, 2)
    ensures InTopDecile(Marked(cs[0]), cs) && !InTopDecile(Marked(cs[1]), cs)
  {
    assert Ordered(ByScoreDescending(), cs);
    assert Map(Marked, cs[..2]) == [Marked(cs[0]), Marked(cs[1])];
    TopIsHighest([Marked(cs[0]), Marked(cs[1])], cs, 2, cs, 2);
    FilterMembers(Below(ByScoreDescending(), Marked(cs[1])), cs);
    assert cs[0] in Filter(Below(ByScoreDescending(), Marked(cs[1])), cs);
    FilterAll(Below(ByScoreDescending(), Marked(cs[0])), cs);
  }

  // ---- the strategies that filter ----

  /** The first n candidates that satisfy p, in order, each given its reason. */
  function FirstMatching(p: Candidate -> bool, why: Candidate -> Why, cs: seq<Candidate>, n: nat): seq<Candidate> {
    var found := Filter(p, cs);
    Map((c: Candidate) => c.(why := why(c)), found[..Min(n, |found|)])
  }

  /** out holds all candidates found so far, and no more than n. */
  ghost predicate FoundSoFar(
    out: seq<Candidate>, p: Candidate -> bool, why: Candidate -> Why, cs: seq<Candidate>, n: nat)
  {
    out == FirstMatching(p, why, cs, n) && |out| == |Filter(p, cs)|
  }

  /** Once n candidates have been found, the rest need not be looked at. */
  lemma EnoughFound(
    out: seq<Candidate>, p: Candidate -> bool, why: Candidate -> Why, cs: seq<Candidate>, n: nat, i: nat)
    requires i <= |cs| && FoundSoFar(out, p, why, cs[..i], n) && |out| >= n
    ensures out == FirstMatching(p, why, cs, n)
  {
    assert cs == cs[..i] + cs[i..];
    FilterConcat(p, cs[..i], cs[i..]);
    assert Filter(p, cs)[..n] == Filter(p, cs[..i])[..n];
  }

  lemma OneMoreFound(
    out: seq<Candidate>, p: Candidate -> bool, why: Candidate -> Why, cs: seq<Candidate>, n: nat, i: nat)
    requires i < |cs| && FoundSoFar(out, p, why, cs[..i], n) && |out| < n
    ensures FoundSoFar(if p(cs[i]) then out + [cs[i].(why := why(cs[i]))] else out, p, why, cs[..i + 1], n)
  {
    assert cs[..i + 1] == cs[..i] + [cs[i]];
    FilterConcat(p, cs[..i], [cs[i]]);
    FilterOne(p, cs[i]);
    var found, more := Filter(p, cs[..i]), Filter(p, cs[..i + 1]);
    assert found[..Min(n, |found|)] == found && more[..Min(n, |more|)] == more;
  }

  /** The least confidence among some components, if there are any. */
  function Lowest(components: seq<Component>): Option<real> {
    if components == [] then None
    else
      var n := |components| - 1;
      match Lowest(components[..n])
      case None => Some(components[n].confidence)
      case Some(low) => Some(if components[n].confidence < low then components[n].confidence else low)
  }

  lemma {:induction false} LowestBelowIff(components: seq<Component>, threshold: real)
    ensures (Lowest(components).Some? && Lowest(components).value < threshold)
       <==> SomeBelow(components, threshold)
    decreases |components|
  {
    if components != [] {
      var n := |components| - 1;
      LowestBelowIff(components[..n], threshold);
      if i :| 0 <= i < n && components[i].confidence < threshold {
        assert components[..n][i].confidence < threshold;
      }
    }
  }

  ghost predicate SomeBelow(components: seq<Component>, threshold: real) {
    exists i :: 0 <= i < |components| && components[i].confidence < threshold
  }

  ghost function IsDoubtful(threshold: real): Candidate -> bool {
    (c: Candidate) => SomeBelow(c.components, threshold)
  }

  ghost function Doubt(threshold: real): Candidate -> Why {
    (c: Candidate) => match Lowest(c.components) case None => Unset case Some(low) => LowConfidence(low, threshold)
  }

  class LowConfidenceStrategy {
    const threshold: real

    constructor (threshold: real)
      ensures this.threshold == threshold
    {
      this.threshold := threshold;
    }

    /** The first n candidates with a component below the threshold. */
    method Surface(reader: Reader, n: nat) returns (r: Result<seq<Candidate>, LoadError>)
      ensures r.Success? <==> CanLoad(reader)
      ensures r.Failure? ==> FailsWith(reader, r.error)
      ensures r.Success? ==>
        exists cs :: Loads(reader, cs) && r.value == FirstMatching(IsDoubtful(threshold), Doubt(threshold), cs, n)
    {
      var loaded := LoadAllCandidates(reader);
      if loaded.Failure? {
        return Failure(loaded.error);
      }
      var out := TakeDoubtful(loaded.value, threshold, n);
      return Success(out);
    }
  }

  method TakeDoubtful(cs: seq<Candidate>, threshold: real, n: nat) returns (out: seq<Candidate>)
    ensures out == FirstMatching(IsDoubtful(threshold), Doubt(threshold), cs, n)
  {
    ghost var p, why := IsDoubtful(threshold), Doubt(threshold);
    out := [];
    for i := 0 to |cs|
      invariant FoundSoFar(out, p, why, cs[..i], n)
    {
      if |out| >= n {
        EnoughFound(out, p, why, cs, n, i);
        return;
      }
      OneMoreFound(out, p, why, cs, n, i);
      var lowest := FindLowest(cs[i].components);
      LowestBelowIff(cs[i].components, threshold);
      if lowest.Some? && lowest.value < threshold {
        out := out + [cs[i].(why := LowConfidence(lowest.value, threshold))];
      }
    }
    assert cs[..|cs|] == cs;
  }

  /** None stands for the infinite minimum of no confidences at all. */
  method FindLowest(components: seq<Component>) returns (lowest: Option<real>)
    ensures lowest == Lowest(components)
  {
    lowest := None;
    for j := 0 to |components|
      invariant lowest == Lowest(components[..j])
    {
      assert components[..j + 1][..j] == components[..j];
      if lowest.None? || components[j].confidence < lowest.value {
        lowest := Some(components[j].confidence);
      }
    }
    assert components[..|components|] == components;
  }

  predicate Contested(j: Judgment) {
    j.verdict == Disagrees || j.verdict == Uncertain
  }

  function Contests(judgments: map<string, seq<Judgment>>, c: Candidate): seq<Judgment> {
    if c.scoreId in judgments then Filter(Contested, judgments[c.scoreId]) else []
  }

  function IsContested(judgments: map<string, seq<Judgment>>): Candidate -> bool {
    (c: Candidate) => Contests(judgments, c) != []
  }

  function FirstContest(judgments: map<string, seq<Judgment>>): Candidate -> Why {
    (c: Candidate) => var js := Contests(judgments, c); if js == [] then Unset else PriorJudgment(js[0])
  }

  /** The judgment at k is the first of a score's judgments that disagrees or is uncertain. */
  ghost predicate FirstContestAt(judgments: map<string, seq<Judgment>>, scoreId: string, k: nat) {
    && scoreId in judgments && k < |judgments[scoreId]|
    && judgments[scoreId][k].verdict in {Disagrees, Uncertain}
    && forall j :: 0 <= j < k ==> judgments[scoreId][j].verdict !in {Disagrees, Uncertain}
  }

  /** Exactly the candidates whose score has such a judgment surface, and that judgment is the reason. */
  lemma ContestedIff(judgments: map<string, seq<Judgment>>, c: Candidate)
    ensures IsContested(judgments)(c) <==> exists k: nat :: FirstContestAt(judgments, c.scoreId, k)
    ensures forall k: nat :: FirstContestAt(judgments, c.scoreId, k) ==>
      FirstContest(judgments)(c) == PriorJudgment(judgments[c.scoreId][k])
  {
    if c.scoreId in judgments {
      var js := judgments[c.scoreId];
      forall k: nat | FirstContestAt(judgments, c.scoreId, k)
        ensures Contests(judgments, c) != [] && Contests(judgments, c)[0] == js[k]
      {
        FilterAll(Contested, js[..k]);
        LookAt(js, k);
      }
      if Contests(judgments, c) != [] {
        var k := FirstContestExists(js);
        assert FirstContestAt(judgments, c.scoreId, k);
      }
    }
  }

  lemma {:induction false} FirstContestExists(js: seq<Judgment>) returns (k: nat)
    requires Filter(Contested, js) != []
    ensures k < |js| && Contested(js[k]) && forall j :: 0 <= j < k ==> !Contested(js[j])
  {
    if Contested(js[0]) {
      k := 0;
    } else {
      k := FirstContestExists(js[1..]);
      assert forall j :: 1 <= j <= k + 1 ==> js[j] == js[1..][j - 1];
      k := k + 1;
    }
  }

  type JudgmentReader = seq<string> -> Result<map<string, seq<Judgment>>, string>

  function ScoreIds(cs: seq<Candidate>): seq<string> {
    Map((c: Candidate) => c.scoreId, cs)
  }

  datatype SurfaceError = Loading(error: LoadError) | Judgments(cause: string)

  class DisagreementStrategy {
    const judgmentReader: Option<JudgmentReader>

    constructor (judgmentReader: Option<JudgmentReader>)
      ensures this.judgmentReader == judgmentReader
    {
      this.judgmentReader := judgmentReader;
    }

    /** Without judgments nothing is even loaded. */
    method Surface(reader: Reader, n: nat) returns (r: Result<seq<Candidate>, SurfaceError>)
      ensures judgmentReader.None? ==> r == Success([])
      ensures judgmentReader.Some? ==>
        if r.Success? then exists cs :: Loads(reader, cs) && IsContestedFirst(r.value, judgmentReader.value, cs, n)
        else
          match r.error
          case Loading(e) => FailsWith(reader, e)
          case Judgments(cause) =>
            exists cs :: Loads(reader, cs) && judgmentReader.value(ScoreIds(cs)) == Failure(cause)
    {
      if judgmentReader.None? {
        return Success([]);
      }
      var loaded := LoadAllCandidates(reader);
      if loaded.Failure? {
        return Failure(Loading(loaded.error));
      }
      var cs := loaded.value;
      var ids := seq(|cs|, i requires 0 <= i < |cs| => cs[i].scoreId);
      assert ids == ScoreIds(cs);
      var judgments := judgmentReader.value(ids);
      if judgments.Failure? {
        return Failure(Judgments(judgments.error));
      }
      var out := TakeContested(cs, judgments.value, n);
      return Success(out);
    }
  }

  /** out holds the first n candidates whose score was contested. */
  ghost predicate IsContestedFirst(out: seq<Candidate>, judgmentReader: JudgmentReader, cs: seq<Candidate>, n: nat) {
    var judgments := judgmentReader(ScoreIds(cs));
    judgments.Success?
    && out == FirstMatching(IsContested(judgments.value), FirstContest(judgments.value), cs, n)
  }

  method TakeContested(cs: seq<Candidate>, judgments: map<string, seq<Judgment>>, n: nat) returns (out: seq<Candidate>)
    ensures out == FirstMatching(IsContested(judgments), FirstContest(judgments), cs, n)
  {
    ghost var p, why := IsContested(judgments), FirstContest(judgments);
    out := [];
    for i := 0 to |cs|
      invariant FoundSoFar(out, p, why, cs[..i], n)
    {
      if |out| >= n {
        EnoughFound(out, p, why, cs, n, i);
        return;
      }
      OneMoreFound(out, p, why, cs, n, i);
      var contest := FirstContested(judgments, cs[i]);
      if contest.Some? {
        out := out + [cs[i].(why := PriorJudgment(contest.value))];
      }
    }
    assert cs[..|cs|] == cs;
  }

  lemma LookAt(js: seq<Judgment>, i: nat)
    requires i < |js| && Filter(Contested, js[..i]) == []
    ensures Contested(js[i]) ==> Filter(Contested, js) != [] && Filter(Contested, js)[0] == js[i]
    ensures !Contested(js[i]) ==> Filter(Contested, js[..i + 1]) == []
  {
    assert js[..i + 1] == js[..i] + [js[i]];
    FilterConcat(Contested, js[..i], [js[i]]);
    FilterOne(Contested, js[i]);
    assert js == js[..i + 1] + js[i + 1..];
    FilterConcat(Contested, js[..i + 1], js[i + 1..]);
  }

  method FirstContested(judgments: map<string, seq<Judgment>>, c: Candidate) returns (contest: Option<Judgment>)
    ensures contest == var js := Contests(judgments, c); if js == [] then None else Some(js[0])
  {
    var js := if c.scoreId in judgments then judgments[c.scoreId] else [];
    for i := 0 to |js|
      invariant Filter(Contested, js[..i]) == []
    {
      LookAt(js, i);
      if js[i].verdict == Disagrees || js[i].verdict == Uncertain {
        return Some(js[i]);
      }
    }
    assert js[..|js|] == js;
    return None;
  }
}
