/**
 The stratified sampler: groups of listings are visited in canonical key order, each is sampled
 with a partial shuffle on one shared random stream, and the picks are ordered by ID and capped.
 */
module DatasetBootstrap {
  import opened Vocabulary
  import opened Domain
  import opened Sorting
  import opened Shuffle
  import opened Strata

  datatype StratificationConfig = StratificationConfig(
    perKind: int, perConfidenceBucket: map<string, int>, totalCap: int)

  // ---- the random stream ----

  /** Any seeded generator: a draw is a function of the bounds asked for so far. */
  type Source = seq<nat> -> nat

  /** The answer to the last bound asked for; a generator's answer is always below that bound. */
  function Draw(source: Source, asked: seq<nat>): (j: nat)
    requires asked != [] && asked[|asked| - 1] > 0
    ensures j < asked[|asked| - 1]
  {
    if source(asked) < asked[|asked| - 1] then source(asked) else 0
  }

  class Rand {
    const source: Source
    var asked: seq<nat>

    constructor (source: Source)
      ensures this.source == source && asked == []
    {
      this.source, this.asked := source, [];
    }

    method IntN(n: int) returns (j: int)
      requires n > 0
      modifies this`asked
      ensures asked == old(asked) + [n]
      ensures j == Draw(source, asked)
    {
      asked := asked + [n];
      j := Draw(source, asked);
    }
  }

  /** The bounds that n steps of a shuffle of `size` elements ask for. */
  function Bounds(size: nat, n: nat): (b: seq<nat>)
    requires n <= size
    ensures |b| == n && forall i :: 0 <= i < n ==> b[i] == size - i
  {
    seq(n, i requires 0 <= i < n => size - i)
  }

  /** The n draws that follow what was asked before. */
  function Draws(source: Source, asked: seq<nat>, size: nat, n: nat): (draws: seq<nat>)
    requires n <= size
    ensures |draws| == n && forall i :: 0 <= i < n ==> draws[i] == Draw(source, asked + Bounds(size, i + 1))
    ensures ValidDraws(draws, size, n)
  {
    seq(n, i requires 0 <= i < n => Draw(source, asked + Bounds(size, i + 1)))
  }

  // ---- sampling one stratum ----

  /** The result of sampleN: nothing, everything, or the selection the stream makes. */
  function Sample(input: seq<Listing>, n: int, source: Source, asked: seq<nat>): seq<Listing> {
    if n <= 0 then []
    else if n >= |input| then input
    else Pick(input, Draws(source, asked, |input|, n))
  }

  /** The draws sampleN consumes: none unless it really has to choose. */
  function Consumed(size: nat, n: int): seq<nat> {
    if 0 < n < size then Bounds(size, n) else []
  }

  method SampleN(input: seq<Listing>, n: int, rng: Rand) returns (out: seq<Listing>)
    modifies rng`asked
    ensures out == Sample(input, n, rng.source, old(rng.asked))
    ensures rng.asked == old(rng.asked) + Consumed(|input|, n)
  {
    if n <= 0 || |input| == 0 {
      return [];
    }
    if n >= |input| {
      return input;
    }
    var pool := new Listing[|input|](i requires 0 <= i < |input| => input[i]);
    assert pool[..] == input;
    ShufflePrefix(pool, n, rng);
    out := pool[..n];
  }

  /** The loop of sampleN: settle the first n slots of the pool. */
  method ShufflePrefix<T>(pool: array<T>, n: nat, rng: Rand)
    requires n <= pool.Length
    modifies pool, rng`asked
    ensures pool[..n] == Pick(old(pool[..]), Draws(rng.source, old(rng.asked), pool.Length, n))
    ensures rng.asked == old(rng.asked) + Bounds(pool.Length, n)
    ensures multiset(pool[..]) == multiset(old(pool[..]))
  {
    ghost var start, input := rng.asked, pool[..];
    ghost var draws := Draws(rng.source, start, pool.Length, n);
    UnderwayStarts(input, draws);
    for i := 0 to n
      invariant rng.asked == start + Bounds(pool.Length, i)
      invariant Underway(input, draws, pool[..], i)
    {
      ghost var before := pool[..];
      NextDraw(rng.source, start, pool.Length, n, i);
      ExchangeDrawn(pool, i, rng);
      UnderwayStep(input, draws, before, pool[..], i);
    }
    UnderwayEnds(input, draws, pool[..]);
  }

  /** One round of the loop: slot i is exchanged with a slot drawn from those still open. */
  method ExchangeDrawn<T>(pool: array<T>, i: nat, rng: Rand)
    requires i < pool.Length
    modifies pool, rng`asked
    ensures rng.asked == old(rng.asked) + [pool.Length - i]
    ensures pool[..] == Exchanged(old(pool[..]), i, i + Draw(rng.source, rng.asked))
    ensures pool[..i] == old(pool[..i]) && multiset(pool[..]) == multiset(old(pool[..]))
  {
    var j := rng.IntN(pool.Length - i);
    j := i + j;
    pool[i], pool[j] := pool[j], pool[i];
    ExchangeKeeps(old(pool[..]), i, j);
    assert pool[..i] == pool[..][..i] && old(pool[..i]) == old(pool[..])[..i];
  }

  /** An exchange from slot i on leaves the slots before i alone and keeps the elements. */
  lemma ExchangeKeeps<T>(s: seq<T>, i: nat, j: nat)
    requires i <= j < |s|
    ensures Exchanged(s, i, j)[..i] == s[..i]
    ensures multiset(Exchanged(s, i, j)) == multiset(s)
  {
  }

  function Exchanged<T>(s: seq<T>, i: nat, j: nat): (r: seq<T>)
    requires i < |s| && j < |s|
    ensures |r| == |s|
  {
    s[i := s[j]][j := s[i]]
  }

  lemma NextDraw(source: Source, start: seq<nat>, size: nat, n: nat, i: nat)
    requires i < n <= size
    ensures start + Bounds(size, i) + [size - i] == start + Bounds(size, i + 1)
    ensures Draws(source, start, size, n)[i] == Draw(source, start + Bounds(size, i) + [size - i])
  {
    assert Bounds(size, i + 1) == Bounds(size, i) + [size - i];
    ConcatAssoc(start, Bounds(size, i), [size - i]);
  }

  /** What the shuffle will have returned: the settled slots, then what the draws still to come pick. */
  ghost function Progress<T>(slots: seq<T>, i: nat, draws: seq<nat>): seq<T>
    requires i <= |slots| && ValidDraws(draws, |slots| - i, |draws|)
  {
    slots[..i] + Pick(slots[i..], draws)
  }

  /** After i rounds: the pool is a permutation of the input, and its selection is still to be the draws'. */
  ghost predicate Underway<T>(input: seq<T>, draws: seq<nat>, slots: seq<T>, i: nat) {
    && i <= |draws| && |slots| == |input| && ValidDraws(draws, |input|, |draws|)
    && multiset(slots) == multiset(input)
    && Progress(slots, i, draws[i..]) == Pick(input, draws)
  }

  lemma UnderwayStarts<T>(input: seq<T>, draws: seq<nat>)
    requires ValidDraws(draws, |input|, |draws|)
    ensures Underway(input, draws, input, 0)
  {
    assert input[0..] == input && draws[0..] == draws;
  }

  lemma UnderwayStep<T>(input: seq<T>, draws: seq<nat>, before: seq<T>, after: seq<T>, i: nat)
    requires Underway(input, draws, before, i) && i < |draws|
    requires after == Exchanged(before, i, i + draws[i])
    ensures Underway(input, draws, after, i + 1)
  {
    ExchangeKeeps(before, i, i + draws[i]);
    StepAt(before, i, draws, after);
  }

  lemma UnderwayEnds<T>(input: seq<T>, draws: seq<nat>, slots: seq<T>)
    requires Underway(input, draws, slots, |draws|)
    ensures slots[..|draws|] == Pick(input, draws) && multiset(slots) == multiset(input)
  {
    assert draws[|draws|..] == [];
  }

  /** One exchange settles slot i and leaves the rest of the selection to the remaining draws. */
  lemma StepPicks<T>(before: seq<T>, i: nat, draws: seq<nat>, after: seq<T>)
    requires i < |before| && draws != [] && ValidDraws(draws, |before| - i, |draws|)
    requires after == Exchanged(before, i, i + draws[0])
    ensures ValidDraws(draws[1..], |after| - i - 1, |draws| - 1)
    ensures Progress(after, i + 1, draws[1..]) == Progress(before, i, draws)
  {
    StepSlots(before, i, draws[0], after);
    ConcatAssoc(before[..i], [before[i + draws[0]]], Pick(Remaining(before[i..], draws[0]), draws[1..]));
  }

  lemma StepAt<T>(before: seq<T>, i: nat, draws: seq<nat>, after: seq<T>)
    requires i < |draws| && ValidDraws(draws, |before|, |draws|)
    requires after == Exchanged(before, i, i + draws[i])
    ensures Progress(after, i + 1, draws[i + 1..]) == Progress(before, i, draws[i..])
  {
    assert draws[i..][0] == draws[i] && draws[i..][1..] == draws[i + 1..];
    StepPicks(before, i, draws[i..], after);
  }

  lemma StepSlots<T>(before: seq<T>, i: nat, j: nat, after: seq<T>)
    requires i + j < |before|
    requires after == Exchanged(before, i, i + j)
    ensures |after| == |before| && before[i..][j] == before[i + j]
    ensures after[..i + 1] == before[..i] + [before[i + j]]
    ensures after[i + 1..] == Remaining(before[i..], j)
  {
  }

  // ---- all strata ----

  /** The target for a stratum: its bucket's, or the per-kind one if that is absent or 0. */
  function Want(cfg: StratificationConfig, key: StratumKey): int {
    var want := if key.bucket in cfg.perConfidenceBucket then cfg.perConfidenceBucket[key.bucket] else 0;
    if want == 0 then cfg.perKind else want
  }

  function Walk(cfg: StratificationConfig, groups: Grouping, keys: seq<StratumKey>, source: Source, asked: seq<nat>)
    : seq<Listing>
  {
    if keys == [] then []
    else
      var group, want := Lookup(groups, keys[0]), Want(cfg, keys[0]);
      Sample(group, want, source, asked) + Walk(cfg, groups, keys[1..], source, asked + Consumed(|group|, want))
  }

  function WalkConsumed(cfg: StratificationConfig, groups: Grouping, keys: seq<StratumKey>): seq<nat> {
    if keys == [] then []
    else Consumed(|Lookup(groups, keys[0])|, Want(cfg, keys[0])) + WalkConsumed(cfg, groups, keys[1..])
  }

  lemma {:induction false} WalkConcat(
    cfg: StratificationConfig, groups: Grouping, a: seq<StratumKey>, b: seq<StratumKey>,
    source: Source, asked: seq<nat>)
    ensures WalkConsumed(cfg, groups, a + b) == WalkConsumed(cfg, groups, a) + WalkConsumed(cfg, groups, b)
    ensures Walk(cfg, groups, a + b, source, asked)
         == Walk(cfg, groups, a, source, asked) + Walk(cfg, groups, b, source, asked + WalkConsumed(cfg, groups, a))
    decreases |a|
  {
    if a == [] {
      assert a + b == b && asked + [] == asked;
    } else {
      assert (a + b)[1..] == a[1..] + b;
      var group, want := Lookup(groups, a[0]), Want(cfg, a[0]);
      var first, rest := Consumed(|group|, want), WalkConsumed(cfg, groups, a[1..]);
      WalkConcat(cfg, groups, a[1..], b, source, asked + first);
      assert WalkConsumed(cfg, groups, a) == first + rest;
      ConcatAssoc(asked, first, rest);
      ConcatAssoc(first, rest, WalkConsumed(cfg, groups, b));
      var here, later := Sample(group, want, source, asked), Walk(cfg, groups, a[1..], source, asked + first);
      ConcatAssoc(here, later, Walk(cfg, groups, b, source, asked + (first + rest)));
    }
  }

  lemma WalkNext(
    cfg: StratificationConfig, groups: Grouping, keys: seq<StratumKey>, i: nat, source: Source, start: seq<nat>)
    requires i < |keys|
    ensures var group, want := Lookup(groups, keys[i]), Want(cfg, keys[i]);
      var asked := start + WalkConsumed(cfg, groups, keys[..i]);
      && Walk(cfg, groups, keys[..i + 1], source, start)
         == Walk(cfg, groups, keys[..i], source, start) + Sample(group, want, source, asked)
      && start + WalkConsumed(cfg, groups, keys[..i + 1]) == asked + Consumed(|group|, want)
  {
    var k := keys[i];
    var asked := start + WalkConsumed(cfg, groups, keys[..i]);
    assert keys[..i + 1] == keys[..i] + [k];
    WalkConcat(cfg, groups, keys[..i], [k], source, start);
    assert WalkConsumed(cfg, groups, [k]) == Consumed(|Lookup(groups, k)|, Want(cfg, k));
    ConcatAssoc(start, WalkConsumed(cfg, groups, keys[..i]), WalkConsumed(cfg, groups, [k]));
  }

  /** Walking these keys from start has picked these listings and brought the stream here. */
  ghost predicate Walked(
    cfg: StratificationConfig, groups: Grouping, keys: seq<StratumKey>, source: Source, start: seq<nat>,
    picked: seq<Listing>, asked: seq<nat>)
  {
    picked == Walk(cfg, groups, keys, source, start) && asked == start + WalkConsumed(cfg, groups, keys)
  }

  lemma WalkedOn(
    cfg: StratificationConfig, groups: Grouping, keys: seq<StratumKey>, source: Source, start: seq<nat>,
    picked: seq<Listing>, asked: seq<nat>, more: seq<StratumKey>)
    requires Walked(cfg, groups, keys, source, start, picked, asked)
    ensures Walked(cfg, groups, keys + more, source, start,
                   picked + Walk(cfg, groups, more, source, asked), asked + WalkConsumed(cfg, groups, more))
  {
    WalkConcat(cfg, groups, keys, more, source, start);
    ConcatAssoc(start, WalkConsumed(cfg, groups, keys), WalkConsumed(cfg, groups, more));
  }

  function ById(): (Listing, Listing) -> bool {
    ByKey((l: Listing) => l.id)
  }

  function Capped(totalCap: int, picked: seq<Listing>): seq<Listing> {
    if totalCap <= 0 || |picked| <= totalCap then picked else picked[..totalCap]
  }

  lemma PrefixIsCapped(totalCap: int, picked: seq<Listing>, r: seq<Listing>)
    requires r <= picked && |r| == if totalCap > 0 then Min(|picked|, totalCap) else |picked|
    ensures r == Capped(totalCap, picked)
  {
    assert r == picked[..|r|];
  }

  // ---- the whole pull ----

  /** The datastore, as far as the sampler reads it; any of the three reads may fail. */
  datatype Reader = Reader(
    listingsSince: Result<seq<Listing>, string>,
    componentsForListing: string -> Result<seq<Component>, string>,
    scoresForListings: seq<string> -> Result<map<string, Score>, string>)

  datatype SampleSet = SampleSet(listings: seq<Listing>, scores: map<string, Score>, components: Components)

  /** NegativeCapacity stands for the panic of make with a negative capacity. */
  datatype RunError =
    | ListListings(cause: string)
    | ComponentsFor(id: string, cause: string)
    | ListScores(cause: string)
    | NegativeCapacity

  /** The components of every listing, or the failure of the first listing whose read fails. */
  function LoadComponents(reader: Reader, listings: seq<Listing>): Result<Components, RunError> {
    if listings == [] then Success(map[])
    else
      var last := listings[|listings| - 1];
      match LoadComponents(reader, listings[..|listings| - 1])
      case Failure(e) => Failure(e)
      case Success(loaded) =>
        match reader.componentsForListing(last.id)
        case Failure(cause) => Failure(ComponentsFor(last.id, cause))
        case Success(comps) => Success(loaded[last.id := comps])
  }

  function Ids(listings: seq<Listing>): seq<string> {
    Map((l: Listing) => l.id, listings)
  }

  function Assemble(reader: Reader, components: Components, picked: seq<Listing>): Result<SampleSet, RunError> {
    match reader.scoresForListings(Ids(picked))
    case Failure(cause) => Failure(ListScores(cause))
    case Success(scores) =>
      Success(SampleSet(picked, scores, map id | id in Ids(picked) :: Lookup(components, id)))
  }

  /** The picks before the cap: an ordering by ID of the walk over the strata in canonical order. */
  ghost predicate MaySelect(
    cfg: StratificationConfig, groups: Grouping, source: Source, asked: seq<nat>, picked: seq<Listing>)
  {
    Sorts(ById(), picked, Walk(cfg, groups, CanonicalKeys(groups.Keys), source, asked))
  }

  /** The outcomes a run may have, and the bounds asked of the random stream when it ends. */
  ghost predicate MayReturn(
    cfg: StratificationConfig, reader: Reader, source: Source, asked: seq<nat>,
    r: Result<SampleSet, RunError>, askedAfter: seq<nat>)
  {
    match reader.listingsSince
    case Failure(cause) => r == Failure(ListListings(cause)) && askedAfter == asked
    case Success(listings) =>
      match LoadComponents(reader, listings)
      case Failure(e) => r == Failure(e) && askedAfter == asked
      case Success(components) =>
        if listings != [] && cfg.perKind < 0 then r == Failure(NegativeCapacity) && askedAfter == asked
        else exists groups, picked ::
          Groups(groups, listings, components)
          && ReturnsPicked(cfg, reader, source, asked, r, askedAfter, components, groups, picked)
  }

  ghost predicate ReturnsPicked(
    cfg: StratificationConfig, reader: Reader, source: Source, asked: seq<nat>,
    r: Result<SampleSet, RunError>, askedAfter: seq<nat>,
    components: Components, groups: Grouping, picked: seq<Listing>)
  {
    && MaySelect(cfg, groups, source, asked, picked)
    && r == Assemble(reader, components, Capped(cfg.totalCap, picked))
    && askedAfter == asked + WalkConsumed(cfg, groups, CanonicalKeys(groups.Keys))
  }

  class Sampler {
    const cfg: StratificationConfig
    const reader: Reader
    const rng: Rand

    constructor (cfg: StratificationConfig, reader: Reader, rng: Rand)
      ensures this.cfg == cfg && this.reader == reader && this.rng == rng
    {
      this.cfg, this.reader, this.rng := cfg, reader, rng;
    }

    method SelectForKind(keys: seq<StratumKey>, groups: Grouping) returns (picked: seq<Listing>)
      modifies rng`asked
      ensures picked == Walk(cfg, groups, keys, rng.source, old(rng.asked))
      ensures rng.asked == old(rng.asked) + WalkConsumed(cfg, groups, keys)
    {
      picked := [];
      for i := 0 to |keys|
        invariant picked == Walk(cfg, groups, keys[..i], rng.source, old(rng.asked))
        invariant rng.asked == old(rng.asked) + WalkConsumed(cfg, groups, keys[..i])
      {
        var k := keys[i];
        var want := if k.bucket in cfg.perConfidenceBucket then cfg.perConfidenceBucket[k.bucket] else 0;
        if want == 0 {
          want := cfg.perKind;
        }
        WalkNext(cfg, groups, keys, i, rng.source, old(rng.asked));
        var sampled := SampleN(Lookup(groups, k), want, rng);
        picked := picked + sampled;
      }
      assert keys[..|keys|] == keys;
    }

    /** The loops choose keys in an arbitrary order, as ranging over a map does. */
    method SelectFromStrata(groups: Grouping) returns (picked: seq<Listing>)
      requires groups == map[] || cfg.perKind >= 0
      modifies rng`asked
      ensures MaySelect(cfg, groups, rng.source, old(rng.asked), picked)
      ensures rng.asked == old(rng.asked) + WalkConsumed(cfg, groups, CanonicalKeys(groups.Keys))
    {
      var byKind := KeysByKind(groups.Keys);
      var kindNames := KindNames(byKind);
      ghost var walked: seq<StratumKey> := [];
      picked := [];
      assert old(rng.asked) + [] == old(rng.asked);
      for i := 0 to |kindNames|
        invariant Enumerates(walked, OfKinds(groups.Keys, kindNames[..i])) && Ordered(KeyLess, walked)
        invariant Walked(cfg, groups, walked, rng.source, old(rng.asked), picked, rng.asked)
      {
        var kind := kindNames[i];
        assert kind in Elements(kindNames);
        KeyOrders();
        var keys := SortSlice(byKind[kind], WithinKindLess);
        PermutationEnumerates(keys, byKind[kind], OfKind(groups.Keys, kind));
        AppendKind(walked, keys, groups.Keys, kindNames[..i], kind);
        assert kindNames[..i + 1] == kindNames[..i] + [kind];
        ghost var before := rng.asked;
        var sampled := SelectForKind(keys, groups);
        WalkedOn(cfg, groups, walked, rng.source, old(rng.asked), picked, before, keys);
        picked := picked + sampled;
        walked := walked + keys;
      }
      assert OfKinds(groups.Keys, kindNames) == groups.Keys by {
        assert forall k :: k in groups.Keys ==> k.kind in Elements(kindNames);
      }
      assert kindNames[..|kindNames|] == kindNames;
      CanonicalKeysUnique(walked, groups.Keys);
      ByKeyIsStrictWeak((l: Listing) => l.id);
      picked := SortSlice(picked, ById());
    }

    /** A prefix; a cap that is not positive keeps everything. */
    method ApplyTotalCap(picked: seq<Listing>) returns (r: seq<Listing>)
      ensures r <= picked && |r| == if cfg.totalCap > 0 then Min(|picked|, cfg.totalCap) else |picked|
    {
      if cfg.totalCap <= 0 || |picked| <= cfg.totalCap {
        return picked;
      }
      return picked[..cfg.totalCap];
    }

    method Run() returns (r: Result<SampleSet, RunError>)
      modifies rng`asked
      ensures MayReturn(cfg, reader, rng.source, old(rng.asked), r, rng.asked)
    {
      if reader.listingsSince.Failure? {
        return Failure(ListListings(reader.listingsSince.error));
      }
      var listings := reader.listingsSince.value;
      var loaded := FetchComponents(reader, listings);
      if loaded.Failure? {
        return Failure(loaded.error);
      }
      var components := loaded.value;
      var groups := GroupByStrata(listings, components);
      if groups != map[] && cfg.perKind < 0 {
        assert listings != [];
        return Failure(NegativeCapacity);
      }
      assert listings != [] ==> KeyOf(listings[0], components) in groups;
      var picked := SelectFromStrata(groups);
      var kept := ApplyTotalCap(picked);
      PrefixIsCapped(cfg.totalCap, picked, kept);
      r := AssembleSample(reader, components, kept);
      assert ReturnsPicked(cfg, reader, rng.source, old(rng.asked), r, rng.asked, components, groups, picked);
    }
  }

  method FetchComponents(reader: Reader, listings: seq<Listing>) returns (r: Result<Components, RunError>)
    ensures r == LoadComponents(reader, listings)
  {
    var components: Components := map[];
    for i := 0 to |listings|
      invariant LoadComponents(reader, listings[..i]) == Success(components)
    {
      var id := listings[i].id;
      var comps := reader.componentsForListing(id);
      assert listings[..i + 1][..i] == listings[..i];
      if comps.Failure? {
        LoadFailureStays(reader, listings, i + 1);
        return Failure(ComponentsFor(id, comps.error));
      }
      components := components[id := comps.value];
    }
    assert listings[..|listings|] == listings;
    r := Success(components);
  }

  method AssembleSample(reader: Reader, components: Components, picked: seq<Listing>)
    returns (r: Result<SampleSet, RunError>)
    ensures r == Assemble(reader, components, picked)
  {
    var ids := seq(|picked|, i requires 0 <= i < |picked| => picked[i].id);
    assert ids == Ids(picked);
    var scores := reader.scoresForListings(ids);
    if scores.Failure? {
      return Failure(ListScores(scores.error));
    }
    var pickedComps: Components := map[];
    for i := 0 to |picked|
      invariant pickedComps == map id | id in ids[..i] :: Lookup(components, id)
    {
      pickedComps := pickedComps[picked[i].id := Lookup(components, picked[i].id)];
      assert ids[..i + 1] == ids[..i] + [picked[i].id];
    }
    assert ids[..|picked|] == ids;
    r := Success(SampleSet(picked, scores.value, pickedComps));
  }

  lemma {:induction false} LoadFailureStays(reader: Reader, listings: seq<Listing>, i: nat)
    requires i <= |listings| && LoadComponents(reader, listings[..i]).Failure?
    ensures LoadComponents(reader, listings) == LoadComponents(reader, listings[..i])
    decreases |listings| - i
  {
    if i == |listings| {
      assert listings[..i] == listings;
    } else {
      assert listings[..i + 1][..i] == listings[..i];
      LoadFailureStays(reader, listings, i + 1);
    }
  }

  /** Ranging over the groups: keys arrive in an arbitrary order. */
  method KeysByKind(keys: set<StratumKey>) returns (byKind: map<string, seq<StratumKey>>)
    ensures CollectedByKind(byKind, keys)
    ensures forall kind :: kind in byKind ==> byKind[kind] != []
  {
    byKind := map[];
    var left := keys;
    while left != {}
      invariant left <= keys
      invariant CollectedByKind(byKind, keys - left)
      invariant forall kind :: kind in byKind ==> byKind[kind] != []
      decreases |left|
    {
      var k :| k in left;
      CollectOne(byKind, keys - left, k);
      assert keys - left + {k} == keys - (left - {k});
      byKind := byKind[k.kind := Lookup(byKind, k.kind) + [k]];
      left := left - {k};
    }
    assert keys - {} == keys;
  }

  /** Ranging over byKind, in an arbitrary order again, then sorting. */
  method KindNames(byKind: map<string, seq<StratumKey>>) returns (names: seq<string>)
    ensures Enumerates(names, byKind.Keys)
    ensures forall i, j :: 0 <= i < j < |names| ==> StrLess(names[i], names[j])
  {
    names := [];
    var left := byKind.Keys;
    while left != {}
      invariant left <= byKind.Keys
      invariant Enumerates(names, byKind.Keys - left)
      decreases |left|
    {
      var kind :| kind in left;
      AppendEnumerates(names, byKind.Keys - left, kind);
      assert byKind.Keys - left + {kind} == byKind.Keys - (left - {kind});
      names := names + [kind];
      left := left - {kind};
    }
    names := SortStrings(names, byKind.Keys);
  }

  /** sort.Strings on distinct names: strictly increasing. */
  method SortStrings(names: seq<string>, ghost of: set<string>) returns (r: seq<string>)
    requires Enumerates(names, of)
    ensures Enumerates(r, of)
    ensures forall i, j :: 0 <= i < j < |r| ==> StrLess(r[i], r[j])
  {
    var less := ByKey((s: string) => s);
    ByKeyIsStrictWeak((s: string) => s);
    r := SortSlice(names, less);
    PermutationEnumerates(r, names, of);
    forall i, j | 0 <= i < j < |r|
      ensures StrLess(r[i], r[j])
    {
      assert !less(r[j], r[i]);
      StrTrichotomy(r[i], r[j]);
    }
  }
}
