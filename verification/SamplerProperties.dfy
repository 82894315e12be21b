/** What a stratified pull guarantees, whatever order Go's maps are ranged over in. */
module SamplerProperties {
  import opened Vocabulary
  import opened Domain
  import opened Sorting
  import opened Shuffle
  import opened Strata
  import opened DatasetBootstrap

  // ---- sampling one stratum is unbiased ----

  function At(input: seq<Listing>, default: Listing): nat -> Listing {
    i => if 0 <= i < |input| then input[i] else default
  }

  /** Every ordered choice of n positions is made by exactly one sequence of draws. */
  lemma EverySelectionHasOneDrawSequence(input: seq<Listing>, selection: seq<nat>, other: seq<nat>)
    requires 0 < |selection| < |input| && Distinct(selection) && forall i :: i in selection ==> i < |input|
    requires ValidDraws(other, |input|, |selection|)
    ensures Elements(selection) <= Elements(Positions(|input|))
    ensures var draws := DrawsFor(Positions(|input|), selection);
      && Pick(input, draws) == Map(At(input, input[0]), selection)
      && (Pick(Positions(|input|), other) == selection <==> other == draws)
  {
    var positions := Positions(|input|);
    assert forall i :: i in selection ==> positions[i] == i;
    PickAfterDrawsFor(positions, selection);
    DrawsForAfterPick(positions, other);
    PickByPosition(input, DrawsFor(positions, selection));
  }

  /** Picking from the input is picking positions and looking them up. */
  lemma PickByPosition(input: seq<Listing>, draws: seq<nat>)
    requires input != [] && ValidDraws(draws, |input|, |draws|)
    ensures Pick(input, draws) == Map(At(input, input[0]), Pick(Positions(|input|), draws))
  {
    LookingUpEveryPosition(input);
    PickIsNatural(At(input, input[0]), Positions(|input|), draws);
  }

  lemma LookingUpEveryPosition(input: seq<Listing>)
    requires input != []
    ensures Map(At(input, input[0]), Positions(|input|)) == input
  {
    var all := Map(At(input, input[0]), Positions(|input|));
    forall i | 0 <= i < |input|
      ensures all[i] == input[i]
    {
      assert Positions(|input|)[i] == i;
    }
  }

  /** The generator that, after the bounds asked so far, gives these answers one after the other. */
  function Replaying(asked: seq<nat>, answers: seq<nat>): Source {
    (a: seq<nat>) => if |asked| < |a| <= |asked| + |answers| then answers[|a| - |asked| - 1] else 0
  }

  /** Every sequence of draws is answered by some generator, so every selection is a possible sample. */
  lemma EveryDrawSequenceArises(input: seq<Listing>, draws: seq<nat>, asked: seq<nat>) returns (source: Source)
    requires 0 < |draws| < |input| && ValidDraws(draws, |input|, |draws|)
    ensures Sample(input, |draws|, source, asked) == Pick(input, draws)
  {
    source := Replaying(asked, draws);
    var made := Draws(source, asked, |input|, |draws|);
    forall i | 0 <= i < |draws|
      ensures made[i] == draws[i]
    {
      var a := asked + Bounds(|input|, i + 1);
      assert a[|a| - 1] == |input| - i;
    }
    assert made == draws;
  }

  // ---- a sample is part of its input ----

  lemma {:induction false} PickIsPart<T>(pool: seq<T>, draws: seq<nat>)
    requires ValidDraws(draws, |pool|, |draws|)
    ensures multiset(Pick(pool, draws)) <= multiset(pool)
    decreases |draws|
  {
    if draws != [] {
      var j := draws[0];
      var exchanged := pool[0 := pool[j]][j := pool[0]];
      assert exchanged == [pool[j]] + Remaining(pool, j);
      assert multiset(exchanged) == multiset(pool);
      PickIsPart(Remaining(pool, j), draws[1..]);
    }
  }

  lemma SampleIsPart(input: seq<Listing>, n: int, source: Source, asked: seq<nat>)
    ensures multiset(Sample(input, n, source, asked)) <= multiset(input)
    ensures |Sample(input, n, source, asked)| == Contribution(|input|, n)
    ensures forall l :: l in Sample(input, n, source, asked) ==> l in input
  {
    var sample := Sample(input, n, source, asked);
    if 0 < n < |input| {
      PickIsPart(input, Draws(source, asked, |input|, n));
    }
    assert forall l :: l in sample ==> l in multiset(sample);
  }

  /** What a stratum of a given size gives for a target: min(size, max(0, want)). */
  function Contribution(size: nat, want: int): nat {
    Min(size, Max(0, want))
  }

  // ---- counts per stratum ----

  lemma SampleCounts(
    groups: Grouping, listings: seq<Listing>, components: Components, k: StratumKey, want: int,
    source: Source, asked: seq<nat>, key: StratumKey)
    requires Groups(groups, listings, components) && k in groups
    ensures |Filter(InStratum(components, key), Sample(groups[k], want, source, asked))|
         == if k == key then Contribution(|groups[k]|, want) else 0
  {
    var sample := Sample(groups[k], want, source, asked);
    SampleIsPart(groups[k], want, source, asked);
    FilterMembers(InStratum(components, k), listings);
    assert forall l :: l in sample ==> KeyOf(l, components) == k;
    FilterAll(InStratum(components, key), sample);
  }

  /** Each stratum is represented by exactly its contribution, and by nothing else. */
  lemma {:induction false} WalkCounts(
    cfg: StratificationConfig, groups: Grouping, listings: seq<Listing>, components: Components,
    keys: seq<StratumKey>, source: Source, asked: seq<nat>, key: StratumKey)
    requires Groups(groups, listings, components) && Distinct(keys) && Elements(keys) <= groups.Keys
    ensures |Filter(InStratum(components, key), Walk(cfg, groups, keys, source, asked))|
         == if key in keys then Contribution(|Members(listings, components, key)|, Want(cfg, key)) else 0
    decreases |keys|
  {
    if keys != [] {
      var k := keys[0];
      assert k in Elements(keys) && Elements(keys[1..]) <= Elements(keys);
      var group, want := Lookup(groups, k), Want(cfg, k);
      var here := Sample(group, want, source, asked);
      var rest := Walk(cfg, groups, keys[1..], source, asked + Consumed(|group|, want));
      SampleCounts(groups, listings, components, k, want, source, asked, key);
      FilterConcat(InStratum(components, key), here, rest);
      WalkCounts(cfg, groups, listings, components, keys[1..], source, asked + Consumed(|group|, want), key);
    }
  }

  function TotalContribution(cfg: StratificationConfig, groups: Grouping, keys: seq<StratumKey>): nat {
    if keys == [] then 0
    else Contribution(|Lookup(groups, keys[0])|, Want(cfg, keys[0])) + TotalContribution(cfg, groups, keys[1..])
  }

  lemma {:induction false} WalkIsPart(
    cfg: StratificationConfig, groups: Grouping, keys: seq<StratumKey>, source: Source, asked: seq<nat>)
    ensures |Walk(cfg, groups, keys, source, asked)| == TotalContribution(cfg, groups, keys)
    ensures multiset(Walk(cfg, groups, keys, source, asked)) <= multiset(Gather(groups, keys))
    decreases |keys|
  {
    if keys != [] {
      var group, want := Lookup(groups, keys[0]), Want(cfg, keys[0]);
      SampleIsPart(group, want, source, asked);
      WalkIsPart(cfg, groups, keys[1..], source, asked + Consumed(|group|, want));
    }
  }

  // ---- the sample as a whole ----

  lemma SelectionStratifies(
    cfg: StratificationConfig, groups: Grouping, listings: seq<Listing>, components: Components,
    source: Source, asked: seq<nat>, picked: seq<Listing>)
    requires Groups(groups, listings, components) && MaySelect(cfg, groups, source, asked, picked)
    ensures |picked| == TotalContribution(cfg, groups, CanonicalKeys(groups.Keys))
    ensures multiset(picked) <= multiset(listings)
    ensures forall key :: |Filter(InStratum(components, key), picked)|
                       == Contribution(|Members(listings, components, key)|, Want(cfg, key))
  {
    var keys := CanonicalKeys(groups.Keys);
    var walk := Walk(cfg, groups, keys, source, asked);
    WalkIsPart(cfg, groups, keys, source, asked);
    GroupsPartition(groups, listings, components, keys);
    assert |picked| == |multiset(picked)| == |multiset(walk)| == |walk|;
    forall key
      ensures |Filter(InStratum(components, key), picked)|
           == Contribution(|Members(listings, components, key)|, Want(cfg, key))
    {
      FilterPermutation(InStratum(components, key), picked, walk);
      WalkCounts(cfg, groups, listings, components, keys, source, asked, key);
      assert key in keys <==> key in Elements(keys);
      if key !in groups {
        FilterAll(InStratum(components, key), listings);
      }
    }
  }

  /** The target the configuration gives a bucket: its own if that is set and not 0, else the per-kind one. */
  ghost predicate MeetsTarget(cfg: StratificationConfig, bucket: string, size: nat, drawn: nat) {
    if bucket in cfg.perConfidenceBucket && cfg.perConfidenceBucket[bucket] != 0 then
      drawn == Min(size, Max(0, cfg.perConfidenceBucket[bucket]))
    else
      drawn == Min(size, Max(0, cfg.perKind))
  }

  /** Before the cap, every stratum has as many listings selected as the configuration asks for and it holds. */
  lemma SelectionMeetsTargets(
    cfg: StratificationConfig, groups: Grouping, listings: seq<Listing>, components: Components,
    source: Source, asked: seq<nat>, picked: seq<Listing>, key: StratumKey)
    requires Groups(groups, listings, components) && MaySelect(cfg, groups, source, asked, picked)
    ensures MeetsTarget(cfg, key.bucket, |Filter(InStratum(components, key), listings)|,
                        |Filter(InStratum(components, key), picked)|)
  {
    SelectionStratifies(cfg, groups, listings, components, source, asked, picked);
    assert |Filter(InStratum(components, key), picked)|
        == Contribution(|Members(listings, components, key)|, Want(cfg, key));
  }

  /** The canonical grouping of the listings of a successful run. */
  ghost predicate Stratified(
    cfg: StratificationConfig, listings: seq<Listing>, components: Components, groups: Grouping, sample: SampleSet)
  {
    var total := TotalContribution(cfg, groups, CanonicalKeys(groups.Keys));
    && Groups(groups, listings, components)
    && |sample.listings| == (if cfg.totalCap > 0 then Min(total, cfg.totalCap) else total)
    && (cfg.totalCap <= 0 || total <= cfg.totalCap ==>
         forall key :: |Filter(InStratum(components, key), sample.listings)|
                    == Contribution(|Members(listings, components, key)|, Want(cfg, key)))
  }

  /**
   Stratification: the sample is ordered by ID and drawn from the listings; its size is the sum of the
   strata's contributions, limited by a positive cap; and unless the cap bites, every stratum has exactly
   its contribution.
   */
  lemma RunStratifies(
    cfg: StratificationConfig, reader: Reader, source: Source, asked: seq<nat>,
    sample: SampleSet, askedAfter: seq<nat>)
    returns (listings: seq<Listing>, components: Components, groups: Grouping)
    requires MayReturn(cfg, reader, source, asked, Success(sample), askedAfter)
    ensures reader.listingsSince == Success(listings) && LoadComponents(reader, listings) == Success(components)
    ensures Stratified(cfg, listings, components, groups, sample)
    ensures Ordered(ById(), sample.listings) && multiset(sample.listings) <= multiset(listings)
    ensures reader.scoresForListings(Ids(sample.listings)) == Success(sample.scores)
    ensures sample.components == map id | id in Ids(sample.listings) :: Lookup(components, id)
  {
    listings := reader.listingsSince.value;
    components := LoadComponents(reader, listings).value;
    var picked;
    groups, picked := RunPicks(cfg, reader, source, asked, sample, askedAfter, listings, components);
    CapStratifies(cfg, listings, components, groups, source, asked, picked, sample);
    AssembledParts(reader, components, sample.listings, sample);
  }

  /** The cap keeps a prefix, which is everything unless there is a positive cap that it exceeds. */
  ghost predicate CappedFrom(totalCap: int, picked: seq<Listing>, kept: seq<Listing>) {
    if totalCap > 0 && |picked| > totalCap then kept == picked[..totalCap] else kept == picked
  }

  /**
   What a run returns is a selection with as many listings of every stratum as its bucket's target, or else
   the per-kind one, asks for, or all there are; and where the cap bites, the first of it by ID.
   */
  lemma RunMeetsTargets(
    cfg: StratificationConfig, reader: Reader, source: Source, asked: seq<nat>,
    sample: SampleSet, askedAfter: seq<nat>, listings: seq<Listing>, components: Components)
    returns (picked: seq<Listing>)
    requires MayReturn(cfg, reader, source, asked, Success(sample), askedAfter)
    requires reader.listingsSince == Success(listings) && LoadComponents(reader, listings) == Success(components)
    ensures forall key: StratumKey ::
      MeetsTarget(cfg, key.bucket, |Filter(InStratum(components, key), listings)|,
                  |Filter(InStratum(components, key), picked)|)
    ensures forall i, j :: 0 <= i < j < |picked| ==> !StrLess(picked[j].id, picked[i].id)
    ensures multiset(picked) <= multiset(listings)
    ensures CappedFrom(cfg.totalCap, picked, sample.listings)
  {
    var groups;
    groups, picked := RunPicks(cfg, reader, source, asked, sample, askedAfter, listings, components);
    SelectionStratifies(cfg, groups, listings, components, source, asked, picked);
    forall key: StratumKey
      ensures MeetsTarget(cfg, key.bucket, |Filter(InStratum(components, key), listings)|,
                          |Filter(InStratum(components, key), picked)|)
    {
      SelectionMeetsTargets(cfg, groups, listings, components, source, asked, picked, key);
    }
    CapIsPrefix(cfg.totalCap, picked);
    assert forall i, j :: 0 <= i < j < |picked| ==> !ById()(picked[j], picked[i]);
  }

  lemma CapIsPrefix(totalCap: int, picked: seq<Listing>)
    ensures CappedFrom(totalCap, picked, Capped(totalCap, picked))
  {
  }

  lemma RunPicks(
    cfg: StratificationConfig, reader: Reader, source: Source, asked: seq<nat>, sample: SampleSet, askedAfter: seq<nat>,
    listings: seq<Listing>, components: Components)
    returns (groups: Grouping, picked: seq<Listing>)
    requires MayReturn(cfg, reader, source, asked, Success(sample), askedAfter)
    requires reader.listingsSince == Success(listings) && LoadComponents(reader, listings) == Success(components)
    ensures Groups(groups, listings, components) && MaySelect(cfg, groups, source, asked, picked)
    ensures sample.listings == Capped(cfg.totalCap, picked)
    ensures Assemble(reader, components, sample.listings) == Success(sample)
    ensures askedAfter == asked + WalkConsumed(cfg, groups, CanonicalKeys(groups.Keys))
  {
    groups, picked :| Groups(groups, listings, components)
      && ReturnsPicked(cfg, reader, source, asked, Success(sample), askedAfter, components, groups, picked);
    AssembledParts(reader, components, Capped(cfg.totalCap, picked), sample);
  }

  lemma AssembledParts(reader: Reader, components: Components, picked: seq<Listing>, sample: SampleSet)
    requires Assemble(reader, components, picked) == Success(sample)
    ensures sample.listings == picked && reader.scoresForListings(Ids(picked)) == Success(sample.scores)
    ensures sample.components == map id | id in Ids(picked) :: Lookup(components, id)
  {
  }

  lemma CapStratifies(
    cfg: StratificationConfig, listings: seq<Listing>, components: Components, groups: Grouping,
    source: Source, asked: seq<nat>, picked: seq<Listing>, sample: SampleSet)
    requires Groups(groups, listings, components) && MaySelect(cfg, groups, source, asked, picked)
    requires sample.listings == Capped(cfg.totalCap, picked)
    ensures Stratified(cfg, listings, components, groups, sample)
    ensures Ordered(ById(), sample.listings) && multiset(sample.listings) <= multiset(listings)
  {
    CapKeeps(cfg.totalCap, picked);
    SelectionStratifies(cfg, groups, listings, components, source, asked, picked);
  }

  lemma CapKeeps(totalCap: int, picked: seq<Listing>)
    requires Ordered(ById(), picked)
    ensures Ordered(ById(), Capped(totalCap, picked))
    ensures multiset(Capped(totalCap, picked)) <= multiset(picked)
    ensures |Capped(totalCap, picked)| == if totalCap > 0 then Min(|picked|, totalCap) else |picked|
  {
    var kept := Capped(totalCap, picked);
    assert picked == kept + picked[|kept|..];
  }

  // ---- determinism ----

  /** No two different listings share an ID. */
  ghost predicate IdsIdentify(listings: seq<Listing>) {
    forall x, y :: x in listings && y in listings && x.id == y.id ==> x == y
  }

  /** Different listings may share an ID, but only where their stratum's target is below 2. */
  ghost predicate NoCollision(cfg: StratificationConfig, listings: seq<Listing>, components: Components) {
    forall x, y :: x in listings && y in listings && x.id == y.id && x != y ==> Want(cfg, KeyOf(x, components)) < 2
  }

  lemma TiedIds(listings: seq<Listing>)
    ensures TiesAreEqual(ById(), listings) <==> IdsIdentify(listings)
  {
    forall x, y: Listing
      ensures !ById()(x, y) && !ById()(y, x) <==> x.id == y.id
    {
      StrTrichotomy(x.id, y.id);
    }
  }

  lemma GroupsUnique(a: Grouping, b: Grouping, listings: seq<Listing>, components: Components)
    requires Groups(a, listings, components) && Groups(b, listings, components)
    ensures a == b
  {
    assert forall key :: key in a <==> key in b;
  }

  /** The state of a run that gets as far as selecting. */
  ghost predicate Selecting(
    cfg: StratificationConfig, reader: Reader, listings: seq<Listing>, components: Components)
  {
    && reader.listingsSince == Success(listings) && LoadComponents(reader, listings) == Success(components)
    && (listings == [] || cfg.perKind >= 0)
  }

  /**
   The same listings, reader and random stream give the same sample and leave the stream in the same
   state, whatever order the maps are ranged over in and however the sorts break ties.
   */
  lemma RunIsDeterministic(
    cfg: StratificationConfig, reader: Reader, source: Source, asked: seq<nat>,
    a: Result<SampleSet, RunError>, askedA: seq<nat>, b: Result<SampleSet, RunError>, askedB: seq<nat>)
    requires forall listings, components :: Selecting(cfg, reader, listings, components) ==>
      NoCollision(cfg, listings, components)
    requires MayReturn(cfg, reader, source, asked, a, askedA)
    requires MayReturn(cfg, reader, source, asked, b, askedB)
    ensures a == b && askedA == askedB
  {
    if reader.listingsSince.Success? && LoadComponents(reader, reader.listingsSince.value).Success?
       && !(reader.listingsSince.value != [] && cfg.perKind < 0) {
      var listings := reader.listingsSince.value;
      var components := LoadComponents(reader, listings).value;
      assert Selecting(cfg, reader, listings, components);
      var ga, pa :| Groups(ga, listings, components)
        && ReturnsPicked(cfg, reader, source, asked, a, askedA, components, ga, pa);
      var gb, pb :| Groups(gb, listings, components)
        && ReturnsPicked(cfg, reader, source, asked, b, askedB, components, gb, pb);
      GroupsUnique(ga, gb, listings, components);
      WalkIdsIdentify(cfg, ga, listings, components, source, asked);
      SelectionDeterminedIff(cfg, ga, source, asked);
    }
  }

  lemma WalkIsInListings(
    cfg: StratificationConfig, groups: Grouping, listings: seq<Listing>, components: Components,
    source: Source, asked: seq<nat>, x: Listing)
    requires Groups(groups, listings, components)
    requires x in Walk(cfg, groups, CanonicalKeys(groups.Keys), source, asked)
    ensures x in listings
  {
    var walk := Walk(cfg, groups, CanonicalKeys(groups.Keys), source, asked);
    WalkIsPart(cfg, groups, CanonicalKeys(groups.Keys), source, asked);
    GroupsPartition(groups, listings, components, CanonicalKeys(groups.Keys));
    assert x in multiset(walk);
    assert x in multiset(listings);
  }

  /** Without collisions the drawn listings are told apart by their IDs: a target of 1 never draws two. */
  lemma WalkIdsIdentify(
    cfg: StratificationConfig, groups: Grouping, listings: seq<Listing>, components: Components,
    source: Source, asked: seq<nat>)
    requires Groups(groups, listings, components) && NoCollision(cfg, listings, components)
    ensures IdsIdentify(Walk(cfg, groups, CanonicalKeys(groups.Keys), source, asked))
  {
    var walk := Walk(cfg, groups, CanonicalKeys(groups.Keys), source, asked);
    forall x, y | x in walk && y in walk && x.id == y.id && x != y
      ensures false
    {
      WalkIsInListings(cfg, groups, listings, components, source, asked, x);
      WalkIsInListings(cfg, groups, listings, components, source, asked, y);
      TwoDrawnFrom(cfg, groups, listings, components, source, asked, x, y);
    }
  }

  /** Two different listings drawn from one stratum need a target of at least 2. */
  lemma TwoDrawnFrom(
    cfg: StratificationConfig, groups: Grouping, listings: seq<Listing>, components: Components,
    source: Source, asked: seq<nat>, x: Listing, y: Listing)
    requires Groups(groups, listings, components) && KeyOf(x, components) == KeyOf(y, components) && x != y
    requires x in Walk(cfg, groups, CanonicalKeys(groups.Keys), source, asked)
    requires y in Walk(cfg, groups, CanonicalKeys(groups.Keys), source, asked)
    ensures Want(cfg, KeyOf(x, components)) >= 2
  {
    var keys, key := CanonicalKeys(groups.Keys), KeyOf(x, components);
    var walk := Walk(cfg, groups, keys, source, asked);
    FilterMembers(InStratum(components, key), walk);
    WalkCounts(cfg, groups, listings, components, keys, source, asked, key);
    TwoMembers(Filter(InStratum(components, key), walk), x, y);
  }

  lemma TwoMembers<T>(s: seq<T>, x: T, y: T)
    requires x in s && y in s && x != y
    ensures |s| >= 2
  {
  }

  /** The selection is determined exactly when no two different drawn listings share an ID. */
  lemma SelectionDeterminedIff(cfg: StratificationConfig, groups: Grouping, source: Source, asked: seq<nat>)
    ensures (forall a, b ::
              MaySelect(cfg, groups, source, asked, a) && MaySelect(cfg, groups, source, asked, b) ==> a == b)
       <==> IdsIdentify(Walk(cfg, groups, CanonicalKeys(groups.Keys), source, asked))
  {
    var walk := Walk(cfg, groups, CanonicalKeys(groups.Keys), source, asked);
    ByKeyIsStrictWeak((l: Listing) => l.id);
    TiedIds(walk);
    SortDeterminedIff(ById(), walk);
    assert forall a :: MaySelect(cfg, groups, source, asked, a) <==> Sorts(ById(), a, walk);
  }

  /** Trimming with a smaller positive cap gives a prefix of trimming with a larger one, or with none. */
  lemma SmallerCapIsPrefix(small: int, large: int, picked: seq<Listing>)
    requires 0 < small && (small <= large || large <= 0)
    ensures Capped(small, picked) <= Capped(large, picked)
    ensures |Capped(small, picked)| == Min(|picked|, small)
  {
  }

  /**
   Two runs that differ only in the cap: the one with the smaller positive cap returns a prefix of what
   the one with the larger, or without one, returns; and both leave the stream in the same state.
   */
  lemma SmallerCapRunIsPrefix(
    cfg: StratificationConfig, large: int, reader: Reader, source: Source, asked: seq<nat>,
    a: SampleSet, askedA: seq<nat>, b: SampleSet, askedB: seq<nat>)
    requires 0 < cfg.totalCap && (cfg.totalCap <= large || large <= 0)
    requires forall listings, components :: Selecting(cfg, reader, listings, components) ==>
      NoCollision(cfg, listings, components)
    requires MayReturn(cfg, reader, source, asked, Success(a), askedA)
    requires MayReturn(cfg.(totalCap := large), reader, source, asked, Success(b), askedB)
    ensures a.listings <= b.listings && |a.listings| == Min(|b.listings|, cfg.totalCap)
    ensures a.components.Keys <= b.components.Keys
    ensures forall id :: id in a.components ==> a.components[id] == b.components[id]
    ensures askedA == askedB
  {
    var other := cfg.(totalCap := large);
    var listings := reader.listingsSince.value;
    var components := LoadComponents(reader, listings).value;
    assert Selecting(cfg, reader, listings, components);
    var ga, pa := RunPicks(cfg, reader, source, asked, a, askedA, listings, components);
    var gb, pb := RunPicks(other, reader, source, asked, b, askedB, listings, components);
    GroupsUnique(ga, gb, listings, components);
    CapDoesNotSteer(cfg, large, ga, source, asked, CanonicalKeys(ga.Keys));
    SelectionIsUnique(cfg, ga, listings, components, source, asked, pa, pb);
    SmallerCapIsPrefix(cfg.totalCap, large, pa);
    PrefixKeepsComponents(reader, components, a, b);
  }

  lemma SelectionIsUnique(
    cfg: StratificationConfig, groups: Grouping, listings: seq<Listing>, components: Components,
    source: Source, asked: seq<nat>, a: seq<Listing>, b: seq<Listing>)
    requires Groups(groups, listings, components) && NoCollision(cfg, listings, components)
    requires var walk := Walk(cfg, groups, CanonicalKeys(groups.Keys), source, asked);
      Sorts(ById(), a, walk) && Sorts(ById(), b, walk)
    ensures a == b
  {
    WalkIdsIdentify(cfg, groups, listings, components, source, asked);
    SelectionDeterminedIff(cfg, groups, source, asked);
    assert MaySelect(cfg, groups, source, asked, a) && MaySelect(cfg, groups, source, asked, b);
  }

  lemma PrefixKeepsComponents(reader: Reader, components: Components, a: SampleSet, b: SampleSet)
    requires a.listings <= b.listings
    requires Assemble(reader, components, a.listings) == Success(a)
    requires Assemble(reader, components, b.listings) == Success(b)
    ensures a.components.Keys <= b.components.Keys
    ensures forall id :: id in a.components ==> a.components[id] == b.components[id]
  {
    AssembledParts(reader, components, a.listings, a);
    AssembledParts(reader, components, b.listings, b);
    PrefixIds(a.listings, b.listings);
  }

  /** The cap plays no part in what is drawn. */
  lemma {:induction false} CapDoesNotSteer(
    cfg: StratificationConfig, large: int, groups: Grouping, source: Source, asked: seq<nat>, keys: seq<StratumKey>)
    ensures Walk(cfg.(totalCap := large), groups, keys, source, asked) == Walk(cfg, groups, keys, source, asked)
    ensures WalkConsumed(cfg.(totalCap := large), groups, keys) == WalkConsumed(cfg, groups, keys)
    decreases |keys|
  {
    if keys != [] {
      var consumed := Consumed(|Lookup(groups, keys[0])|, Want(cfg, keys[0]));
      CapDoesNotSteer(cfg, large, groups, source, asked + consumed, keys[1..]);
    }
  }

  lemma PrefixIds(a: seq<Listing>, b: seq<Listing>)
    requires a <= b
    ensures forall id :: id in Ids(a) ==> id in Ids(b)
  {
    forall id | id in Ids(a)
      ensures id in Ids(b)
    {
      var i :| 0 <= i < |a| && Ids(a)[i] == id;
      assert Ids(b)[i] == id;
    }
  }
}
