/**
 When the sample depends on more than the seed and the population: the order of the listings, and the
 order in which unstable sorts leave listings that share an ID. First for the selection before the total
 cap, then for whole runs.
 */
module SamplerOrder {
  import opened Vocabulary
  import opened Domain
  import opened Sorting
  import opened Shuffle
  import opened Strata
  import opened DatasetBootstrap
  import opened SamplerProperties

  ghost function GroupingOf(listings: seq<Listing>, components: Components): (groups: Grouping)
    ensures Groups(groups, listings, components)
  {
    var keys := set l | l in listings :: KeyOf(l, components);
    map key | key in keys :: Members(listings, components, key)
  }

  /** The listings drawn, in the order of drawing. */
  ghost function Drawn(
    cfg: StratificationConfig, listings: seq<Listing>, components: Components, source: Source, asked: seq<nat>)
    : seq<Listing>
  {
    var groups := GroupingOf(listings, components);
    Walk(cfg, groups, CanonicalKeys(groups.Keys), source, asked)
  }

  /** picked is a selection that a pull of these listings may make. */
  ghost predicate Selection(
    cfg: StratificationConfig, listings: seq<Listing>, components: Components, source: Source, asked: seq<nat>,
    picked: seq<Listing>)
  {
    Sorts(ById(), picked, Drawn(cfg, listings, components, source, asked))
  }

  /** Where a stratum has more members than its target, they are all the same. */
  ghost predicate NoChoice(cfg: StratificationConfig, listings: seq<Listing>, components: Components) {
    forall x, y :: x in listings && y in listings && KeyOf(x, components) == KeyOf(y, components) && x != y ==>
      var key := KeyOf(x, components);
      !(0 < Want(cfg, key) < |Members(listings, components, key)|)
  }

  lemma SelectionExists(
    cfg: StratificationConfig, listings: seq<Listing>, components: Components, source: Source, asked: seq<nat>)
    returns (picked: seq<Listing>)
    ensures Selection(cfg, listings, components, source, asked, picked)
  {
    ByKeyIsStrictWeak((l: Listing) => l.id);
    picked := SortExists(ById(), Drawn(cfg, listings, components, source, asked));
  }

  // ---- without a choice the order of the listings does not matter ----

  lemma SameElements<T>(a: seq<T>, b: seq<T>, x: T)
    requires multiset(a) == multiset(b)
    ensures x in a <==> x in b
  {
    assert x in a <==> x in multiset(a);
    assert x in b <==> x in multiset(b);
  }

  lemma MembersPermute(a: seq<Listing>, b: seq<Listing>, components: Components, key: StratumKey)
    requires multiset(a) == multiset(b)
    ensures multiset(Members(a, components, key)) == multiset(Members(b, components, key))
    ensures |Members(a, components, key)| == |Members(b, components, key)|
  {
    FilterPermutation(InStratum(components, key), a, b);
  }

  lemma KeysPermute(a: seq<Listing>, b: seq<Listing>, components: Components)
    requires multiset(a) == multiset(b)
    ensures GroupingOf(a, components).Keys == GroupingOf(b, components).Keys
  {
    forall l
      ensures l in a <==> l in b
    {
      SameElements(a, b, l);
    }
  }

  /** A sample of a stratum whose members are all alike does not depend on their order. */
  lemma SampleWithoutChoice(a: seq<Listing>, b: seq<Listing>, n: int, source: Source, asked: seq<nat>)
    requires multiset(a) == multiset(b) && |a| == |b|
    requires 0 < n < |a| ==> forall x, y :: x in a && y in a ==> x == y
    ensures multiset(Sample(a, n, source, asked)) == multiset(Sample(b, n, source, asked))
  {
    if 0 < n < |a| {
      var sa, sb := Sample(a, n, source, asked), Sample(b, n, source, asked);
      SampleIsPart(a, n, source, asked);
      SampleIsPart(b, n, source, asked);
      forall i | 0 <= i < n
        ensures sa[i] == sb[i]
      {
        assert sa[i] in a && sb[i] in b;
        SameElements(a, b, sb[i]);
      }
      assert sa == sb;
    }
  }

  lemma {:induction false} WalkWithoutChoice(
    cfg: StratificationConfig, a: seq<Listing>, b: seq<Listing>, components: Components, ga: Grouping, gb: Grouping,
    keys: seq<StratumKey>, source: Source, asked: seq<nat>)
    requires multiset(a) == multiset(b) && NoChoice(cfg, a, components)
    requires Groups(ga, a, components) && Groups(gb, b, components)
    requires forall key :: key in keys ==> key in ga && key in gb
    ensures multiset(Walk(cfg, ga, keys, source, asked)) == multiset(Walk(cfg, gb, keys, source, asked))
    decreases |keys|
  {
    if keys != [] {
      var key := keys[0];
      var want := Want(cfg, key);
      MembersPermute(a, b, components, key);
      MembersAlike(cfg, a, components, key);
      SampleWithoutChoice(ga[key], gb[key], want, source, asked);
      var consumed := Consumed(|ga[key]|, want);
      WalkWithoutChoice(cfg, a, b, components, ga, gb, keys[1..], source, asked + consumed);
      assert Lookup(ga, key) == ga[key] && Lookup(gb, key) == gb[key];
    }
  }

  lemma MembersAlike(cfg: StratificationConfig, listings: seq<Listing>, components: Components, key: StratumKey)
    requires NoChoice(cfg, listings, components)
    ensures var members := Members(listings, components, key);
      0 < Want(cfg, key) < |members| ==> forall x, y :: x in members && y in members ==> x == y
  {
    FilterMembers(InStratum(components, key), listings);
  }

  lemma DrawnWithoutChoice(
    cfg: StratificationConfig, a: seq<Listing>, b: seq<Listing>, components: Components,
    source: Source, asked: seq<nat>)
    requires multiset(a) == multiset(b) && NoChoice(cfg, a, components)
    ensures multiset(Drawn(cfg, a, components, source, asked)) == multiset(Drawn(cfg, b, components, source, asked))
  {
    var ga, gb := GroupingOf(a, components), GroupingOf(b, components);
    KeysPermute(a, b, components);
    var keys := CanonicalKeys(ga.Keys);
    assert forall key :: key in keys <==> key in Elements(keys);
    WalkWithoutChoice(cfg, a, b, components, ga, gb, keys, source, asked);
  }

  // ---- generators whose answer depends on the last bound only ----

  /** The generator that answers a bound with the same number whenever it is asked for. */
  function Answering(f: nat -> nat): Source {
    (asked: seq<nat>) => if asked == [] then 0 else f(asked[|asked| - 1])
  }

  /** The numbers such a generator gives a shuffle, wherever in the stream it starts. */
  lemma AnsweredDraws(f: nat -> nat, asked: seq<nat>, size: nat, n: nat, i: nat)
    requires i < n <= size
    ensures Draws(Answering(f), asked, size, n)[i] == if f(size - i) < size - i then f(size - i) else 0
  {
    var a := asked + Bounds(size, i + 1);
    assert a[|a| - 1] == size - i;
  }

  lemma SampleAnywhere(input: seq<Listing>, n: int, f: nat -> nat, asked: seq<nat>)
    ensures Sample(input, n, Answering(f), asked) == Sample(input, n, Answering(f), [])
  {
    if 0 < n < |input| {
      forall i | 0 <= i < n
        ensures Draws(Answering(f), asked, |input|, n)[i] == Draws(Answering(f), [], |input|, n)[i]
      {
        AnsweredDraws(f, asked, |input|, n, i);
        AnsweredDraws(f, [], |input|, n, i);
      }
      assert Draws(Answering(f), asked, |input|, n) == Draws(Answering(f), [], |input|, n);
    }
  }

  lemma StratumOfSample(
    groups: Grouping, listings: seq<Listing>, components: Components, k: StratumKey, want: int,
    source: Source, asked: seq<nat>, key: StratumKey)
    requires Groups(groups, listings, components) && k in groups
    ensures Filter(InStratum(components, key), Sample(groups[k], want, source, asked))
         == if k == key then Sample(groups[k], want, source, asked) else []
  {
    var sample := Sample(groups[k], want, source, asked);
    SampleIsPart(groups[k], want, source, asked);
    FilterMembers(InStratum(components, k), listings);
    assert forall l :: l in sample ==> KeyOf(l, components) == k;
    FilterAll(InStratum(components, key), sample);
  }

  /** What a walk draws from one stratum is that stratum's own sample. */
  lemma {:induction false} StratumOfWalk(
    cfg: StratificationConfig, groups: Grouping, listings: seq<Listing>, components: Components,
    keys: seq<StratumKey>, f: nat -> nat, asked: seq<nat>, key: StratumKey)
    requires Groups(groups, listings, components) && Distinct(keys) && forall k :: k in keys ==> k in groups
    ensures Filter(InStratum(components, key), Walk(cfg, groups, keys, Answering(f), asked))
         == if key in keys then Sample(groups[key], Want(cfg, key), Answering(f), []) else []
    decreases |keys|
  {
    if keys != [] {
      var k := keys[0];
      var group, want := Lookup(groups, k), Want(cfg, k);
      var here := Sample(group, want, Answering(f), asked);
      var rest := Walk(cfg, groups, keys[1..], Answering(f), asked + Consumed(|group|, want));
      StratumOfSample(groups, listings, components, k, want, Answering(f), asked, key);
      SampleAnywhere(group, want, f, asked);
      FilterConcat(InStratum(components, key), here, rest);
      StratumOfWalk(cfg, groups, listings, components, keys[1..], f, asked + Consumed(|group|, want), key);
    }
  }

  lemma StratumOfDrawn(
    cfg: StratificationConfig, listings: seq<Listing>, components: Components, f: nat -> nat, key: StratumKey)
    requires Members(listings, components, key) != []
    ensures Filter(InStratum(components, key), Drawn(cfg, listings, components, Answering(f), []))
         == Sample(Members(listings, components, key), Want(cfg, key), Answering(f), [])
  {
    var groups := GroupingOf(listings, components);
    var keys := CanonicalKeys(groups.Keys);
    assert forall k :: k in keys <==> k in Elements(keys);
    StratumOfWalk(cfg, groups, listings, components, keys, f, [], key);
    FilterMembers(InStratum(components, key), listings);
    var l := Members(listings, components, key)[0];
    assert l in Members(listings, components, key);
    assert KeyOf(l, components) == key && l in listings;
  }

  // ---- with a choice it does ----

  const FIRST: nat -> nat := (bound: nat) => 0

  /** A generator that always answers 0 makes a shuffle keep the first elements. */
  lemma {:induction false} PickFirst<T>(pool: seq<T>, draws: seq<nat>)
    requires ValidDraws(draws, |pool|, |draws|) && forall i :: 0 <= i < |draws| ==> draws[i] == 0
    ensures Pick(pool, draws) == pool[..|draws|]
    decreases |draws|
  {
    if draws != [] {
      assert Remaining(pool, 0) == pool[1..];
      PickFirst(pool[1..], draws[1..]);
    }
  }

  lemma SampleFirst(input: seq<Listing>, n: int)
    requires 0 < n < |input|
    ensures Sample(input, n, Answering(FIRST), []) == input[..n]
  {
    var draws := Draws(Answering(FIRST), [], |input|, n);
    forall i | 0 <= i < n
      ensures draws[i] == 0
    {
      AnsweredDraws(FIRST, [], |input|, n, i);
    }
    PickFirst(input, draws);
  }

  /** Two listings in different order, one asked for, the same generator: different samples. */
  lemma OrderCounterexample(x: Listing, y: Listing)
    requires x != y
    ensures multiset([x, y]) == multiset([y, x])
    ensures Sample([x, y], 1, Answering(FIRST), []) == [x] && Sample([y, x], 1, Answering(FIRST), []) == [y]
  {
    SampleFirst([x, y], 1);
    SampleFirst([y, x], 1);
  }

  /** If a sequence holds two different elements, some exchange across position n changes its first n. */
  lemma ExchangeAcross<T(!new)>(s: seq<T>, n: nat, x: T, y: T) returns (t: seq<T>)
    requires 0 < n < |s| && x in s && y in s && x != y
    ensures |t| == |s| && multiset(t) == multiset(s) && multiset(t[..n]) != multiset(s[..n])
  {
    var i, j := DifferAcross(s, n, x, y);
    t := Exchanged(s, i, j);
    assert multiset(t) == multiset(s);
    assert t[..n] == s[..n][i := s[j]];
    assert multiset(t[..n])[s[j]] == multiset(s[..n])[s[j]] + 1;
  }

  lemma DifferAcross<T(!new)>(s: seq<T>, n: nat, x: T, y: T) returns (i: nat, j: nat)
    requires 0 < n < |s| && x in s && y in s && x != y
    ensures i < n <= j < |s| && s[i] != s[j]
  {
    if k :| n <= k < |s| && s[0] != s[k] {
      i, j := 0, k;
    } else if k :| 0 <= k < n && s[k] != s[n] {
      i, j := k, n;
    } else {
      assert forall k :: 0 <= k < |s| ==> s[k] == s[0];
      assert false;
    }
  }

  lemma {:induction false} FilterSplits<T(!new)>(p: T -> bool, q: T -> bool, s: seq<T>)
    requires forall x :: q(x) <==> !p(x)
    ensures multiset(Filter(p, s) + Filter(q, s)) == multiset(s)
  {
    forall x
      ensures multiset(Filter(p, s) + Filter(q, s))[x] == multiset(s)[x]
    {
      FilterMultiplicity(p, s, x);
      FilterMultiplicity(q, s, x);
    }
  }

  function OutsideStratum(components: Components, key: StratumKey): Listing -> bool {
    l => KeyOf(l, components) != key
  }

  /** Any order of a stratum's members is their order in some order of the listings. */
  lemma Reordered(listings: seq<Listing>, components: Components, key: StratumKey, members: seq<Listing>)
    returns (permuted: seq<Listing>)
    requires multiset(members) == multiset(Members(listings, components, key))
    ensures multiset(permuted) == multiset(listings) && Members(permuted, components, key) == members
  {
    var inside, outside := InStratum(components, key), OutsideStratum(components, key);
    var others := Filter(outside, listings);
    permuted := members + others;
    FilterSplits(inside, outside, listings);
    FilterConcat(inside, members, others);
    FilterMembers(inside, listings);
    FilterMembers(outside, listings);
    forall l | l in members
      ensures inside(l)
    {
      SameElements(members, Members(listings, components, key), l);
    }
    FilterAll(inside, members);
    FilterAll(inside, others);
  }

  /** If a stratum has different members to choose from, some order of the listings changes the draw. */
  lemma ChoiceDepends(
    cfg: StratificationConfig, listings: seq<Listing>, components: Components, x: Listing, y: Listing)
    returns (permuted: seq<Listing>)
    requires x in listings && y in listings && x != y && KeyOf(x, components) == KeyOf(y, components)
    requires 0 < Want(cfg, KeyOf(x, components)) < |Members(listings, components, KeyOf(x, components))|
    ensures multiset(permuted) == multiset(listings)
    ensures multiset(Drawn(cfg, listings, components, Answering(FIRST), []))
         != multiset(Drawn(cfg, permuted, components, Answering(FIRST), []))
  {
    var key := KeyOf(x, components);
    var members, want := Members(listings, components, key), Want(cfg, key);
    FilterMembers(InStratum(components, key), listings);
    var exchanged := ExchangeAcross(members, want, x, y);
    permuted := Reordered(listings, components, key, exchanged);
    StratumOfDrawn(cfg, listings, components, FIRST, key);
    StratumOfDrawn(cfg, permuted, components, FIRST, key);
    SampleFirst(members, want);
    SampleFirst(exchanged, want);
    var a := Drawn(cfg, listings, components, Answering(FIRST), []);
    var b := Drawn(cfg, permuted, components, Answering(FIRST), []);
    if multiset(a) == multiset(b) {
      FilterPermutation(InStratum(components, key), a, b);
    }
  }

  /**
   The order of the listings never changes which listings are selected exactly if no stratum has
   different members to choose from.
   */
  lemma OrderMattersIff(cfg: StratificationConfig, listings: seq<Listing>, components: Components)
    ensures (forall permuted, source, asked, a, b ::
              multiset(permuted) == multiset(listings)
              && Selection(cfg, listings, components, source, asked, a)
              && Selection(cfg, permuted, components, source, asked, b)
              ==> multiset(a) == multiset(b))
       <==> NoChoice(cfg, listings, components)
  {
    if NoChoice(cfg, listings, components) {
      forall permuted, source, asked, a, b |
        multiset(permuted) == multiset(listings)
        && Selection(cfg, listings, components, source, asked, a)
        && Selection(cfg, permuted, components, source, asked, b)
        ensures multiset(a) == multiset(b)
      {
        DrawnWithoutChoice(cfg, listings, permuted, components, source, asked);
      }
    } else {
      var x, y :| x in listings && y in listings && KeyOf(x, components) == KeyOf(y, components) && x != y
        && 0 < Want(cfg, KeyOf(x, components)) < |Members(listings, components, KeyOf(x, components))|;
      var permuted := ChoiceDepends(cfg, listings, components, x, y);
      var a := SelectionExists(cfg, listings, components, Answering(FIRST), []);
      var b := SelectionExists(cfg, permuted, components, Answering(FIRST), []);
    }
  }

  // ---- listings that share an ID ----

  /** The generator that makes a shuffle of this size settle positions i and then j first. */
  function Aiming(size: nat, i: nat, j: nat): nat -> nat
    requires i < j < size
  {
    (bound: nat) => if bound == size then i else if bound == size - 1 then j - 1 else 0
  }

  lemma AimedSample(input: seq<Listing>, n: int, i: nat, j: nat)
    requires i < j < |input| && 2 <= n
    ensures var sample := Sample(input, n, Answering(Aiming(|input|, i, j)), []);
      input[i] in sample && input[j] in sample
  {
    if n < |input| {
      var f := Aiming(|input|, i, j);
      var draws := Draws(Answering(f), [], |input|, n);
      AnsweredDraws(f, [], |input|, n, 0);
      AnsweredDraws(f, [], |input|, n, 1);
      assert draws[0] == i && draws[1] == j - 1;
      PickTwo(input, draws);
    }
  }

  lemma PickTwo<T>(pool: seq<T>, draws: seq<nat>)
    requires |draws| >= 2 && ValidDraws(draws, |pool|, |draws|) && draws[0] <= draws[1]
    ensures Pick(pool, draws)[0] == pool[draws[0]] && Pick(pool, draws)[1] == pool[draws[1] + 1]
  {
    var rest := Remaining(pool, draws[0]);
    assert Pick(rest, draws[1..])[0] == rest[draws[1]];
  }

  /** Two listings that share an ID share a stratum; if its target is at least 2, both can be drawn. */
  lemma CollisionDrawn(
    cfg: StratificationConfig, listings: seq<Listing>, components: Components, x: Listing, y: Listing)
    returns (source: Source)
    requires x in listings && y in listings && x != y && x.id == y.id && Want(cfg, KeyOf(x, components)) >= 2
    ensures !IdsIdentify(Drawn(cfg, listings, components, source, []))
  {
    var key := KeyOf(x, components);
    var members := Members(listings, components, key);
    FilterMembers(InStratum(components, key), listings);
    var i :| 0 <= i < |members| && members[i] == x;
    var j :| 0 <= j < |members| && members[j] == y;
    var f := if i < j then Aiming(|members|, i, j) else Aiming(|members|, j, i);
    source := Answering(f);
    StratumOfDrawn(cfg, listings, components, f, key);
    if i < j {
      AimedSample(members, Want(cfg, key), i, j);
    } else {
      AimedSample(members, Want(cfg, key), j, i);
    }
    FilterMembers(InStratum(components, key), Drawn(cfg, listings, components, source, []));
  }

  /**
   For one order of the listings, the selection is determined for every generator exactly if listings share
   an ID only in strata whose target is below 2.
   */
  lemma DeterminedForEverySourceIff(cfg: StratificationConfig, listings: seq<Listing>, components: Components)
    ensures (forall source, asked, a, b ::
              Selection(cfg, listings, components, source, asked, a)
              && Selection(cfg, listings, components, source, asked, b)
              ==> a == b)
       <==> NoCollision(cfg, listings, components)
  {
    var groups := GroupingOf(listings, components);
    if NoCollision(cfg, listings, components) {
      forall source, asked, a, b |
        Selection(cfg, listings, components, source, asked, a) && Selection(cfg, listings, components, source, asked, b)
        ensures a == b
      {
        SelectionIsUnique(cfg, groups, listings, components, source, asked, a, b);
      }
    } else {
      var x, y :| x in listings && y in listings && x.id == y.id && x != y && Want(cfg, KeyOf(x, components)) >= 2;
      var source := CollisionDrawn(cfg, listings, components, x, y);
      var a, b := TwoSelections(cfg, listings, components, source);
    }
  }

  lemma TwoSelections(
    cfg: StratificationConfig, listings: seq<Listing>, components: Components, source: Source)
    returns (a: seq<Listing>, b: seq<Listing>)
    requires !IdsIdentify(Drawn(cfg, listings, components, source, []))
    ensures Selection(cfg, listings, components, source, [], a)
    ensures Selection(cfg, listings, components, source, [], b) && a != b
  {
    var drawn := Drawn(cfg, listings, components, source, []);
    ByKeyIsStrictWeak((l: Listing) => l.id);
    TiedIds(drawn);
    a, b := TwoOrders(ById(), drawn);
  }

  // ---- the seed and the population ----

  /**
   Exactly then does the same seed select the same sequence from the same population, in whatever order
   the datastore lists it.
   */
  lemma PopulationDeterminesIff(cfg: StratificationConfig, listings: seq<Listing>, components: Components)
    ensures (forall permuted, source, asked, a, b ::
              multiset(permuted) == multiset(listings)
              && Selection(cfg, listings, components, source, asked, a)
              && Selection(cfg, permuted, components, source, asked, b)
              ==> a == b)
       <==> NoChoice(cfg, listings, components) && NoCollision(cfg, listings, components)
  {
    OrderMattersIff(cfg, listings, components);
    DeterminedForEverySourceIff(cfg, listings, components);
    if NoChoice(cfg, listings, components) && NoCollision(cfg, listings, components) {
      forall permuted, source, asked, a, b |
        multiset(permuted) == multiset(listings)
        && Selection(cfg, listings, components, source, asked, a)
        && Selection(cfg, permuted, components, source, asked, b)
        ensures a == b
      {
        DrawnWithoutChoice(cfg, listings, permuted, components, source, asked);
        SelectionIsUnique(cfg, GroupingOf(listings, components), listings, components, source, asked, a, b);
      }
    }
  }

  // ---- whole runs ----

  /** What loads for every listing, by ID. */
  lemma {:induction false} LoadedComponents(reader: Reader, listings: seq<Listing>)
    ensures LoadComponents(reader, listings).Success? <==>
      forall l :: l in listings ==> reader.componentsForListing(l.id).Success?
    ensures LoadComponents(reader, listings).Success? ==>
      var loaded := LoadComponents(reader, listings).value;
      && (forall id :: id in loaded <==> exists l :: l in listings && l.id == id)
      && (forall id :: id in loaded ==> reader.componentsForListing(id) == Success(loaded[id]))
    decreases |listings|
  {
    if listings != [] {
      var init, last := listings[..|listings| - 1], listings[|listings| - 1];
      LoadedComponents(reader, init);
      assert listings == init + [last];
      assert forall l :: l in listings <==> l in init || l == last;
    }
  }

  lemma LoadsPermute(reader: Reader, a: seq<Listing>, b: seq<Listing>)
    requires multiset(a) == multiset(b) && LoadComponents(reader, a).Success?
    ensures LoadComponents(reader, b) == LoadComponents(reader, a)
  {
    forall l
      ensures l in a <==> l in b
    {
      SameElements(a, b, l);
    }
    LoadedComponents(reader, a);
    LoadedComponents(reader, b);
    var ca, cb := LoadComponents(reader, a).value, LoadComponents(reader, b).value;
    forall id
      ensures id in ca <==> id in cb
      ensures id in ca ==> ca[id] == cb[id]
    {
      if l :| l in a && l.id == id {
        assert l in b;
      }
      if l :| l in b && l.id == id {
        assert l in a;
      }
    }
    assert ca == cb;
  }

  /**
   Under the same two conditions a whole run, cap included, returns the same result and consumes the same
   draws when the datastore lists the same population in another order.
   */
  lemma RunIgnoresOrder(
    cfg: StratificationConfig, reader: Reader, listings: seq<Listing>, permuted: seq<Listing>, components: Components,
    source: Source, asked: seq<nat>,
    a: Result<SampleSet, RunError>, askedA: seq<nat>, b: Result<SampleSet, RunError>, askedB: seq<nat>)
    requires multiset(permuted) == multiset(listings) && LoadComponents(reader, listings) == Success(components)
    requires NoChoice(cfg, listings, components) && NoCollision(cfg, listings, components)
    requires MayReturn(cfg, reader.(listingsSince := Success(listings)), source, asked, a, askedA)
    requires MayReturn(cfg, reader.(listingsSince := Success(permuted)), source, asked, b, askedB)
    ensures a == b && askedA == askedB
  {
    LoadsPermute(reader, listings, permuted);
    SameLoads(reader, Success(listings), listings);
    SameLoads(reader, Success(permuted), permuted);
    assert |multiset(permuted)| == |permuted| && |multiset(listings)| == |listings|;
    if listings == [] || cfg.perKind >= 0 {
      var pa := RunSelects(cfg, reader, listings, components, source, asked, a, askedA);
      var pb := RunSelects(cfg, reader, permuted, components, source, asked, b, askedB);
      PopulationDeterminesIff(cfg, listings, components);
      assert pa == pb;
      StreamIgnoresOrder(cfg, listings, permuted, components);
    }
  }

  lemma {:induction false} SameLoads(reader: Reader, other: Result<seq<Listing>, string>, listings: seq<Listing>)
    ensures LoadComponents(reader.(listingsSince := other), listings) == LoadComponents(reader, listings)
    decreases |listings|
  {
    if listings != [] {
      SameLoads(reader, other, listings[..|listings| - 1]);
    }
  }

  /** The bounds a pull asks for. */
  ghost function Asks(cfg: StratificationConfig, listings: seq<Listing>, components: Components): seq<nat> {
    var groups := GroupingOf(listings, components);
    WalkConsumed(cfg, groups, CanonicalKeys(groups.Keys))
  }

  lemma RunSelects(
    cfg: StratificationConfig, reader: Reader, listings: seq<Listing>, components: Components,
    source: Source, asked: seq<nat>, r: Result<SampleSet, RunError>, askedAfter: seq<nat>)
    returns (picked: seq<Listing>)
    requires listings == [] || cfg.perKind >= 0
    requires LoadComponents(reader.(listingsSince := Success(listings)), listings) == Success(components)
    requires MayReturn(cfg, reader.(listingsSince := Success(listings)), source, asked, r, askedAfter)
    ensures Selection(cfg, listings, components, source, asked, picked)
    ensures r == Assemble(reader, components, Capped(cfg.totalCap, picked))
    ensures askedAfter == asked + Asks(cfg, listings, components)
  {
    var here := reader.(listingsSince := Success(listings));
    var groups;
    groups, picked :| Groups(groups, listings, components)
      && ReturnsPicked(cfg, here, source, asked, r, askedAfter, components, groups, picked);
    GroupsUnique(groups, GroupingOf(listings, components), listings, components);
    SameAssembly(reader, Success(listings), components, Capped(cfg.totalCap, picked));
  }

  lemma SameAssembly(
    reader: Reader, other: Result<seq<Listing>, string>, components: Components, picked: seq<Listing>)
    ensures Assemble(reader.(listingsSince := other), components, picked) == Assemble(reader, components, picked)
  {
  }

  /** The bounds asked for depend on the sizes of the strata only. */
  lemma StreamIgnoresOrder(cfg: StratificationConfig, a: seq<Listing>, b: seq<Listing>, components: Components)
    requires multiset(a) == multiset(b)
    ensures Asks(cfg, a, components) == Asks(cfg, b, components)
  {
    KeysPermute(a, b, components);
    var ga, gb := GroupingOf(a, components), GroupingOf(b, components);
    var keys := CanonicalKeys(ga.Keys);
    assert forall key :: key in keys <==> key in Elements(keys);
    AskedBySize(cfg, a, b, components, ga, gb, keys);
  }

  lemma {:induction false} AskedBySize(
    cfg: StratificationConfig, a: seq<Listing>, b: seq<Listing>, components: Components, ga: Grouping, gb: Grouping,
    keys: seq<StratumKey>)
    requires multiset(a) == multiset(b) && Groups(ga, a, components) && Groups(gb, b, components)
    requires forall key :: key in keys ==> key in ga && key in gb
    ensures WalkConsumed(cfg, ga, keys) == WalkConsumed(cfg, gb, keys)
    decreases |keys|
  {
    if keys != [] {
      MembersPermute(a, b, components, keys[0]);
      AskedBySize(cfg, a, b, components, ga, gb, keys[1..]);
    }
  }
}
