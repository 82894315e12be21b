/**
 The total cap and the order of the listings: trimming the ID-ordered selection can hide that different
 listings were drawn. When it does, for whole runs.
 */
module SamplerCap {
  import opened Vocabulary
  import opened Domain
  import opened Sorting
  import opened Strata
  import opened DatasetBootstrap
  import opened SamplerProperties
  import opened SamplerOrder

  ghost predicate DistinctIds(listings: seq<Listing>) {
    forall i, j :: 0 <= i < j < |listings| ==> listings[i].id != listings[j].id
  }

  function Less(m: Listing): Listing -> bool {
    (l: Listing) => StrLess(l.id, m.id)
  }

  function NotLess(m: Listing): Listing -> bool {
    (l: Listing) => !StrLess(l.id, m.id)
  }

  // ---- position in the selection ----

  lemma DistinctIdsIdentify(listings: seq<Listing>)
    requires DistinctIds(listings)
    ensures Distinct(listings) && IdsIdentify(listings)
  {
    forall x, y | x in listings && y in listings && x.id == y.id
      ensures x == y
    {
      var i :| 0 <= i < |listings| && listings[i] == x;
      var j :| 0 <= j < |listings| && listings[j] == y;
      assert !(i < j) && !(j < i);
    }
  }

  /** Part of some listings with distinct IDs has distinct IDs. */
  lemma PartHasDistinctIds(part: seq<Listing>, listings: seq<Listing>)
    requires multiset(part) <= multiset(listings) && DistinctIds(listings)
    ensures DistinctIds(part) && forall l :: l in part ==> l in listings
  {
    DistinctIdsIdentify(listings);
    DistinctMultiset(listings);
    forall l | l in part
      ensures l in listings
    {
      assert multiset(part)[l] <= multiset(listings)[l];
    }
    forall i, j | 0 <= i < j < |part|
      ensures part[i].id != part[j].id
    {
      RepeatsCount(part, i, j);
      assert part[i] in listings && part[j] in listings;
      assert multiset(part)[part[i]] <= multiset(listings)[part[i]];
    }
  }

  /** In an ID-ordered selection exactly the listings with fewer than `totalCap` smaller ones are kept. */
  lemma KeptIff(totalCap: int, a: seq<Listing>, m: Listing)
    requires totalCap > 0 && Ordered(ById(), a) && DistinctIds(a) && m in a
    ensures m in Capped(totalCap, a) <==> |Filter(Less(m), a)| < totalCap
  {
    var i :| 0 <= i < |a| && a[i] == m;
    CountLess(a, i);
    if i < totalCap {
      assert Capped(totalCap, a)[i] == m;
    }
  }

  lemma CountLess(a: seq<Listing>, i: nat)
    requires Ordered(ById(), a) && DistinctIds(a) && i < |a|
    ensures |Filter(Less(a[i]), a)| == i
  {
    var less := Less(a[i]);
    assert a == a[..i] + a[i..];
    FilterConcat(less, a[..i], a[i..]);
    EarlierIsLess(a, i);
    LaterIsNotLess(a, i);
    FilterAll(less, a[..i]);
    FilterAll(less, a[i..]);
  }

  lemma EarlierIsLess(a: seq<Listing>, i: nat)
    requires Ordered(ById(), a) && DistinctIds(a) && i < |a|
    ensures forall l :: l in a[..i] ==> Less(a[i])(l)
  {
    forall l | l in a[..i]
      ensures Less(a[i])(l)
    {
      var k :| 0 <= k < i && a[k] == l;
      assert !ById()(a[i], a[k]);
      StrTrichotomy(a[k].id, a[i].id);
    }
  }

  lemma LaterIsNotLess(a: seq<Listing>, i: nat)
    requires Ordered(ById(), a) && i < |a|
    ensures forall l :: l in a[i..] ==> !Less(a[i])(l)
  {
    forall l | l in a[i..]
      ensures !Less(a[i])(l)
    {
      var k :| i <= k < |a| && a[k] == l;
      StrTrichotomy(a[i].id, a[i].id);
      assert k > i ==> !ById()(a[k], a[i]);
    }
  }

  // ---- how few smaller listings can be drawn ----

  /** Of a stratum's contribution, at least this many are smaller than m: there are not enough others. */
  function MustBeLess(group: seq<Listing>, want: int, m: Listing): nat {
    Max(0, Contribution(|group|, want) - |Filter(NotLess(m), group)|)
  }

  /** Over all strata: how many smaller listings every draw holds. */
  function MinBelow(cfg: StratificationConfig, groups: Grouping, keys: seq<StratumKey>, m: Listing): nat {
    if keys == [] then 0
    else MustBeLess(Lookup(groups, keys[0]), Want(cfg, keys[0]), m) + MinBelow(cfg, groups, keys[1..], m)
  }

  lemma FilterPart<T(!new)>(p: T -> bool, part: seq<T>, s: seq<T>)
    requires multiset(part) <= multiset(s)
    ensures |Filter(p, part)| <= |Filter(p, s)|
  {
    forall x
      ensures multiset(Filter(p, part))[x] <= multiset(Filter(p, s))[x]
    {
      FilterMultiplicity(p, part, x);
      FilterMultiplicity(p, s, x);
      assert multiset(part)[x] <= multiset(s)[x];
    }
    var here, all := multiset(Filter(p, part)), multiset(Filter(p, s));
    assert all == here + (all - here);
    assert |multiset(Filter(p, part))| == |Filter(p, part)| && |multiset(Filter(p, s))| == |Filter(p, s)|;
  }

  /** Every listing is smaller than m or not. */
  lemma {:induction false} LessOrNot(m: Listing, s: seq<Listing>)
    ensures |Filter(Less(m), s)| + |Filter(NotLess(m), s)| == |s|
  {
    if s != [] {
      LessOrNot(m, s[1..]);
    }
  }

  lemma {:induction false} WalkBelow(
    cfg: StratificationConfig, groups: Grouping, keys: seq<StratumKey>, source: Source, asked: seq<nat>, m: Listing)
    ensures |Filter(Less(m), Walk(cfg, groups, keys, source, asked))| >= MinBelow(cfg, groups, keys, m)
    decreases |keys|
  {
    if keys != [] {
      var group, want := Lookup(groups, keys[0]), Want(cfg, keys[0]);
      var here := Sample(group, want, source, asked);
      var later := Walk(cfg, groups, keys[1..], source, asked + Consumed(|group|, want));
      SampleIsPart(group, want, source, asked);
      FilterPart(NotLess(m), here, group);
      LessOrNot(m, here);
      FilterConcat(Less(m), here, later);
      WalkBelow(cfg, groups, keys[1..], source, asked + Consumed(|group|, want), m);
    }
  }

  /** The members that are not smaller come first. */
  ghost predicate Arranged(group: seq<Listing>, m: Listing) {
    group == Filter(NotLess(m), group) + Filter(Less(m), group)
  }

  lemma SampleArranged(group: seq<Listing>, n: int, asked: seq<nat>, m: Listing)
    requires Arranged(group, m)
    ensures |Filter(Less(m), Sample(group, n, Answering(FIRST), asked))| == MustBeLess(group, n, m)
  {
    var large, small := Filter(NotLess(m), group), Filter(Less(m), group);
    assert group == large + small;
    FirstSample(group, n, asked);
    FilterMembers(NotLess(m), group);
    FilterMembers(Less(m), group);
    PrefixOfArranged(large, small, Contribution(|group|, n), m);
  }

  lemma FirstSample(group: seq<Listing>, n: int, asked: seq<nat>)
    ensures Sample(group, n, Answering(FIRST), asked) == group[..Contribution(|group|, n)]
  {
    SampleAnywhere(group, n, FIRST, asked);
    if 0 < n < |group| {
      SampleFirst(group, n);
    }
  }

  lemma PrefixOfArranged(large: seq<Listing>, small: seq<Listing>, c: nat, m: Listing)
    requires c <= |large + small|
    requires (forall l :: l in large ==> !Less(m)(l)) && (forall l :: l in small ==> Less(m)(l))
    ensures |Filter(Less(m), (large + small)[..c])| == Max(0, c - |large|)
  {
    if c <= |large| {
      assert (large + small)[..c] == large[..c];
      FilterAll(Less(m), large[..c]);
    } else {
      var rest := small[..c - |large|];
      assert (large + small)[..c] == large + rest;
      FilterConcat(Less(m), large, rest);
      FilterAll(Less(m), large);
      FilterAll(Less(m), rest);
    }
  }

  /** With the first members drawn from strata arranged for m, no more are smaller than must be. */
  lemma {:induction false} WalkArranged(
    cfg: StratificationConfig, groups: Grouping, keys: seq<StratumKey>, asked: seq<nat>, m: Listing)
    requires forall key :: key in keys ==> Arranged(Lookup(groups, key), m)
    ensures |Filter(Less(m), Walk(cfg, groups, keys, Answering(FIRST), asked))| == MinBelow(cfg, groups, keys, m)
    decreases |keys|
  {
    if keys != [] {
      var group, want := Lookup(groups, keys[0]), Want(cfg, keys[0]);
      var here := Sample(group, want, Answering(FIRST), asked);
      var later := Walk(cfg, groups, keys[1..], Answering(FIRST), asked + Consumed(|group|, want));
      SampleArranged(group, want, asked, m);
      FilterConcat(Less(m), here, later);
      WalkArranged(cfg, groups, keys[1..], asked + Consumed(|group|, want), m);
    }
  }

  // ---- for a population, in whatever order ----

  /** The stratum leaves a choice. */
  ghost predicate Chooses(
    cfg: StratificationConfig, listings: seq<Listing>, components: Components, key: StratumKey)
  {
    0 < Want(cfg, key) < |Members(listings, components, key)|
  }

  /** How many smaller listings every draw from this population holds. */
  ghost function AlwaysBelow(
    cfg: StratificationConfig, listings: seq<Listing>, components: Components, m: Listing): nat
  {
    var groups := GroupingOf(listings, components);
    MinBelow(cfg, groups, CanonicalKeys(groups.Keys), m)
  }

  lemma {:induction false} MinBelowPermutes(
    cfg: StratificationConfig, a: seq<Listing>, b: seq<Listing>, components: Components, ga: Grouping, gb: Grouping,
    keys: seq<StratumKey>, m: Listing)
    requires multiset(a) == multiset(b) && Groups(ga, a, components) && Groups(gb, b, components)
    requires forall key :: key in keys ==> key in ga && key in gb
    ensures MinBelow(cfg, ga, keys, m) == MinBelow(cfg, gb, keys, m)
    decreases |keys|
  {
    if keys != [] {
      MembersPermute(a, b, components, keys[0]);
      FilterPermutation(NotLess(m), ga[keys[0]], gb[keys[0]]);
      MinBelowPermutes(cfg, a, b, components, ga, gb, keys[1..], m);
    }
  }

  lemma AlwaysBelowPermutes(
    cfg: StratificationConfig, a: seq<Listing>, b: seq<Listing>, components: Components, m: Listing)
    requires multiset(a) == multiset(b)
    ensures AlwaysBelow(cfg, a, components, m) == AlwaysBelow(cfg, b, components, m)
  {
    var ga, gb := GroupingOf(a, components), GroupingOf(b, components);
    KeysPermute(a, b, components);
    var keys := CanonicalKeys(ga.Keys);
    assert forall key :: key in keys <==> key in Elements(keys);
    MinBelowPermutes(cfg, a, b, components, ga, gb, keys, m);
  }

  /** A selection is part of the population, its IDs are distinct, and it holds at least so many smaller listings. */
  lemma SelectionBelow(
    cfg: StratificationConfig, listings: seq<Listing>, components: Components, source: Source, asked: seq<nat>,
    a: seq<Listing>, m: Listing)
    requires Selection(cfg, listings, components, source, asked, a) && DistinctIds(listings)
    ensures DistinctIds(a) && multiset(a) <= multiset(listings)
    ensures |Filter(Less(m), a)| == |Filter(Less(m), Drawn(cfg, listings, components, source, asked))|
    ensures |Filter(Less(m), a)| >= AlwaysBelow(cfg, listings, components, m)
  {
    var groups := GroupingOf(listings, components);
    var keys := CanonicalKeys(groups.Keys);
    SelectionStratifies(cfg, groups, listings, components, source, asked, a);
    PartHasDistinctIds(a, listings);
    WalkBelow(cfg, groups, keys, source, asked, m);
    FilterPermutation(Less(m), a, Drawn(cfg, listings, components, source, asked));
  }

  // ---- the order shows: a member that a draw can keep, and another can leave out ----

  function IsNot(m: Listing): Listing -> bool {
    (l: Listing) => l != m
  }

  /** The other listings, those not smaller than m first. */
  ghost function OthersArranged(listings: seq<Listing>, m: Listing): seq<Listing> {
    var others := Filter(IsNot(m), listings);
    Filter(NotLess(m), others) + Filter(Less(m), others)
  }

  lemma OthersPermute(listings: seq<Listing>, m: Listing)
    requires DistinctIds(listings) && m in listings
    ensures multiset([m] + OthersArranged(listings, m)) == multiset(listings)
    ensures multiset(OthersArranged(listings, m) + [m]) == multiset(listings)
    ensures m !in OthersArranged(listings, m)
  {
    var others, arranged := Filter(IsNot(m), listings), OthersArranged(listings, m);
    FilterSplits(NotLess(m), Less(m), others);
    FilterMembers(IsNot(m), listings);
    SameElements(arranged, others, m);
    OthersAndOne(listings, m);
  }

  lemma OthersAndOne(listings: seq<Listing>, m: Listing)
    requires DistinctIds(listings) && m in listings
    ensures multiset(Filter(IsNot(m), listings)) + multiset{m} == multiset(listings)
  {
    DistinctIdsIdentify(listings);
    DistinctMultiset(listings);
    assert m in Elements(listings);
    forall l
      ensures (multiset(Filter(IsNot(m), listings)) + multiset{m})[l] == multiset(listings)[l]
    {
      FilterMultiplicity(IsNot(m), listings, l);
    }
  }

  /** With m in front, every stratum is arranged for m. */
  lemma FrontIsArranged(listings: seq<Listing>, components: Components, key: StratumKey, m: Listing)
    ensures Arranged(Members([m] + OthersArranged(listings, m), components, key), m)
  {
    var others, inside := Filter(IsNot(m), listings), InStratum(components, key);
    var large, small := Filter(NotLess(m), others), Filter(Less(m), others);
    var front := [m] + large;
    assert [m] + OthersArranged(listings, m) == front + small;
    FilterMembers(NotLess(m), others);
    FilterMembers(Less(m), others);
    StrTrichotomy(m.id, m.id);
    FilterConcat(inside, front, small);
    FilterMembers(inside, front);
    FilterMembers(inside, small);
    SplitIsArranged(Filter(inside, front), Filter(inside, small), m);
  }

  lemma SplitIsArranged(large: seq<Listing>, small: seq<Listing>, m: Listing)
    requires (forall l :: l in large ==> !Less(m)(l)) && (forall l :: l in small ==> Less(m)(l))
    ensures Arranged(large + small, m)
  {
    FilterConcat(Less(m), large, small);
    FilterConcat(NotLess(m), large, small);
    FilterAll(Less(m), large);
    FilterAll(Less(m), small);
    FilterAll(NotLess(m), large);
    FilterAll(NotLess(m), small);
    assert large + [] == large && [] + small == small;
  }

  /** In front, m is drawn, and with as few smaller ones as can be; so it is kept if those are fewer than the cap. */
  lemma FrontIsKept(cfg: StratificationConfig, listings: seq<Listing>, components: Components, m: Listing)
    returns (a: seq<Listing>)
    requires DistinctIds(listings) && m in listings && Chooses(cfg, listings, components, KeyOf(m, components))
    requires 0 < cfg.totalCap && AlwaysBelow(cfg, listings, components, m) < cfg.totalCap
    ensures Selection(cfg, [m] + OthersArranged(listings, m), components, Answering(FIRST), [], a)
    ensures m in Capped(cfg.totalCap, a)
  {
    var front, key := [m] + OthersArranged(listings, m), KeyOf(m, components);
    a := SelectionExists(cfg, front, components, Answering(FIRST), []);
    OthersPermute(listings, m);
    MembersPermute(front, listings, components, key);
    AlwaysBelowPermutes(cfg, front, listings, components, m);
    PartHasDistinctIds(front, listings);
    FrontIsDrawn(cfg, front, components, m);
    SelectionBelow(cfg, front, components, Answering(FIRST), [], a, m);
    SameElements(a, Drawn(cfg, front, components, Answering(FIRST), []), m);
    FrontCount(cfg, listings, components, m);
    KeptIff(cfg.totalCap, a, m);
  }

  lemma FrontIsDrawn(cfg: StratificationConfig, front: seq<Listing>, components: Components, m: Listing)
    requires front != [] && front[0] == m && Chooses(cfg, front, components, KeyOf(m, components))
    ensures m in Drawn(cfg, front, components, Answering(FIRST), [])
  {
    var members, want := Members(front, components, KeyOf(m, components)), Want(cfg, KeyOf(m, components));
    assert members[0] == m;
    DrawnFromStratum(cfg, front, components, FIRST, m);
    SampleFirst(members, want);
    assert members[..want][0] == m;
  }

  lemma FrontCount(cfg: StratificationConfig, listings: seq<Listing>, components: Components, m: Listing)
    ensures var front := [m] + OthersArranged(listings, m);
      |Filter(Less(m), Drawn(cfg, front, components, Answering(FIRST), []))| == AlwaysBelow(cfg, front, components, m)
  {
    var front := [m] + OthersArranged(listings, m);
    var groups := GroupingOf(front, components);
    var keys := CanonicalKeys(groups.Keys);
    forall key | key in keys
      ensures Arranged(Lookup(groups, key), m)
    {
      assert key in Elements(keys);
      FrontIsArranged(listings, components, key, m);
    }
    WalkArranged(cfg, groups, keys, [], m);
  }

  lemma BackMembers(others: seq<Listing>, components: Components, m: Listing)
    ensures Members(others + [m], components, KeyOf(m, components))
         == Members(others, components, KeyOf(m, components)) + [m]
    ensures m !in others ==> m !in Members(others, components, KeyOf(m, components))
  {
    var inside := InStratum(components, KeyOf(m, components));
    FilterConcat(inside, others, [m]);
    FilterOne(inside, m);
    FilterMembers(inside, others);
  }

  lemma DrawnFromStratum(
    cfg: StratificationConfig, listings: seq<Listing>, components: Components, f: nat -> nat, m: Listing)
    requires Members(listings, components, KeyOf(m, components)) != []
    ensures m in Drawn(cfg, listings, components, Answering(f), []) <==>
      var key := KeyOf(m, components); m in Sample(Members(listings, components, key), Want(cfg, key), Answering(f), [])
  {
    var key := KeyOf(m, components);
    StratumOfDrawn(cfg, listings, components, f, key);
    FilterMembers(InStratum(components, key), Drawn(cfg, listings, components, Answering(f), []));
  }

  lemma BackIsNotDrawn(cfg: StratificationConfig, others: seq<Listing>, components: Components, m: Listing)
    requires m !in others && Chooses(cfg, others + [m], components, KeyOf(m, components))
    ensures m !in Drawn(cfg, others + [m], components, Answering(FIRST), [])
  {
    var key := KeyOf(m, components);
    var members, want := Members(others, components, key), Want(cfg, key);
    BackMembers(others, components, m);
    DrawnFromStratum(cfg, others + [m], components, FIRST, m);
    LastIsNotSampled(members, want, m);
  }

  lemma LastIsNotSampled(members: seq<Listing>, n: int, m: Listing)
    requires m !in members && 0 < n <= |members|
    ensures m !in Sample(members + [m], n, Answering(FIRST), [])
  {
    SampleFirst(members + [m], n);
    assert (members + [m])[..n] == members[..n];
  }

  /** At the end, m is left out. */
  lemma BackIsLeftOut(cfg: StratificationConfig, listings: seq<Listing>, components: Components, m: Listing)
    returns (b: seq<Listing>)
    requires DistinctIds(listings) && m in listings && Chooses(cfg, listings, components, KeyOf(m, components))
    ensures Selection(cfg, OthersArranged(listings, m) + [m], components, Answering(FIRST), [], b)
    ensures m !in Capped(cfg.totalCap, b)
  {
    var others := OthersArranged(listings, m);
    b := SelectionExists(cfg, others + [m], components, Answering(FIRST), []);
    OthersPermute(listings, m);
    MembersPermute(others + [m], listings, components, KeyOf(m, components));
    BackIsNotDrawn(cfg, others, components, m);
    SameElements(b, Drawn(cfg, others + [m], components, Answering(FIRST), []), m);
    KeptWasSelected(cfg.totalCap, b, m);
  }

  lemma KeptWasSelected(totalCap: int, a: seq<Listing>, m: Listing)
    ensures m in Capped(totalCap, a) ==> m in a
  {
  }

  /** So for some order of the listings another selection is kept. */
  lemma OrderShows(cfg: StratificationConfig, listings: seq<Listing>, components: Components, m: Listing)
    returns (permuted: seq<Listing>, a: seq<Listing>, b: seq<Listing>)
    requires DistinctIds(listings) && m in listings && Chooses(cfg, listings, components, KeyOf(m, components))
    requires 0 < cfg.totalCap && AlwaysBelow(cfg, listings, components, m) < cfg.totalCap
    ensures multiset(permuted) == multiset(listings)
    ensures Selection(cfg, listings, components, Answering(FIRST), [], a)
    ensures Selection(cfg, permuted, components, Answering(FIRST), [], b)
    ensures Capped(cfg.totalCap, a) != Capped(cfg.totalCap, b)
  {
    a := SelectionExists(cfg, listings, components, Answering(FIRST), []);
    permuted, b := KeptOrNot(cfg, listings, components, m, m !in Capped(cfg.totalCap, a));
  }

  lemma KeptOrNot(cfg: StratificationConfig, listings: seq<Listing>, components: Components, m: Listing, kept: bool)
    returns (permuted: seq<Listing>, b: seq<Listing>)
    requires DistinctIds(listings) && m in listings && Chooses(cfg, listings, components, KeyOf(m, components))
    requires 0 < cfg.totalCap && AlwaysBelow(cfg, listings, components, m) < cfg.totalCap
    ensures multiset(permuted) == multiset(listings)
    ensures Selection(cfg, permuted, components, Answering(FIRST), [], b)
    ensures m in Capped(cfg.totalCap, b) <==> kept
  {
    OthersPermute(listings, m);
    if kept {
      permuted := [m] + OthersArranged(listings, m);
      b := FrontIsKept(cfg, listings, components, m);
    } else {
      permuted := OthersArranged(listings, m) + [m];
      b := BackIsLeftOut(cfg, listings, components, m);
    }
  }

  // ---- the order does not show ----

  function Fixed(cfg: StratificationConfig, groups: Grouping, components: Components): Listing -> bool {
    (l: Listing) =>
      var key := KeyOf(l, components);
      !(0 < Want(cfg, key) < |Lookup(groups, key)|)
  }

  lemma {:induction false} FilterOrdered<T(!new)>(less: (T, T) -> bool, p: T -> bool, s: seq<T>)
    requires Ordered(less, s)
    ensures Ordered(less, Filter(p, s))
  {
    if s != [] {
      var rest := Filter(p, s[1..]);
      assert forall i, j :: 0 <= i < j < |s[1..]| ==> s[1..][i] == s[i + 1] && s[1..][j] == s[j + 1];
      FilterOrdered(less, p, s[1..]);
      FilterMembers(p, s[1..]);
      forall j | 0 <= j < |rest|
        ensures !less(rest[j], s[0])
      {
        assert rest[j] in rest;
        var k :| 0 <= k < |s[1..]| && s[1..][k] == rest[j];
        assert s[k + 1] == rest[j];
      }
      PrependOrdered(less, s[0], rest);
    }
  }

  /** The part drawn from strata without a choice does not depend on the order of the listings. */
  lemma {:induction false} FixedPartPermutes(
    cfg: StratificationConfig, a: seq<Listing>, b: seq<Listing>, components: Components, ga: Grouping, gb: Grouping,
    keys: seq<StratumKey>, source: Source, asked: seq<nat>)
    requires multiset(a) == multiset(b) && Groups(ga, a, components) && Groups(gb, b, components)
    requires forall key :: key in keys ==> key in ga && key in gb
    ensures multiset(Filter(Fixed(cfg, ga, components), Walk(cfg, ga, keys, source, asked)))
         == multiset(Filter(Fixed(cfg, ga, components), Walk(cfg, gb, keys, source, asked)))
    decreases |keys|
  {
    if keys != [] {
      var key := keys[0];
      var want := Want(cfg, key);
      MembersPermute(a, b, components, key);
      var fixed, consumed := Fixed(cfg, ga, components), Consumed(|ga[key]|, want);
      FixedHere(cfg, a, components, ga, ga, key, source, asked);
      FixedHere(cfg, b, components, ga, gb, key, source, asked);
      FilterConcat(fixed, Sample(ga[key], want, source, asked), Walk(cfg, ga, keys[1..], source, asked + consumed));
      FilterConcat(fixed, Sample(gb[key], want, source, asked), Walk(cfg, gb, keys[1..], source, asked + consumed));
      FixedPartPermutes(cfg, a, b, components, ga, gb, keys[1..], source, asked + consumed);
    }
  }

  lemma FixedHere(
    cfg: StratificationConfig, listings: seq<Listing>, components: Components, sizes: Grouping, groups: Grouping,
    key: StratumKey, source: Source, asked: seq<nat>)
    requires Groups(groups, listings, components) && key in groups && key in sizes && |sizes[key]| == |groups[key]|
    ensures Filter(Fixed(cfg, sizes, components), Sample(groups[key], Want(cfg, key), source, asked))
         == if Want(cfg, key) >= |groups[key]| then groups[key] else []
  {
    var sample := Sample(groups[key], Want(cfg, key), source, asked);
    SampleIsPart(groups[key], Want(cfg, key), source, asked);
    FilterMembers(InStratum(components, key), listings);
    assert forall l :: l in sample ==> KeyOf(l, components) == key;
    FilterAll(Fixed(cfg, sizes, components), sample);
  }

  /** If all that is kept satisfies p, it is the beginning of all that satisfies p, and all of it below the cap. */
  lemma KeptIsPrefix(totalCap: int, a: seq<Listing>, p: Listing -> bool)
    requires totalCap > 0 && forall l :: l in Capped(totalCap, a) ==> p(l)
    ensures Capped(totalCap, a) <= Filter(p, a)
    ensures |Capped(totalCap, a)| == totalCap || Capped(totalCap, a) == Filter(p, a)
  {
    var kept := Capped(totalCap, a);
    FilterAll(p, kept);
    assert a == kept + a[|kept|..];
    FilterConcat(p, kept, a[|kept|..]);
    if |a| <= totalCap {
      assert a[|kept|..] == [];
    }
  }

  lemma EqualPrefixes<T>(a: seq<T>, b: seq<T>, s: seq<T>, n: int)
    requires a <= s && b <= s && |a| <= n && |b| <= n && (|a| == n || a == s) && (|b| == n || b == s)
    ensures a == b
  {
    assert a == s[..|a|] && b == s[..|b|];
  }

  /** No member of a stratum with a choice comes early enough to be kept by any draw. */
  ghost predicate NoneKept(cfg: StratificationConfig, listings: seq<Listing>, components: Components) {
    forall m :: m in listings && Chooses(cfg, listings, components, KeyOf(m, components)) ==>
      AlwaysBelow(cfg, listings, components, m) >= cfg.totalCap
  }

  lemma KeptIsFixed(
    cfg: StratificationConfig, listings: seq<Listing>, components: Components, source: Source, asked: seq<nat>,
    a: seq<Listing>)
    requires DistinctIds(listings) && cfg.totalCap > 0 && NoneKept(cfg, listings, components)
    requires Selection(cfg, listings, components, source, asked, a)
    ensures forall l :: l in Capped(cfg.totalCap, a) ==> Fixed(cfg, GroupingOf(listings, components), components)(l)
  {
    forall m | m in Capped(cfg.totalCap, a)
      ensures Fixed(cfg, GroupingOf(listings, components), components)(m)
    {
      SelectionBelow(cfg, listings, components, source, asked, a, m);
      PartHasDistinctIds(a, listings);
      assert m in a && m in listings;
      KeptIff(cfg.totalCap, a, m);
    }
  }

  lemma NoneKeptPermutes(cfg: StratificationConfig, a: seq<Listing>, b: seq<Listing>, components: Components)
    requires multiset(a) == multiset(b) && NoneKept(cfg, a, components)
    ensures NoneKept(cfg, b, components)
  {
    forall m | m in b && Chooses(cfg, b, components, KeyOf(m, components))
      ensures AlwaysBelow(cfg, b, components, m) >= cfg.totalCap
    {
      SameElements(a, b, m);
      MembersPermute(a, b, components, KeyOf(m, components));
      AlwaysBelowPermutes(cfg, a, b, components, m);
    }
  }

  lemma FixedSelected(
    cfg: StratificationConfig, listings: seq<Listing>, permuted: seq<Listing>, components: Components,
    source: Source, asked: seq<nat>, a: seq<Listing>, b: seq<Listing>)
    requires multiset(permuted) == multiset(listings) && DistinctIds(listings)
    requires Selection(cfg, listings, components, source, asked, a)
    requires Selection(cfg, permuted, components, source, asked, b)
    ensures var fixed := Fixed(cfg, GroupingOf(listings, components), components); Filter(fixed, a) == Filter(fixed, b)
  {
    var ga, gb := GroupingOf(listings, components), GroupingOf(permuted, components);
    var fixed := Fixed(cfg, ga, components);
    KeysPermute(listings, permuted, components);
    var keys := CanonicalKeys(ga.Keys);
    assert forall key :: key in keys <==> key in Elements(keys);
    FixedPartPermutes(cfg, listings, permuted, components, ga, gb, keys, source, asked);
    FilterPermutation(fixed, a, Drawn(cfg, listings, components, source, asked));
    FilterPermutation(fixed, b, Drawn(cfg, permuted, components, source, asked));
    SelectionStratifies(cfg, ga, listings, components, source, asked, a);
    SameFiltered(fixed, a, b, listings);
  }

  lemma SameFiltered(p: Listing -> bool, a: seq<Listing>, b: seq<Listing>, listings: seq<Listing>)
    requires Ordered(ById(), a) && Ordered(ById(), b) && multiset(Filter(p, a)) == multiset(Filter(p, b))
    requires DistinctIds(listings) && multiset(a) <= multiset(listings)
    ensures Filter(p, a) == Filter(p, b)
  {
    FilterOrdered(ById(), p, a);
    FilterOrdered(ById(), p, b);
    PartHasDistinctIds(a, listings);
    DistinctIdsIdentify(listings);
    FilterMembers(p, a);
    ByKeyIsStrictWeak((l: Listing) => l.id);
    TiedIds(Filter(p, a));
    SortUnique(ById(), Filter(p, a), Filter(p, b));
  }

  lemma OrderIsHidden(
    cfg: StratificationConfig, listings: seq<Listing>, permuted: seq<Listing>, components: Components,
    source: Source, asked: seq<nat>, a: seq<Listing>, b: seq<Listing>)
    requires multiset(permuted) == multiset(listings) && DistinctIds(listings) && cfg.totalCap > 0
    requires NoneKept(cfg, listings, components)
    requires Selection(cfg, listings, components, source, asked, a)
    requires Selection(cfg, permuted, components, source, asked, b)
    ensures Capped(cfg.totalCap, a) == Capped(cfg.totalCap, b)
  {
    var fixed := Fixed(cfg, GroupingOf(listings, components), components);
    PartHasDistinctIds(permuted, listings);
    NoneKeptPermutes(cfg, listings, permuted, components);
    KeptIsFixed(cfg, listings, components, source, asked, a);
    KeptIsFixed(cfg, permuted, components, source, asked, b);
    SameFixed(cfg, listings, permuted, components);
    FixedSelected(cfg, listings, permuted, components, source, asked, a, b);
    KeptIsPrefix(cfg.totalCap, a, fixed);
    KeptIsPrefix(cfg.totalCap, b, fixed);
    EqualPrefixes(Capped(cfg.totalCap, a), Capped(cfg.totalCap, b), Filter(fixed, a), cfg.totalCap);
  }

  lemma SameFixed(cfg: StratificationConfig, a: seq<Listing>, b: seq<Listing>, components: Components)
    requires multiset(a) == multiset(b)
    ensures forall l :: Fixed(cfg, GroupingOf(a, components), components)(l)
                   <==> Fixed(cfg, GroupingOf(b, components), components)(l)
  {
    KeysPermute(a, b, components);
    forall key
      ensures |Lookup(GroupingOf(a, components), key)| == |Lookup(GroupingOf(b, components), key)|
    {
      MembersPermute(a, b, components, key);
      assert key in GroupingOf(a, components).Keys <==> key in GroupingOf(b, components).Keys;
    }
  }

  // ---- the same seed and population: what is kept, and whole runs ----

  /** Whatever the stream and however the population is listed, the same listings are kept, in the same order. */
  ghost predicate KeptAgree(cfg: StratificationConfig, listings: seq<Listing>, components: Components) {
    forall permuted, source: Source, asked, a, b ::
      multiset(permuted) == multiset(listings)
      && Selection(cfg, listings, components, source, asked, a)
      && Selection(cfg, permuted, components, source, asked, b)
      ==> Capped(cfg.totalCap, a) == Capped(cfg.totalCap, b)
  }

  /** Outcomes of two runs on the same stream, the datastore listing the one or the other. */
  ghost predicate BothReturn(
    cfg: StratificationConfig, reader: Reader, listings: seq<Listing>, permuted: seq<Listing>,
    source: Source, asked: seq<nat>,
    r: Result<SampleSet, RunError>, askedR: seq<nat>, t: Result<SampleSet, RunError>, askedT: seq<nat>)
  {
    && MayReturn(cfg, reader.(listingsSince := Success(listings)), source, asked, r, askedR)
    && MayReturn(cfg, reader.(listingsSince := Success(permuted)), source, asked, t, askedT)
  }

  /** Whatever the stream and however the population is listed, runs return the same and consume the same draws. */
  ghost predicate RunsAgree(cfg: StratificationConfig, reader: Reader, listings: seq<Listing>) {
    forall permuted, source: Source, asked, r, askedR, t, askedT ::
      multiset(permuted) == multiset(listings)
      && BothReturn(cfg, reader, listings, permuted, source, asked, r, askedR, t, askedT)
      ==> r == t && askedR == askedT
  }

  /**
   With distinct IDs and a positive cap, the order of the listings never changes what is kept exactly if every
   draw holds at least as many listings smaller than each member of a stratum with a choice as the cap keeps.
   */
  lemma CappedOrderMattersIff(cfg: StratificationConfig, listings: seq<Listing>, components: Components)
    requires DistinctIds(listings) && cfg.totalCap > 0
    ensures KeptAgree(cfg, listings, components) <==> NoneKept(cfg, listings, components)
  {
    if NoneKept(cfg, listings, components) {
      forall permuted, source, asked, a, b |
        multiset(permuted) == multiset(listings)
        && Selection(cfg, listings, components, source, asked, a)
        && Selection(cfg, permuted, components, source, asked, b)
        ensures Capped(cfg.totalCap, a) == Capped(cfg.totalCap, b)
      {
        OrderIsHidden(cfg, listings, permuted, components, source, asked, a, b);
      }
    } else {
      var m :| m in listings && Chooses(cfg, listings, components, KeyOf(m, components))
        && AlwaysBelow(cfg, listings, components, m) < cfg.totalCap;
      var permuted, a, b := OrderShows(cfg, listings, components, m);
    }
  }

  lemma {:induction false} TotalBySize(
    cfg: StratificationConfig, a: seq<Listing>, b: seq<Listing>, components: Components, ga: Grouping, gb: Grouping,
    keys: seq<StratumKey>)
    requires multiset(a) == multiset(b) && Groups(ga, a, components) && Groups(gb, b, components)
    requires forall key :: key in keys ==> key in ga && key in gb
    ensures TotalContribution(cfg, ga, keys) == TotalContribution(cfg, gb, keys)
    decreases |keys|
  {
    if keys != [] {
      MembersPermute(a, b, components, keys[0]);
      TotalBySize(cfg, a, b, components, ga, gb, keys[1..]);
    }
  }

  /** The size of every selection from this population. */
  ghost function Total(cfg: StratificationConfig, listings: seq<Listing>, components: Components): nat {
    var groups := GroupingOf(listings, components);
    TotalContribution(cfg, groups, CanonicalKeys(groups.Keys))
  }

  lemma SelectionSize(
    cfg: StratificationConfig, listings: seq<Listing>, permuted: seq<Listing>, components: Components,
    source: Source, asked: seq<nat>, a: seq<Listing>)
    requires multiset(permuted) == multiset(listings)
    requires Selection(cfg, permuted, components, source, asked, a)
    ensures |a| == Total(cfg, listings, components)
  {
    var ga, gb := GroupingOf(listings, components), GroupingOf(permuted, components);
    KeysPermute(listings, permuted, components);
    var keys := CanonicalKeys(ga.Keys);
    assert forall key :: key in keys <==> key in Elements(keys);
    TotalBySize(cfg, listings, permuted, components, ga, gb, keys);
    SelectionStratifies(cfg, gb, permuted, components, source, asked, a);
  }

  /** Where the cap does not bite, what is kept is the selection. */
  lemma UncappedOrderMattersIff(cfg: StratificationConfig, listings: seq<Listing>, components: Components)
    requires cfg.totalCap <= 0 || Total(cfg, listings, components) <= cfg.totalCap
    ensures KeptAgree(cfg, listings, components)
       <==> NoChoice(cfg, listings, components) && NoCollision(cfg, listings, components)
  {
    PopulationDeterminesIff(cfg, listings, components);
    forall permuted, source, asked, a |
      multiset(permuted) == multiset(listings) && Selection(cfg, permuted, components, source, asked, a)
      ensures Capped(cfg.totalCap, a) == a
    {
      SelectionSize(cfg, listings, permuted, components, source, asked, a);
    }
  }

  /** Every selection is that of some run. */
  lemma SelectionOfRun(
    cfg: StratificationConfig, reader: Reader, listings: seq<Listing>, components: Components,
    source: Source, asked: seq<nat>, a: seq<Listing>)
    requires LoadComponents(reader, listings) == Success(components) && (listings == [] || cfg.perKind >= 0)
    requires Selection(cfg, listings, components, source, asked, a)
    ensures MayReturn(cfg, reader.(listingsSince := Success(listings)), source, asked,
                      Assemble(reader, components, Capped(cfg.totalCap, a)), asked + Asks(cfg, listings, components))
  {
    var here, kept := reader.(listingsSince := Success(listings)), Capped(cfg.totalCap, a);
    SameLoads(reader, Success(listings), listings);
    SameAssembly(reader, Success(listings), components, kept);
    assert ReturnsPicked(cfg, here, source, asked, Assemble(reader, components, kept),
                         asked + Asks(cfg, listings, components), components, GroupingOf(listings, components), a);
  }

  /** The scores of any listings can be read. */
  ghost predicate ScoresRead(reader: Reader) {
    forall ids :: reader.scoresForListings(ids).Success?
  }

  /** Runs agree exactly if what they keep does. */
  lemma RunsAgreeIff(cfg: StratificationConfig, reader: Reader, listings: seq<Listing>, components: Components)
    requires LoadComponents(reader, listings) == Success(components) && (listings == [] || cfg.perKind >= 0)
    requires ScoresRead(reader)
    ensures RunsAgree(cfg, reader, listings) <==> KeptAgree(cfg, listings, components)
  {
    if KeptAgree(cfg, listings, components) {
      forall permuted, source, asked, r, askedR, t, askedT |
        multiset(permuted) == multiset(listings)
        && BothReturn(cfg, reader, listings, permuted, source, asked, r, askedR, t, askedT)
        ensures r == t && askedR == askedT
      {
        KeptDecides(cfg, reader, listings, permuted, components, source, asked, r, askedR, t, askedT);
      }
    }
    if RunsAgree(cfg, reader, listings) {
      forall permuted, source, asked, a, b |
        multiset(permuted) == multiset(listings)
        && Selection(cfg, listings, components, source, asked, a)
        && Selection(cfg, permuted, components, source, asked, b)
        ensures Capped(cfg.totalCap, a) == Capped(cfg.totalCap, b)
      {
        RunsShowKept(cfg, reader, listings, permuted, components, source, asked, a, b);
      }
    }
  }

  lemma KeptDecides(
    cfg: StratificationConfig, reader: Reader, listings: seq<Listing>, permuted: seq<Listing>, components: Components,
    source: Source, asked: seq<nat>,
    r: Result<SampleSet, RunError>, askedR: seq<nat>, t: Result<SampleSet, RunError>, askedT: seq<nat>)
    requires LoadComponents(reader, listings) == Success(components) && (listings == [] || cfg.perKind >= 0)
    requires KeptAgree(cfg, listings, components) && multiset(permuted) == multiset(listings)
    requires BothReturn(cfg, reader, listings, permuted, source, asked, r, askedR, t, askedT)
    ensures r == t && askedR == askedT
  {
    LoadsPermute(reader, listings, permuted);
    SameLoads(reader, Success(listings), listings);
    SameLoads(reader, Success(permuted), permuted);
    assert |multiset(permuted)| == |permuted| && |multiset(listings)| == |listings|;
    var a := RunSelects(cfg, reader, listings, components, source, asked, r, askedR);
    var b := RunSelects(cfg, reader, permuted, components, source, asked, t, askedT);
    StreamIgnoresOrder(cfg, listings, permuted, components);
  }

  lemma RunsShowKept(
    cfg: StratificationConfig, reader: Reader, listings: seq<Listing>, permuted: seq<Listing>, components: Components,
    source: Source, asked: seq<nat>, a: seq<Listing>, b: seq<Listing>)
    requires LoadComponents(reader, listings) == Success(components) && (listings == [] || cfg.perKind >= 0)
    requires ScoresRead(reader) && RunsAgree(cfg, reader, listings) && multiset(permuted) == multiset(listings)
    requires Selection(cfg, listings, components, source, asked, a)
    requires Selection(cfg, permuted, components, source, asked, b)
    ensures Capped(cfg.totalCap, a) == Capped(cfg.totalCap, b)
  {
    LoadsPermute(reader, listings, permuted);
    assert |multiset(permuted)| == |permuted| && |multiset(listings)| == |listings|;
    BothSelections(cfg, reader, listings, permuted, components, source, asked, a, b);
    AgreeAt(cfg, reader, listings, permuted, source, asked,
            Assemble(reader, components, Capped(cfg.totalCap, a)), asked + Asks(cfg, listings, components),
            Assemble(reader, components, Capped(cfg.totalCap, b)), asked + Asks(cfg, permuted, components));
    AssemblyShows(reader, components, Capped(cfg.totalCap, a), Capped(cfg.totalCap, b));
  }

  lemma AgreeAt(
    cfg: StratificationConfig, reader: Reader, listings: seq<Listing>, permuted: seq<Listing>,
    source: Source, asked: seq<nat>,
    r: Result<SampleSet, RunError>, askedR: seq<nat>, t: Result<SampleSet, RunError>, askedT: seq<nat>)
    requires RunsAgree(cfg, reader, listings) && multiset(permuted) == multiset(listings)
    requires BothReturn(cfg, reader, listings, permuted, source, asked, r, askedR, t, askedT)
    ensures r == t && askedR == askedT
  {
  }

  lemma BothSelections(
    cfg: StratificationConfig, reader: Reader, listings: seq<Listing>, permuted: seq<Listing>, components: Components,
    source: Source, asked: seq<nat>, a: seq<Listing>, b: seq<Listing>)
    requires LoadComponents(reader, listings) == Success(components) && (listings == [] || cfg.perKind >= 0)
    requires LoadComponents(reader, permuted) == Success(components) && (permuted == [] || cfg.perKind >= 0)
    requires Selection(cfg, listings, components, source, asked, a)
    requires Selection(cfg, permuted, components, source, asked, b)
    ensures BothReturn(cfg, reader, listings, permuted, source, asked,
                       Assemble(reader, components, Capped(cfg.totalCap, a)), asked + Asks(cfg, listings, components),
                       Assemble(reader, components, Capped(cfg.totalCap, b)), asked + Asks(cfg, permuted, components))
  {
    SelectionOfRun(cfg, reader, listings, components, source, asked, a);
    SelectionOfRun(cfg, reader, permuted, components, source, asked, b);
  }

  lemma AssemblyShows(reader: Reader, components: Components, a: seq<Listing>, b: seq<Listing>)
    requires ScoresRead(reader) && Assemble(reader, components, a) == Assemble(reader, components, b)
    ensures a == b
  {
    assert reader.scoresForListings(Ids(a)).Success? && reader.scoresForListings(Ids(b)).Success?;
    AssembledParts(reader, components, a, Assemble(reader, components, a).value);
    AssembledParts(reader, components, b, Assemble(reader, components, b).value);
  }

  /** Runs whose cap does not bite agree exactly without a choice and without a collision. */
  lemma UncappedRunsAgreeIff(cfg: StratificationConfig, reader: Reader, listings: seq<Listing>, components: Components)
    requires LoadComponents(reader, listings) == Success(components) && (listings == [] || cfg.perKind >= 0)
    requires ScoresRead(reader) && (cfg.totalCap <= 0 || Total(cfg, listings, components) <= cfg.totalCap)
    ensures RunsAgree(cfg, reader, listings)
       <==> NoChoice(cfg, listings, components) && NoCollision(cfg, listings, components)
  {
    RunsAgreeIff(cfg, reader, listings, components);
    UncappedOrderMattersIff(cfg, listings, components);
  }

  /** Runs with a positive cap over distinct IDs agree exactly if no member of a stratum with a choice can be kept. */
  lemma CappedRunsAgreeIff(cfg: StratificationConfig, reader: Reader, listings: seq<Listing>, components: Components)
    requires LoadComponents(reader, listings) == Success(components) && (listings == [] || cfg.perKind >= 0)
    requires ScoresRead(reader) && cfg.totalCap > 0 && DistinctIds(listings)
    ensures RunsAgree(cfg, reader, listings) <==> NoneKept(cfg, listings, components)
  {
    RunsAgreeIff(cfg, reader, listings, components);
    CappedOrderMattersIff(cfg, listings, components);
  }
}
