/**
 Unbiasedness of a whole pull: all strata are sampled from one stream, and each combination of subsets,
 one per stratum that has a choice, is made by the same number of streams.
 */
module SamplerUnbiased {
  import opened Vocabulary
  import opened Domain
  import opened Shuffle
  import opened Strata
  import opened DatasetBootstrap
  import opened SamplerProperties

  // ---- a pull as a function of the numbers drawn ----

  /** One answer below each bound. */
  ghost predicate Answers(d: seq<nat>, bounds: seq<nat>) {
    |d| == |bounds| && forall i :: 0 <= i < |d| ==> d[i] < bounds[i]
  }

  lemma AnswersSplit(d: seq<nat>, here: seq<nat>, later: seq<nat>)
    ensures Answers(d, here + later)
       <==> |d| >= |here| && Answers(d[..|here|], here) && Answers(d[|here|..], later)
  {
    var bounds := here + later;
    if |d| >= |here| && Answers(d[..|here|], here) && Answers(d[|here|..], later) {
      forall i | 0 <= i < |d|
        ensures d[i] < bounds[i]
      {
        if i >= |here| {
          assert d[i] == d[|here|..][i - |here|];
        } else {
          assert d[i] == d[..|here|][i];
        }
      }
    }
  }

  lemma AnswersAreDraws(d: seq<nat>, size: nat, n: nat)
    requires n <= size
    ensures Answers(d, Bounds(size, n)) <==> ValidDraws(d, size, n)
  {
  }

  /** The stratum leaves a choice, so that draws are made for it. */
  predicate HasChoice(cfg: StratificationConfig, groups: Grouping, key: StratumKey) {
    0 < Want(cfg, key) < |Lookup(groups, key)|
  }

  /** The bounds one stratum asks for. */
  function Asked(cfg: StratificationConfig, groups: Grouping, key: StratumKey): seq<nat> {
    Consumed(|Lookup(groups, key)|, Want(cfg, key))
  }

  /** The listings that these answers pick from one stratum. */
  function PickedHere(cfg: StratificationConfig, groups: Grouping, key: StratumKey, d: seq<nat>): seq<Listing>
    requires Answers(d, Asked(cfg, groups, key))
  {
    var group := Lookup(groups, key);
    if HasChoice(cfg, groups, key) then
      AnswersAreDraws(d, |group|, Want(cfg, key));
      Pick(group, d)
    else if Want(cfg, key) <= 0 then [] else group
  }

  /** The listings that these answers pick, stratum by stratum. */
  ghost function Picked(cfg: StratificationConfig, groups: Grouping, keys: seq<StratumKey>, d: seq<nat>): seq<Listing>
    requires Answers(d, WalkConsumed(cfg, groups, keys))
  {
    if keys == [] then []
    else
      var n := |Asked(cfg, groups, keys[0])|;
      AnswersSplit(d, Asked(cfg, groups, keys[0]), WalkConsumed(cfg, groups, keys[1..]));
      PickedHere(cfg, groups, keys[0], d[..n]) + Picked(cfg, groups, keys[1..], d[n..])
  }

  /** Every combination of answers is given by some generator, and the pull is then what they pick. */
  lemma EveryStreamArises(
    cfg: StratificationConfig, groups: Grouping, keys: seq<StratumKey>, d: seq<nat>, asked: seq<nat>)
    returns (source: Source)
    requires Answers(d, WalkConsumed(cfg, groups, keys))
    ensures Walk(cfg, groups, keys, source, asked) == Picked(cfg, groups, keys, d)
  {
    source := Replaying(asked, d);
    WalkReplays(cfg, groups, keys, asked, d, [], d, asked);
  }

  lemma {:induction false} WalkReplays(
    cfg: StratificationConfig, groups: Grouping, keys: seq<StratumKey>, start: seq<nat>, all: seq<nat>,
    before: seq<nat>, d: seq<nat>, asked: seq<nat>)
    requires Answers(d, WalkConsumed(cfg, groups, keys))
    requires all == before + d && |asked| == |start| + |before|
    ensures Walk(cfg, groups, keys, Replaying(start, all), asked) == Picked(cfg, groups, keys, d)
    decreases |keys|
  {
    if keys != [] {
      var key := keys[0];
      var group, here := Lookup(groups, key), Asked(cfg, groups, key);
      var n := |here|;
      AnswersSplit(d, here, WalkConsumed(cfg, groups, keys[1..]));
      if HasChoice(cfg, groups, key) {
        AnswersAreDraws(d[..n], |group|, n);
        DrawsReplay(start, all, before, d, asked, |group|, n);
      }
      assert before + d == (before + d[..n]) + d[n..];
      WalkReplays(cfg, groups, keys[1..], start, all, before + d[..n], d[n..], asked + here);
    }
  }

  lemma DrawsReplay(
    start: seq<nat>, all: seq<nat>, before: seq<nat>, d: seq<nat>, asked: seq<nat>, size: nat, n: nat)
    requires n <= size && n <= |d| && ValidDraws(d[..n], size, n)
    requires all == before + d && |asked| == |start| + |before|
    ensures Draws(Replaying(start, all), asked, size, n) == d[..n]
  {
    var made := Draws(Replaying(start, all), asked, size, n);
    forall i | 0 <= i < n
      ensures made[i] == d[..n][i]
    {
      var a := asked + Bounds(size, i + 1);
      assert a[|a| - 1] == size - i;
      assert all[|before| + i] == d[i];
    }
  }

  // ---- counting ----

  /** All combinations of answers to some bounds. */
  ghost function Streams(bounds: seq<nat>): (all: set<seq<nat>>)
    ensures forall d :: d in all <==> Answers(d, bounds)
    decreases |bounds|
  {
    if bounds == [] then {[]}
    else
      var all := set first: nat, rest | first < bounds[0] && rest in Streams(bounds[1..]) :: [first] + rest;
      assert forall d :: d in all <==> Answers(d, bounds) by {
        forall d
          ensures d in all <==> Answers(d, bounds)
        {
          AnswersCons(d, bounds);
          if Answers(d, bounds) {
            assert d == [d[0]] + d[1..] && d[1..] in Streams(bounds[1..]);
          }
        }
      }
      all
  }

  lemma AnswersCons(d: seq<nat>, bounds: seq<nat>)
    requires bounds != []
    ensures Answers(d, bounds) <==> d != [] && d[0] < bounds[0] && Answers(d[1..], bounds[1..])
  {
    AnswersSplit(d, [bounds[0]], bounds[1..]);
    assert [bounds[0]] + bounds[1..] == bounds;
    if d != [] {
      assert d[..1] == [d[0]];
    }
  }

  /** For each stratum with a choice, the positions that are to be drawn from it. */
  type Choice = StratumKey -> set<nat>

  ghost predicate ValidChoice(cfg: StratificationConfig, groups: Grouping, keys: seq<StratumKey>, chosen: Choice) {
    forall key :: key in keys && HasChoice(cfg, groups, key) ==>
      |chosen(key)| == Want(cfg, key) && forall i :: i in chosen(key) ==> i < |Lookup(groups, key)|
  }

  /** The draws for a stratum settle exactly the chosen positions. */
  ghost predicate DrawsChoice(
    cfg: StratificationConfig, groups: Grouping, key: StratumKey, d: seq<nat>, chosen: Choice)
    requires Answers(d, Asked(cfg, groups, key))
  {
    HasChoice(cfg, groups, key) ==>
      (AnswersAreDraws(d, |Lookup(groups, key)|, |d|);
       Elements(Pick(Positions(|Lookup(groups, key)|), d)) == chosen(key))
  }

  /** These answers make the chosen combination. */
  ghost predicate Makes(
    cfg: StratificationConfig, groups: Grouping, keys: seq<StratumKey>, d: seq<nat>, chosen: Choice)
    requires Answers(d, WalkConsumed(cfg, groups, keys))
  {
    if keys == [] then true
    else
      var n := |Asked(cfg, groups, keys[0])|;
      AnswersSplit(d, Asked(cfg, groups, keys[0]), WalkConsumed(cfg, groups, keys[1..]));
      DrawsChoice(cfg, groups, keys[0], d[..n], chosen) && Makes(cfg, groups, keys[1..], d[n..], chosen)
  }

  ghost function StreamsMaking(
    cfg: StratificationConfig, groups: Grouping, keys: seq<StratumKey>, chosen: Choice): set<seq<nat>>
  {
    set d | d in Streams(WalkConsumed(cfg, groups, keys)) && Makes(cfg, groups, keys, d, chosen)
  }

  function Orders(cfg: StratificationConfig, groups: Grouping, key: StratumKey): nat {
    if HasChoice(cfg, groups, key) then Factorial(Want(cfg, key)) else 1
  }

  /** The product of n! over the strata with a choice, n being the stratum's target. */
  function AllOrders(cfg: StratificationConfig, groups: Grouping, keys: seq<StratumKey>): nat {
    if keys == [] then 1 else Orders(cfg, groups, keys[0]) * AllOrders(cfg, groups, keys[1..])
  }

  ghost function DrawsMaking(
    cfg: StratificationConfig, groups: Grouping, key: StratumKey, chosen: Choice): set<seq<nat>>
  {
    set d | d in Streams(Asked(cfg, groups, key)) && DrawsChoice(cfg, groups, key, d, chosen)
  }

  lemma OneStratum(cfg: StratificationConfig, groups: Grouping, key: StratumKey, chosen: Choice)
    requires ValidChoice(cfg, groups, [key], chosen)
    ensures |DrawsMaking(cfg, groups, key, chosen)| == Orders(cfg, groups, key)
  {
    var size := |Lookup(groups, key)|;
    if HasChoice(cfg, groups, key) {
      var n := Want(cfg, key);
      assert key in [key];
      forall i | i in chosen(key)
        ensures i in Elements(Positions(size))
      {
        assert Positions(size)[i] == i;
      }
      EverySubsetEquallyLikely(Positions(size), chosen(key));
      forall d
        ensures d in DrawsMaking(cfg, groups, key, chosen) <==> d in DrawsSelecting(Positions(size), chosen(key))
      {
        AnswersAreDraws(d, size, n);
      }
      assert DrawsMaking(cfg, groups, key, chosen) == DrawsSelecting(Positions(size), chosen(key));
    } else {
      assert DrawsMaking(cfg, groups, key, chosen) == {[]};
    }
  }

  /** One of the heads, of length n, followed by one of the tails. */
  predicate Joined(d: seq<nat>, heads: set<seq<nat>>, tails: set<seq<nat>>, n: nat) {
    |d| >= n && d[..n] in heads && d[n..] in tails
  }

  lemma {:induction false} JoinedCount(heads: set<seq<nat>>, tails: set<seq<nat>>, n: nat, all: set<seq<nat>>)
    requires forall h :: h in heads ==> |h| == n
    requires forall d :: d in all <==> Joined(d, heads, tails, n)
    ensures |all| == |heads| * |tails|
    decreases |heads|
  {
    if heads == {} {
      assert all == {};
    } else {
      var h :| h in heads;
      var here := set tail | tail in tails :: h + tail;
      PrefixKeepsCount(h, tails, here);
      OtherHeads(heads, tails, n, all, h, here);
      JoinedCount(heads - {h}, tails, n, all - here);
      assert |all| == |all - here| + |here|;
      var k := |heads - {h}|;
      assert (k + 1) * |tails| == k * |tails| + |tails|;
    }
  }

  lemma OtherHeads(
    heads: set<seq<nat>>, tails: set<seq<nat>>, n: nat, all: set<seq<nat>>, h: seq<nat>, here: set<seq<nat>>)
    requires h in heads && |h| == n && here == set tail | tail in tails :: h + tail
    requires forall d :: d in all <==> Joined(d, heads, tails, n)
    ensures here <= all && forall d :: d in all - here <==> Joined(d, heads - {h}, tails, n)
  {
    forall d
      ensures d in all - here <==> Joined(d, heads - {h}, tails, n)
      ensures d in here ==> d in all
    {
      OneHead(h, tails, n, here, d);
    }
  }

  lemma OneHead(h: seq<nat>, tails: set<seq<nat>>, n: nat, here: set<seq<nat>>, d: seq<nat>)
    requires |h| == n && here == set tail | tail in tails :: h + tail
    ensures d in here <==> Joined(d, {h}, tails, n)
  {
    if Joined(d, {h}, tails, n) {
      assert d == h + d[n..];
    }
  }

  /**
   Unbiasedness of the whole pull: whichever positions are chosen for the strata, as many as each target, the
   same number of streams draws exactly them: the product of the factorials of the targets.
   */
  lemma {:induction false} EveryCombinationEquallyLikely(
    cfg: StratificationConfig, groups: Grouping, keys: seq<StratumKey>, chosen: Choice)
    requires ValidChoice(cfg, groups, keys, chosen)
    ensures |StreamsMaking(cfg, groups, keys, chosen)| == AllOrders(cfg, groups, keys)
    decreases |keys|
  {
    var all := StreamsMaking(cfg, groups, keys, chosen);
    if keys == [] {
      assert all == {[]};
    } else {
      var here := Asked(cfg, groups, keys[0]);
      var heads, tails := DrawsMaking(cfg, groups, keys[0], chosen), StreamsMaking(cfg, groups, keys[1..], chosen);
      OneStratum(cfg, groups, keys[0], chosen);
      EveryCombinationEquallyLikely(cfg, groups, keys[1..], chosen);
      forall d
        ensures d in all <==> Joined(d, heads, tails, |here|)
      {
        MakesJoined(cfg, groups, keys, chosen, d);
      }
      JoinedCount(heads, tails, |here|, all);
    }
  }

  lemma MakesJoined(
    cfg: StratificationConfig, groups: Grouping, keys: seq<StratumKey>, chosen: Choice, d: seq<nat>)
    requires keys != []
    ensures d in StreamsMaking(cfg, groups, keys, chosen)
       <==> Joined(d, DrawsMaking(cfg, groups, keys[0], chosen), StreamsMaking(cfg, groups, keys[1..], chosen),
                   |Asked(cfg, groups, keys[0])|)
  {
    AnswersSplit(d, Asked(cfg, groups, keys[0]), WalkConsumed(cfg, groups, keys[1..]));
  }

  // ---- a combination of positions is a combination of listings ----

  ghost function ListingsAt(group: seq<Listing>, positions: set<nat>): set<Listing> {
    set i | i in positions && i < |group| :: group[i]
  }

  /** drawn holds the listings at some positions of a group, each position once. */
  ghost predicate DrawnAt(drawn: seq<Listing>, group: seq<Listing>, positions: set<nat>) {
    |drawn| == |positions| && Elements(drawn) == ListingsAt(group, positions)
  }

  lemma PickedAt(group: seq<Listing>, d: seq<nat>)
    requires group != [] && ValidDraws(d, |group|, |d|)
    ensures DrawnAt(Pick(group, d), group, Elements(Pick(Positions(|group|), d)))
  {
    PickByPosition(group, d);
    PickIsInjectiveSelection(Positions(|group|), d);
    var positions := Pick(Positions(|group|), d);
    DistinctSize(positions);
    LookedUpAt(group, positions, Pick(group, d));
  }

  lemma LookedUpAt(group: seq<Listing>, positions: seq<nat>, drawn: seq<Listing>)
    requires group != [] && Elements(positions) <= Elements(Positions(|group|))
    requires drawn == Map(At(group, group[0]), positions)
    ensures Elements(drawn) == ListingsAt(group, Elements(positions))
  {
    forall k | 0 <= k < |positions|
      ensures positions[k] < |group| && drawn[k] == group[positions[k]]
    {
      assert positions[k] in Elements(positions);
      assert positions[k] in Elements(Positions(|group|));
    }
    forall l | l in ListingsAt(group, Elements(positions))
      ensures l in drawn
    {
      var i :| i in Elements(positions) && i < |group| && group[i] == l;
      var k :| 0 <= k < |positions| && positions[k] == i;
      assert drawn[k] == l;
    }
    forall l | l in drawn
      ensures l in ListingsAt(group, Elements(positions))
    {
      var k :| 0 <= k < |drawn| && drawn[k] == l;
      assert positions[k] in Elements(positions);
    }
  }

  lemma HereIsDrawn(cfg: StratificationConfig, groups: Grouping, key: StratumKey, d: seq<nat>, chosen: Choice)
    requires Answers(d, Asked(cfg, groups, key)) && DrawsChoice(cfg, groups, key, d, chosen)
    ensures multiset(PickedHere(cfg, groups, key, d)) <= multiset(Lookup(groups, key))
    ensures HasChoice(cfg, groups, key) ==>
      DrawnAt(PickedHere(cfg, groups, key, d), Lookup(groups, key), chosen(key))
  {
    var group := Lookup(groups, key);
    if HasChoice(cfg, groups, key) {
      AnswersAreDraws(d, |group|, Want(cfg, key));
      PickedAt(group, d);
      PickIsPart(group, d);
    }
  }

  /** From a stratum with a choice exactly the chosen listings are drawn, and nothing from a stratum not visited. */
  ghost predicate DrawnAsChosen(
    cfg: StratificationConfig, groups: Grouping, keys: seq<StratumKey>, drawn: seq<Listing>, chosen: Choice,
    key: StratumKey)
  {
    if key in keys then HasChoice(cfg, groups, key) ==> DrawnAt(drawn, Lookup(groups, key), chosen(key))
    else drawn == []
  }

  lemma DrawnAsChosenCons(
    cfg: StratificationConfig, groups: Grouping, keys: seq<StratumKey>, here: seq<Listing>, later: seq<Listing>,
    chosen: Choice, key: StratumKey)
    requires keys != [] && Distinct(keys) && DrawnAsChosen(cfg, groups, keys[1..], later, chosen, key)
    requires HasChoice(cfg, groups, keys[0]) ==> DrawnAt(here, Lookup(groups, keys[0]), chosen(keys[0]))
    ensures DrawnAsChosen(cfg, groups, keys, (if keys[0] == key then here else []) + later, chosen, key)
  {
    if keys[0] == key {
      assert key !in keys[1..];
      assert here + later == here;
    } else {
      assert [] + later == later;
    }
  }

  /** Answers that make a combination pick, from each stratum with a choice, exactly the listings chosen for it. */
  lemma {:induction false} MadeIsPicked(
    cfg: StratificationConfig, groups: Grouping, listings: seq<Listing>, components: Components,
    keys: seq<StratumKey>, d: seq<nat>, chosen: Choice, key: StratumKey)
    requires Groups(groups, listings, components) && Distinct(keys) && forall k :: k in keys ==> k in groups
    requires Answers(d, WalkConsumed(cfg, groups, keys)) && Makes(cfg, groups, keys, d, chosen)
    ensures DrawnAsChosen(
      cfg, groups, keys, Filter(InStratum(components, key), Picked(cfg, groups, keys, d)), chosen, key)
    decreases |keys|
  {
    if keys != [] {
      var n := |Asked(cfg, groups, keys[0])|;
      MadeInParts(cfg, groups, keys, d, chosen);
      MadeIsPicked(cfg, groups, listings, components, keys[1..], d[n..], chosen, key);
      HereIsDrawn(cfg, groups, keys[0], d[..n], chosen);
      var here, later := PickedHere(cfg, groups, keys[0], d[..n]), Picked(cfg, groups, keys[1..], d[n..]);
      PartOfStratum(groups, listings, components, keys[0], here, later, key);
      DrawnAsChosenCons(cfg, groups, keys, here, Filter(InStratum(components, key), later), chosen, key);
    }
  }

  lemma MadeInParts(cfg: StratificationConfig, groups: Grouping, keys: seq<StratumKey>, d: seq<nat>, chosen: Choice)
    requires keys != [] && Answers(d, WalkConsumed(cfg, groups, keys)) && Makes(cfg, groups, keys, d, chosen)
    ensures var n := |Asked(cfg, groups, keys[0])|;
      && n <= |d| && Answers(d[..n], Asked(cfg, groups, keys[0])) && DrawsChoice(cfg, groups, keys[0], d[..n], chosen)
      && Answers(d[n..], WalkConsumed(cfg, groups, keys[1..])) && Makes(cfg, groups, keys[1..], d[n..], chosen)
      && Picked(cfg, groups, keys, d)
         == PickedHere(cfg, groups, keys[0], d[..n]) + Picked(cfg, groups, keys[1..], d[n..])
  {
    AnswersSplit(d, Asked(cfg, groups, keys[0]), WalkConsumed(cfg, groups, keys[1..]));
  }

  lemma PartOfStratum(
    groups: Grouping, listings: seq<Listing>, components: Components, k: StratumKey,
    here: seq<Listing>, later: seq<Listing>, key: StratumKey)
    requires Groups(groups, listings, components) && k in groups && multiset(here) <= multiset(Lookup(groups, k))
    ensures Filter(InStratum(components, key), here + later)
         == (if k == key then here else []) + Filter(InStratum(components, key), later)
  {
    var members := Members(listings, components, k);
    FilterMembers(InStratum(components, k), listings);
    forall l | l in here
      ensures KeyOf(l, components) == k
    {
      assert multiset(here)[l] <= multiset(members)[l];
      assert l in members;
      assert InStratum(components, k)(l);
    }
    FilterAll(InStratum(components, key), here);
    FilterConcat(InStratum(components, key), here, later);
  }
}
