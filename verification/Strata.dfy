/** The records the tools exchange: listings, their parsed components, and their scores. */
module Domain {

  datatype Listing = Listing(id: string, watchId: string, ebayItemId: string, title: string)

  datatype Component = Component(id: string, listingId: string, kind: string, confidence: real, extractorVer: string)

  datatype Score = Score(id: string, listingId: string, value: real, percentile: real)
}

/** Strata: the key of a listing, grouping by key, and the canonical order of keys. */
module Strata {
  import opened Vocabulary
  import opened Domain
  import opened Sorting

  datatype StratumKey = StratumKey(kind: string, bucket: string, extractorVer: string)

  type Components = map<string, seq<Component>>

  type Grouping = map<StratumKey, seq<Listing>>

  function ConfidenceBucketFor(conf: real): string {
    if conf < 0.5 then "<0.5" else if conf < 0.8 then "0.5-0.8" else "0.8-1.0"
  }

  /** A listing's stratum comes from its first component; a missing map entry reads as no components. */
  function KeyOf(l: Listing, components: Components): StratumKey {
    if l.id in components && components[l.id] != [] then
      var c := components[l.id][0];
      StratumKey(c.kind, ConfidenceBucketFor(c.confidence), c.extractorVer)
    else
      StratumKey("<no-kind>", "", "")
  }

  predicate InBucket(conf: real, bucket: string) {
    || (bucket == "<0.5" && conf < 0.5)
    || (bucket == "0.5-0.8" && 0.5 <= conf < 0.8)
    || (bucket == "0.8-1.0" && 0.8 <= conf)
  }

  /** What a key says about a listing: its first component's kind, version and confidence band, or that it has none. */
  lemma InStratumIff(l: Listing, components: Components, key: StratumKey)
    ensures InStratum(components, key)(l) <==>
      if l.id in components && components[l.id] != [] then
        var c := components[l.id][0];
        c.kind == key.kind && c.extractorVer == key.extractorVer && InBucket(c.confidence, key.bucket)
      else key.kind == "<no-kind>" && key.bucket == "" && key.extractorVer == ""
  {
  }

  function InStratum(components: Components, key: StratumKey): Listing -> bool {
    l => KeyOf(l, components) == key
  }

  function Members(listings: seq<Listing>, components: Components, key: StratumKey): seq<Listing> {
    Filter(InStratum(components, key), listings)
  }

  /** groups is exactly the partition of listings by key, each group in listing order. */
  ghost predicate Groups(groups: Grouping, listings: seq<Listing>, components: Components) {
    && (forall key :: key in groups <==> exists l :: l in listings && KeyOf(l, components) == key)
    && (forall key :: key in groups ==> groups[key] == Members(listings, components, key))
  }

  method GroupByStrata(listings: seq<Listing>, components: Components) returns (out: Grouping)
    ensures Groups(out, listings, components)
  {
    out := map[];
    for i := 0 to |listings|
      invariant Groups(out, listings[..i], components)
    {
      var l := listings[i];
      var key := StratumKey("<no-kind>", "", "");
      var comps := Lookup(components, l.id);
      if |comps| > 0 {
        var c := comps[0];
        key := StratumKey(c.kind, ConfidenceBucketFor(c.confidence), c.extractorVer);
      }
      assert listings[..i + 1] == listings[..i] + [l];
      GroupsExtend(out, listings[..i], components, l);
      out := out[key := Lookup(out, key) + [l]];
    }
    assert listings[..|listings|] == listings;
  }

  lemma GroupsExtend(groups: Grouping, listings: seq<Listing>, components: Components, l: Listing)
    requires Groups(groups, listings, components)
    ensures var key := KeyOf(l, components);
      Groups(groups[key := Lookup(groups, key) + [l]], listings + [l], components)
  {
    var key := KeyOf(l, components);
    var more := groups[key := Lookup(groups, key) + [l]];
    forall k | k in more
      ensures more[k] == Members(listings + [l], components, k)
    {
      FilterConcat(InStratum(components, k), listings, [l]);
      if k !in groups {
        FilterAll(InStratum(components, k), listings);
      }
    }
    assert l in listings + [l];
    forall k
      ensures k in more <==> exists x :: x in listings + [l] && KeyOf(x, components) == k
    {
      if k in groups {
        var x :| x in listings && KeyOf(x, components) == k;
        assert x in listings + [l];
      }
    }
  }

  /** Reading an absent key of a Go map of slices yields the nil slice. */
  function Lookup<K, V>(m: map<K, seq<V>>, key: K): seq<V> {
    if key in m then m[key] else []
  }

  function Gather(groups: Grouping, keys: seq<StratumKey>): seq<Listing> {
    if keys == [] then [] else Lookup(groups, keys[0]) + Gather(groups, keys[1..])
  }

  /** No listing is lost or duplicated by grouping, whatever order the groups are visited in. */
  lemma GroupsPartition(
    groups: Grouping, listings: seq<Listing>, components: Components, keys: seq<StratumKey>)
    requires Groups(groups, listings, components) && Enumerates(keys, groups.Keys)
    ensures multiset(Gather(groups, keys)) == multiset(listings)
  {
    forall l
      ensures multiset(Gather(groups, keys))[l] == multiset(listings)[l]
    {
      GatherMultiplicity(groups, listings, components, keys, l);
      if l in listings {
        assert KeyOf(l, components) in groups.Keys;
        assert KeyOf(l, components) in Elements(keys);
      }
    }
  }

  lemma {:induction false} GatherMultiplicity(
    groups: Grouping, listings: seq<Listing>, components: Components, keys: seq<StratumKey>,
    l: Listing)
    requires Groups(groups, listings, components) && Distinct(keys) && Elements(keys) <= groups.Keys
    ensures multiset(Gather(groups, keys))[l]
         == if KeyOf(l, components) in keys then multiset(listings)[l] else 0
  {
    if keys != [] {
      assert keys[0] in Elements(keys);
      assert Elements(keys[1..]) <= Elements(keys);
      FilterMultiplicity(InStratum(components, keys[0]), listings, l);
      GatherMultiplicity(groups, listings, components, keys[1..], l);
    }
  }

  // ---- canonical order of keys: kind, then bucket, then extractor version ----

  predicate WithinKindLess(a: StratumKey, b: StratumKey) {
    if a.bucket != b.bucket then StrLess(a.bucket, b.bucket) else StrLess(a.extractorVer, b.extractorVer)
  }

  predicate KeyLess(a: StratumKey, b: StratumKey) {
    if a.kind != b.kind then StrLess(a.kind, b.kind) else WithinKindLess(a, b)
  }

  lemma WithinKindTransitive(a: StratumKey, b: StratumKey, c: StratumKey)
    ensures WithinKindLess(a, b) ==> !WithinKindLess(b, a)
    ensures NotLessChains(WithinKindLess, a, b, c)
  {
    StrTrichotomy(a.bucket, b.bucket);
    StrTrichotomy(b.bucket, c.bucket);
    StrTrichotomy(a.bucket, c.bucket);
    StrTrichotomy(a.extractorVer, b.extractorVer);
    if !WithinKindLess(b, a) && !WithinKindLess(c, b) {
      StrNegTransitive(a.bucket, b.bucket, c.bucket);
      if a.bucket == b.bucket == c.bucket {
        StrNegTransitive(a.extractorVer, b.extractorVer, c.extractorVer);
      }
    }
  }

  lemma KeyTrichotomy(a: StratumKey, b: StratumKey)
    ensures KeyLess(a, b) ==> !KeyLess(b, a)
    ensures !KeyLess(a, b) && !KeyLess(b, a) ==> a == b
  {
    StrTrichotomy(a.kind, b.kind);
    StrTrichotomy(a.bucket, b.bucket);
    StrTrichotomy(a.extractorVer, b.extractorVer);
  }

  lemma KeyTransitive(a: StratumKey, b: StratumKey, c: StratumKey)
    ensures NotLessChains(KeyLess, a, b, c)
  {
    WithinKindTransitive(a, b, c);
    StrTrichotomy(a.kind, b.kind);
    StrTrichotomy(b.kind, c.kind);
    StrTrichotomy(a.kind, c.kind);
    if !KeyLess(b, a) && !KeyLess(c, b) {
      StrNegTransitive(a.kind, b.kind, c.kind);
    }
  }

  lemma KeyOrders()
    ensures StrictWeakOrder(WithinKindLess) && StrictWeakOrder(KeyLess)
    ensures forall keys :: TiesAreEqual(KeyLess, keys)
  {
    assert StrictWeakOrder(WithinKindLess) by {
      forall a, b | WithinKindLess(a, b)
        ensures !WithinKindLess(b, a)
      {
        WithinKindTransitive(a, b, a);
      }
      forall a, b, c
        ensures NotLessChains(WithinKindLess, a, b, c)
      {
        WithinKindTransitive(a, b, c);
      }
    }
    assert StrictWeakOrder(KeyLess) by {
      forall a, b | KeyLess(a, b)
        ensures !KeyLess(b, a)
      {
        KeyTrichotomy(a, b);
      }
      forall a, b, c
        ensures NotLessChains(KeyLess, a, b, c)
      {
        KeyTransitive(a, b, c);
      }
    }
    forall keys: seq<StratumKey>, a, b | a in keys && b in keys && !KeyLess(a, b) && !KeyLess(b, a)
      ensures a == b
    {
      KeyTrichotomy(a, b);
    }
  }

  /** The one ordered listing of a set of keys. */
  ghost function CanonicalKeys(keys: set<StratumKey>): (s: seq<StratumKey>)
    ensures Enumerates(s, keys) && Ordered(KeyLess, s)
  {
    CanonicalKeysExist(keys);
    var s :| Enumerates(s, keys) && Ordered(KeyLess, s);
    s
  }

  lemma CanonicalKeysExist(keys: set<StratumKey>)
    ensures exists s :: Enumerates(s, keys) && Ordered(KeyLess, s)
  {
    KeyOrders();
    var unordered := EnumerationExists(keys);
    var s := SortExists(KeyLess, unordered);
    PermutationEnumerates(s, unordered, keys);
  }

  lemma RepeatsCount<T>(s: seq<T>, i: nat, j: nat)
    requires i < j < |s|
    ensures s[i] == s[j] ==> multiset(s)[s[i]] >= 2
  {
    assert s == s[..i] + ([s[i]] + s[i + 1..j]) + ([s[j]] + s[j + 1..]);
  }

  lemma PermutationEnumerates<T(!new)>(a: seq<T>, b: seq<T>, of: set<T>)
    requires multiset(a) == multiset(b) && Enumerates(b, of)
    ensures Enumerates(a, of)
  {
    DistinctMultiset(b);
    forall i, j | 0 <= i < j < |a|
      ensures a[i] != a[j]
    {
      RepeatsCount(a, i, j);
    }
    forall x
      ensures x in a <==> x in of
    {
      assert x in a <==> x in multiset(a);
      assert x in b <==> x in multiset(b);
      assert x in b <==> x in Elements(b);
    }
  }

  lemma CanonicalKeysUnique(s: seq<StratumKey>, keys: set<StratumKey>)
    requires Enumerates(s, keys) && Ordered(KeyLess, s)
    ensures s == CanonicalKeys(keys)
  {
    KeyOrders();
    DistinctMultiset(s);
    DistinctMultiset(CanonicalKeys(keys));
    SortUnique(KeyLess, s, CanonicalKeys(keys));
  }

  /** Of two neighbouring or further apart keys, the earlier has the lesser kind, then bucket, then version. */
  lemma CanonicalKeysAscend(keys: set<StratumKey>, i: nat, j: nat)
    requires i < j < |CanonicalKeys(keys)|
    ensures var a, b := CanonicalKeys(keys)[i], CanonicalKeys(keys)[j];
      || StrLess(a.kind, b.kind)
      || (a.kind == b.kind && StrLess(a.bucket, b.bucket))
      || (a.kind == b.kind && a.bucket == b.bucket && StrLess(a.extractorVer, b.extractorVer))
  {
    var a, b := CanonicalKeys(keys)[i], CanonicalKeys(keys)[j];
    assert a != b && !KeyLess(b, a);
    KeyTrichotomy(a, b);
  }

  // ---- keys collected by kind ----

  ghost function OfKind(keys: set<StratumKey>, kind: string): set<StratumKey> {
    set k | k in keys && k.kind == kind
  }

  ghost function OfKinds(keys: set<StratumKey>, kinds: seq<string>): set<StratumKey> {
    set k | k in keys && k.kind in kinds
  }

  ghost predicate CollectedByKind(byKind: map<string, seq<StratumKey>>, keys: set<StratumKey>) {
    && (forall k :: k in keys ==> k.kind in byKind)
    && (forall kind :: kind in byKind ==> Enumerates(byKind[kind], OfKind(keys, kind)))
  }

  lemma CollectOne(byKind: map<string, seq<StratumKey>>, keys: set<StratumKey>, k: StratumKey)
    requires CollectedByKind(byKind, keys) && k !in keys
    ensures CollectedByKind(byKind[k.kind := Lookup(byKind, k.kind) + [k]], keys + {k})
  {
    var had := Lookup(byKind, k.kind);
    assert Enumerates(had, OfKind(keys, k.kind));
    assert k !in Elements(had);
    AppendEnumerates(had, OfKind(keys, k.kind), k);
    assert OfKind(keys + {k}, k.kind) == OfKind(keys, k.kind) + {k};
    forall kind | kind in byKind && kind != k.kind
      ensures OfKind(keys + {k}, kind) == OfKind(keys, kind)
    {
    }
  }

  lemma AppendEnumerates<T(!new)>(s: seq<T>, of: set<T>, x: T)
    requires Enumerates(s, of) && x !in of
    ensures Enumerates(s + [x], of + {x})
  {
    assert forall y :: y in s + [x] <==> y in s || y == x;
    assert forall y :: y in s <==> y in Elements(s);
  }

  /** Appending the keys of a later kind, in bucket and version order, keeps the canonical order. */
  lemma AppendKind(done: seq<StratumKey>, keys: seq<StratumKey>, all: set<StratumKey>, kinds: seq<string>, kind: string)
    requires Enumerates(done, OfKinds(all, kinds)) && Ordered(KeyLess, done)
    requires Enumerates(keys, OfKind(all, kind)) && Ordered(WithinKindLess, keys)
    requires forall k :: k in kinds ==> StrLess(k, kind)
    ensures Enumerates(done + keys, OfKinds(all, kinds + [kind])) && Ordered(KeyLess, done + keys)
  {
    var r := done + keys;
    assert forall k :: k in done <==> k in Elements(done);
    assert forall k :: k in keys <==> k in Elements(keys);
    forall i | 0 <= i < |done|
      ensures done[i].kind in kinds
    {
      assert done[i] in Elements(done);
    }
    forall j | 0 <= j < |keys|
      ensures keys[j].kind == kind
    {
      assert keys[j] in Elements(keys);
    }
    forall i, j | 0 <= i < j < |r|
      ensures !KeyLess(r[j], r[i]) && r[i] != r[j]
    {
      if i < |done| <= j {
        assert r[i] == done[i] && r[j] == keys[j - |done|];
        StrTrichotomy(r[i].kind, kind);
      } else if |done| <= i {
        assert r[i] == keys[i - |done|] && r[j] == keys[j - |done|];
      }
    }
    assert Elements(r) == OfKinds(all, kinds) + OfKind(all, kind);
    assert OfKinds(all, kinds + [kind]) == OfKinds(all, kinds) + OfKind(all, kind);
  }
}
