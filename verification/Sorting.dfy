/**
 Go's sort.Slice, sort.Strings and sort.Float64s by contract: an ordered permutation of the input,
 with no promise of stability. What callers may conclude about the result is proved here.
 */
module Sorting {
  import opened Vocabulary

  // ---- byte-wise string order ----

  predicate StrLess(a: string, b: string) {
    if b == [] then false
    else if a == [] then true
    else if a[0] != b[0] then a[0] < b[0]
    else StrLess(a[1..], b[1..])
  }

  lemma {:induction false} StrTrichotomy(a: string, b: string)
    ensures StrLess(a, b) ==> !StrLess(b, a)
    ensures !StrLess(a, b) && !StrLess(b, a) <==> a == b
  {
    if a != [] && b != [] && a[0] == b[0] {
      StrTrichotomy(a[1..], b[1..]);
      assert a == [a[0]] + a[1..] && b == [b[0]] + b[1..];
    }
  }

  /** b continues a, or has the larger character at the first position where they differ. */
  ghost predicate PrecedesAt(a: string, b: string, k: nat) {
    k <= |a| && k < |b| && a[..k] == b[..k] && (k == |a| || a[k] < b[k])
  }

  lemma {:induction false} StrLessIff(a: string, b: string)
    ensures StrLess(a, b) <==> exists k: nat :: PrecedesAt(a, b, k)
  {
    if b != [] && (a == [] || a[0] < b[0]) {
      assert PrecedesAt(a, b, 0);
    } else if a != [] && b != [] && a[0] == b[0] {
      StrLessIff(a[1..], b[1..]);
      if k: nat :| PrecedesAt(a[1..], b[1..], k) {
        SharedHead(a, b, k);
      }
      if k: nat :| PrecedesAt(a, b, k) {
        SharedHead(a, b, k - 1);
      }
    } else if k: nat :| PrecedesAt(a, b, k) {
      HeadsAgree(a, b, k);
    }
  }

  lemma HeadsAgree(a: string, b: string, k: nat)
    requires PrecedesAt(a, b, k)
    ensures k > 0 ==> a != [] && b != [] && a[0] == b[0]
  {
    if k > 0 {
      assert a[..k][0] == b[..k][0];
    }
  }

  lemma SharedHead(a: string, b: string, k: nat)
    requires a != [] && b != [] && a[0] == b[0]
    ensures PrecedesAt(a, b, k + 1) <==> PrecedesAt(a[1..], b[1..], k)
  {
    if k < |a| && k + 1 < |b| {
      assert a[..k + 1] == [a[0]] + a[1..][..k] && b[..k + 1] == [b[0]] + b[1..][..k];
    }
  }

  lemma {:induction false} StrTransitive(a: string, b: string, c: string)
    requires StrLess(a, b) && StrLess(b, c)
    ensures StrLess(a, c)
  {
    if a != [] && b != [] && c != [] && a[0] == b[0] == c[0] {
      StrTransitive(a[1..], b[1..], c[1..]);
    }
  }

  // ---- ordering predicates ----

  /** What sort.Slice demands of its less function. */
  ghost predicate StrictWeakOrder<T(!new)>(less: (T, T) -> bool) {
    && (forall a, b :: less(a, b) ==> !less(b, a))
    && (forall a, b, c :: NotLessChains(less, a, b, c))
  }

  /** "Not below" is transitive; named so that it is only used where it is mentioned. */
  ghost predicate NotLessChains<T>(less: (T, T) -> bool, a: T, b: T, c: T) {
    !less(b, a) && !less(c, b) ==> !less(c, a)
  }

  ghost predicate Ordered<T>(less: (T, T) -> bool, s: seq<T>) {
    forall i, j :: 0 <= i < j < |s| ==> !less(s[j], s[i])
  }

  ghost predicate Sorts<T>(less: (T, T) -> bool, r: seq<T>, s: seq<T>) {
    Ordered(less, r) && multiset(r) == multiset(s)
  }

  /** Elements that the order cannot tell apart are equal. */
  ghost predicate TiesAreEqual<T(!new)>(less: (T, T) -> bool, s: seq<T>) {
    forall x, y :: x in s && y in s && !less(x, y) && !less(y, x) ==> x == y
  }

  /** Comparison by a string key, as in `a.ID < b.ID`. */
  function ByKey<T>(key: T -> string): (T, T) -> bool {
    (a, b) => StrLess(key(a), key(b))
  }

  lemma ByKeyIsStrictWeak<T(!new)>(key: T -> string)
    ensures StrictWeakOrder(ByKey(key))
  {
    var less := ByKey(key);
    forall a, b | less(a, b)
      ensures !less(b, a)
    {
      StrTrichotomy(key(a), key(b));
    }
    forall a, b, c
      ensures NotLessChains(less, a, b, c)
    {
      if !less(b, a) && !less(c, b) {
        StrNegTransitive(key(a), key(b), key(c));
      }
    }
  }

  lemma StrNegTransitive(a: string, b: string, c: string)
    requires !StrLess(b, a) && !StrLess(c, b)
    ensures !StrLess(c, a)
  {
    if StrLess(c, a) {
      StrTrichotomy(a, b);
      StrTrichotomy(b, c);
      if a != b {
        StrTransitive(c, a, b);
      }
    }
  }

  // ---- the sort itself ----

  function Insert<T>(less: (T, T) -> bool, x: T, s: seq<T>): seq<T> {
    if s == [] || !less(s[0], x) then [x] + s else [s[0]] + Insert(less, x, s[1..])
  }

  lemma NoneBefore<T(!new)>(less: (T, T) -> bool, first: T, rest: seq<T>, permuted: seq<T>)
    requires multiset(rest) == multiset(permuted) && forall y :: y in permuted ==> !less(y, first)
    ensures forall j :: 0 <= j < |rest| ==> !less(rest[j], first)
  {
    forall j | 0 <= j < |rest|
      ensures !less(rest[j], first)
    {
      assert rest[j] in multiset(rest);
    }
  }

  lemma {:induction false} InsertSorts<T(!new)>(less: (T, T) -> bool, x: T, s: seq<T>)
    requires StrictWeakOrder(less) && Ordered(less, s)
    ensures Sorts(less, Insert(less, x, s), [x] + s)
  {
    if s == [] {
    } else if !less(s[0], x) {
      forall j | 0 <= j < |s|
        ensures !less(s[j], x)
      {
        assert NotLessChains(less, x, s[0], s[j]);
      }
    } else {
      var rest := Insert(less, x, s[1..]);
      InsertSorts(less, x, s[1..]);
      assert s == [s[0]] + s[1..];
      NoneBefore(less, s[0], rest, [x] + s[1..]);
      PrependOrdered(less, s[0], rest);
    }
  }

  lemma PrependOrdered<T>(less: (T, T) -> bool, x: T, s: seq<T>)
    requires Ordered(less, s) && forall j :: 0 <= j < |s| ==> !less(s[j], x)
    ensures Ordered(less, [x] + s)
  {
    var r := [x] + s;
    forall i, j | 0 <= i < j < |r|
      ensures !less(r[j], r[i])
    {
      assert r[j] == s[j - 1];
    }
  }

  /** Callers see only the contract: which of two tied elements comes first stays open. */
  method SortSlice<T(!new)>(s: seq<T>, less: (T, T) -> bool) returns (r: seq<T>)
    requires StrictWeakOrder(less)
    ensures Sorts(less, r, s)
  {
    r := [];
    for i := 0 to |s|
      invariant Sorts(less, r, s[..i])
    {
      InsertSorts(less, s[i], r);
      r := Insert(less, s[i], r);
      assert s[..i + 1] == s[..i] + [s[i]];
    }
    assert s[..|s|] == s;
  }

  lemma {:induction false} SortExists<T(!new)>(less: (T, T) -> bool, s: seq<T>) returns (r: seq<T>)
    requires StrictWeakOrder(less)
    ensures Sorts(less, r, s)
  {
    if s == [] {
      r := [];
    } else {
      var t := SortExists(less, s[1..]);
      InsertSorts(less, s[0], t);
      r := Insert(less, s[0], t);
      assert s == [s[0]] + s[1..];
    }
  }

  // ---- when the contract pins the result down ----

  lemma {:induction false} SortUnique<T(!new)>(less: (T, T) -> bool, a: seq<T>, b: seq<T>)
    requires Ordered(less, a) && Ordered(less, b) && multiset(a) == multiset(b)
    requires StrictWeakOrder(less) && TiesAreEqual(less, a)
    ensures a == b
    decreases |a|
  {
    if a == [] {
      assert |multiset(b)| == 0;
    } else {
      FirstsAgree(less, a, b);
      TailMultiset(a);
      TailMultiset(b);
      SortUnique(less, a[1..], b[1..]);
    }
  }

  lemma TailMultiset<T>(s: seq<T>)
    requires s != []
    ensures multiset(s[1..]) == multiset(s) - multiset{s[0]} && s == [s[0]] + s[1..]
  {
    assert s == [s[0]] + s[1..];
  }

  lemma FirstsAgree<T(!new)>(less: (T, T) -> bool, a: seq<T>, b: seq<T>)
    requires Ordered(less, a) && Ordered(less, b) && multiset(a) == multiset(b) && a != []
    requires StrictWeakOrder(less) && TiesAreEqual(less, a)
    ensures b != [] && a[0] == b[0]
  {
    assert a[0] in multiset(b);
    assert b[0] in multiset(a);
    assert !less(b[0], a[0]) && !less(a[0], b[0]);
  }

  /** The sort's result is determined exactly when tied elements are equal. */
  lemma SortDeterminedIff<T(!new)>(less: (T, T) -> bool, s: seq<T>)
    requires StrictWeakOrder(less)
    ensures (forall a, b :: Sorts(less, a, s) && Sorts(less, b, s) ==> a == b) <==> TiesAreEqual(less, s)
  {
    if TiesAreEqual(less, s) {
      forall a, b | Sorts(less, a, s) && Sorts(less, b, s)
        ensures a == b
      {
        assert forall x :: x in a ==> x in multiset(s);
        SortUnique(less, a, b);
      }
    } else {
      var a, b := TwoOrders(less, s);
      assert Sorts(less, a, s) && Sorts(less, b, s) && a != b;
    }
  }

  lemma TwoOrders<T(!new)>(less: (T, T) -> bool, s: seq<T>) returns (a: seq<T>, b: seq<T>)
    requires StrictWeakOrder(less) && !TiesAreEqual(less, s)
    ensures Sorts(less, a, s) && Sorts(less, b, s) && a != b
  {
    var x, y :| x in s && y in s && !less(x, y) && !less(y, x) && x != y;
    a := SortExists(less, s);
    assert x in multiset(a) && y in multiset(a);
    var i :| 0 <= i < |a| && a[i] == x;
    var j :| 0 <= j < |a| && a[j] == y;
    SwapTied(less, a, i, j);
    b := a[i := y][j := x];
    assert b[i] == y;
  }

  lemma SwapTied<T(!new)>(less: (T, T) -> bool, a: seq<T>, i: nat, j: nat)
    requires StrictWeakOrder(less) && Ordered(less, a)
    requires i < |a| && j < |a| && i != j && !less(a[i], a[j]) && !less(a[j], a[i])
    ensures Sorts(less, a[i := a[j]][j := a[i]], a)
  {
    var b := a[i := a[j]][j := a[i]];
    forall k, l | 0 <= k < l < |b|
      ensures !less(b[l], b[k])
    {
      assert NotLessChains(less, b[k], a[k], a[l]);
      assert NotLessChains(less, b[k], a[l], b[l]);
    }
  }

  // ---- positions in sorted order ----

  function Below<T>(less: (T, T) -> bool, v: T): T -> bool {
    x => less(x, v)
  }

  function NotAbove<T>(less: (T, T) -> bool, v: T): T -> bool {
    x => !less(v, x)
  }

  /** v is an element that stands at position `rank` (from 0) when s is sorted. */
  ghost predicate AtRank<T(!new)>(less: (T, T) -> bool, v: T, s: seq<T>, rank: int) {
    v in s && |Filter(Below(less, v), s)| <= rank < |Filter(NotAbove(less, v), s)|
  }

  lemma {:induction false} FilterNoLonger<T>(p: T -> bool, s: seq<T>)
    ensures |Filter(p, s)| <= |s|
  {
    if s != [] {
      FilterNoLonger(p, s[1..]);
    }
  }

  lemma {:induction false} FilterImplies<T>(p: T -> bool, q: T -> bool, s: seq<T>)
    requires forall x :: p(x) ==> q(x)
    ensures |Filter(p, s)| <= |Filter(q, s)|
  {
    if s != [] {
      FilterImplies(p, q, s[1..]);
    }
  }

  lemma OrderedAtRank<T(!new)>(less: (T, T) -> bool, s: seq<T>, i: nat)
    requires StrictWeakOrder(less) && Ordered(less, s) && i < |s|
    ensures AtRank(less, s[i], s, i)
  {
    var v := s[i];
    assert s == s[..i] + s[i..] && s == s[..i + 1] + s[i + 1..];
    FilterConcat(Below(less, v), s[..i], s[i..]);
    FilterAll(Below(less, v), s[i..]);
    FilterNoLonger(Below(less, v), s[..i]);
    FilterConcat(NotAbove(less, v), s[..i + 1], s[i + 1..]);
    FilterAll(NotAbove(less, v), s[..i + 1]);
  }

  /** Reading position i of the sorted sequence gives the element at rank i of the unsorted one. */
  lemma SortedAtRank<T(!new)>(less: (T, T) -> bool, sorted: seq<T>, s: seq<T>, i: nat)
    requires StrictWeakOrder(less) && Sorts(less, sorted, s) && i < |sorted|
    ensures AtRank(less, sorted[i], s, i)
  {
    OrderedAtRank(less, sorted, i);
    AtRankPermutes(less, sorted[i], sorted, s, i);
  }

  lemma AtRankPermutes<T(!new)>(less: (T, T) -> bool, v: T, a: seq<T>, b: seq<T>, rank: int)
    requires multiset(a) == multiset(b) && AtRank(less, v, a, rank)
    ensures AtRank(less, v, b, rank)
  {
    FilterPermutation(Below(less, v), a, b);
    FilterPermutation(NotAbove(less, v), a, b);
    assert v in multiset(b);
  }

  /** Higher ranks are never below lower ones; in particular elements at one rank are tied. */
  lemma RankIsMonotone<T(!new)>(less: (T, T) -> bool, s: seq<T>, v: T, i: int, w: T, j: int)
    requires StrictWeakOrder(less) && AtRank(less, v, s, i) && AtRank(less, w, s, j) && i <= j
    ensures !less(w, v)
  {
    if less(w, v) {
      forall x | NotAbove(less, w)(x)
        ensures Below(less, v)(x)
      {
        assert NotLessChains(less, v, x, w);
      }
      FilterImplies(NotAbove(less, w), Below(less, v), s);
    }
  }
}
