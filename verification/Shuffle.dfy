/**
 The partial Fisher-Yates shuffle behind sampleN, as a function of the numbers drawn, and the
 proof that it is unbiased: draws and ordered selections correspond one to one, and every
 subset of a given size is produced by the same number of draw sequences.
 */
module Shuffle {
  import opened Vocabulary

  /** Draw k is below the number of slots still open at step k. */
  ghost predicate ValidDraws(draws: seq<nat>, size: nat, n: nat) {
    |draws| == n <= size && forall k :: 0 <= k < n ==> draws[k] < size - k
  }

  /** The pool without slot j, once slots 0 and j have been exchanged. */
  function Remaining<T>(pool: seq<T>, j: nat): (r: seq<T>)
    requires j < |pool|
    ensures |r| == |pool| - 1
    ensures forall k :: 0 <= k < |r| ==> r[k] == if k + 1 == j then pool[0] else pool[k + 1]
  {
    pool[0 := pool[j]][j := pool[0]][1..]
  }

  /** The selection made by a sequence of draws. */
  function Pick<T>(pool: seq<T>, draws: seq<nat>): (r: seq<T>)
    requires ValidDraws(draws, |pool|, |draws|)
    ensures |r| == |draws|
    decreases |draws|
  {
    if draws == [] then [] else [pool[draws[0]]] + Pick(Remaining(pool, draws[0]), draws[1..])
  }

  function IndexOf<T(==)>(s: seq<T>, x: T): (i: nat)
    requires x in s
    ensures i < |s| && s[i] == x
  {
    if s[0] == x then 0 else 1 + IndexOf(s[1..], x)
  }

  /** The draws that make a given selection: the inverse of Pick. */
  function DrawsFor<T(==,!new)>(pool: seq<T>, selection: seq<T>): (draws: seq<nat>)
    requires Distinct(pool) && Distinct(selection) && Elements(selection) <= Elements(pool)
    ensures ValidDraws(draws, |pool|, |selection|)
    decreases |selection|
  {
    if selection == [] then []
    else
      var j := FirstDrawFor(pool, selection);
      [j] + DrawsFor(Remaining(pool, j), selection[1..])
  }

  function FirstDrawFor<T(==,!new)>(pool: seq<T>, selection: seq<T>): (j: nat)
    requires Distinct(pool) && Distinct(selection) && Elements(selection) <= Elements(pool) && selection != []
    ensures j < |pool| && pool[j] == selection[0]
    ensures Distinct(Remaining(pool, j)) && Distinct(selection[1..])
    ensures Elements(selection[1..]) <= Elements(Remaining(pool, j))
  {
    assert selection[0] in Elements(selection);
    var j := IndexOf(pool, selection[0]);
    RemainingDistinct(pool, j);
    assert forall x :: x in selection[1..] ==> x in Elements(selection) && x != selection[0];
    j
  }

  lemma RemainingDistinct<T(!new)>(pool: seq<T>, j: nat)
    requires j < |pool| && Distinct(pool)
    ensures Distinct(Remaining(pool, j))
    ensures Elements(Remaining(pool, j)) == Elements(pool) - {pool[j]}
  {
    var r := Remaining(pool, j);
    forall x | x in pool && x != pool[j]
      ensures x in r
    {
      var i :| 0 <= i < |pool| && pool[i] == x;
      if i == 0 {
        assert r[j - 1] == x;
      } else {
        assert r[i - 1] == x;
      }
    }
  }

  /** A selection is made of distinct pool elements, and what it leaves out stays in the pool. */
  lemma {:induction false} PickIsInjectiveSelection<T(!new)>(pool: seq<T>, draws: seq<nat>)
    requires ValidDraws(draws, |pool|, |draws|) && Distinct(pool)
    ensures Distinct(Pick(pool, draws)) && Elements(Pick(pool, draws)) <= Elements(pool)
    decreases |draws|
  {
    if draws != [] {
      RemainingDistinct(pool, draws[0]);
      PickIsInjectiveSelection(Remaining(pool, draws[0]), draws[1..]);
      ElementsCons(pool[draws[0]], Pick(Remaining(pool, draws[0]), draws[1..]));
    }
  }

  // ---- draws and ordered selections correspond one to one ----

  lemma {:induction false} PickAfterDrawsFor<T(!new)>(pool: seq<T>, selection: seq<T>)
    requires Distinct(pool) && Distinct(selection) && Elements(selection) <= Elements(pool)
    ensures Pick(pool, DrawsFor(pool, selection)) == selection
    decreases |selection|
  {
    if selection != [] {
      var j := FirstDrawFor(pool, selection);
      PickAfterDrawsFor(Remaining(pool, j), selection[1..]);
      assert DrawsFor(pool, selection)[1..] == DrawsFor(Remaining(pool, j), selection[1..]);
    }
  }

  lemma {:induction false} DrawsForAfterPick<T(!new)>(pool: seq<T>, draws: seq<nat>)
    requires Distinct(pool) && ValidDraws(draws, |pool|, |draws|)
    ensures Distinct(Pick(pool, draws)) && Elements(Pick(pool, draws)) <= Elements(pool)
    ensures DrawsFor(pool, Pick(pool, draws)) == draws
    decreases |draws|
  {
    PickIsInjectiveSelection(pool, draws);
    if draws != [] {
      var rest := Remaining(pool, draws[0]);
      RemainingDistinct(pool, draws[0]);
      DrawsForAfterPick(rest, draws[1..]);
      assert Pick(pool, draws)[1..] == Pick(rest, draws[1..]);
      assert FirstDrawFor(pool, Pick(pool, draws)) == draws[0];
    }
  }

  // ---- positions: pools whose elements repeat ----

  function Positions(n: nat): (r: seq<nat>)
    ensures |r| == n && forall i :: 0 <= i < n ==> r[i] == i
  {
    seq(n, i => i)
  }

  /** Drawing looks at positions only: selecting from f's images is selecting, then applying f. */
  lemma {:induction false} PickIsNatural<A, B>(f: A -> B, pool: seq<A>, draws: seq<nat>)
    requires ValidDraws(draws, |pool|, |draws|)
    ensures Pick(Map(f, pool), draws) == Map(f, Pick(pool, draws))
    decreases |draws|
  {
    if draws != [] {
      var rest := Remaining(pool, draws[0]);
      assert Remaining(Map(f, pool), draws[0]) == Map(f, rest);
      PickIsNatural(f, rest, draws[1..]);
      assert Map(f, Pick(pool, draws)) == [f(pool[draws[0]])] + Map(f, Pick(rest, draws[1..]));
    }
  }

  // ---- counting draws ----

  function Factorial(n: nat): nat {
    if n == 0 then 1 else n * Factorial(n - 1)
  }

  function FallingFactorial(size: nat, n: nat): nat
    requires n <= size
  {
    if n == 0 then 1 else size * FallingFactorial(size - 1, n - 1)
  }

  ghost function AllDraws(size: nat, n: nat): (all: set<seq<nat>>)
    requires n <= size
    ensures forall d :: d in all <==> ValidDraws(d, size, n)
    decreases n
  {
    if n == 0 then {[]}
    else
      var all := set first: nat, rest | first < size && rest in AllDraws(size - 1, n - 1) :: [first] + rest;
      assert forall d :: d in all <==> ValidDraws(d, size, n) by {
        forall d
          ensures d in all <==> ValidDraws(d, size, n)
        {
          if ValidDraws(d, size, n) {
            assert d == [d[0]] + d[1..] && d[1..] in AllDraws(size - 1, n - 1);
          }
        }
      }
      all
  }

  /** The draws that start with a given value. */
  ghost function StartingWith(draws: set<seq<nat>>, first: nat): set<seq<nat>> {
    set d | d in draws && d != [] && d[0] == first
  }

  /** If every possible first draw is followed by c continuations, there are |firsts| * c draws. */
  lemma {:induction false} CountByFirst(draws: set<seq<nat>>, firsts: set<nat>, c: nat)
    requires forall d :: d in draws ==> d != [] && d[0] in firsts
    requires forall first :: first in firsts ==> |StartingWith(draws, first)| == c
    ensures |draws| == |firsts| * c
    decreases |firsts|
  {
    if firsts == {} {
      assert draws == {};
    } else {
      var first :| first in firsts;
      var here := StartingWith(draws, first);
      forall other | other in firsts - {first}
        ensures StartingWith(draws - here, other) == StartingWith(draws, other)
      {
      }
      CountByFirst(draws - here, firsts - {first}, c);
      var n := |firsts - {first}|;
      assert |draws| == |draws - here| + |here| && |firsts| == n + 1;
      assert (n + 1) * c == n * c + c;
    }
  }

  /** Putting the same draws in front of every continuation keeps their number. */
  lemma {:induction false} PrefixKeepsCount(prefix: seq<nat>, rests: set<seq<nat>>, all: set<seq<nat>>)
    requires all == set rest | rest in rests :: prefix + rest
    ensures |all| == |rests|
    decreases |rests|
  {
    if rests != {} {
      var rest :| rest in rests;
      var fewer := set r | r in rests - {rest} :: prefix + r;
      PrefixKeepsCount(prefix, rests - {rest}, fewer);
      assert prefix + rest !in fewer by {
        forall r | r in rests - {rest}
          ensures prefix + r != prefix + rest
        {
          assert (prefix + r)[|prefix|..] == r && (prefix + rest)[|prefix|..] == rest;
        }
      }
      assert all == fewer + {prefix + rest};
    } else {
      assert all == {};
    }
  }

  ghost function Below(n: nat): (r: set<nat>)
    ensures |r| == n
    ensures forall i :: i in r <==> 0 <= i < n
  {
    if n == 0 then {} else Below(n - 1) + {n - 1}
  }

  lemma DrawsAfterFirst(size: nat, n: nat, first: nat)
    requires 0 < n <= size && first < size
    ensures |StartingWith(AllDraws(size, n), first)| == |AllDraws(size - 1, n - 1)|
  {
    var here := StartingWith(AllDraws(size, n), first);
    forall d | d in here
      ensures d[1..] in AllDraws(size - 1, n - 1) && d == [first] + d[1..]
    {
    }
    forall rest | rest in AllDraws(size - 1, n - 1)
      ensures [first] + rest in here
    {
      assert ValidDraws([first] + rest, size, n);
    }
    PrefixKeepsCount([first], AllDraws(size - 1, n - 1), here);
  }

  /** There are size * (size - 1) * ... draw sequences of length n. */
  lemma {:induction false} AllDrawsCount(size: nat, n: nat)
    requires n <= size
    ensures |AllDraws(size, n)| == FallingFactorial(size, n)
    decreases n
  {
    if n == 0 {
      assert AllDraws(size, 0) == {[]};
    } else {
      var all := AllDraws(size, n);
      var rests := AllDraws(size - 1, n - 1);
      AllDrawsCount(size - 1, n - 1);
      forall first: nat | first in Below(size)
        ensures |StartingWith(all, first)| == |rests|
      {
        DrawsAfterFirst(size, n, first);
      }
      CountByFirst(all, Below(size), |rests|);
    }
  }

  /** The draw sequences whose selection is, as a set, exactly `chosen`. */
  ghost function DrawsSelecting<T(!new)>(pool: seq<T>, chosen: set<T>): set<seq<nat>>
    requires |chosen| <= |pool|
  {
    set d | d in AllDraws(|pool|, |chosen|) && Elements(Pick(pool, d)) == chosen
  }

  /** Unbiasedness: each subset of the pool is selected by |chosen|! draw sequences, whichever it is. */
  lemma {:induction false} EverySubsetEquallyLikely<T(!new)>(pool: seq<T>, chosen: set<T>)
    requires Distinct(pool) && chosen <= Elements(pool) && |chosen| <= |pool|
    ensures |DrawsSelecting(pool, chosen)| == Factorial(|chosen|)
    decreases |chosen|
  {
    if chosen == {} {
      assert Elements(Pick(pool, [])) == {};
      assert DrawsSelecting(pool, chosen) == {[]};
    } else {
      var firsts := set i: nat | i < |pool| && pool[i] in chosen;
      PositionsOf(pool, chosen, firsts);
      forall first | first in firsts
        ensures |StartingWith(DrawsSelecting(pool, chosen), first)| == Factorial(|chosen| - 1)
      {
        RemainingDistinct(pool, first);
        EverySubsetEquallyLikely(Remaining(pool, first), chosen - {pool[first]});
        DrawsStartingWith(pool, chosen, first);
      }
      forall d | d in DrawsSelecting(pool, chosen)
        ensures d != [] && d[0] in firsts
      {
        assert Pick(pool, d)[0] == pool[d[0]];
        assert pool[d[0]] in Elements(Pick(pool, d));
      }
      CountByFirst(DrawsSelecting(pool, chosen), firsts, Factorial(|chosen| - 1));
    }
  }

  /** The draws that pick `first` first: it, followed by draws for the rest from the remaining pool. */
  lemma DrawsStartingWith<T(!new)>(pool: seq<T>, chosen: set<T>, first: nat)
    requires Distinct(pool) && chosen <= Elements(pool) && |chosen| <= |pool|
    requires first < |pool| && pool[first] in chosen
    ensures |StartingWith(DrawsSelecting(pool, chosen), first)|
         == |DrawsSelecting(Remaining(pool, first), chosen - {pool[first]})|
  {
    var all := StartingWith(DrawsSelecting(pool, chosen), first);
    var rests := DrawsSelecting(Remaining(pool, first), chosen - {pool[first]});
    forall d | d in all
      ensures d == [first] + d[1..] && d[1..] in rests
    {
      SelectingTail(pool, chosen, d);
    }
    forall rest | rest in rests
      ensures [first] + rest in all
    {
      SelectingCons(pool, chosen, first, rest);
    }
    assert all == set rest | rest in rests :: [first] + rest;
    PrefixKeepsCount([first], rests, all);
  }

  lemma SelectingCons<T(!new)>(pool: seq<T>, chosen: set<T>, first: nat, rest: seq<nat>)
    requires Distinct(pool) && chosen <= Elements(pool) && |chosen| <= |pool|
    requires first < |pool| && pool[first] in chosen
    requires rest in DrawsSelecting(Remaining(pool, first), chosen - {pool[first]})
    ensures [first] + rest in DrawsSelecting(pool, chosen)
  {
    var d := [first] + rest;
    assert d[1..] == rest;
    assert ValidDraws(d, |pool|, |chosen|) by {
      assert forall k :: 1 <= k < |d| ==> d[k] == rest[k - 1];
    }
    SelectingTail(pool, chosen, d);
  }

  lemma SelectingTail<T(!new)>(pool: seq<T>, chosen: set<T>, d: seq<nat>)
    requires Distinct(pool) && ValidDraws(d, |pool|, |chosen|) && d != [] && pool[d[0]] in chosen
    ensures ValidDraws(d[1..], |pool| - 1, |chosen| - 1)
    ensures Elements(Pick(pool, d)) == chosen
       <==> Elements(Pick(Remaining(pool, d[0]), d[1..])) == chosen - {pool[d[0]]}
  {
    assert ValidDraws(d[1..], |pool| - 1, |d| - 1);
    FirstNotInTail(pool, d);
    var x, tail := pool[d[0]], Pick(Remaining(pool, d[0]), d[1..]);
    ElementsCons(x, tail);
    WithoutOne(x, Elements(tail), chosen);
  }

  lemma WithoutOne<T>(x: T, rest: set<T>, all: set<T>)
    requires x !in rest && x in all
    ensures {x} + rest == all <==> rest == all - {x}
  {
  }

  lemma FirstNotInTail<T(!new)>(pool: seq<T>, d: seq<nat>)
    requires Distinct(pool) && d != [] && ValidDraws(d, |pool|, |d|)
    ensures ValidDraws(d[1..], |pool| - 1, |d| - 1)
    ensures pool[d[0]] !in Elements(Pick(Remaining(pool, d[0]), d[1..]))
  {
    RemainingDistinct(pool, d[0]);
    PickIsInjectiveSelection(Remaining(pool, d[0]), d[1..]);
  }

  lemma {:induction false} PositionsOf<T(!new)>(pool: seq<T>, chosen: set<T>, positions: set<nat>)
    requires Distinct(pool) && chosen <= Elements(pool)
    requires forall i: nat :: i in positions <==> i < |pool| && pool[i] in chosen
    ensures |positions| == |chosen|
    decreases |chosen|
  {
    if chosen == {} {
      assert positions == {};
    } else {
      var x :| x in chosen;
      assert x in Elements(pool);
      var i := IndexOf(pool, x);
      forall k: nat
        ensures k in positions - {i} <==> k < |pool| && pool[k] in chosen - {x}
      {
      }
      PositionsOf(pool, chosen - {x}, positions - {i});
      assert |positions| == |positions - {i}| + 1;
    }
  }
}
