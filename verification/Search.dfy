/** The search endpoint: filtering a template by words, and cutting one page out of the result. */
module Search {
  import opened Vocabulary
  import opened Scenarios

  /** strings.Contains. */
  predicate Contains(s: string, t: string) {
    t <= s || (s != "" && Contains(s[1..], t))
  }

  lemma {:induction false} ContainsIff(s: string, t: string)
    ensures Contains(s, t) <==> exists i: nat :: OccursAt(s, t, i)
  {
    if t <= s {
      assert OccursAt(s, t, 0);
    } else if s != "" {
      ContainsIff(s[1..], t);
      if i: nat :| OccursAt(s[1..], t, i) {
        assert s[1..][i..i + |t|] == s[i + 1..i + 1 + |t|];
        assert OccursAt(s, t, i + 1);
      }
      if i: nat :| OccursAt(s, t, i) {
        assert i > 0 && s[1..][i - 1..i - 1 + |t|] == s[i..i + |t|];
        assert OccursAt(s[1..], t, i - 1);
      }
    }
  }

  ghost predicate OccursAt(s: string, t: string, i: nat) {
    i + |t| <= |s| && s[i..i + |t|] == t
  }

  /** Every non-empty term occurs in the title. */
  ghost predicate HasAllWords(title: string, terms: seq<string>) {
    forall t :: t in terms && t != "" ==> Contains(title, t)
  }

  method ContainsAllWords(title: string, terms: seq<string>) returns (all: bool)
    ensures all == HasAllWords(title, terms)
  {
    for i := 0 to |terms|
      invariant HasAllWords(title, terms[..i])
    {
      if terms[i] == "" {
        continue;
      }
      if !Contains(title, terms[i]) {
        return false;
      }
    }
    assert terms[..|terms|] == terms;
    return true;
  }

  ghost function HasWords(terms: seq<string>): SearchItem -> bool {
    (it: SearchItem) => HasAllWords(it.titleLowercase, terms)
  }

  ghost function Matching(items: seq<SearchItem>, terms: seq<string>): seq<SearchItem> {
    Filter(HasWords(terms), items)
  }

  /** Panicked stands for the slice expression failing on a negative offset. */
  datatype Reply =
    | EmptyEnvelope
    | Page(total: nat, limit: int, offset: int, items: seq<SearchItem>)
    | Panicked

  function EffectiveLimit(limit: int): int {
    if limit <= 0 || limit > 200 then 50 else limit
  }

  ghost function Answer(template: Option<seq<SearchItem>>, terms: seq<string>, limit: int, offset: int): Reply {
    match template
    case None => EmptyEnvelope
    case Some(items) =>
      if offset < 0 then Panicked
      else
        var found, n := Matching(items, terms), EffectiveLimit(limit);
        var start := Min(offset, |found|);
        Page(|found|, n, offset, found[start..Min(start + n, |found|)])
  }

  method HandleSearch(template: Option<seq<SearchItem>>, terms: seq<string>, limit: int, offset: int)
    returns (reply: Reply)
    ensures reply == Answer(template, terms, limit, offset)
  {
    if template.None? {
      return EmptyEnvelope;
    }
    var items := template.value;
    var limit := if limit <= 0 || limit > 200 then 50 else limit;
    var filtered: seq<SearchItem> := [];
    for i := 0 to |items|
      invariant filtered == Matching(items[..i], terms)
    {
      var it := items[i];
      assert items[..i + 1] == items[..i] + [it];
      FilterConcat(HasWords(terms), items[..i], [it]);
      if |terms| > 0 {
        var all := ContainsAllWords(it.titleLowercase, terms);
        if !all {
          continue;
        }
      }
      filtered := filtered + [it];
    }
    assert items[..|items|] == items;
    var start := offset;
    if start > |filtered| {
      start := |filtered|;
    }
    var end := start + limit;
    if end > |filtered| {
      end := |filtered|;
    }
    if start < 0 {
      return Panicked;
    }
    reply := Page(|filtered|, limit, offset, filtered[start..end]);
  }

  /** A limit that is missing, not positive or above 200 means 50; no page is longer than its limit. */
  lemma OddLimitIsFifty(items: seq<SearchItem>, terms: seq<string>, limit: int, offset: nat)
    ensures var page := Answer(Some(items), terms, limit, offset);
      && page.Page? && |page.items| <= page.limit == (if 1 <= limit <= 200 then limit else 50)
      && (page.limit != limit ==> page == Answer(Some(items), terms, 50, offset))
  {
  }

  // ---- pages tile the result ----

  /** The items a client collects from the first n pages of an unchanged scenario. */
  ghost function Collected(items: seq<SearchItem>, terms: seq<string>, limit: int, n: nat): seq<SearchItem>
    requires 1 <= limit <= 200
  {
    if n == 0 then []
    else
      var offset := (n - 1) * limit;
      assert offset >= 0;
      Collected(items, terms, limit, n - 1) + Answer(Some(items), terms, limit, offset).items
  }

  lemma NextMultiple(n: nat, limit: nat)
    requires n > 0
    ensures n * limit == (n - 1) * limit + limit && (n - 1) * limit >= 0
  {
  }

  lemma PageExtends(items: seq<SearchItem>, terms: seq<string>, limit: int, offset: nat)
    requires 1 <= limit <= 200
    ensures var found := Matching(items, terms);
      found[..Min(offset, |found|)] + Answer(Some(items), terms, limit, offset).items
      == found[..Min(offset + limit, |found|)]
  {
    var found := Matching(items, terms);
    var lo, hi := Min(offset, |found|), Min(offset + limit, |found|);
    assert found[..lo] + found[lo..hi] == found[..hi];
  }

  lemma {:induction false} CollectedIsPrefix(items: seq<SearchItem>, terms: seq<string>, limit: int, n: nat)
    requires 1 <= limit <= 200
    ensures var found := Matching(items, terms);
      Collected(items, terms, limit, n) == found[..Min(n * limit, |found|)]
  {
    if n > 0 {
      CollectedIsPrefix(items, terms, limit, n - 1);
      NextMultiple(n, limit);
      PageExtends(items, terms, limit, (n - 1) * limit);
    }
  }

  /**
   Walking the pages at offsets 0, L, 2L, ... until one is empty takes ceil(total / L) non-empty pages
   and collects every matching item once, in order; the total is the same on every page.
   */
  lemma PagesTile(items: seq<SearchItem>, terms: seq<string>, limit: int, k: nat)
    requires 1 <= limit <= 200
    ensures Collected(items, terms, limit, PageCount(|Matching(items, terms)|, limit)) == Matching(items, terms)
    ensures k * limit >= 0
    ensures var found, page := Matching(items, terms), Answer(Some(items), terms, limit, k * limit);
      page.Page? && page.total == |found| && (page.items == [] <==> k >= PageCount(|found|, limit))
  {
    var found := Matching(items, terms);
    var pages := PageCount(|found|, limit);
    CollectedIsPrefix(items, terms, limit, pages);
    assert found[..|found|] == found;
    Multiples(k, pages, limit);
    PageIsEmptyIff(items, terms, limit, k * limit);
  }

  /** ceil(total / limit). */
  function PageCount(total: nat, limit: int): (pages: nat)
    requires limit > 0
    ensures (pages - 1) * limit < total <= pages * limit
  {
    (total + limit - 1) / limit
  }

  lemma Multiples(k: nat, pages: nat, limit: nat)
    ensures k * limit >= 0
    ensures k >= pages ==> k * limit >= pages * limit
    ensures k < pages ==> k * limit <= (pages - 1) * limit
  {
    if k >= pages {
      assert k * limit - pages * limit == (k - pages) * limit;
    } else {
      assert (pages - 1) * limit - k * limit == (pages - 1 - k) * limit;
    }
  }

  lemma PageIsEmptyIff(items: seq<SearchItem>, terms: seq<string>, limit: int, offset: nat)
    requires 1 <= limit <= 200
    ensures var page := Answer(Some(items), terms, limit, offset);
      page.Page? && page.total == |Matching(items, terms)| && (page.items == [] <==> offset >= |Matching(items, terms)|)
  {
  }

  // ---- terms are a set of independent conditions ----

  /** Searching for two lists of terms is searching for one and then the other within the result. */
  lemma TermsCompose(items: seq<SearchItem>, a: seq<string>, b: seq<string>)
    ensures Matching(items, a + b) == Matching(Matching(items, a), b)
  {
    forall it | it in items
      ensures HasWords(a + b)(it) <==> HasWords(a)(it) && HasWords(b)(it)
    {
      assert forall t :: t in a + b <==> t in a || t in b;
    }
    FilterTwice(HasWords(a), HasWords(b), HasWords(a + b), items);
  }

  /** Order, repetition and empty terms do not matter. */
  lemma TermsAreASet(items: seq<SearchItem>, a: seq<string>, b: seq<string>)
    requires forall t :: t != "" ==> (t in a <==> t in b)
    ensures Matching(items, a) == Matching(items, b)
  {
    FilterSame(HasWords(a), HasWords(b), items);
  }
}
