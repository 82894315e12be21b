/** The --per-confidence-bucket flag: "name:N" pairs separated by commas. */
module BucketSpec {
  import opened Vocabulary
  import opened GoStrings
  import opened Strata
  import DatasetBootstrap

  datatype ParseError =
    | EmptySpec
    | NotNameCount(pair: string)
    | BadCount(text: string)
    | NegativeCount(name: string)

  type Buckets = map<string, int>

  function ParsePair(pair: string): Result<(string, int), ParseError> {
    var idx := LastIndex(pair, ':');
    if idx <= 0 then Failure(NotNameCount(pair))
    else
      var name, text := TrimSpace(pair[..idx]), TrimSpace(pair[idx + 1..]);
      match Atoi(text)
      case None => Failure(BadCount(text))
      case Some(n) => if n < 0 then Failure(NegativeCount(name)) else Success((name, n))
  }

  /** Blank parts are skipped, the first bad part stops the parse, and a repeated name is overwritten. */
  function ParseParts(parts: seq<string>, out: Buckets): Result<Buckets, ParseError> {
    if parts == [] then Success(out)
    else if TrimSpace(parts[0]) == "" then ParseParts(parts[1..], out)
    else
      match ParsePair(TrimSpace(parts[0]))
      case Failure(e) => Failure(e)
      case Success((name, n)) => ParseParts(parts[1..], out[name := n])
  }

  function ParseSpec(spec: string): Result<Buckets, ParseError> {
    if TrimSpace(spec) == "" then Failure(EmptySpec) else ParseParts(Split(spec, ','), map[])
  }

  method ParseBuckets(spec: string) returns (r: Result<Buckets, ParseError>)
    ensures r == ParseSpec(spec)
  {
    if TrimSpace(spec) == "" {
      return Failure(EmptySpec);
    }
    var parts := Split(spec, ',');
    var out: Buckets := map[];
    ghost var goal := ParseParts(parts, out);
    assert parts[0..] == parts;
    for i := 0 to |parts|
      invariant ParseParts(parts[i..], out) == goal
    {
      var pair := TrimSpace(parts[i]);
      PartStep(parts, i, out);
      if pair == "" {
        continue;
      }
      var idx := LastIndex(pair, ':');
      if idx <= 0 {
        return Failure(NotNameCount(pair));
      }
      var name := TrimSpace(pair[..idx]);
      var text := TrimSpace(pair[idx + 1..]);
      var n := Atoi(text);
      if n.None? {
        return Failure(BadCount(text));
      }
      if n.value < 0 {
        return Failure(NegativeCount(name));
      }
      out := out[name := n.value];
    }
    r := Success(out);
  }

  lemma PartStep(parts: seq<string>, i: nat, out: Buckets)
    requires i < |parts|
    ensures var pair := TrimSpace(parts[i]);
      ParseParts(parts[i..], out)
      == if pair == "" then ParseParts(parts[i + 1..], out)
         else match ParsePair(pair)
           case Failure(e) => Failure(e)
           case Success((name, n)) => ParseParts(parts[i + 1..], out[name := n])
  {
    assert parts[i..][1..] == parts[i + 1..];
  }

  // ---- the printer, with any blanks a user may add ----

  datatype Entry = Entry(name: string, n: int)

  datatype Pads = Pads(beforeName: string, afterName: string, beforeCount: string, afterCount: string)

  ghost predicate WellFormed(e: Entry) {
    Trimmed(e.name) && ',' !in e.name && 0 <= e.n <= MAX_INT64
  }

  ghost predicate BlankPads(p: Pads) {
    Blank(p.beforeName) && Blank(p.afterName) && Blank(p.beforeCount) && Blank(p.afterCount)
  }

  function Core(e: Entry, p: Pads): string
    requires e.n >= 0
  {
    (e.name + p.afterName) + [':'] + (p.beforeCount + Itoa(e.n))
  }

  function Print(e: Entry, p: Pads): string
    requires e.n >= 0
  {
    p.beforeName + Core(e, p) + p.afterCount
  }

  ghost predicate Printable(entries: seq<Entry>, pads: seq<Pads>) {
    && |entries| == |pads|
    && (forall i :: 0 <= i < |entries| ==> WellFormed(entries[i]) && BlankPads(pads[i]))
  }

  function PrintAll(entries: seq<Entry>, pads: seq<Pads>): (parts: seq<string>)
    requires |entries| == |pads| && forall i :: 0 <= i < |entries| ==> entries[i].n >= 0
    ensures |parts| == |entries|
    ensures forall i :: 0 <= i < |parts| ==> parts[i] == Print(entries[i], pads[i])
  {
    seq(|entries|, i requires 0 <= i < |entries| => Print(entries[i], pads[i]))
  }

  /** The map in which the last entry of a name decides. */
  function LastWins(entries: seq<Entry>): Buckets {
    if entries == [] then map[]
    else
      var last := entries[|entries| - 1];
      LastWins(entries[..|entries| - 1])[last.name := last.n]
  }

  /** One printed entry reads back as itself, even when its name contains ':'. */
  lemma PairRoundTrip(e: Entry, p: Pads)
    requires WellFormed(e) && BlankPads(p)
    ensures TrimSpace(Print(e, p)) == Core(e, p) != ""
    ensures ParsePair(Core(e, p)) == Success((e.name, e.n))
    ensures ',' !in Print(e, p)
  {
    var digits := Itoa(e.n);
    assert IsDigit(digits[0]) && IsDigit(digits[|digits| - 1]);
    var core := Core(e, p);
    assert core[0] == e.name[0] && core[|core| - 1] == digits[|digits| - 1];
    TrimSpacePads(p.beforeName, core, p.afterCount);
    CoreParses(e, p);
    PrintLacksComma(e, p);
  }

  lemma CoreParses(e: Entry, p: Pads)
    requires WellFormed(e) && BlankPads(p)
    ensures ParsePair(Core(e, p)) == Success((e.name, e.n))
  {
    var digits := Itoa(e.n);
    assert IsDigit(digits[0]) && IsDigit(digits[|digits| - 1]);
    var head, tail := e.name + p.afterName, p.beforeCount + digits;
    assert ':' !in tail by {
      assert forall c :: c in tail ==> c in p.beforeCount || c in digits;
    }
    LastIndexAt(head, ':', tail);
    assert Core(e, p)[..|head|] == head && Core(e, p)[|head| + 1..] == tail;
    assert "" + e.name + p.afterName == head;
    TrimSpacePads("", e.name, p.afterName);
    assert p.beforeCount + digits + "" == tail;
    TrimSpacePads(p.beforeCount, digits, "");
    AtoiOfItoa(e.n);
  }

  lemma PrintLacksComma(e: Entry, p: Pads)
    requires WellFormed(e) && BlankPads(p)
    ensures ',' !in Print(e, p)
  {
    forall c | c in Print(e, p)
      ensures c != ','
    {
      assert c in p.beforeName || c in e.name || c in p.afterName || c == ':' || c in p.beforeCount
             || c in Itoa(e.n) || c in p.afterCount;
    }
  }

  lemma {:induction false} PartsRoundTrip(entries: seq<Entry>, pads: seq<Pads>, done: nat)
    requires Printable(entries, pads) && done <= |entries|
    ensures ParseParts(PrintAll(entries, pads)[done..], LastWins(entries[..done])) == Success(LastWins(entries))
    decreases |entries| - done
  {
    var parts := PrintAll(entries, pads);
    if done == |entries| {
      assert entries[..done] == entries;
    } else {
      PairRoundTrip(entries[done], pads[done]);
      assert entries[..done + 1][..done] == entries[..done];
      assert parts[done..][1..] == parts[done + 1..];
      PartsRoundTrip(entries, pads, done + 1);
    }
  }

  /** Parsing what was printed gives back the entries, whatever blanks surround them. */
  lemma ParseInvertsPrint(entries: seq<Entry>, pads: seq<Pads>)
    requires entries != [] && Printable(entries, pads)
    ensures ParseSpec(Join(PrintAll(entries, pads), ',')) == Success(LastWins(entries))
  {
    var parts := PrintAll(entries, pads);
    var spec := Join(parts, ',');
    forall i | 0 <= i < |parts|
      ensures ',' !in parts[i]
    {
      PairRoundTrip(entries[i], pads[i]);
    }
    SplitJoin(parts, ',');
    assert parts[0..] == parts && entries[..0] == [];
    PartsRoundTrip(entries, pads, 0);
    // The first name shows that the spec is not blank.
    var first := Print(entries[0], pads[0]);
    assert spec[..|first|] == first;
    assert first[|pads[0].beforeName|] == entries[0].name[0];
    TrimSpaceKeeps(spec, |pads[0].beforeName|);
  }

  // ---- what a successful parse guarantees ----

  ghost predicate GoodBuckets(m: Buckets) {
    forall name :: name in m ==> WellFormed(Entry(name, m[name]))
  }

  lemma ParsedPairIsGood(part: string)
    requires ',' !in part && TrimSpace(part) != ""
    ensures ParsePair(TrimSpace(part)).Success? ==>
      var (name, n) := ParsePair(TrimSpace(part)).value; WellFormed(Entry(name, n))
  {
    var pair := TrimSpace(part);
    var left, right := TrimSpaceSplits(part);
    assert forall c :: c in pair ==> c in left + pair + right;
    var idx := LastIndex(pair, ':');
    if idx > 0 {
      var l, r := TrimSpaceSplits(pair[..idx]);
      var name := TrimSpace(pair[..idx]);
      assert forall c :: c in name ==> c in l + name + r;
      assert forall c :: c in pair[..idx] ==> c in pair;
      TrimSpaceKeeps(pair[..idx], 0);
    }
  }

  lemma {:induction false} ParsedPartsAreGood(parts: seq<string>, out: Buckets)
    requires GoodBuckets(out) && forall p :: p in parts ==> ',' !in p
    ensures ParseParts(parts, out).Success? ==> GoodBuckets(ParseParts(parts, out).value)
  {
    if parts != [] {
      if TrimSpace(parts[0]) == "" {
        ParsedPartsAreGood(parts[1..], out);
      } else {
        ParsedPairIsGood(parts[0]);
        match ParsePair(TrimSpace(parts[0]))
        case Failure(_) =>
        case Success((name, n)) => ParsedPartsAreGood(parts[1..], out[name := n]);
      }
    }
  }

  /** Every accepted spec has trimmed, non-empty, comma-free names and counts of at least 0. */
  lemma ParsedSpecIsGood(spec: string)
    ensures ParseSpec(spec).Success? ==> GoodBuckets(ParseSpec(spec).value)
  {
    SplitPartsLackSep(spec, ',');
    ParsedPartsAreGood(Split(spec, ','), map[]);
  }

  /** name:N with a non-empty part before the last colon and an integer of at least 0 after it. */
  ghost predicate GoodPair(pair: string) {
    exists i: nat :: LastColonAt(pair, i) && IsCount(pair[i + 1..])
  }

  ghost predicate LastColonAt(pair: string, i: nat) {
    0 < i < |pair| && pair[i] == ':' && ':' !in pair[i + 1..]
  }

  ghost predicate IsCount(text: string) {
    exists n: nat :: Atoi(TrimSpace(text)) == Some(n)
  }

  lemma PairAcceptedIff(pair: string)
    ensures ParsePair(pair).Success? <==> GoodPair(pair)
  {
    var idx := LastIndex(pair, ':');
    LastIndexIsLast(pair, ':');
    if i: nat :| LastColonAt(pair, i) && IsCount(pair[i + 1..]) {
      OneLastColon(pair, i);
      CountIsParsed(pair, i);
    }
    if ParsePair(pair).Success? {
      assert LastColonAt(pair, idx) && IsCount(pair[idx + 1..]) by {
        assert Atoi(TrimSpace(pair[idx + 1..])) == Some(ParsePair(pair).value.1);
      }
    }
  }

  lemma OneLastColon(pair: string, i: nat)
    requires LastColonAt(pair, i)
    ensures LastIndex(pair, ':') == i
  {
    LastIndexAt(pair[..i], ':', pair[i + 1..]);
    assert pair == pair[..i] + [':'] + pair[i + 1..];
  }

  lemma CountIsParsed(pair: string, i: nat)
    requires 0 < i < |pair| && LastIndex(pair, ':') == i && IsCount(pair[i + 1..])
    ensures ParsePair(pair).Success?
  {
  }

  /** A spec is accepted exactly if it is not blank and each part is blank or a good pair. */
  lemma AcceptedIff(spec: string)
    ensures ParseSpec(spec).Success?
       <==> TrimSpace(spec) != "" && forall p :: p in Split(spec, ',') ==> TrimSpace(p) == "" || GoodPair(TrimSpace(p))
  {
    PartsAcceptedIff(Split(spec, ','), map[]);
  }

  lemma {:induction false} PartsAcceptedIff(parts: seq<string>, out: Buckets)
    ensures ParseParts(parts, out).Success?
       <==> forall p :: p in parts ==> TrimSpace(p) == "" || GoodPair(TrimSpace(p))
  {
    if parts != [] {
      assert forall p :: p in parts <==> p == parts[0] || p in parts[1..];
      PairAcceptedIff(TrimSpace(parts[0]));
      if TrimSpace(parts[0]) == "" {
        PartsAcceptedIff(parts[1..], out);
      } else {
        match ParsePair(TrimSpace(parts[0]))
        case Failure(_) => assert parts[0] in parts;
        case Success((name, n)) => PartsAcceptedIff(parts[1..], out[name := n]);
      }
    }
  }

  // ---- specs without entries ----

  /**
   An empty spec is refused, but one whose parts are all blank is not: the result is the empty map exactly
   for a spec that is not blank itself and has nothing but blanks between its commas.
   */
  lemma EmptyMapIff(spec: string)
    ensures ParseSpec(spec) == Success(map[])
       <==> TrimSpace(spec) != "" && forall part :: part in Split(spec, ',') ==> TrimSpace(part) == ""
  {
    EmptyPartsIff(Split(spec, ','), map[]);
  }

  lemma {:induction false} EmptyPartsIff(parts: seq<string>, out: Buckets)
    ensures (ParseParts(parts, out).Success? && ParseParts(parts, out).value == map[])
       <==> out == map[] && forall part :: part in parts ==> TrimSpace(part) == ""
  {
    if parts != [] {
      if TrimSpace(parts[0]) == "" {
        EmptyPartsIff(parts[1..], out);
        assert forall part :: part in parts <==> part == parts[0] || part in parts[1..];
      } else {
        assert parts[0] in parts;
        match ParsePair(TrimSpace(parts[0]))
        case Failure(_) =>
        case Success((name, n)) =>
          EmptyPartsIff(parts[1..], out[name := n]);
          assert name in out[name := n];
      }
    }
  }

  /** A comma alone is such a spec. */
  lemma CommaIsEmpty()
    ensures ParseSpec(",") == Success(map[]) && ParseSpec("") == Failure(EmptySpec)
  {
    assert Split(",", ',') == ["", ""] by {
      assert ","[1..] == "";
    }
    EmptyMapIff(",");
    assert TrimLeft(",") == "," && TrimRight(",") == ",";
  }

  function EntriesOf(m: Buckets, names: seq<string>): (entries: seq<Entry>)
    requires forall name :: name in names ==> name in m
    ensures |entries| == |names|
    ensures forall i :: 0 <= i < |names| ==> entries[i] == Entry(names[i], m[names[i]])
  {
    seq(|names|, i requires 0 <= i < |names| => Entry(names[i], m[names[i]]))
  }

  /** Printing a parsed map's entries, in any order, and parsing again gives the same map. */
  lemma ReprintIsStable(spec: string, m: Buckets, names: seq<string>, pads: seq<Pads>)
    requires ParseSpec(spec) == Success(m) && names != [] && Enumerates(names, m.Keys)
    requires |pads| == |names| && forall i :: 0 <= i < |pads| ==> BlankPads(pads[i])
    ensures (forall name :: name in names ==> name in m) && Printable(EntriesOf(m, names), pads)
    ensures ParseSpec(Join(PrintAll(EntriesOf(m, names), pads), ',')) == Success(m)
  {
    ParsedSpecIsGood(spec);
    assert forall name :: name in names <==> name in Elements(names);
    ParseInvertsPrint(EntriesOf(m, names), pads);
    LastWinsOfAll(names, m);
  }

  lemma LastWinsOfAll(names: seq<string>, m: Buckets)
    requires forall name :: name in names <==> name in m
    ensures LastWins(EntriesOf(m, names)) == m
  {
    LastWinsOfDistinct(names, m, EntriesOf(m, names));
    assert m == map name | name in names :: m[name];
  }

  lemma {:induction false} LastWinsOfDistinct(names: seq<string>, m: Buckets, entries: seq<Entry>)
    requires |entries| == |names|
    requires forall i :: 0 <= i < |names| ==> names[i] in m && entries[i] == Entry(names[i], m[names[i]])
    ensures LastWins(entries) == map name | name in names :: m[name]
    decreases |names|
  {
    if names != [] {
      var n := |names| - 1;
      LastWinsOfDistinct(names[..n], m, entries[..n]);
      assert names == names[..n] + [names[n]];
    }
  }

  /** No spec can give component-less listings, whose bucket is "", a target other than the per-kind one. */
  lemma NoKindAlwaysGetsPerKind(spec: string, cfg: DatasetBootstrap.StratificationConfig)
    requires ParseSpec(spec) == Success(cfg.perConfidenceBucket)
    ensures DatasetBootstrap.Want(cfg, StratumKey("<no-kind>", "", "")) == cfg.perKind
  {
    ParsedSpecIsGood(spec);
  }
}
