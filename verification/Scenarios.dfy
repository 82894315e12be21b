/** Scenario fixtures: loading the registry, and resolving items, search templates and quota overrides. */
module Scenarios {
  import opened Vocabulary
  import opened Quota

  datatype SearchItem = SearchItem(raw: string, titleLowercase: string)

  /** search is the parsed search.json, if the scenario ships a readable one. */
  datatype Scenario = Scenario(items: map<string, string>, search: Option<seq<SearchItem>>, quota: Option<Snapshot>)

  datatype Registry = Registry(
    scenarios: map<string, Scenario>,
    defaultScenario: Scenario,
    searchByScenario: map<string, seq<SearchItem>>)

  const DEFAULT := "default"

  /** One entry of the fixtures root; loaded is what reading it as a scenario gives. */
  datatype DirEntry = DirEntry(name: string, isDir: bool, loaded: Result<Scenario, string>)

  datatype LoadError = RootUnreadable(cause: string) | Unreadable(cause: string) | FixturesNotFound

  /** What every loaded registry satisfies. */
  ghost predicate Consistent(reg: Registry) {
    && DEFAULT in reg.scenarios && reg.defaultScenario == reg.scenarios[DEFAULT]
    && Searches(reg.searchByScenario, reg.scenarios)
  }

  /** search holds the search items of exactly the scenarios that have some. */
  ghost predicate Searches(search: map<string, seq<SearchItem>>, scenarios: map<string, Scenario>) {
    && (forall name :: name in search <==> name in scenarios && scenarios[name].search.Some?)
    && (forall name :: name in search ==> search[name] == scenarios[name].search.value)
  }

  /** File names in one directory differ. */
  ghost predicate NamesDiffer(entries: seq<DirEntry>) {
    forall i, j :: 0 <= i < j < |entries| ==> entries[i].name != entries[j].name
  }

  ghost predicate AllLoad(entries: seq<DirEntry>) {
    forall e :: e in entries && e.isDir ==> e.loaded.Success?
  }

  ghost predicate HasDir(entries: seq<DirEntry>, name: string) {
    exists e :: e in entries && e.isDir && e.name == name
  }

  /** scenarios holds exactly the directories among some entries, all of them loaded. */
  ghost predicate Holds(scenarios: map<string, Scenario>, entries: seq<DirEntry>) {
    && AllLoad(entries)
    && (forall name :: name in scenarios ==> HasDir(entries, name))
    && (forall e :: e in entries && e.isDir ==> e.name in scenarios && scenarios[e.name] == e.loaded.value)
  }

  ghost predicate FirstUnreadable(entries: seq<DirEntry>, i: nat, cause: string) {
    i < |entries| && entries[i].isDir && entries[i].loaded == Failure(cause) && AllLoad(entries[..i])
  }

  /**
   root is the listing of the fixtures root, which may fail. Then the first directory that cannot be loaded
   decides, and then the default scenario must be there.
   */
  method LoadScenarios(root: Result<seq<DirEntry>, string>) returns (r: Result<Registry, LoadError>)
    requires root.Success? ==> NamesDiffer(root.value)
    ensures r.Success? ==> root.Success? && Consistent(r.value) && Holds(r.value.scenarios, root.value)
    ensures r.Success? <==> root.Success? && AllLoad(root.value) && HasDir(root.value, DEFAULT)
    ensures r.Failure? ==>
      match r.error
      case RootUnreadable(cause) => root == Failure(cause)
      case Unreadable(cause) => root.Success? && exists i :: FirstUnreadable(root.value, i, cause)
      case FixturesNotFound => root.Success? && AllLoad(root.value) && !HasDir(root.value, DEFAULT)
  {
    if root.Failure? {
      return Failure(RootUnreadable(root.error));
    }
    var entries := root.value;
    var scenarios: map<string, Scenario> := map[];
    var searchByScenario: map<string, seq<SearchItem>> := map[];
    var defaultScenario: Option<Scenario> := None;
    for i := 0 to |entries|
      invariant Holds(scenarios, entries[..i])
      invariant defaultScenario == if DEFAULT in scenarios then Some(scenarios[DEFAULT]) else None
      invariant Searches(searchByScenario, scenarios)
    {
      var entry := entries[i];
      HoldsNext(scenarios, entries, i);
      if !entry.isDir {
        continue;
      }
      if entry.loaded.Failure? {
        assert entry in entries && FirstUnreadable(entries, i, entry.loaded.error);
        return Failure(Unreadable(entry.loaded.error));
      }
      var s := entry.loaded.value;
      scenarios := scenarios[entry.name := s];
      if entry.name == DEFAULT {
        defaultScenario := Some(s);
      }
      if s.search.Some? {
        searchByScenario := searchByScenario[entry.name := s.search.value];
      }
    }
    assert entries[..|entries|] == entries;
    assert HasDir(entries, DEFAULT) <==> DEFAULT in scenarios;
    if defaultScenario.None? {
      return Failure(FixturesNotFound);
    }
    r := Success(Registry(scenarios, defaultScenario.value, searchByScenario));
  }

  lemma HoldsNext(scenarios: map<string, Scenario>, entries: seq<DirEntry>, i: nat)
    requires NamesDiffer(entries) && i < |entries| && Holds(scenarios, entries[..i])
    ensures !entries[i].isDir ==> Holds(scenarios, entries[..i + 1])
    ensures entries[i].name !in scenarios
    ensures entries[i].isDir && entries[i].loaded.Success? ==>
      Holds(scenarios[entries[i].name := entries[i].loaded.value], entries[..i + 1])
  {
    var entry := entries[i];
    assert entries[..i + 1] == entries[..i] + [entry];
    forall name | name in scenarios
      ensures HasDir(entries[..i + 1], name) && name != entry.name
    {
      var e :| e in entries[..i] && e.isDir && e.name == name;
      assert e in entries[..i + 1];
    }
    assert entry in entries[..i + 1];
  }

  function Resolve(reg: Registry, active: string, itemId: string): Option<string> {
    if active in reg.scenarios && itemId in reg.scenarios[active].items then
      Some(reg.scenarios[active].items[itemId])
    else if itemId in reg.defaultScenario.items then
      Some(reg.defaultScenario.items[itemId])
    else
      None
  }

  function QuotaForScenario(reg: Registry, name: string): Option<Snapshot> {
    if name in reg.scenarios then reg.scenarios[name].quota else None
  }

  function SearchTemplate(reg: Registry, active: string): Option<seq<SearchItem>> {
    if active in reg.searchByScenario then Some(reg.searchByScenario[active])
    else if DEFAULT in reg.searchByScenario then Some(reg.searchByScenario[DEFAULT])
    else None
  }

  /** A search uses the template of the active scenario if that ships one, else the default scenario's if any. */
  lemma TemplateIsOwnOrDefault(reg: Registry, active: string)
    requires Consistent(reg)
    ensures var own := if active in reg.scenarios then reg.scenarios[active].search else None;
      SearchTemplate(reg, active) == if own.Some? then own else reg.scenarios[DEFAULT].search
  {
  }

  /** The active scenario or the default one ships a search template. */
  ghost predicate HasTemplate(reg: Registry, active: string) {
    || (active in reg.scenarios && reg.scenarios[active].search.Some?)
    || (DEFAULT in reg.scenarios && reg.scenarios[DEFAULT].search.Some?)
  }

  function LookupItem(items: map<string, string>, itemId: string): Option<string> {
    if itemId in items then Some(items[itemId]) else None
  }

  /** Resolving an item is looking it up in the default items overlaid by the active scenario's. */
  lemma ResolveIsOverlay(reg: Registry, active: string, itemId: string)
    requires Consistent(reg)
    ensures var own := if active in reg.scenarios then reg.scenarios[active].items else map[];
      Resolve(reg, active, itemId) == LookupItem(reg.scenarios[DEFAULT].items + own, itemId)
  {
  }
}
