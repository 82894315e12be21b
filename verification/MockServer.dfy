/**
 The mock server under concurrent requests and admin calls, step by step at the granularity of its
 locks, and the classes whose methods are those steps.
 */
module MockServer {
  import opened Vocabulary
  import opened Http
  import opened Quota
  import opened Scenarios

  // ---- fault rules ----

  /** pattern is None for a rule without a compiled expression, which matches nothing. */
  datatype FaultRule = FaultRule(pattern: Option<string -> bool>, latencyMs: int, failRate: real)

  predicate Matches(rule: FaultRule, path: string) {
    rule.pattern.Some? && rule.pattern.value(path)
  }

  /** The first matching rule wins. */
  function FirstMatch(rules: seq<FaultRule>, path: string): Option<FaultRule> {
    if rules == [] then None
    else if Matches(rules[0], path) then Some(rules[0])
    else FirstMatch(rules[1..], path)
  }

  lemma {:induction false} FirstMatchIsFirst(rules: seq<FaultRule>, path: string, i: nat)
    requires i < |rules| && Matches(rules[i], path) && forall j :: 0 <= j < i ==> !Matches(rules[j], path)
    ensures FirstMatch(rules, path) == Some(rules[i])
  {
    if i > 0 {
      assert !Matches(rules[0], path);
      FirstMatchIsFirst(rules[1..], path, i - 1);
    }
  }

  class FaultInjector {
    var rules: seq<FaultRule>

    constructor ()
      ensures rules == []
    {
      rules := [];
    }

    method SetRules(rules: seq<FaultRule>)
      modifies this
      ensures this.rules == rules
    {
      this.rules := rules;
    }

    method Rules() returns (out: seq<FaultRule>)
      ensures out == rules
    {
      out := rules;
    }

    method Match(path: string) returns (rule: Option<FaultRule>)
      ensures rule == FirstMatch(rules, path)
    {
      assert rules[0..] == rules;
      for i := 0 to |rules|
        invariant FirstMatch(rules[i..], path) == FirstMatch(rules, path)
      {
        assert rules[i..][1..] == rules[i + 1..];
        var r := rules[i];
        if r.pattern.Some? && r.pattern.value(path) {
          return Some(r);
        }
      }
      return None;
    }
  }

  // ---- the server ----

  /** A decoded request for a fault rule; compiled is its endpoint pattern, if that compiles. */
  datatype FaultBody = FaultBody(
    endpoint: string, compiled: Option<string -> bool>, latencyMs: int, failRate: real, clear: bool)

  datatype FaultReply = BadRequest | Count(rules: nat)

  datatype ServerError = LoggerRequired | Fixtures(cause: LoadError) | UnknownScenario

  const INITIAL_QUOTA := QuotaView(0, 5000, "DAY", true)

  class Server {
    const scenarios: Registry
    const quota: QuotaState
    const fault: FaultInjector
    var activeScenario: string

    ghost predicate Valid()
      reads this
    {
      Consistent(scenarios) && activeScenario in scenarios.scenarios
    }

    constructor (reg: Registry, active: string)
      requires Consistent(reg) && active in reg.scenarios
      ensures Valid() && scenarios == reg && activeScenario == active
      ensures fresh(quota) && fresh(fault) && fault.rules == []
      ensures quota.View() == Activated(reg, active, INITIAL_QUOTA)
    {
      scenarios, activeScenario := reg, active;
      quota := new QuotaState(5000);
      fault := new FaultInjector();
      new;
      var q := QuotaForScenario(reg, active);
      if q.Some? {
        quota.Apply(q.value);
      }
    }

    /** The name is known exactly if the call succeeds; a rejected flip changes nothing. */
    method SetActiveScenario(name: string) returns (ok: bool)
      requires Valid()
      modifies this`activeScenario, quota
      ensures Valid() && ok == (name in scenarios.scenarios)
      ensures activeScenario == if ok then name else old(activeScenario)
      ensures quota.View() == if ok then Activated(scenarios, name, old(quota.View())) else old(quota.View())
    {
      if name !in scenarios.scenarios {
        return false;
      }
      activeScenario := name;
      var q := QuotaForScenario(scenarios, name);
      if q.Some? {
        quota.Apply(q.value);
      }
      return true;
    }

    /**
     Rejects a body that is not JSON, has no endpoint, or whose endpoint does not compile; otherwise, without
     interference between its two lock acquisitions, appends one rule, or clears all.
     */
    method HandleSetFault(body: Option<FaultBody>) returns (reply: FaultReply)
      modifies fault
      ensures reply == BadRequest
         <==> body.None? || (!body.value.clear && (body.value.endpoint == "" || body.value.compiled.None?))
      ensures reply == BadRequest ==> fault.rules == old(fault.rules)
      ensures reply != BadRequest && body.value.clear ==> fault.rules == [] && reply == Count(0)
      ensures reply != BadRequest && !body.value.clear ==>
        var rule := FaultRule(body.value.compiled, body.value.latencyMs, body.value.failRate);
        fault.rules == old(fault.rules) + [rule] && reply == Count(|fault.rules|)
    {
      if body.None? {
        return BadRequest;
      }
      var b := body.value;
      if b.clear {
        fault.SetRules([]);
        return Count(0);
      }
      if b.endpoint == "" {
        return BadRequest;
      }
      if b.compiled.None? {
        return BadRequest;
      }
      var rules := fault.Rules();
      rules := rules + [FaultRule(b.compiled, b.latencyMs, b.failRate)];
      fault.SetRules(rules);
      return Count(|rules|);
    }

    /** Applies a snapshot and answers with the counter as it then is. */
    method HandleSetQuota(snap: Snapshot) returns (reply: Snapshot)
      modifies quota
      ensures quota.View() == Overlay(old(quota.View()), snap)
      ensures reply.count == snap.count && Overlay(quota.View(), reply) == quota.View()
    {
      quota.Apply(snap);
      reply := quota.TakeSnapshot();
    }
  }

  function Activated(reg: Registry, name: string, q: QuotaView): QuotaView {
    match QuotaForScenario(reg, name)
    case Some(snap) => Overlay(q, snap)
    case None => q
  }

  /** The fixtures load, and hold the default scenario. */
  ghost predicate FixturesLoad(root: Result<seq<DirEntry>, string>) {
    root.Success? && AllLoad(root.value) && HasDir(root.value, DEFAULT)
  }

  /** An empty name means the default scenario, and an unknown one is refused. */
  method NewServer(hasLogger: bool, root: Result<seq<DirEntry>, string>, scenario: string)
    returns (r: Result<Server, ServerError>)
    requires root.Success? ==> NamesDiffer(root.value)
    ensures r.Success? <==> hasLogger && FixturesLoad(root) && (scenario == "" || HasDir(root.value, scenario))
    ensures r.Success? ==> fresh(r.value) && r.value.Valid() && Holds(r.value.scenarios.scenarios, root.value)
    ensures r.Success? ==> r.value.activeScenario == if scenario == "" then DEFAULT else scenario
    ensures r.Success? ==> fresh(r.value.quota) && fresh(r.value.fault) && r.value.fault.rules == []
    ensures r.Success? ==>
      r.value.quota.View() == Activated(r.value.scenarios, r.value.activeScenario, INITIAL_QUOTA)
    ensures r.Failure? ==>
      match r.error
      case LoggerRequired => !hasLogger
      case Fixtures(RootUnreadable(cause)) => hasLogger && root == Failure(cause)
      case Fixtures(Unreadable(cause)) =>
        hasLogger && root.Success? && exists i :: FirstUnreadable(root.value, i, cause)
      case Fixtures(FixturesNotFound) =>
        hasLogger && root.Success? && AllLoad(root.value) && !HasDir(root.value, DEFAULT)
      case UnknownScenario => hasLogger && FixturesLoad(root) && scenario != "" && !HasDir(root.value, scenario)
  {
    if !hasLogger {
      return Failure(LoggerRequired);
    }
    var loaded := LoadScenarios(root);
    if loaded.Failure? {
      return Failure(Fixtures(loaded.error));
    }
    var reg := loaded.value;
    var active := if scenario == "" then DEFAULT else scenario;
    if active !in reg.scenarios && active != DEFAULT {
      return Failure(UnknownScenario);
    }
    var server := new Server(reg, active);
    r := Success(server);
  }

  // ---- interleaved steps ----

  datatype Route = Search(offset: int) | Item(id: string) | Unmetered

  predicate IsMetered(route: Route) {
    !route.Unmetered?
  }

  /**
   A request between its lock acquisitions: matched against the fault rules, or answered by its handler
   from the scenario it found active (unmetered handlers do not look, which is recorded as "").
   */
  datatype Request =
    | Matched(route: Route, rule: Option<FaultRule>)
    | Answered(route: Route, active: string, status: int)

  /** What happened at the quota counter, in the order its lock was taken, and which responses ended. */
  datatype Entry =
    | Applied(snap: Snapshot)
    | Stamped(id: nat, route: Route, active: string, status: int, stamp: Stamp)
    | Unstamped(id: nat, route: Route, active: string, status: int)
    | Faulted(id: nat, route: Route)
    | Panicked(id: nat, route: Route, active: string)

  datatype System = System(
    active: string,
    quota: QuotaView,
    rules: seq<FaultRule>,
    requests: map<nat, Request>,
    flipping: Option<Snapshot>,                        // a flip that holds the server's lock, its quota still to apply
    appending: map<nat, (seq<FaultRule>, FaultRule)>,  // fault calls between reading and replacing the rules
    log: seq<Entry>)

  datatype Event =
    | Arrive(id: nat, route: Route, path: string)
    | Inject(id: nat)
    | Handle(id: nat)
    | Complete(id: nat)
    | SetQuota(snap: Snapshot)
    | BeginFlip(name: string)
    | EndFlip
    | ClearRules
    | ReadRules(id: nat, rule: FaultRule)
    | ReplaceRules(id: nat)

  function HandlerStatus(reg: Registry, active: string, route: Route): int {
    if route.Item? && Resolve(reg, active, route.id).None? then 404 else 200
  }

  /** Slicing at a negative offset panics, and net/http then drops the connection. */
  predicate HandlerPanics(reg: Registry, active: string, route: Route) {
    route.Search? && route.offset < 0 && SearchTemplate(reg, active).Some?
  }

  /** The state after an event, or None where the event cannot happen. */
  function Step(reg: Registry, s: System, e: Event): Option<System> {
    match e
    case Arrive(id, route, path) =>
      if id in s.requests then None
      else Some(s.(requests := s.requests[id := Matched(route, FirstMatch(s.rules, path))]))
    case Inject(id) =>
      if id !in s.requests || !s.requests[id].Matched? then None
      else (
        match s.requests[id].rule
        case None => None
        case Some(rule) =>
          if rule.failRate <= 0.0 then None
          else Some(s.(requests := s.requests - {id}, log := s.log + [Faulted(id, s.requests[id].route)])))
    case Handle(id) =>
      if id !in s.requests || !s.requests[id].Matched? then None
      else (
        var Matched(route, rule) := s.requests[id];
        // The random roll is below 1, so a rate of 1 or more always faults; metered handlers need the read lock.
        if (rule.Some? && rule.value.failRate >= 1.0) || (IsMetered(route) && s.flipping.Some?) then None
        else
          var active := if IsMetered(route) then s.active else "";
          if HandlerPanics(reg, active, route) then
            Some(s.(requests := s.requests - {id}, log := s.log + [Panicked(id, route, active)]))
          else
            Some(s.(requests := s.requests[id := Answered(route, active, HandlerStatus(reg, active, route))])))
    case Complete(id) =>
      if id !in s.requests || !s.requests[id].Answered? then None
      else (
        var Answered(route, active, status) := s.requests[id];
        var rest := s.(requests := s.requests - {id});
        if IsMetered(route) && Success2xx(status) then
          var q := Incremented(s.quota);
          Some(rest.(quota := q, log := s.log + [Stamped(id, route, active, status, StampOf(q))]))
        else
          Some(rest.(log := s.log + [Unstamped(id, route, active, status)])))
    case SetQuota(snap) =>
      Some(s.(quota := Overlay(s.quota, snap), log := s.log + [Applied(snap)]))
    case BeginFlip(name) =>
      if s.flipping.Some? then None
      else if name !in reg.scenarios then Some(s)
      else Some(s.(active := name, flipping := QuotaForScenario(reg, name)))
    case EndFlip =>
      (match s.flipping
       case None => None
       case Some(snap) =>
         Some(s.(quota := Overlay(s.quota, snap), flipping := None, log := s.log + [Applied(snap)])))
    case ClearRules => Some(s.(rules := []))
    case ReadRules(id, rule) =>
      if id in s.appending then None else Some(s.(appending := s.appending[id := (s.rules, rule)]))
    case ReplaceRules(id) =>
      if id !in s.appending then None
      else
        var (read, rule) := s.appending[id];
        Some(s.(rules := read + [rule], appending := s.appending - {id}))
  }

  function Run(reg: Registry, s: System, events: seq<Event>): Option<System> {
    if events == [] then Some(s)
    else
      match Run(reg, s, events[..|events| - 1])
      case None => None
      case Some(t) => Step(reg, t, events[|events| - 1])
  }

  /** The state NewServer leaves: nothing in flight, and the active scenario's quota applied. */
  function Initial(reg: Registry, active: string): System {
    System(active, Activated(reg, active, INITIAL_QUOTA), [], map[], None, map[],
           if QuotaForScenario(reg, active).Some? then [Applied(QuotaForScenario(reg, active).value)] else [])
  }

  // ---- the counter, read off the log ----

  /** The position after the last Applied entry. */
  function SinceApplied(log: seq<Entry>): (i: nat)
    ensures i <= |log| && (i == 0 || log[i - 1].Applied?)
    ensures forall j :: i <= j < |log| ==> !log[j].Applied?
  {
    if log == [] then 0
    else if log[|log| - 1].Applied? then |log|
    else SinceApplied(log[..|log| - 1])
  }

  /** How many responses were stamped after position `from`. */
  function StampsSince(log: seq<Entry>, from: nat): nat
    requires from <= |log|
    decreases |log|
  {
    if from == |log| then 0
    else StampsSince(log[..|log| - 1], from) + (if log[|log| - 1].Stamped? then 1 else 0)
  }

  /** The last applied snapshot that sets a limit, a window, or auto-increment decides it. */
  function LimitOf(log: seq<Entry>): int64 {
    if log == [] then INITIAL_QUOTA.limit
    else
      var e := log[|log| - 1];
      if e.Applied? && e.snap.limit > 0 then e.snap.limit else LimitOf(log[..|log| - 1])
  }

  function WindowOf(log: seq<Entry>): string {
    if log == [] then INITIAL_QUOTA.timeWindow
    else
      var e := log[|log| - 1];
      if e.Applied? && e.snap.timeWindow != "" then e.snap.timeWindow else WindowOf(log[..|log| - 1])
  }

  function AutoIncrOf(log: seq<Entry>): bool {
    if log == [] then INITIAL_QUOTA.autoIncr
    else
      var e := log[|log| - 1];
      if e.Applied? && e.snap.autoIncr.Some? then e.snap.autoIncr.value else AutoIncrOf(log[..|log| - 1])
  }

  /** The last applied count plus the responses stamped since, if they count. */
  function CountOf(log: seq<Entry>): int {
    var i := SinceApplied(log);
    (if i == 0 then 0 else log[i - 1].snap.count) + (if AutoIncrOf(log) then StampsSince(log, i) else 0)
  }

  function QuotaOf(log: seq<Entry>): QuotaView {
    QuotaView(Wrap64(CountOf(log)), LimitOf(log), WindowOf(log), AutoIncrOf(log))
  }

  lemma QuotaAfterApplied(log: seq<Entry>, snap: Snapshot)
    ensures QuotaOf(log + [Applied(snap)]) == Overlay(QuotaOf(log), snap)
  {
    var more := log + [Applied(snap)];
    assert more[..|log|] == log && SinceApplied(more) == |more|;
    Wrap64InRange(snap.count);
  }

  lemma QuotaAfterResponse(log: seq<Entry>, e: Entry)
    requires !e.Applied?
    ensures QuotaOf(log + [e]) == if e.Stamped? then Incremented(QuotaOf(log)) else QuotaOf(log)
  {
    var more := log + [e];
    assert more[..|log|] == log && SinceApplied(more) == SinceApplied(log);
    Wrap64Successor(CountOf(log));
  }

  // ---- what every run keeps ----

  ghost predicate EntryOk(reg: Registry, log: seq<Entry>, i: nat)
    requires i < |log|
  {
    match log[i]
    case Applied(_) => true
    case Faulted(_, _) => true
    case Panicked(_, route, active) => active in reg.scenarios && HandlerPanics(reg, active, route)
    case Stamped(_, route, active, status, stamp) =>
      && active in reg.scenarios && IsMetered(route) && !HandlerPanics(reg, active, route)
      && status == 200 == HandlerStatus(reg, active, route)
      && stamp == StampOf(QuotaOf(log[..i + 1]))
    case Unstamped(_, route, active, status) =>
      && status == HandlerStatus(reg, active, route) && !HandlerPanics(reg, active, route)
      && (IsMetered(route) ==> active in reg.scenarios && status == 404)
  }

  ghost predicate RequestOk(reg: Registry, r: Request) {
    r.Answered? ==>
      (IsMetered(r.route) ==> r.active in reg.scenarios)
      && !HandlerPanics(reg, r.active, r.route) && r.status == HandlerStatus(reg, r.active, r.route)
  }

  ghost predicate Inv(reg: Registry, s: System) {
    && Consistent(reg) && s.active in reg.scenarios
    && s.quota == QuotaOf(s.log)
    && (s.flipping.Some? ==> s.flipping == QuotaForScenario(reg, s.active))
    && (forall id :: id in s.requests ==> RequestOk(reg, s.requests[id]))
    && (forall i :: 0 <= i < |s.log| ==> EntryOk(reg, s.log, i))
  }

  lemma LogGrows(reg: Registry, log: seq<Entry>, e: Entry)
    requires forall i :: 0 <= i < |log| ==> EntryOk(reg, log, i)
    requires EntryOk(reg, log + [e], |log|)
    ensures forall i :: 0 <= i < |log| + 1 ==> EntryOk(reg, log + [e], i)
  {
    var more := log + [e];
    forall i | 0 <= i < |log|
      ensures EntryOk(reg, more, i)
    {
      assert more[..i + 1] == log[..i + 1];
      assert EntryOk(reg, log, i);
    }
  }

  lemma StepKeepsInv(reg: Registry, s: System, e: Event)
    requires Inv(reg, s) && Step(reg, s, e).Some?
    ensures Inv(reg, Step(reg, s, e).value)
  {
    var t := Step(reg, s, e).value;
    if t.log != s.log {
      var entry := t.log[|s.log|];
      assert t.log == s.log + [entry];
      assert t.log[..|s.log| + 1] == t.log;
      if entry.Applied? {
        QuotaAfterApplied(s.log, entry.snap);
      } else {
        QuotaAfterResponse(s.log, entry);
      }
      if e.Complete? {
        assert RequestOk(reg, s.requests[e.id]);
      }
      LogGrows(reg, s.log, entry);
    }
  }

  lemma InitialInv(reg: Registry, active: string)
    requires Consistent(reg) && active in reg.scenarios
    ensures Inv(reg, Initial(reg, active))
  {
    assert QuotaOf([]) == INITIAL_QUOTA;
    var q := QuotaForScenario(reg, active);
    if q.Some? {
      QuotaAfterApplied([], q.value);
      assert [] + [Applied(q.value)] == [Applied(q.value)];
    }
  }

  /** Whatever the interleaving, the invariant holds in every state a server can reach. */
  lemma {:induction false} RunKeepsInv(reg: Registry, active: string, events: seq<Event>)
    requires Consistent(reg) && active in reg.scenarios
    ensures Run(reg, Initial(reg, active), events).Some? ==> Inv(reg, Run(reg, Initial(reg, active), events).value)
    decreases |events|
  {
    if events == [] {
      InitialInv(reg, active);
    } else {
      RunKeepsInv(reg, active, events[..|events| - 1]);
      match Run(reg, Initial(reg, active), events[..|events| - 1])
      case None =>
      case Some(t) =>
        if Step(reg, t, events[|events| - 1]).Some? {
          StepKeepsInv(reg, t, events[|events| - 1]);
        }
    }
  }
}
