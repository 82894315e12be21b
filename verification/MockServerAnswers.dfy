/**
 What becomes of a request to the mock server, said in terms of the fixtures and of the fault rules in force
 when it arrived.
 */
module MockServerAnswers {
  import opened Vocabulary
  import opened Http
  import opened Quota
  import opened Scenarios
  import opened MockServer
  import opened MockServerProperties

  // ---- items ----

  /** The active scenario ships the item, or the default one does. */
  ghost predicate Shipped(reg: Registry, active: string, itemId: string) {
    || (active in reg.scenarios && itemId in reg.scenarios[active].items)
    || (DEFAULT in reg.scenarios && itemId in reg.scenarios[DEFAULT].items)
  }

  /**
   In every reachable state the responses that were counted and stamped are the searches and the requests
   for items that the scenario found active, or the default one, ships; and a request for any other item
   ended in a 404 that was not counted.
   */
  lemma CountedAreFound(reg: Registry, active: string, events: seq<Event>, s: System, i: nat)
    requires Reachable(reg, active, events, s)
    requires i < |s.log| && (s.log[i].Stamped? || s.log[i].Unstamped?)
    ensures s.log[i].Stamped?
       <==> (s.log[i].route.Search? || (s.log[i].route.Item? && Shipped(reg, s.log[i].active, s.log[i].route.id)))
    ensures s.log[i].status == if s.log[i].route.Item? && s.log[i].Unstamped? then 404 else 200
    ensures !s.log[i].route.Unmetered? ==> s.log[i].active in reg.scenarios
  {
    RunKeepsInv(reg, active, events);
    assert EntryOk(reg, s.log, i);
  }

  /** How a request that was handled while a scenario was active ends. */
  ghost predicate EndsAs(reg: Registry, e: Entry, id: nat, route: Route, active: string) {
    if route.Search? || (route.Item? && Shipped(reg, active, route.id)) then
      e.Stamped? && e.id == id && e.route == route && e.active == active && e.status == 200
    else
      && e.Unstamped? && e.id == id && e.route == route
      && if route.Item? then e.active == active && e.status == 404 else e.status == 200
  }

  /**
   A request is answered from the scenario that was active when it was handled, whatever flips, applied
   quotas and other requests happen before it completes.
   */
  lemma AnsweredAsHandled(
    reg: Registry, s: System, id: nat, route: Route, between: seq<Event>, t: System)
    requires Consistent(reg) && id in s.requests && s.requests[id].Matched? && s.requests[id].route == route
    requires forall e :: e in between ==> e != Complete(id) && !(e.Arrive? && e.id == id)
    requires Run(reg, s, [Handle(id)] + (between + [Complete(id)])) == Some(t)
    ensures t.log != [] && EndsAs(reg, t.log[|t.log| - 1], id, route, s.active)
  {
    RunOne(reg, s, Handle(id), between + [Complete(id)]);
    var handled := Step(reg, s, Handle(id)).value;
    RunConcat(reg, handled, between, [Complete(id)]);
    var u := Run(reg, handled, between).value;
    RunOne(reg, u, Complete(id), []);
    RequestIsKept(reg, handled, id, between);
    assert u.requests[id] == handled.requests[id];
    CompletesAs(reg, s, handled, id, route, u, t);
  }

  lemma CompletesAs(reg: Registry, s: System, handled: System, id: nat, route: Route, u: System, t: System)
    requires Consistent(reg) && id in s.requests && s.requests[id].Matched? && s.requests[id].route == route
    requires Step(reg, s, Handle(id)) == Some(handled) && Step(reg, u, Complete(id)) == Some(t)
    requires id in handled.requests && id in u.requests && u.requests[id] == handled.requests[id]
    ensures t.log != [] && EndsAs(reg, t.log[|t.log| - 1], id, route, s.active)
  {
  }

  /** Other events neither answer an answered request again nor bring back one that has ended. */
  lemma {:induction false} RequestIsKept(reg: Registry, s: System, id: nat, events: seq<Event>)
    requires id in s.requests ==> s.requests[id].Answered?
    requires forall e :: e in events ==> e != Complete(id) && !(e.Arrive? && e.id == id)
    requires Run(reg, s, events).Some?
    ensures id in Run(reg, s, events).value.requests <==> id in s.requests
    ensures id in s.requests ==> Run(reg, s, events).value.requests[id] == s.requests[id]
    decreases |events|
  {
    if events != [] {
      RequestIsKept(reg, s, id, events[..|events| - 1]);
      assert events[|events| - 1] in events;
    }
  }

  // ---- fault rules ----

  /** The rule at i is the first whose pattern matches the path. */
  ghost predicate FirstHit(rules: seq<FaultRule>, path: string, i: nat) {
    && i < |rules| && rules[i].pattern.Some? && rules[i].pattern.value(path)
    && forall j :: 0 <= j < i ==> !(rules[j].pattern.Some? && rules[j].pattern.value(path))
  }

  ghost predicate AlwaysFaults(rules: seq<FaultRule>, path: string) {
    exists i: nat :: FirstHit(rules, path, i) && rules[i].failRate >= 1.0
  }

  /** No rule matches, or the first that does only adds latency. */
  ghost predicate NeverFaults(rules: seq<FaultRule>, path: string) {
    forall i: nat :: FirstHit(rules, path, i) ==> rules[i].failRate <= 0.0
  }

  lemma {:induction false} FirstMatchIsHit(rules: seq<FaultRule>, path: string) returns (i: nat)
    ensures FirstMatch(rules, path).Some? ==> FirstHit(rules, path, i) && FirstMatch(rules, path) == Some(rules[i])
    ensures FirstMatch(rules, path).None? ==> forall j: nat :: !FirstHit(rules, path, j)
  {
    i := 0;
    if rules != [] && !Matches(rules[0], path) {
      var k := FirstMatchIsHit(rules[1..], path);
      i := k + 1;
      assert forall j :: 1 <= j < |rules| ==> rules[j] == rules[1..][j - 1];
      if FirstMatch(rules, path).None? {
        forall j: nat
          ensures !FirstHit(rules, path, j)
        {
          if FirstHit(rules, path, j) {
            assert FirstHit(rules[1..], path, j - 1);
          }
        }
      }
    }
  }

  /** The rule that applies settles whether faults always, never or sometimes happen. */
  lemma RuleDecides(rules: seq<FaultRule>, path: string)
    ensures var rule := FirstMatch(rules, path);
      && (AlwaysFaults(rules, path) <==> rule.Some? && rule.value.failRate >= 1.0)
      && (NeverFaults(rules, path) <==> rule.None? || rule.value.failRate <= 0.0)
  {
    var i := FirstMatchIsHit(rules, path);
    forall j: nat | FirstHit(rules, path, j)
      ensures i == j
    {
    }
  }

  /** How far a request for a route, which met some rules on its arrival, can have come. */
  ghost predicate Fated(r: Request, route: Route, rules: seq<FaultRule>, path: string) {
    && r.route == route
    && (r.Matched? ==> r.rule == FirstMatch(rules, path))
    && (r.Answered? ==> !AlwaysFaults(rules, path))
  }

  ghost predicate EndIsFated(e: Entry, id: nat, route: Route, rules: seq<FaultRule>, path: string) {
    && !e.Applied? && e.id == id && e.route == route
    && (AlwaysFaults(rules, path) ==> e.Faulted?)
    && (NeverFaults(rules, path) ==> !e.Faulted?)
  }

  /** Since position lo, everything that has ended under the ID, and what is in flight under it, is fated. */
  ghost predicate AllFated(s: System, lo: nat, id: nat, route: Route, rules: seq<FaultRule>, path: string) {
    && lo <= |s.log|
    && (id in s.requests ==> Fated(s.requests[id], route, rules, path))
    && (forall k :: lo <= k < |s.log| && EndOf(id)(s.log[k]) ==> EndIsFated(s.log[k], id, route, rules, path))
  }

  lemma StepKeepsFate(
    reg: Registry, s: System, e: Event, lo: nat, id: nat, route: Route, rules: seq<FaultRule>, path: string)
    requires AllFated(s, lo, id, route, rules, path) && !ArrivalOf(id)(e) && Step(reg, s, e).Some?
    ensures AllFated(Step(reg, s, e).value, lo, id, route, rules, path)
  {
    RuleDecides(rules, path);
  }

  lemma {:induction false} RunKeepsFate(
    reg: Registry, s: System, events: seq<Event>, lo: nat, id: nat, route: Route, rules: seq<FaultRule>, path: string)
    requires AllFated(s, lo, id, route, rules, path) && Run(reg, s, events).Some?
    requires forall e :: e in events ==> !ArrivalOf(id)(e)
    ensures AllFated(Run(reg, s, events).value, lo, id, route, rules, path)
    decreases |events|
  {
    if events != [] {
      var n := |events| - 1;
      RunKeepsFate(reg, s, events[..n], lo, id, route, rules, path);
      assert events[n] in events;
      StepKeepsFate(reg, Run(reg, s, events[..n]).value, events[n], lo, id, route, rules, path);
    }
  }

  /**
   The first rule that matches a request's path when it arrives decides its end, whatever happens to the
   rules afterwards: with a fail rate of 1 or more it can only end in an injected fault, and with a rate of
   0 or less, or without such a rule, it never does.
   */
  lemma ArrivalDecidesFault(
    reg: Registry, s: System, id: nat, route: Route, path: string, events: seq<Event>, t: System, k: nat)
    requires Run(reg, s, [Arrive(id, route, path)] + events) == Some(t)
    requires forall e :: e in events ==> !(e.Arrive? && e.id == id)
    requires |s.log| <= k < |t.log| && !t.log[k].Applied? && t.log[k].id == id
    ensures t.log[k].route == route
    ensures AlwaysFaults(s.rules, path) ==> t.log[k] == Faulted(id, route)
    ensures NeverFaults(s.rules, path) ==> !t.log[k].Faulted?
  {
    RunOne(reg, s, Arrive(id, route, path), events);
    var arrived := Step(reg, s, Arrive(id, route, path)).value;
    RunKeepsFate(reg, arrived, events, |s.log|, id, route, s.rules, path);
    assert EndOf(id)(t.log[k]);
  }

  /** Which of the two ends are possible right after an arrival. */
  lemma NextStepIff(reg: Registry, s: System, id: nat, route: Route, path: string)
    requires id !in s.requests
    ensures Run(reg, s, [Arrive(id, route, path), Inject(id)]).Some? <==> !NeverFaults(s.rules, path)
    ensures Run(reg, s, [Arrive(id, route, path), Handle(id)]).Some?
       <==> !AlwaysFaults(s.rules, path) && (route.Unmetered? || s.flipping.None?)
  {
    RuleDecides(s.rules, path);
    var arrive := Arrive(id, route, path);
    var t := Step(reg, s, arrive).value;
    RunTwo(reg, s, arrive, Inject(id));
    RunTwo(reg, s, arrive, Handle(id));
  }

  lemma RunTwo(reg: Registry, s: System, a: Event, b: Event)
    ensures Run(reg, s, [a, b]) == match Step(reg, s, a) case None => None case Some(t) => Step(reg, t, b)
  {
    assert [a, b] == [a] + [b];
    RunOne(reg, s, a, [b]);
    if Step(reg, s, a).Some? {
      RunOne(reg, Step(reg, s, a).value, b, []);
    }
  }
}
