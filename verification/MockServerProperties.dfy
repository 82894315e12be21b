/** Properties of the mock server over whole runs: the counter, the stamps, flips, and fault rules. */
module MockServerProperties {
  import opened Vocabulary
  import opened Http
  import opened Quota
  import opened Scenarios
  import opened MockServer
  import Endpoint = Search

  ghost predicate Reachable(reg: Registry, active: string, events: seq<Event>, s: System) {
    Consistent(reg) && active in reg.scenarios && Run(reg, Initial(reg, active), events) == Some(s)
  }

  /**
   In every reachable state the counter is the count last applied plus, while counting is on, the 2xx
   responses of metered routes completed since; and every such response carries the counter's value at
   its own place in the order. Misses, injected faults and panics carry no stamp and leave the counter alone.
   */
  lemma CounterFollowsLog(reg: Registry, active: string, events: seq<Event>, s: System)
    requires Reachable(reg, active, events, s)
    ensures s.quota.count == Wrap64(CountOf(s.log)) && s.quota.autoIncr == AutoIncrOf(s.log)
    ensures s.quota.limit == LimitOf(s.log) > 0
    ensures forall i :: 0 <= i < |s.log| && s.log[i].Stamped? ==>
      IsMetered(s.log[i].route) && s.log[i].status == 200 && s.log[i].stamp == StampOf(QuotaOf(s.log[..i + 1]))
    ensures forall i :: 0 <= i < |s.log| && s.log[i].Unstamped? && IsMetered(s.log[i].route) ==>
      s.log[i].status == 404
  {
    RunKeepsInv(reg, active, events);
    LimitPositive(s.log);
    forall i | 0 <= i < |s.log|
      ensures s.log[i].Stamped? ==>
        IsMetered(s.log[i].route) && s.log[i].status == 200 && s.log[i].stamp == StampOf(QuotaOf(s.log[..i + 1]))
      ensures s.log[i].Unstamped? && IsMetered(s.log[i].route) ==> s.log[i].status == 404
    {
      assert EntryOk(reg, s.log, i);
    }
  }

  lemma {:induction false} LimitPositive(log: seq<Entry>)
    ensures LimitOf(log) > 0
  {
    if log != [] {
      LimitPositive(log[..|log| - 1]);
    }
  }

  /** No run of admin calls leaves a scenario active, or answers from one, that is not loaded. */
  lemma ScenarioNeverDangles(reg: Registry, active: string, events: seq<Event>, s: System)
    requires Reachable(reg, active, events, s)
    ensures s.active in reg.scenarios
    ensures forall id :: id in s.requests && s.requests[id].Answered? && IsMetered(s.requests[id].route) ==>
      s.requests[id].active in reg.scenarios
    ensures forall i :: 0 <= i < |s.log| && (s.log[i].Stamped? || s.log[i].Unstamped?) && IsMetered(s.log[i].route) ==>
      s.log[i].active in reg.scenarios && s.log[i].status == HandlerStatus(reg, s.log[i].active, s.log[i].route)
  {
    RunKeepsInv(reg, active, events);
    forall i | 0 <= i < |s.log| && (s.log[i].Stamped? || s.log[i].Unstamped?) && IsMetered(s.log[i].route)
      ensures s.log[i].active in reg.scenarios
      ensures s.log[i].status == HandlerStatus(reg, s.log[i].active, s.log[i].route)
    {
      assert EntryOk(reg, s.log, i);
    }
    forall id | id in s.requests && s.requests[id].Answered? && IsMetered(s.requests[id].route)
      ensures s.requests[id].active in reg.scenarios
    {
      assert RequestOk(reg, s.requests[id]);
    }
  }

  /**
   In every reachable state the searches that ended in a panic are those with a negative offset that found
   a scenario with a search template active; every other search that has ended was answered with 200. No
   search in flight is waiting to be answered with a panic.
   */
  lemma SearchesPanicIff(reg: Registry, active: string, events: seq<Event>, s: System, i: nat)
    requires Reachable(reg, active, events, s)
    requires i < |s.log| && (s.log[i].Stamped? || s.log[i].Unstamped? || s.log[i].Panicked?) && s.log[i].route.Search?
    ensures s.log[i].Panicked? <==> s.log[i].route.offset < 0 && HasTemplate(reg, s.log[i].active)
    ensures !s.log[i].Panicked? ==> s.log[i].Stamped? && s.log[i].status == 200
    ensures forall id :: id in s.requests && s.requests[id].Answered? && s.requests[id].route.Search? ==>
      s.requests[id].route.offset >= 0 || !HasTemplate(reg, s.requests[id].active)
  {
    RunKeepsInv(reg, active, events);
    assert EntryOk(reg, s.log, i);
    TemplateIsOwnOrDefault(reg, s.log[i].active);
    forall id | id in s.requests && s.requests[id].Answered? && s.requests[id].route.Search?
      ensures s.requests[id].route.offset >= 0 || !HasTemplate(reg, s.requests[id].active)
    {
      assert RequestOk(reg, s.requests[id]);
      TemplateIsOwnOrDefault(reg, s.requests[id].active);
    }
  }

  /** The guard is that of the search endpoint itself. */
  lemma EndpointPanicsIff(reg: Registry, active: string, terms: seq<string>, limit: int, offset: int)
    ensures Endpoint.Answer(SearchTemplate(reg, active), terms, limit, offset).Panicked?
       <==> offset < 0 && SearchTemplate(reg, active).Some?
  {
  }

  /** A single search does panic, on any server whose active scenario has a template. */
  lemma SearchPanics(reg: Registry, active: string, offset: int, path: string)
    requires offset < 0 && SearchTemplate(reg, active).Some?
    ensures var s := Initial(reg, active);
      var run := Run(reg, s, [Arrive(0, Search(offset), path), Handle(0)]);
      run.Some? && run.value.log == s.log + [Panicked(0, Search(offset), active)] && run.value.quota == s.quota
  {
    var s := Initial(reg, active);
    RunOne(reg, s, Arrive(0, Search(offset), path), [Handle(0)]);
    var t := Step(reg, s, Arrive(0, Search(offset), path)).value;
    RunOne(reg, t, Handle(0), []);
    assert [Arrive(0, Search(offset), path)] + [Handle(0)] == [Arrive(0, Search(offset), path), Handle(0)];
  }

  /** Completing an answered request does to the counter what the middleware does around the shipped handlers. */
  lemma CompleteIsMiddleware(reg: Registry, s: System, id: nat)
    requires id in s.requests && s.requests[id].Answered? && IsMetered(s.requests[id].route)
    requires s.requests[id].status == 200 || s.requests[id].status == 404
    ensures Step(reg, s, Complete(id)).Some?
    ensures Step(reg, s, Complete(id)).value.quota
         == Metered(s.quota, FRESH_WRITER, WriteJson(s.requests[id].status)).0
  {
    ShippedHandlersHideTheStamp(s.quota, s.requests[id].status);
  }

  /** Successive stamps, with nothing applied between them, are consecutive while counting is on. */
  lemma SuccessiveStampsAreConsecutive(
    reg: Registry, active: string, events: seq<Event>, s: System, i: nat, j: nat)
    requires Reachable(reg, active, events, s)
    requires i < j < |s.log| && s.log[i].Stamped? && s.log[j].Stamped?
    requires forall k :: i < k < j ==> !s.log[k].Stamped? && !s.log[k].Applied?
    ensures s.log[j].stamp.made
         == if AutoIncrOf(s.log[..j]) then Wrap64(s.log[i].stamp.made + 1) else s.log[i].stamp.made
    ensures s.log[j].stamp.limit == s.log[i].stamp.limit
  {
    CounterFollowsLog(reg, active, events, s);
    assert s.log[i].stamp == StampOf(QuotaOf(s.log[..i + 1])) && s.log[j].stamp == StampOf(QuotaOf(s.log[..j + 1]));
    NextStamp(s.log, i, j);
  }

  lemma NextStamp(log: seq<Entry>, i: nat, j: nat)
    requires i < j < |log| && log[j].Stamped?
    requires forall k :: i < k < j ==> !log[k].Stamped? && !log[k].Applied?
    ensures QuotaOf(log[..j]) == QuotaOf(log[..i + 1])
    ensures QuotaOf(log[..j + 1]) == Incremented(QuotaOf(log[..i + 1]))
  {
    QuietStretch(log, i + 1, j);
    assert log[..j + 1] == log[..j] + [log[j]];
    QuotaAfterResponse(log[..j], log[j]);
  }

  lemma {:induction false} QuietStretch(log: seq<Entry>, lo: nat, hi: nat)
    requires lo <= hi <= |log| && forall k :: lo <= k < hi ==> !log[k].Stamped? && !log[k].Applied?
    ensures QuotaOf(log[..hi]) == QuotaOf(log[..lo])
    decreases hi
  {
    if lo < hi {
      QuietStretch(log, lo, hi - 1);
      assert log[..hi] == log[..hi - 1] + [log[hi - 1]];
      QuotaAfterResponse(log[..hi - 1], log[hi - 1]);
    }
  }

  // ---- every request ends once ----

  function ArrivalOf(id: nat): Event -> bool {
    (e: Event) => e.Arrive? && e.id == id
  }

  function EndOf(id: nat): Entry -> bool {
    (e: Entry) => !e.Applied? && e.id == id
  }

  function InFlight(s: System, id: nat): nat {
    if id in s.requests then 1 else 0
  }

  /** Under each ID, every arrival has ended exactly once, except the one in flight if there is one. */
  lemma {:induction false} EachRequestEndsOnce(
    reg: Registry, active: string, events: seq<Event>, s: System, id: nat)
    requires Reachable(reg, active, events, s)
    ensures |Filter(ArrivalOf(id), events)| == |Filter(EndOf(id), s.log)| + InFlight(s, id)
    decreases |events|
  {
    if events == [] {
      InitialEndsNothing(reg, active, EndOf(id));
    } else {
      var n := |events| - 1;
      var t := BeforeLast(reg, active, events, s);
      EachRequestEndsOnce(reg, active, events[..n], t, id);
      FilterLast(ArrivalOf(id), events);
      StepEndsOnce(reg, t, events[n], s, id);
    }
  }

  lemma InitialEndsNothing(reg: Registry, active: string, isEnd: Entry -> bool)
    requires forall snap :: !isEnd(Applied(snap))
    ensures Filter(isEnd, Initial(reg, active).log) == []
  {
    var log := Initial(reg, active).log;
    if log != [] {
      FilterOne(isEnd, log[0]);
    }
  }

  lemma BeforeLast(reg: Registry, active: string, events: seq<Event>, s: System) returns (t: System)
    requires Reachable(reg, active, events, s) && events != []
    ensures Reachable(reg, active, events[..|events| - 1], t)
    ensures Step(reg, t, events[|events| - 1]) == Some(s)
  {
    t := Run(reg, Initial(reg, active), events[..|events| - 1]).value;
  }

  lemma StepEndsOnce(reg: Registry, t: System, e: Event, s: System, id: nat)
    requires Step(reg, t, e) == Some(s)
    ensures |Filter(EndOf(id), s.log)| + InFlight(s, id)
         == |Filter(EndOf(id), t.log)| + InFlight(t, id) + if ArrivalOf(id)(e) then 1 else 0
  {
    if s.log != t.log {
      FilterLast(EndOf(id), s.log);
      assert s.log[..|s.log| - 1] == t.log;
    }
  }

  function IsArrival(): Event -> bool {
    (e: Event) => e.Arrive?
  }

  function IsEnd(): Entry -> bool {
    (e: Entry) => !e.Applied?
  }

  /** In all, as many requests have arrived as are in flight or have ended. */
  lemma {:induction false} RequestsAreConserved(reg: Registry, active: string, events: seq<Event>, s: System)
    requires Reachable(reg, active, events, s)
    ensures |Filter(IsArrival(), events)| == |s.requests| + |Filter(IsEnd(), s.log)|
    decreases |events|
  {
    if events == [] {
      InitialEndsNothing(reg, active, IsEnd());
    } else {
      var n := |events| - 1;
      var t := BeforeLast(reg, active, events, s);
      RequestsAreConserved(reg, active, events[..n], t);
      FilterLast(IsArrival(), events);
      EndsFollowLog(reg, t, events[n], s);
      RequestsFollow(reg, t, events[n], s);
    }
  }

  lemma EndsFollowLog(reg: Registry, t: System, e: Event, s: System)
    requires Step(reg, t, e) == Some(s)
    ensures |Filter(IsEnd(), s.log)| == |Filter(IsEnd(), t.log)| + if Removes(t, e, s) then 1 else 0
  {
    if s.log != t.log {
      FilterLast(IsEnd(), s.log);
      assert s.log[..|s.log| - 1] == t.log;
    }
  }

  /** The events that take a request out of flight. */
  predicate Removes(t: System, e: Event, s: System) {
    e.Inject? || e.Complete? || (e.Handle? && s.log != t.log)
  }

  lemma RequestsFollow(reg: Registry, t: System, e: Event, s: System)
    requires Step(reg, t, e) == Some(s)
    ensures |s.requests| == |t.requests| + (if e.Arrive? then 1 else 0) - if Removes(t, e, s) then 1 else 0
  {
    match e
    case Arrive(id, route, path) => ArriveFollows(reg, t, id, route, path, s);
    case Inject(_) => RemovalFollows(reg, t, e, s);
    case Complete(_) => RemovalFollows(reg, t, e, s);
    case Handle(id) => HandleFollows(reg, t, id, s);
    case _ =>
  }

  lemma ArriveFollows(reg: Registry, t: System, id: nat, route: Route, path: string, s: System)
    requires Step(reg, t, Arrive(id, route, path)) == Some(s)
    ensures |s.requests| == |t.requests| + 1
  {
    KeyAdded(t.requests, id, Matched(route, FirstMatch(t.rules, path)));
  }

  lemma RemovalFollows(reg: Registry, t: System, e: Event, s: System)
    requires (e.Inject? || e.Complete?) && Step(reg, t, e) == Some(s)
    ensures |s.requests| == |t.requests| - 1
  {
    KeysRemoved(t.requests, e.id);
  }

  lemma HandleFollows(reg: Registry, t: System, id: nat, s: System)
    requires Step(reg, t, Handle(id)) == Some(s)
    ensures |s.requests| == if s.log != t.log then |t.requests| - 1 else |t.requests|
  {
    if s.log != t.log {
      KeysRemoved(t.requests, id);
    } else {
      KeysKept(t.requests, id, s.requests[id]);
    }
  }

  lemma KeyAdded(m: map<nat, Request>, id: nat, r: Request)
    requires id !in m
    ensures |m[id := r]| == |m| + 1
  {
    assert m[id := r].Keys == m.Keys + {id};
    assert |m| == |m.Keys| && |m[id := r]| == |m[id := r].Keys|;
  }

  lemma KeysKept(m: map<nat, Request>, id: nat, r: Request)
    requires id in m
    ensures |m[id := r]| == |m|
  {
    assert m[id := r].Keys == m.Keys;
    assert |m| == |m.Keys| && |m[id := r]| == |m[id := r].Keys|;
  }

  lemma KeysRemoved(m: map<nat, Request>, id: nat)
    requires id in m
    ensures |m - {id}| == |m| - 1
  {
    assert (m - {id}).Keys == m.Keys - {id};
    assert |m| == |m.Keys| && |m - {id}| == |(m - {id}).Keys|;
  }

  // ---- composing runs ----

  lemma {:induction false} RunConcat(reg: Registry, s: System, a: seq<Event>, b: seq<Event>)
    ensures Run(reg, s, a + b)
         == match Run(reg, s, a) case None => None case Some(t) => Run(reg, t, b)
    decreases |b|
  {
    if b == [] {
      assert a + b == a;
    } else {
      assert (a + b)[..|a + b| - 1] == a + b[..|b| - 1];
      RunConcat(reg, s, a, b[..|b| - 1]);
    }
  }

  lemma RunOne(reg: Registry, s: System, e: Event, rest: seq<Event>)
    ensures Run(reg, s, [e]) == Step(reg, s, e)
    ensures Run(reg, s, [e] + rest)
         == match Step(reg, s, e) case None => None case Some(t) => Run(reg, t, rest)
  {
    assert [e][..0] == [];
    RunConcat(reg, s, [e], rest);
  }

  // ---- flips are atomic ----

  lemma BeginFlipCommutes(reg: Registry, s: System, name: string, e: Event)
    requires name in reg.scenarios && QuotaForScenario(reg, name).Some? && !e.EndFlip?
    requires Step(reg, s, BeginFlip(name)).Some? && Step(reg, Step(reg, s, BeginFlip(name)).value, e).Some?
    ensures Step(reg, s, e).Some?
    ensures Step(reg, Step(reg, s, e).value, BeginFlip(name)) == Step(reg, Step(reg, s, BeginFlip(name)).value, e)
  {
  }

  /**
   A flip takes the server's lock, then the counter's. Whatever happens between the two, the outcome is
   that of everything else happening first and the flip then taking place in one piece.
   */
  lemma {:induction false} FlipIsAtomic(reg: Registry, s: System, name: string, between: seq<Event>)
    requires name in reg.scenarios && QuotaForScenario(reg, name).Some? && EndFlip !in between
    requires Run(reg, s, [BeginFlip(name)] + (between + [EndFlip])).Some?
    ensures Run(reg, s, between + [BeginFlip(name), EndFlip]) == Run(reg, s, [BeginFlip(name)] + (between + [EndFlip]))
    decreases |between|
  {
    var flip, last := BeginFlip(name), [EndFlip];
    RunOne(reg, s, flip, between + last);
    ConcatAssoc(between, [flip], last);
    if between == [] {
      assert between + last == last && between + [flip] == [flip];
    } else {
      var e, rest := between[0], between[1..];
      assert e in between && between == [e] + rest;
      ConcatAssoc([e], rest, last);
      var flipped := Step(reg, s, flip).value;
      RunOne(reg, flipped, e, rest + last);
      BeginFlipCommutes(reg, s, name, e);
      var t := Step(reg, s, e).value;
      RunOne(reg, t, flip, rest + last);
      FlipIsAtomic(reg, t, name, rest);
      ConcatAssoc([e], rest, [flip, EndFlip]);
      RunOne(reg, s, e, rest + [flip, EndFlip]);
    }
  }

  /**
   A scenario without a quota leaves the counter alone; one with a quota sets the count, and of the rest what
   it mentions: a positive limit, a window, and whether requests count.
   */
  function AfterFlip(q: QuotaView, quota: Option<Snapshot>): QuotaView {
    match quota
    case None => q
    case Some(Snapshot(count, limit, timeWindow, autoIncr)) =>
      QuotaView(
        count, if limit <= 0 then q.limit else limit, if timeWindow == "" then q.timeWindow else timeWindow,
        match autoIncr case None => q.autoIncr case Some(on) => on)
  }

  /** Taken in one piece, a flip does what SetActiveScenario promises. */
  lemma FlipInOnePiece(reg: Registry, s: System, name: string)
    requires s.flipping.None?
    ensures var q := QuotaForScenario(reg, name);
      var run := Run(reg, s, [BeginFlip(name)] + if q.Some? then [EndFlip] else []);
      && run.Some?
      && run.value.active == (if name in reg.scenarios then name else s.active)
      && run.value.quota == (if name in reg.scenarios then Activated(reg, name, s.quota) else s.quota)
      && run.value.flipping.None?
    ensures name in reg.scenarios ==> Activated(reg, name, s.quota) == AfterFlip(s.quota, reg.scenarios[name].quota)
  {
    RunOne(reg, s, BeginFlip(name), if QuotaForScenario(reg, name).Some? then [EndFlip] else []);
    var t := Step(reg, s, BeginFlip(name)).value;
    RunOne(reg, t, EndFlip, []);
    assert [EndFlip] + [] == [EndFlip];
  }
}
