/**
 Appending fault rules: a call reads the rules and replaces them under two acquisitions of a lock, so
 whether its rule is kept depends on the calls around it.
 */
module FaultAppends {
  import opened Vocabulary
  import opened Scenarios
  import opened MockServer
  import opened MockServerProperties

  // ---- one call ----

  predicate LeavesRules(e: Event) {
    !e.ClearRules? && !e.ReplaceRules?
  }

  lemma {:induction false} RulesStay(reg: Registry, s: System, events: seq<Event>, id: nat)
    requires id in s.appending && forall e :: e in events ==> LeavesRules(e)
    ensures Run(reg, s, events).Some? ==>
      var t := Run(reg, s, events).value;
      t.rules == s.rules && id in t.appending && t.appending[id] == s.appending[id]
    decreases |events|
  {
    if events != [] {
      var n := |events| - 1;
      assert events[n] in events && LeavesRules(events[n]);
      RulesStay(reg, s, events[..n], id);
    }
  }

  /** If no other call changes the rules in between, the rule is appended. */
  lemma UndisturbedAppend(reg: Registry, s: System, id: nat, rule: FaultRule, between: seq<Event>)
    requires id !in s.appending && forall e :: e in between ==> LeavesRules(e)
    requires Run(reg, s, [ReadRules(id, rule)] + (between + [ReplaceRules(id)])).Some?
    ensures Run(reg, s, [ReadRules(id, rule)] + (between + [ReplaceRules(id)])).value.rules == s.rules + [rule]
  {
    RunOne(reg, s, ReadRules(id, rule), between + [ReplaceRules(id)]);
    var read := Step(reg, s, ReadRules(id, rule)).value;
    RunConcat(reg, read, between, [ReplaceRules(id)]);
    RulesStay(reg, read, between, id);
    RunOne(reg, Run(reg, read, between).value, ReplaceRules(id), []);
  }

  // ---- any number of calls ----

  /** The calls that have read the rules and not replaced them yet. */
  function Open(events: seq<Event>): set<nat> {
    if events == [] then {}
    else
      var before, e := Open(events[..|events| - 1]), events[|events| - 1];
      if e.ReadRules? then before + {e.id} else if e.ReplaceRules? then before - {e.id} else before
  }

  /** No call starts while another one is open. */
  ghost predicate NoOverlap(events: seq<Event>) {
    forall i :: 0 <= i < |events| && events[i].ReadRules? ==> Open(events[..i]) == {}
  }

  ghost predicate NoClears(events: seq<Event>) {
    forall i :: 0 <= i < |events| ==> !events[i].ClearRules?
  }

  /** How many calls have replaced the rules. */
  function Replaced(events: seq<Event>): nat {
    if events == [] then 0
    else Replaced(events[..|events| - 1]) + if events[|events| - 1].ReplaceRules? then 1 else 0
  }

  /** The rules of all calls, in the order in which they started. */
  function Appended(events: seq<Event>): seq<FaultRule> {
    if events == [] then []
    else
      var before, e := Appended(events[..|events| - 1]), events[|events| - 1];
      if e.ReadRules? then before + [e.rule] else before
  }

  lemma {:induction false} OpenCallsArePending(reg: Registry, s: System, events: seq<Event>, t: System)
    requires s.appending == map[] && Run(reg, s, events) == Some(t)
    ensures t.appending.Keys == Open(events)
    decreases |events|
  {
    if events != [] {
      OpenCallsArePending(reg, s, events[..|events| - 1], Run(reg, s, events[..|events| - 1]).value);
    }
  }

  /** No more rules, in force or read by an open call, than there were and have been put in place since. */
  ghost predicate Bounded(s: System, t: System, n: nat) {
    && |t.rules| <= |s.rules| + n
    && forall id :: id in t.appending ==> |t.appending[id].0| <= |s.rules| + n
  }

  lemma {:induction false} RulesAreBounded(reg: Registry, s: System, events: seq<Event>, t: System)
    requires s.appending == map[] && Run(reg, s, events) == Some(t)
    ensures Bounded(s, t, Replaced(events))
    decreases |events|
  {
    if events != [] {
      RulesAreBounded(reg, s, events[..|events| - 1], Run(reg, s, events[..|events| - 1]).value);
    }
  }

  // ---- calls in turn ----

  /** The one open call has read the rules in force, and all rules so far are in force or its own. */
  ghost predicate OneOpen(s: System, t: System, events: seq<Event>, id: nat, rule: FaultRule) {
    && t.appending == map[id := (t.rules, rule)]
    && t.rules + [rule] == s.rules + Appended(events) && |Appended(events)| == Replaced(events) + 1
  }

  ghost predicate InTurn(s: System, t: System, events: seq<Event>) {
    if t.appending == map[] then t.rules == s.rules + Appended(events) && |Appended(events)| == Replaced(events)
    else exists id, rule :: OneOpen(s, t, events, id, rule)
  }

  lemma {:induction false} CallsInTurnAppend(reg: Registry, s: System, events: seq<Event>, t: System)
    requires s.appending == map[] && NoClears(events) && Run(reg, s, events) == Some(t)
    requires NoOverlap(events)
    ensures InTurn(s, t, events)
    decreases |events|
  {
    if events != [] {
      var init, e := events[..|events| - 1], events[|events| - 1];
      var u := Run(reg, s, init).value;
      OverlapOfPrefix(events);
      CallsInTurnAppend(reg, s, init, u);
      OpenCallsArePending(reg, s, init, u);
      if e.ReadRules? {
        ConcatAssoc(s.rules, Appended(init), [e.rule]);
        assert OneOpen(s, t, events, e.id, e.rule);
      } else if e.ReplaceRules? {
        var id, rule :| OneOpen(s, u, init, id, rule);
        assert t.appending == map[];
      } else if u.appending != map[] {
        var id, rule :| OneOpen(s, u, init, id, rule);
        assert OneOpen(s, t, events, id, rule);
      }
    }
  }

  lemma OverlapOfPrefix(events: seq<Event>)
    requires events != []
    ensures var init, e := events[..|events| - 1], events[|events| - 1];
      && (NoOverlap(events) <==> NoOverlap(init) && (e.ReadRules? ==> Open(init) == {}))
      && (NoClears(events) ==> NoClears(init))
  {
    var init := events[..|events| - 1];
    assert forall i :: 0 <= i < |init| ==> init[..i] == events[..i] && init[i] == events[i];
  }

  // ---- overlapping calls ----

  /** The call has read fewer rules than could be in force by now. */
  ghost predicate Late(s: System, t: System, n: nat, id: nat) {
    id in t.appending && |t.appending[id].0| < |s.rules| + n
  }

  /** A rule has been lost, or is going to be: some open call will overwrite what another one wrote. */
  ghost predicate Loses(s: System, t: System, n: nat) {
    || (|t.rules| < |s.rules| + n && forall id :: id in t.appending ==> Late(s, t, n, id))
    || (exists id :: Late(s, t, n, id))
    || (exists a, b :: a in t.appending && b in t.appending && a != b)
  }

  lemma StepKeepsLosing(reg: Registry, s: System, u: System, n: nat, e: Event, t: System)
    requires Bounded(s, u, n) && Loses(s, u, n) && !e.ClearRules? && Step(reg, u, e) == Some(t)
    ensures Loses(s, t, n + if e.ReplaceRules? then 1 else 0)
  {
    if e.ReplaceRules? {
      ReplaceKeepsLosing(reg, s, u, n, e.id, t);
    } else if id :| Late(s, u, n, id) {
      assert Late(s, t, n, id);
    } else if a, b :| a in u.appending && b in u.appending && a != b {
      assert a in t.appending && b in t.appending;
    } else if e.ReadRules? {
      assert u.appending == map[];
      assert Late(s, t, n, e.id);
    }
  }

  lemma ReplaceKeepsLosing(reg: Registry, s: System, u: System, n: nat, id: nat, t: System)
    requires Bounded(s, u, n) && Loses(s, u, n) && Step(reg, u, ReplaceRules(id)) == Some(t)
    ensures Loses(s, t, n + 1)
  {
    assert forall other :: other in t.appending ==> Late(s, t, n + 1, other);
    if !Late(s, u, n, id) {
      var other :| other in u.appending && other != id;
      assert Late(s, t, n + 1, other);
    }
  }

  lemma {:induction false} OverlapLoses(reg: Registry, s: System, events: seq<Event>, t: System)
    requires s.appending == map[] && NoClears(events) && Run(reg, s, events) == Some(t)
    requires !NoOverlap(events)
    ensures Loses(s, t, Replaced(events))
    decreases |events|
  {
    var init, e := events[..|events| - 1], events[|events| - 1];
    var u := Run(reg, s, init).value;
    OverlapOfPrefix(events);
    if NoOverlap(init) {
      OpenCallsArePending(reg, s, init, u);
      var other :| other in Open(init);
      assert other in t.appending && e.id in t.appending && other != e.id;
    } else {
      OverlapLoses(reg, s, init, u);
      RulesAreBounded(reg, s, init, u);
      StepKeepsLosing(reg, s, u, Replaced(init), e, t);
    }
  }

  /**
   Over any run that starts and ends without an open call and clears nothing, whatever else happens in it:
   every call's rule is kept exactly if no two calls overlap. The rules are then the old ones followed by
   the calls' rules in order; otherwise there are fewer of them than that.
   */
  lemma AllAppendsKeptIff(reg: Registry, s: System, events: seq<Event>, t: System)
    requires s.appending == t.appending == map[] && NoClears(events) && Run(reg, s, events) == Some(t)
    ensures |t.rules| == |s.rules| + Replaced(events) <==> NoOverlap(events)
    ensures NoOverlap(events) ==> t.rules == s.rules + Appended(events)
    ensures !NoOverlap(events) ==> |t.rules| < |s.rules| + Replaced(events)
  {
    if NoOverlap(events) {
      CallsInTurnAppend(reg, s, events, t);
    } else {
      OverlapLoses(reg, s, events, t);
    }
  }

  /** Of two overlapping calls the one that replaces first is lost. */
  lemma OverlappingAppendIsLost(reg: Registry, s: System, a: nat, ruleA: FaultRule, b: nat, ruleB: FaultRule)
    requires a != b && a !in s.appending && b !in s.appending
    ensures var run := Run(reg, s, [ReadRules(a, ruleA), ReadRules(b, ruleB), ReplaceRules(a), ReplaceRules(b)]);
      run.Some? && run.value.rules == s.rules + [ruleB]
  {
    var s1 := Step(reg, s, ReadRules(a, ruleA)).value;
    var s2 := Step(reg, s1, ReadRules(b, ruleB)).value;
    var s3 := Step(reg, s2, ReplaceRules(a)).value;
    RunOne(reg, s3, ReplaceRules(b), []);
    RunOne(reg, s2, ReplaceRules(a), [ReplaceRules(b)]);
    RunOne(reg, s1, ReadRules(b, ruleB), [ReplaceRules(a), ReplaceRules(b)]);
    RunOne(reg, s, ReadRules(a, ruleA), [ReadRules(b, ruleB), ReplaceRules(a), ReplaceRules(b)]);
    assert [ReplaceRules(a)] + [ReplaceRules(b)] == [ReplaceRules(a), ReplaceRules(b)];
    assert [ReadRules(b, ruleB)] + [ReplaceRules(a), ReplaceRules(b)]
        == [ReadRules(b, ruleB), ReplaceRules(a), ReplaceRules(b)];
    assert [ReadRules(a, ruleA)] + [ReadRules(b, ruleB), ReplaceRules(a), ReplaceRules(b)]
        == [ReadRules(a, ruleA), ReadRules(b, ruleB), ReplaceRules(a), ReplaceRules(b)];
  }

  // ---- clears ----

  /** No call starts, and nothing is cleared, while a call is open. */
  ghost predicate Undisturbed(events: seq<Event>) {
    forall i :: 0 <= i < |events| && (events[i].ReadRules? || events[i].ClearRules?) ==> Open(events[..i]) == {}
  }

  /** What is left of some rules and those of the calls: all that no later clear removes. */
  function Survivors(rules: seq<FaultRule>, events: seq<Event>): seq<FaultRule> {
    if events == [] then rules
    else
      var before, e := Survivors(rules, events[..|events| - 1]), events[|events| - 1];
      if e.ClearRules? then [] else if e.ReadRules? then before + [e.rule] else before
  }

  ghost predicate OneSurviving(s: System, t: System, events: seq<Event>, id: nat, rule: FaultRule) {
    t.appending == map[id := (t.rules, rule)] && t.rules + [rule] == Survivors(s.rules, events)
  }

  /** Over any run in which calls and clears take turns, exactly the survivors are in force once no call is open. */
  lemma {:induction false} UndisturbedSurvive(reg: Registry, s: System, events: seq<Event>, t: System)
    requires s.appending == map[] && Undisturbed(events) && Run(reg, s, events) == Some(t)
    ensures t.appending == map[] ==> t.rules == Survivors(s.rules, events)
    ensures t.appending != map[] ==> exists id, rule :: OneSurviving(s, t, events, id, rule)
    decreases |events|
  {
    if events != [] {
      var init, e := events[..|events| - 1], events[|events| - 1];
      var u := Run(reg, s, init).value;
      assert forall i :: 0 <= i < |init| ==> init[..i] == events[..i] && init[i] == events[i];
      UndisturbedSurvive(reg, s, init, u);
      OpenCallsArePending(reg, s, init, u);
      if e.ReadRules? {
        assert OneSurviving(s, t, events, e.id, e.rule);
      } else if u.appending != map[] {
        var id, rule :| OneSurviving(s, u, init, id, rule);
        assert e.ReplaceRules? || OneSurviving(s, t, events, id, rule);
      }
    }
  }

  /**
   A clear between a call's two lock acquisitions is undone by the call: the rules it cleared come back, and
   the outcome is that of clearing before the call only if there were none.
   */
  lemma ClearIsLostIff(reg: Registry, s: System, id: nat, rule: FaultRule)
    requires id !in s.appending
    ensures var run := Run(reg, s, [ReadRules(id, rule), ClearRules, ReplaceRules(id)]);
      && run.Some? && run.value.rules == s.rules + [rule]
      && (run.value.rules == [rule] <==> s.rules == [])
  {
    var s1 := Step(reg, s, ReadRules(id, rule)).value;
    var s2 := Step(reg, s1, ClearRules).value;
    RunOne(reg, s2, ReplaceRules(id), []);
    RunOne(reg, s1, ClearRules, [ReplaceRules(id)]);
    RunOne(reg, s, ReadRules(id, rule), [ClearRules, ReplaceRules(id)]);
    assert [ClearRules] + [ReplaceRules(id)] == [ClearRules, ReplaceRules(id)];
    assert [ReadRules(id, rule)] + [ClearRules, ReplaceRules(id)]
        == [ReadRules(id, rule), ClearRules, ReplaceRules(id)];
    assert |s.rules + [rule]| == |s.rules| + 1;
  }
}
