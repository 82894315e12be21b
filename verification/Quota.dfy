/** The rate-limit counter, its middleware, and what a client sees of it. */
module Quota {
  import opened Vocabulary
  import opened GoStrings
  import opened Http

  const TWO_63 := 0x8000_0000_0000_0000

  type int64 = x: int | -TWO_63 <= x < TWO_63 witness 0

  /** Two's-complement wrap-around of a 64-bit result. */
  function Wrap64(x: int): int64 {
    (x + TWO_63) % (2 * TWO_63) - TWO_63
  }

  lemma Wrap64Successor(x: int)
    ensures Wrap64(Wrap64(x) + 1) == Wrap64(x + 1)
  {
  }

  lemma Wrap64InRange(x: int)
    ensures -TWO_63 <= x < TWO_63 ==> Wrap64(x) == x
    ensures (Wrap64(x) - x) % (2 * TWO_63) == 0
  {
  }

  /** The counter without its reset time. */
  datatype QuotaView = QuotaView(count: int64, limit: int64, timeWindow: string, autoIncr: bool)

  datatype Snapshot = Snapshot(count: int64, limit: int64, timeWindow: string, autoIncr: Option<bool>)

  /** The effect of Apply. Contrary to its comment, a zero count does overwrite. */
  function Overlay(q: QuotaView, snap: Snapshot): QuotaView {
    QuotaView(
      snap.count,
      if snap.limit > 0 then snap.limit else q.limit,
      if snap.timeWindow != "" then snap.timeWindow else q.timeWindow,
      if snap.autoIncr.Some? then snap.autoIncr.value else q.autoIncr)
  }

  /** Every field that is zero in the snapshot is left as it was. */
  predicate ZeroFieldsKept(q: QuotaView, snap: Snapshot) {
    var after := Overlay(q, snap);
    && (snap.count == 0 ==> after.count == q.count) && (snap.limit == 0 ==> after.limit == q.limit)
    && (snap.timeWindow == "" ==> after.timeWindow == q.timeWindow)
    && (snap.autoIncr.None? ==> after.autoIncr == q.autoIncr)
  }

  /** Apply keeps its comment's promise only where the snapshot sets a count or the count is 0 already. */
  lemma ZeroFieldsKeptIff(q: QuotaView, snap: Snapshot)
    ensures ZeroFieldsKept(q, snap) <==> snap.count != 0 || q.count == 0
  {
  }

  /** Setting only the limit resets the count. */
  lemma LimitAloneResetsCount(q: QuotaView, limit: int64)
    requires limit > 0
    ensures Overlay(q, Snapshot(0, limit, "", None)) == q.(count := 0, limit := limit)
    ensures q.count != 0 ==> !ZeroFieldsKept(q, Snapshot(0, limit, "", None))
  {
  }

  function Incremented(q: QuotaView): QuotaView {
    if q.autoIncr then q.(count := Wrap64(q.count + 1)) else q
  }

  function FormatInt(n: int): string {
    if n < 0 then "-" + Itoa(-n) else Itoa(n)
  }

  datatype Stamp = Stamp(limit: int64, made: int64, remaining: int64)

  function StampOf(q: QuotaView): Stamp {
    var remaining := Wrap64(q.limit - q.count);
    Stamp(q.limit, q.count, if remaining < 0 then 0 else remaining)
  }

  /** The stamped remainder is max(0, limit - count) exactly when the difference fits 64 bits. */
  lemma RemainingIsFlooredIff(q: QuotaView)
    requires q.limit > 0
    ensures StampOf(q).remaining == Max(0, q.limit - q.count) <==> q.limit - q.count < TWO_63
  {
    if q.limit - q.count < TWO_63 {
      Wrap64InRange(q.limit - q.count);
    }
  }

  const LIMIT_HEADER := "X-EBAY-API-Call-Limit"
  const MADE_HEADER := "X-EBAY-API-Calls-Made"
  const REMAINING_HEADER := "X-EBAY-API-Calls-Remaining"

  function StampHeaders(header: Header, stamp: Stamp): Header {
    header[LIMIT_HEADER := FormatInt(stamp.limit)]
          [MADE_HEADER := FormatInt(stamp.made)]
          [REMAINING_HEADER := FormatInt(stamp.remaining)]
  }

  lemma AtoiOfFormatInt(n: int64)
    ensures Atoi(FormatInt(n)) == Some(n)
  {
    if n < 0 {
      NegativeReadsBack(n, FormatInt(n));
    } else {
      AtoiOfItoa(n);
    }
  }

  lemma NegativeReadsBack(n: int, s: string)
    requires -TWO_63 <= n < 0 && s == "-" + Itoa(-n)
    ensures Atoi(s) == Some(n)
  {
    DigitsOfItoa(-n);
    assert s[0] == '-' && s[1..] == Itoa(-n);
  }

  ghost predicate Tells(header: Header, name: string, n: int) {
    name in header && Atoi(header[name]) == Some(n)
  }

  /** What the three headers tell their reader; no other header is touched. */
  lemma StampTells(header: Header, q: QuotaView)
    requires q.limit > 0 && q.limit - q.count < TWO_63
    ensures var stamped := StampHeaders(header, StampOf(q));
      && Tells(stamped, "X-EBAY-API-Call-Limit", q.limit)
      && Tells(stamped, "X-EBAY-API-Calls-Made", q.count)
      && Tells(stamped, "X-EBAY-API-Calls-Remaining", if q.count <= q.limit then q.limit - q.count else 0)
      && var names := {"X-EBAY-API-Call-Limit", "X-EBAY-API-Calls-Made", "X-EBAY-API-Calls-Remaining"};
      stamped - names == header - names
  {
    var stamp := StampOf(q);
    RemainingIsFlooredIff(q);
    AtoiOfFormatInt(stamp.limit);
    AtoiOfFormatInt(stamp.made);
    AtoiOfFormatInt(stamp.remaining);
    HeadersDiffer();
  }

  lemma HeadersDiffer()
    ensures LIMIT_HEADER != MADE_HEADER && MADE_HEADER != REMAINING_HEADER && LIMIT_HEADER != REMAINING_HEADER
  {
    assert |LIMIT_HEADER| == |MADE_HEADER| < |REMAINING_HEADER|;
    assert LIMIT_HEADER[15] == '-' && MADE_HEADER[15] == 's';
  }

  class QuotaState {
    var count: int64
    var limit: int64
    var timeWindow: string
    var autoIncr: bool

    function View(): QuotaView
      reads this
    {
      QuotaView(count, limit, timeWindow, autoIncr)
    }

    constructor (limit: int64)
      ensures View() == QuotaView(0, limit, "DAY", true)
    {
      count, this.limit, timeWindow, autoIncr := 0, limit, "DAY", true;
    }

    /** Applying the snapshot at any later moment brings back everything in it that Apply can set. */
    method TakeSnapshot() returns (snap: Snapshot)
      ensures snap.count == count && Overlay(View(), snap) == View()
      ensures limit > 0 && timeWindow != "" ==> forall q :: Overlay(q, snap) == View()
    {
      snap := Snapshot(count, limit, timeWindow, Some(autoIncr));
    }

    method Apply(snap: Snapshot)
      modifies this
      ensures View() == Overlay(old(View()), snap)
    {
      if snap.limit > 0 {
        limit := snap.limit;
      }
      count := snap.count;
      if snap.timeWindow != "" {
        timeWindow := snap.timeWindow;
      }
      if snap.autoIncr.Some? {
        autoIncr := snap.autoIncr.value;
      }
    }

    method IncrementAndStamp(w: ResponseWriter)
      modifies this`count, w`header
      ensures View() == Incremented(old(View()))
      ensures w.header == StampHeaders(old(w.header), StampOf(View()))
    {
      if autoIncr {
        count := Wrap64(count + 1);
      }
      var remaining: int := Wrap64(limit - count);
      if remaining < 0 {
        remaining := 0;
      }
      w.SetHeader("X-EBAY-API-Call-Limit", FormatInt(limit));
      w.SetHeader("X-EBAY-API-Calls-Made", FormatInt(count));
      w.SetHeader("X-EBAY-API-Calls-Remaining", FormatInt(remaining));
    }

    /** Runs the handler, then counts and stamps if the recorder saw a 2xx status. */
    method Middleware(actions: seq<Action>, w: ResponseWriter)
      requires ValidActions(actions)
      modifies this`count, w
      ensures (View(), w.View()) == Metered(old(View()), old(w.View()), actions)
    {
      var rw := new StatusRecorder(w);
      ServeHTTP(actions, rw);
      if 200 <= rw.status < 300 {
        IncrementAndStamp(w);
      }
    }
  }

  predicate Counted(actions: seq<Action>) {
    Success2xx(RecordAll(FRESH_RECORDER, actions).status)
  }

  function Metered(q: QuotaView, w: WriterState, actions: seq<Action>): (QuotaView, WriterState) {
    var after := PerformAll(w, actions);
    if Counted(actions) then
      (Incremented(q), after.(header := StampHeaders(after.header, StampOf(Incremented(q)))))
    else
      (q, after)
  }

  /** The action at i is the handler's first call that is not about headers. */
  ghost predicate FirstCall(actions: seq<Action>, i: nat) {
    i < |actions| && !actions[i].SetHeader? && forall j :: 0 <= j < i ==> actions[j].SetHeader?
  }

  /** A request counts unless its handler's first call is a WriteHeader with a code outside 200 to 299. */
  lemma CountedIff(q: QuotaView, w: WriterState, actions: seq<Action>)
    ensures Metered(q, w, actions).0 ==
      if exists i: nat :: FirstCall(actions, i) && actions[i].WriteHeader? && !(200 <= actions[i].code < 300) then q
      else Incremented(q)
  {
    RecorderKeeps(actions);
    var i := First(Touches, actions);
    assert forall j: nat :: FirstCall(actions, j) ==> i == j;
    if i < |actions| {
      assert Touches(actions[i]) && FirstCall(actions, i);
    }
  }

  /** The response the client gets from a quota-wrapped route. */
  function ClientHead(q: QuotaView, actions: seq<Action>): Head {
    Finished(Metered(q, FRESH_WRITER, actions).1)
  }

  /**
   A handler that fixes its response hides the stamp: the client gets the same headers whatever the
   counter holds. Only a handler that returns without fixing anything lets all three headers through.
   */
  lemma StampReachesClientIff(q: QuotaView, actions: seq<Action>)
    requires ValidActions(actions) && Counted(actions)
    ensures var i, head := First(Fixes, actions), ClientHead(q, actions);
      head == if i < |actions| then Head(StatusOf(actions, i), HeadersSet(actions[..i]))
              else Head(200, StampHeaders(HeadersSet(actions), StampOf(Incremented(q))))
    ensures MADE_HEADER !in HeadersSet(actions) ==>
      (MADE_HEADER in ClientHead(q, actions).header <==> First(Fixes, actions) == |actions|)
  {
    ClientReceives(actions);
    var i := First(Fixes, actions);
    HeadersGrow(actions, i);
  }

  lemma {:induction false} HeadersGrow(actions: seq<Action>, n: nat)
    requires n <= |actions|
    ensures HeadersSet(actions[..n]).Keys <= HeadersSet(actions).Keys
    decreases |actions|
  {
    if n < |actions| {
      var m := |actions| - 1;
      HeadersGrow(actions[..m], n);
      assert actions[..m][..n] == actions[..n];
    } else {
      assert actions[..n] == actions;
    }
  }

  // ---- the handlers behind the middleware ----

  /** Both handlers answer this way: 200 with a body, or for a missing item an eBay-shaped 404. */
  function WriteJson(code: int): seq<Action> {
    [SetHeader("Content-Type", "application/json"), WriteHeader(code), Write]
  }

  /**
   The search and item handlers always fix their response, so over net/http no client ever receives the
   quota headers that the server's documentation promises; the counter itself is kept all the same.
   */
  lemma ShippedHandlersHideTheStamp(q: QuotaView, status: int)
    requires status == 200 || status == 404
    ensures ClientHead(q, WriteJson(status)) == Head(status, map["Content-Type" := "application/json"])
    ensures Metered(q, FRESH_WRITER, WriteJson(status)).0 == if status == 200 then Incremented(q) else q
  {
    var actions := WriteJson(status);
    assert First(Fixes, actions) == 1 by {
      assert !Fixes(actions[0]) && Fixes(actions[1]);
    }
    assert First(Touches, actions) == 1 by {
      assert !Touches(actions[0]) && Touches(actions[1]);
    }
    ClientReceives(actions);
    RecorderKeeps(actions);
    assert actions[..1] == [SetHeader("Content-Type", "application/json")];
    assert HeadersSet(actions[..1]) == map["Content-Type" := "application/json"] by {
      assert actions[..1][..0] == [];
    }
  }
}
