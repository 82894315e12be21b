/**
 Responses as net/http sends them, and the statusRecorder that the quota middleware puts around them.

 The rule taken from net/http's documentation of ResponseWriter: the status line and the headers are
 fixed by the first WriteHeader whose code is not informational, or by the first Write; header changes
 made after that are not sent. A handler is the sequence of calls it makes.
 */
module Http {
  import opened Vocabulary

  type Header = map<string, string>

  datatype Head = Head(status: int, header: Header)

  datatype Action =
    | SetHeader(name: string, value: string)
    | WriteHeader(code: int)
    | Write

  /** 1xx codes other than 101 are sent ahead of the response and do not fix it. */
  predicate Informational(code: int) {
    100 <= code <= 199 && code != 101
  }

  /** net/http panics on a code of other than three digits. */
  predicate ValidActions(actions: seq<Action>) {
    forall i :: 0 <= i < |actions| && actions[i].WriteHeader? ==> 100 <= actions[i].code <= 999
  }

  predicate Success2xx(status: int) {
    200 <= status < 300
  }

  // ---- what each side holds after some actions ----

  datatype WriterState = WriterState(header: Header, sent: Option<Head>)

  function Perform(w: WriterState, a: Action): WriterState {
    match a
    case SetHeader(name, value) => w.(header := w.header[name := value])
    case WriteHeader(code) =>
      if w.sent.Some? || Informational(code) then w else w.(sent := Some(Head(code, w.header)))
    case Write => if w.sent.Some? then w else w.(sent := Some(Head(200, w.header)))
  }

  function PerformAll(w: WriterState, actions: seq<Action>): WriterState {
    if actions == [] then w
    else Perform(PerformAll(w, actions[..|actions| - 1]), actions[|actions| - 1])
  }

  datatype RecorderState = RecorderState(status: int, wrote: bool)

  function Record(r: RecorderState, a: Action): RecorderState {
    match a
    case SetHeader(_, _) => r
    case WriteHeader(code) => if r.wrote then r else RecorderState(code, true)
    case Write => r.(wrote := true)
  }

  function RecordAll(r: RecorderState, actions: seq<Action>): RecorderState {
    if actions == [] then r
    else Record(RecordAll(r, actions[..|actions| - 1]), actions[|actions| - 1])
  }

  const FRESH_WRITER := WriterState(map[], None)
  const FRESH_RECORDER := RecorderState(200, false)

  /** net/http completes a response that nothing has fixed with status 200. */
  function Finished(w: WriterState): Head {
    if w.sent.Some? then w.sent.value else Head(200, w.header)
  }

  class ResponseWriter {
    var header: Header
    var sent: Option<Head>

    function View(): WriterState
      reads this
    {
      WriterState(header, sent)
    }

    constructor ()
      ensures View() == FRESH_WRITER
    {
      header, sent := map[], None;
    }

    method SetHeader(name: string, value: string)
      modifies this`header
      ensures View() == Perform(old(View()), Action.SetHeader(name, value))
    {
      header := header[name := value];
    }

    method WriteHeader(code: int)
      requires 100 <= code <= 999
      modifies this`sent
      ensures View() == Perform(old(View()), Action.WriteHeader(code))
    {
      if sent.None? && !Informational(code) {
        sent := Some(Head(code, header));
      }
    }

    method Write()
      modifies this`sent
      ensures View() == Perform(old(View()), Action.Write)
    {
      if sent.None? {
        sent := Some(Head(200, header));
      }
    }
  }

  class StatusRecorder {
    const inner: ResponseWriter
    var status: int
    var wrote: bool

    function View(): RecorderState
      reads this
    {
      RecorderState(status, wrote)
    }

    constructor (inner: ResponseWriter)
      ensures this.inner == inner && View() == FRESH_RECORDER
    {
      this.inner, status, wrote := inner, 200, false;
    }

    method WriteHeader(code: int)
      requires 100 <= code <= 999
      modifies this, inner`sent
      ensures View() == Record(old(View()), Action.WriteHeader(code))
      ensures inner.View() == Perform(old(inner.View()), Action.WriteHeader(code))
    {
      if !wrote {
        status := code;
        wrote := true;
      }
      inner.WriteHeader(code);
    }

    method Write()
      modifies this, inner`sent
      ensures View() == Record(old(View()), Action.Write)
      ensures inner.View() == Perform(old(inner.View()), Action.Write)
    {
      if !wrote {
        wrote := true;
      }
      inner.Write();
    }
  }

  /** Runs a handler on a recorder; header changes go straight to the embedded writer. */
  method ServeHTTP(actions: seq<Action>, rw: StatusRecorder)
    requires ValidActions(actions)
    modifies rw, rw.inner
    ensures rw.View() == RecordAll(old(rw.View()), actions)
    ensures rw.inner.View() == PerformAll(old(rw.inner.View()), actions)
  {
    for i := 0 to |actions|
      invariant rw.View() == RecordAll(old(rw.View()), actions[..i])
      invariant rw.inner.View() == PerformAll(old(rw.inner.View()), actions[..i])
    {
      assert actions[..i + 1][..i] == actions[..i];
      match actions[i]
      case SetHeader(name, value) => rw.inner.SetHeader(name, value);
      case WriteHeader(code) => rw.WriteHeader(code);
      case Write => rw.Write();
    }
    assert actions[..|actions|] == actions;
  }

  // ---- what they hold, said without running the handler ----

  predicate Fixes(a: Action) {
    a.Write? || (a.WriteHeader? && !Informational(a.code))
  }

  /** The position of the first action satisfying p, or the number of actions. */
  function First(p: Action -> bool, actions: seq<Action>): (i: nat)
    ensures i <= |actions| && (i < |actions| ==> p(actions[i]))
    ensures forall j :: 0 <= j < i ==> !p(actions[j])
  {
    if actions == [] || p(actions[0]) then 0 else 1 + First(p, actions[1..])
  }

  function StatusOf(actions: seq<Action>, i: nat): int {
    if i < |actions| && actions[i].WriteHeader? then actions[i].code else 200
  }

  /** The headers set by some actions: for each name the last value given. */
  function HeadersSet(actions: seq<Action>): Header {
    if actions == [] then map[]
    else
      var last, before := actions[|actions| - 1], HeadersSet(actions[..|actions| - 1]);
      if last.SetHeader? then before[last.name := last.value] else before
  }

  predicate Touches(a: Action) {
    a.Write? || a.WriteHeader?
  }

  lemma {:induction false} FirstOfPrefix(p: Action -> bool, actions: seq<Action>, n: nat)
    requires n <= |actions|
    ensures First(p, actions[..n]) == if First(p, actions) < n then First(p, actions) else n
  {
    var i := First(p, actions);
    if i < n {
      assert actions[..n][i] == actions[i];
    }
  }

  /** The client receives what the first fixing action fixed, with the headers set up to there. */
  lemma {:induction false} ClientReceives(actions: seq<Action>)
    ensures var w, i := PerformAll(FRESH_WRITER, actions), First(Fixes, actions);
      && w.header == HeadersSet(actions)
      && w.sent == if i < |actions| then Some(Head(StatusOf(actions, i), HeadersSet(actions[..i]))) else None
    decreases |actions|
  {
    if actions != [] {
      var n := |actions| - 1;
      var i := First(Fixes, actions);
      ClientReceives(actions[..n]);
      FirstOfPrefix(Fixes, actions, n);
      if i < n {
        assert actions[..n][..i] == actions[..i];
      }
    }
  }

  /** The recorder keeps the code of the first call that touches the response, informational or not. */
  lemma {:induction false} RecorderKeeps(actions: seq<Action>)
    ensures var r, i := RecordAll(FRESH_RECORDER, actions), First(Touches, actions);
      r.wrote == (i < |actions|) && r.status == StatusOf(actions, i)
    decreases |actions|
  {
    if actions != [] {
      var n := |actions| - 1;
      RecorderKeeps(actions[..n]);
      FirstOfPrefix(Touches, actions, n);
    }
  }

  /**
   The recorded status is the one the client receives exactly when the handler's first call on the
   response is not an informational WriteHeader.
   */
  lemma RecorderAgreesIff(actions: seq<Action>)
    requires ValidActions(actions)
    ensures var i := First(Touches, actions);
      RecordAll(FRESH_RECORDER, actions).status == Finished(PerformAll(FRESH_WRITER, actions)).status
      <==> (i < |actions| ==> Fixes(actions[i]))
  {
    RecorderKeeps(actions);
    ClientReceives(actions);
    var i, j := First(Touches, actions), First(Fixes, actions);
    if j < |actions| {
      assert Touches(actions[j]);
      assert i <= j;
    }
    if i < |actions| && Fixes(actions[i]) {
      assert j <= i;
    }
  }
}
