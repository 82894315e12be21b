/** Validating a configuration, loading one as a whole, and agreement with the code that consumes it. */
module ConfigValidation {
  import opened Vocabulary
  import opened Config

  // ---- case folding against lower-case ASCII words ----

  const LONG_S := '\U{017F}'
  const DOTTED_I := '\U{0130}'
  const KELVIN := '\U{212A}'

  /**
   unicode.ToLower, as far as it can give an ASCII letter. Any other letter is left as it is: its lower
   case is not ASCII either, and only comparisons with ASCII words are made.
   */
  function LowerChar(c: char): char {
    if 'A' <= c <= 'Z' then ((c as int) + 32) as char
    else if c == DOTTED_I then 'i'
    else if c == KELVIN then 'k'
    else c
  }

  /** strings.ToLower. */
  function ToLower(s: string): (r: string)
    ensures |r| == |s| && forall i :: 0 <= i < |s| ==> r[i] == LowerChar(s[i])
  {
    seq(|s|, i requires 0 <= i < |s| => LowerChar(s[i]))
  }

  /** The lower-case ASCII letter that c folds to under unicode.SimpleFold, or c if there is none. */
  function FoldChar(c: char): char {
    if c == LONG_S then 's' else if c == DOTTED_I then c else LowerChar(c)
  }

  function Fold(s: string): (r: string)
    ensures |r| == |s| && forall i :: 0 <= i < |s| ==> r[i] == FoldChar(s[i])
  {
    seq(|s|, i requires 0 <= i < |s| => FoldChar(s[i]))
  }

  /** strings.EqualFold against an ASCII word: character by character, up to folding. */
  predicate EqualFold(word: string, s: string) {
    |word| == |s| && forall i :: 0 <= i < |s| ==> word[i] == s[i] || FoldChar(word[i]) == FoldChar(s[i])
  }

  const LOG_FORMATS: seq<string> := ["auto", "text", "json"]
  const LOG_LEVELS: seq<string> := ["debug", "info", "warn", "warning", "error"]

  method ContainsFold(haystack: seq<string>, needle: string) returns (found: bool)
    ensures found == FoldsToOne(haystack, needle)
  {
    for i := 0 to |haystack|
      invariant forall j :: 0 <= j < i ==> !EqualFold(haystack[j], needle)
    {
      if EqualFold(haystack[i], needle) {
        return true;
      }
    }
    return false;
  }

  predicate FoldsToOne(haystack: seq<string>, needle: string) {
    exists i :: 0 <= i < |haystack| && EqualFold(haystack[i], needle)
  }

  predicate LowerCase(s: string) {
    forall i :: 0 <= i < |s| ==> 'a' <= s[i] <= 'z'
  }

  lemma FoldsToOneIff(haystack: seq<string>, needle: string)
    requires forall i :: 0 <= i < |haystack| ==> LowerCase(haystack[i])
    ensures FoldsToOne(haystack, needle) <==> Fold(needle) in haystack
  {
    forall i | 0 <= i < |haystack|
      ensures EqualFold(haystack[i], needle) <==> haystack[i] == Fold(needle)
    {
      if EqualFold(haystack[i], needle) {
        assert forall k :: 0 <= k < |needle| ==> haystack[i][k] == Fold(needle)[k];
      }
    }
  }

  /** Folding and lowering agree on a word unless it is spelled with a long s or a dotted I. */
  lemma FoldOrLower(word: string, s: string)
    requires LowerCase(word)
    ensures LONG_S in s ==> ToLower(s) != word
    ensures DOTTED_I in s ==> Fold(s) != word
    ensures LONG_S !in s && DOTTED_I !in s ==> Fold(s) == ToLower(s)
  {
    if i :| 0 <= i < |s| && s[i] == LONG_S {
      assert ToLower(s)[i] == LONG_S;
    }
    if i :| 0 <= i < |s| && s[i] == DOTTED_I {
      assert Fold(s)[i] == DOTTED_I;
    }
    if LONG_S !in s && DOTTED_I !in s {
      forall i | 0 <= i < |s|
        ensures FoldChar(s[i]) == LowerChar(s[i])
      {
        assert s[i] in s;
      }
    }
  }

  /** Only an 's' can be spelled with a long s, and only an 'i' with a dotted I. */
  lemma SpelledWith(s: string)
    ensures LONG_S in s ==> 's' in Fold(s)
    ensures DOTTED_I in s ==> 'i' in ToLower(s)
  {
    if i :| 0 <= i < |s| && s[i] == LONG_S {
      assert Fold(s)[i] == 's';
    }
    if i :| 0 <= i < |s| && s[i] == DOTTED_I {
      assert ToLower(s)[i] == 'i';
    }
  }

  // ---- the logger's own reading of the two settings ----

  datatype Level = Debug | Info | Warn | Error

  function ParseLevel(level: string): Option<Level> {
    var l := ToLower(level);
    if l == "" || l == "info" then Some(Info)
    else if l == "debug" then Some(Debug)
    else if l == "warn" || l == "warning" then Some(Warn)
    else if l == "error" then Some(Error)
    else None
  }

  datatype Handler = TextHandler | JsonHandler

  function ResolveFormat(format: string, terminal: bool): Option<Handler> {
    var f := ToLower(format);
    if f == "" || f == "auto" then Some(if terminal then TextHandler else JsonHandler)
    else if f == "text" then Some(TextHandler)
    else if f == "json" then Some(JsonHandler)
    else None
  }

  // ---- problems ----

  datatype ErrorKind = OutOfRange | InvalidDuration | Required

  datatype Field =
    | LogFormat | LogLevel | SpanSampling | ReadTimeout | WriteTimeout
    | TickInterval | BulkReconcileInterval | SyncInterval
    | PoolConcurrency(stage: string)
    | WatchQuery(name: string) | WatchSampleRate(name: string) | WatchCadence(name: string)

  datatype Problem = Problem(field: Field, error: ErrorKind)

  /** Whether time.ParseDuration accepts a non-empty string. */
  type DurationParser = string -> bool

  predicate GoodDuration(d: DurationParser, s: string) {
    s == "" || d(s)
  }

  function When(bad: bool, p: Problem): seq<Problem> {
    if bad then [p] else []
  }

  predicate BadFormat(format: string) {
    format != "" && !FoldsToOne(LOG_FORMATS, format)
  }

  predicate BadLevel(level: string) {
    level != "" && !FoldsToOne(LOG_LEVELS, level)
  }

  predicate OutsideUnit(x: real) {
    x < 0.0 || x > 1.0
  }

  function PoolProblems(pools: seq<PoolConfig>): seq<Problem> {
    if pools == [] then []
    else
      var n := |pools| - 1;
      PoolProblems(pools[..n]) + When(pools[n].concurrency <= 0, Problem(PoolConcurrency(pools[n].stage), OutOfRange))
  }

  function OneWatch(d: DurationParser, w: WatchConfig): seq<Problem> {
    When(w.query == "", Problem(WatchQuery(w.name), Required))
    + When(OutsideUnit(w.judgeSampleRate), Problem(WatchSampleRate(w.name), OutOfRange))
    + When(!GoodDuration(d, w.cadence), Problem(WatchCadence(w.name), InvalidDuration))
  }

  function WatchProblems(d: DurationParser, watches: seq<WatchConfig>): seq<Problem> {
    if watches == [] then []
    else
      var n := |watches| - 1;
      WatchProblems(d, watches[..n]) + OneWatch(d, watches[n])
  }

  function LogProblems(log: LogConfig): seq<Problem> {
    When(BadFormat(log.format), Problem(LogFormat, OutOfRange))
    + When(BadLevel(log.level), Problem(LogLevel, OutOfRange))
  }

  function ObsProblems(obs: ObsConfig): seq<Problem> {
    When(OutsideUnit(obs.spanSampling), Problem(SpanSampling, OutOfRange))
  }

  function ApiProblems(d: DurationParser, api: ApiConfig): seq<Problem> {
    When(!GoodDuration(d, api.readTimeout), Problem(ReadTimeout, InvalidDuration))
    + When(!GoodDuration(d, api.writeTimeout), Problem(WriteTimeout, InvalidDuration))
  }

  function SchedulerProblems(d: DurationParser, sch: SchedulerConfig): seq<Problem> {
    When(!GoodDuration(d, sch.tickInterval), Problem(TickInterval, InvalidDuration))
    + When(!GoodDuration(d, sch.bulkReconcileInterval), Problem(BulkReconcileInterval, InvalidDuration))
    + When(!GoodDuration(d, sch.syncInterval), Problem(SyncInterval, InvalidDuration))
  }

  /** All problems, in the order they are reported. */
  function Problems(d: DurationParser, c: Settings): seq<Problem> {
    LogProblems(c.log) + ObsProblems(c.obs) + ApiProblems(d, c.api) + SchedulerProblems(d, c.scheduler)
    + PoolProblems(c.worker.pools) + WatchProblems(d, c.watches)
  }

  class ValidationError {
    var problems: seq<Problem>

    constructor ()
      ensures problems == []
    {
      problems := [];
    }

    method Add(bad: bool, field: Field, error: ErrorKind)
      modifies this
      ensures problems == old(problems) + When(bad, Problem(field, error))
    {
      if bad {
        problems := problems + [Problem(field, error)];
      }
    }

    method AddRequired(field: Field, value: string)
      modifies this
      ensures problems == old(problems) + When(value == "", Problem(field, Required))
    {
      if value == "" {
        problems := problems + [Problem(field, Required)];
      }
    }

    /** errors.Is on the aggregate: some problem is of the kind asked for. */
    method Is(kind: ErrorKind) returns (found: bool)
      ensures found == exists p :: p in problems && p.error == kind
    {
      for i := 0 to |problems|
        invariant forall j :: 0 <= j < i ==> problems[j].error != kind
      {
        if problems[i].error == kind {
          return true;
        }
      }
      return false;
    }
  }

  /** nil exactly if there are no problems; otherwise all of them at once. */
  method Validate(d: DurationParser, c: Settings) returns (r: Option<seq<Problem>>)
    ensures r == if Problems(d, c) == [] then None else Some(Problems(d, c))
  {
    var v := new ValidationError();
    ValidateLog(v, c.log);
    assert v.problems == LogProblems(c.log);
    ValidateObs(v, c.obs);
    ValidateApi(d, v, c.api);
    ValidateScheduler(d, v, c.scheduler);
    ValidateWorker(v, c.worker);
    ValidateWatches(d, v, c.watches);
    r := if v.problems == [] then None else Some(v.problems);
  }

  method ValidateLog(v: ValidationError, log: LogConfig)
    modifies v
    ensures v.problems == old(v.problems) + LogProblems(log)
  {
    var knownFormat := ContainsFold(LOG_FORMATS, log.format);
    v.Add(log.format != "" && !knownFormat, LogFormat, OutOfRange);
    var knownLevel := ContainsFold(LOG_LEVELS, log.level);
    v.Add(log.level != "" && !knownLevel, LogLevel, OutOfRange);
  }

  method ValidateObs(v: ValidationError, obs: ObsConfig)
    modifies v
    ensures v.problems == old(v.problems) + ObsProblems(obs)
  {
    v.Add(obs.spanSampling < 0.0 || obs.spanSampling > 1.0, SpanSampling, OutOfRange);
  }

  method ValidateApi(d: DurationParser, v: ValidationError, api: ApiConfig)
    modifies v
    ensures v.problems == old(v.problems) + ApiProblems(d, api)
  {
    v.Add(api.readTimeout != "" && !d(api.readTimeout), ReadTimeout, InvalidDuration);
    v.Add(api.writeTimeout != "" && !d(api.writeTimeout), WriteTimeout, InvalidDuration);
  }

  method ValidateScheduler(d: DurationParser, v: ValidationError, sch: SchedulerConfig)
    modifies v
    ensures v.problems == old(v.problems) + SchedulerProblems(d, sch)
  {
    v.Add(sch.tickInterval != "" && !d(sch.tickInterval), TickInterval, InvalidDuration);
    v.Add(sch.bulkReconcileInterval != "" && !d(sch.bulkReconcileInterval), BulkReconcileInterval, InvalidDuration);
    v.Add(sch.syncInterval != "" && !d(sch.syncInterval), SyncInterval, InvalidDuration);
  }

  method ValidateWorker(v: ValidationError, w: WorkerConfig)
    modifies v
    ensures v.problems == old(v.problems) + PoolProblems(w.pools)
  {
    for i := 0 to |w.pools|
      invariant v.problems == old(v.problems) + PoolProblems(w.pools[..i])
    {
      var p := w.pools[i];
      assert w.pools[..i + 1][..i] == w.pools[..i];
      v.Add(p.concurrency <= 0, PoolConcurrency(p.stage), OutOfRange);
    }
    assert w.pools[..|w.pools|] == w.pools;
  }

  method ValidateWatches(d: DurationParser, v: ValidationError, watches: seq<WatchConfig>)
    modifies v
    ensures v.problems == old(v.problems) + WatchProblems(d, watches)
  {
    for i := 0 to |watches|
      invariant v.problems == old(v.problems) + WatchProblems(d, watches[..i])
    {
      assert watches[..i + 1][..i] == watches[..i];
      ConcatAssoc(old(v.problems), WatchProblems(d, watches[..i]), OneWatch(d, watches[i]));
      ValidateWatch(d, v, watches[i]);
    }
    assert watches[..|watches|] == watches;
  }

  method ValidateWatch(d: DurationParser, v: ValidationError, w: WatchConfig)
    modifies v
    ensures v.problems == old(v.problems) + OneWatch(d, w)
  {
    v.AddRequired(WatchQuery(w.name), w.query);
    v.Add(w.judgeSampleRate < 0.0 || w.judgeSampleRate > 1.0, WatchSampleRate(w.name), OutOfRange);
    v.Add(w.cadence != "" && !d(w.cadence), WatchCadence(w.name), InvalidDuration);
  }

  // ---- the problems are exactly the violated requirements ----

  /** Whether a configuration breaks the requirement that a problem reports. */
  ghost predicate Breaks(d: DurationParser, c: Settings, p: Problem) {
    match p.field
    case LogFormat => p.error.OutOfRange? && BadFormat(c.log.format)
    case LogLevel => p.error.OutOfRange? && BadLevel(c.log.level)
    case SpanSampling => p.error.OutOfRange? && !(0.0 <= c.obs.spanSampling <= 1.0)
    case ReadTimeout => p.error.InvalidDuration? && !GoodDuration(d, c.api.readTimeout)
    case WriteTimeout => p.error.InvalidDuration? && !GoodDuration(d, c.api.writeTimeout)
    case TickInterval => p.error.InvalidDuration? && !GoodDuration(d, c.scheduler.tickInterval)
    case BulkReconcileInterval => p.error.InvalidDuration? && !GoodDuration(d, c.scheduler.bulkReconcileInterval)
    case SyncInterval => p.error.InvalidDuration? && !GoodDuration(d, c.scheduler.syncInterval)
    case PoolConcurrency(stage) =>
      p.error.OutOfRange? && exists pool :: pool in c.worker.pools && pool.stage == stage && pool.concurrency <= 0
    case WatchQuery(name) =>
      p.error.Required? && exists w :: w in c.watches && w.name == name && w.query == ""
    case WatchSampleRate(name) =>
      p.error.OutOfRange? && exists w :: w in c.watches && w.name == name && !(0.0 <= w.judgeSampleRate <= 1.0)
    case WatchCadence(name) =>
      p.error.InvalidDuration? && exists w :: w in c.watches && w.name == name && !GoodDuration(d, w.cadence)
  }

  lemma {:induction false} PoolProblemsIff(pools: seq<PoolConfig>, p: Problem)
    ensures p in PoolProblems(pools)
       <==> p.field.PoolConcurrency? && p.error.OutOfRange?
            && exists pool :: pool in pools && pool.stage == p.field.stage && pool.concurrency <= 0
    decreases |pools|
  {
    if pools != [] {
      var n := |pools| - 1;
      PoolProblemsIff(pools[..n], p);
      assert pools == pools[..n] + [pools[n]];
    }
  }

  predicate InWatch(d: DurationParser, w: WatchConfig, p: Problem) {
    || (p == Problem(WatchQuery(w.name), Required) && w.query == "")
    || (p == Problem(WatchSampleRate(w.name), OutOfRange) && OutsideUnit(w.judgeSampleRate))
    || (p == Problem(WatchCadence(w.name), InvalidDuration) && !GoodDuration(d, w.cadence))
  }

  lemma OneWatchIff(d: DurationParser, w: WatchConfig, p: Problem)
    ensures p in OneWatch(d, w) <==> InWatch(d, w, p)
  {
  }

  ghost predicate InSomeWatch(d: DurationParser, watches: seq<WatchConfig>, p: Problem) {
    exists w :: w in watches && InWatch(d, w, p)
  }

  lemma SomeWatchConcat(d: DurationParser, init: seq<WatchConfig>, last: WatchConfig, p: Problem)
    ensures InSomeWatch(d, init + [last], p) <==> InSomeWatch(d, init, p) || InWatch(d, last, p)
  {
    assert forall w :: w in init + [last] <==> w in init || w == last;
  }

  lemma {:induction false} WatchProblemsIff(d: DurationParser, watches: seq<WatchConfig>, p: Problem)
    ensures p in WatchProblems(d, watches) <==> InSomeWatch(d, watches, p)
    decreases |watches|
  {
    if watches != [] {
      var init, last := watches[..|watches| - 1], watches[|watches| - 1];
      assert watches == init + [last];
      calc <==> {
        p in WatchProblems(d, watches);
        p in WatchProblems(d, init) + OneWatch(d, last);
        { InConcat(p, WatchProblems(d, init), OneWatch(d, last)); }
        p in WatchProblems(d, init) || p in OneWatch(d, last);
        { WatchProblemsIff(d, init, p); OneWatchIff(d, last, p); }
        InSomeWatch(d, init, p) || InWatch(d, last, p);
        { SomeWatchConcat(d, init, last, p); }
        InSomeWatch(d, watches, p);
      }
    }
  }

  /** The sections that are not lists. */
  lemma SectionsBreak(d: DurationParser, c: Settings, p: Problem)
    ensures p in LogProblems(c.log) <==> (p.field.LogFormat? || p.field.LogLevel?) && Breaks(d, c, p)
    ensures p in ObsProblems(c.obs) <==> p.field.SpanSampling? && Breaks(d, c, p)
    ensures p in ApiProblems(d, c.api) <==> (p.field.ReadTimeout? || p.field.WriteTimeout?) && Breaks(d, c, p)
    ensures p in SchedulerProblems(d, c.scheduler)
       <==> (p.field.TickInterval? || p.field.BulkReconcileInterval? || p.field.SyncInterval?) && Breaks(d, c, p)
  {
  }

  lemma WorkerBreaks(d: DurationParser, c: Settings, p: Problem)
    ensures p in PoolProblems(c.worker.pools) <==> p.field.PoolConcurrency? && Breaks(d, c, p)
  {
    PoolProblemsIff(c.worker.pools, p);
  }

  lemma WatchBreaks(d: DurationParser, c: Settings, p: Problem)
    ensures p in WatchProblems(d, c.watches)
       <==> (p.field.WatchQuery? || p.field.WatchSampleRate? || p.field.WatchCadence?) && Breaks(d, c, p)
  {
    WatchProblemsIff(d, c.watches, p);
  }

  lemma InProblems(d: DurationParser, c: Settings, p: Problem)
    ensures p in Problems(d, c) <==>
      || p in LogProblems(c.log) || p in ObsProblems(c.obs) || p in ApiProblems(d, c.api)
      || p in SchedulerProblems(d, c.scheduler) || p in PoolProblems(c.worker.pools) || p in WatchProblems(d, c.watches)
  {
  }

  /** A problem is reported if and only if the configuration breaks that requirement. */
  lemma ProblemsAreExact(d: DurationParser, c: Settings, p: Problem)
    ensures p in Problems(d, c) <==> Breaks(d, c, p)
  {
    InProblems(d, c, p);
    SectionsBreak(d, c, p);
    WorkerBreaks(d, c, p);
    WatchBreaks(d, c, p);
  }

  /** The duration that a field holds is set and does not parse; for a watch, that of some watch of the name. */
  ghost predicate BadDuration(d: DurationParser, c: Settings, f: Field) {
    match f
    case ReadTimeout => c.api.readTimeout != "" && !d(c.api.readTimeout)
    case WriteTimeout => c.api.writeTimeout != "" && !d(c.api.writeTimeout)
    case TickInterval => c.scheduler.tickInterval != "" && !d(c.scheduler.tickInterval)
    case BulkReconcileInterval => c.scheduler.bulkReconcileInterval != "" && !d(c.scheduler.bulkReconcileInterval)
    case SyncInterval => c.scheduler.syncInterval != "" && !d(c.scheduler.syncInterval)
    case WatchCadence(name) => exists w :: w in c.watches && w.name == name && w.cadence != "" && !d(w.cadence)
    case _ => false
  }

  /** Durations are reported exactly where they are set and do not parse; leaving one out is no problem. */
  lemma DurationProblemsIff(d: DurationParser, c: Settings, f: Field)
    ensures Problem(f, InvalidDuration) in Problems(d, c) <==> BadDuration(d, c, f)
  {
    ProblemsAreExact(d, c, Problem(f, InvalidDuration));
    if f.WatchCadence? {
      assert (exists w :: w in c.watches && w.name == f.name && !GoodDuration(d, w.cadence)) <==> BadDuration(d, c, f);
    }
  }

  /** A watch needs a query and a rate from 0 to 1 only: nothing is reported exactly for those with a usable cadence. */
  lemma WatchIsFineIff(d: DurationParser, w: WatchConfig)
    ensures OneWatch(d, w) == []
       <==> w.query != "" && 0.0 <= w.judgeSampleRate <= 1.0 && (w.cadence == "" || d(w.cadence))
  {
  }

  /** Validation itself has nothing against a ratio of 0; it accepts exactly 0 to 1. */
  lemma SamplingAcceptedIff(obs: ObsConfig)
    ensures ObsProblems(obs) == [] <==> 0.0 <= obs.spanSampling <= 1.0
    ensures ObsProblems(obs.(spanSampling := 0.0)) == []
  {
  }

  // ---- agreement with the logger ----

  lemma WordsAreLowerCase()
    ensures forall i :: 0 <= i < |LOG_FORMATS| ==> LowerCase(LOG_FORMATS[i])
    ensures forall i :: 0 <= i < |LOG_LEVELS| ==> LowerCase(LOG_LEVELS[i])
  {
  }

  predicate LongJson(format: string) {
    Fold(format) == "json" && LONG_S in format
  }

  predicate DottedLevel(level: string) {
    (ToLower(level) == "info" || ToLower(level) == "warning") && DOTTED_I in level
  }

  /** Validation accepts a format exactly if the logger does, except "json" spelled with a long s. */
  lemma FormatAgreesIff(format: string, terminal: bool)
    ensures (!BadFormat(format) <==> ResolveFormat(format, terminal).Some?) <==> !LongJson(format)
    ensures LongJson(format) ==> !BadFormat(format) && ResolveFormat(format, terminal).None?
  {
    WordsAreLowerCase();
    FoldsToOneIff(LOG_FORMATS, format);
    forall i | 0 <= i < |LOG_FORMATS|
      ensures LONG_S in format ==> ToLower(format) != LOG_FORMATS[i]
      ensures DOTTED_I in format ==> Fold(format) != LOG_FORMATS[i]
      ensures LONG_S !in format && DOTTED_I !in format ==> Fold(format) == ToLower(format)
    {
      FoldOrLower(LOG_FORMATS[i], format);
    }
    SpelledWith(format);
    assert LOG_FORMATS[0] == "auto" && LOG_FORMATS[1] == "text" && LOG_FORMATS[2] == "json";
    assert 's' !in "auto" && 's' !in "text" && 'i' !in "auto" && 'i' !in "text" && 'i' !in "json";
  }

  /** Validation accepts a level exactly if the logger does, except "info" and "warning" with a dotted I. */
  lemma LevelAgreesIff(level: string)
    ensures (!BadLevel(level) <==> ParseLevel(level).Some?) <==> !DottedLevel(level)
    ensures DottedLevel(level) ==> BadLevel(level) && ParseLevel(level).Some?
  {
    WordsAreLowerCase();
    FoldsToOneIff(LOG_LEVELS, level);
    forall i | 0 <= i < |LOG_LEVELS|
      ensures LONG_S in level ==> ToLower(level) != LOG_LEVELS[i]
      ensures DOTTED_I in level ==> Fold(level) != LOG_LEVELS[i]
      ensures LONG_S !in level && DOTTED_I !in level ==> Fold(level) == ToLower(level)
    {
      FoldOrLower(LOG_LEVELS[i], level);
    }
    SpelledWith(level);
    assert LOG_LEVELS[0] == "debug" && LOG_LEVELS[1] == "info" && LOG_LEVELS[2] == "warn"
        && LOG_LEVELS[3] == "warning" && LOG_LEVELS[4] == "error";
    assert 's' !in "debug" && 's' !in "info" && 's' !in "warn" && 's' !in "warning" && 's' !in "error";
    assert 'i' !in "debug" && 'i' !in "warn" && 'i' !in "error";
  }

  /** Both exceptions occur. */
  lemma AgreementCounterexamples()
    ensures LongJson("j\U{017F}on") && DottedLevel("\U{0130}nfo")
  {
    assert Fold("j\U{017F}on") == "json";
    assert "j\U{017F}on"[1] == LONG_S;
    assert ToLower("\U{0130}nfo") == "info";
    assert "\U{0130}nfo"[0] == DOTTED_I;
  }

  // ---- loading as a whole ----

  datatype LoadError = File(cause: FileError) | Invalid(problems: seq<Problem>)

  method Load(files: seq<Result<Schema, FileError>>, flags: Option<FlagOverrides>, d: DurationParser)
    returns (r: Result<Settings, LoadError>)
    ensures r.Failure? && r.error.File? <==> !AllDecode(files)
    ensures AllDecode(files) ==>
      var c := Final(Schemas(files), if flags.Some? then flags.value else NO_FLAGS);
      r == if Problems(d, c) == [] then Success(c) else Failure(Invalid(Problems(d, c)))
  {
    var cfg := new Config.Defaults();
    if |files| > 0 {
      var error := DecodeFiles(files, cfg);
      if error.Some? {
        return Failure(File(error.value));
      }
    }
    assert cfg.View() == Merged(Schemas(files), DEFAULTS);
    if flags.Some? {
      cfg.ApplyFlagOverrides(flags.value);
    }
    assert cfg.View() == Overridden(Merged(Schemas(files), DEFAULTS), if flags.Some? then flags.value else NO_FLAGS);
    cfg.ApplyDefaultsAfterMerge();
    var problems := Validate(d, cfg.View());
    if problems.Some? {
      return Failure(Invalid(problems.value));
    }
    r := Success(cfg.View());
  }

  /** The tracer replaces a ratio that is not positive by 1. */
  function TracerSampling(sampling: real): real {
    if sampling <= 0.0 then 1.0 else sampling
  }

  /**
   A loaded configuration has a sampling ratio above 0 and at most 1, so the tracer never replaces it; it
   names a level that the logger takes, and a format that it takes unless that is "json" with a long s.
   */
  lemma LoadedIsUsable(schemas: seq<Schema>, flags: FlagOverrides, d: DurationParser, terminal: bool)
    requires Problems(d, Final(schemas, flags)) == []
    ensures var c := Final(schemas, flags);
      && 0.0 < c.obs.spanSampling <= 1.0 && TracerSampling(c.obs.spanSampling) == c.obs.spanSampling
      && c.log.format != "" && c.log.level != ""
      && ParseLevel(c.log.level).Some?
      && (ResolveFormat(c.log.format, terminal).Some? <==> !LongJson(c.log.format))
      && (forall pool :: pool in c.worker.pools ==> pool.concurrency > 0)
      && (forall w :: w in c.watches ==> w.query != "" && 0.0 <= w.judgeSampleRate <= 1.0)
  {
    var c := Final(schemas, flags);
    NoProblemBreaks(d, c);
    assert c.log.format != "" && c.log.level != "" && c.obs.spanSampling != 0.0;
    assert !Breaks(d, c, Problem(SpanSampling, OutOfRange));
    assert !Breaks(d, c, Problem(LogFormat, OutOfRange)) && !Breaks(d, c, Problem(LogLevel, OutOfRange));
    FormatAgreesIff(c.log.format, terminal);
    LevelAgreesIff(c.log.level);
    NoBadEntries(d, c);
  }

  /** The defaults on their own are usable, if their durations parse. */
  lemma DefaultsAreValid(d: DurationParser)
    requires d("15s") && d("5s") && d("12h") && d("5m")
    ensures Problems(d, Final([], NO_FLAGS)) == []
  {
    var c := Final([], NO_FLAGS);
    assert c.log == DEFAULTS.log && c.obs.spanSampling == 1.0;
    assert EqualFold(LOG_FORMATS[0], c.log.format) && EqualFold(LOG_LEVELS[1], c.log.level);
    assert FoldsToOne(LOG_FORMATS, c.log.format) && FoldsToOne(LOG_LEVELS, c.log.level);
    assert LogProblems(c.log) == [] && ObsProblems(c.obs) == [];
    assert ApiProblems(d, c.api) == [] && SchedulerProblems(d, c.scheduler) == [];
    assert c.worker.pools == [] && c.watches == [];
  }

  lemma NoBadEntries(d: DurationParser, c: Settings)
    requires forall p :: !Breaks(d, c, p)
    ensures forall pool :: pool in c.worker.pools ==> pool.concurrency > 0
    ensures forall w :: w in c.watches ==> w.query != "" && 0.0 <= w.judgeSampleRate <= 1.0
  {
    forall pool | pool in c.worker.pools
      ensures pool.concurrency > 0
    {
      assert !Breaks(d, c, Problem(PoolConcurrency(pool.stage), OutOfRange));
    }
    forall w | w in c.watches
      ensures w.query != "" && 0.0 <= w.judgeSampleRate <= 1.0
    {
      assert !Breaks(d, c, Problem(WatchQuery(w.name), Required));
      assert !Breaks(d, c, Problem(WatchSampleRate(w.name), OutOfRange));
    }
  }

  lemma NoProblemBreaks(d: DurationParser, c: Settings)
    requires Problems(d, c) == []
    ensures forall p :: !Breaks(d, c, p)
  {
    forall p
      ensures !Breaks(d, c, p)
    {
      ProblemsAreExact(d, c, p);
    }
  }
}
