/** Layered configuration: files in order, then flags, then defaults, then validation. */
module Config {
  import opened Vocabulary

  datatype LogConfig = LogConfig(format: string, level: string)
  datatype AdminConfig = AdminConfig(addr: string)
  datatype EbayConfig = EbayConfig(appId: string, certId: string, marketplace: string, rateLimit: int)
  datatype PostgresConfig = PostgresConfig(dsn: string, maxOpenConns: int, maxIdleConns: int)
  datatype ValkeyConfig = ValkeyConfig(addr: string, db: int, password: string)
  datatype MeilisearchConfig = MeilisearchConfig(url: string, apiKey: string)
  datatype ObsConfig = ObsConfig(
    otlpEndpoint: string, langfuseHost: string, langfusePublicKey: string, langfuseSecretKey: string,
    spanSampling: real)
  datatype ApiConfig = ApiConfig(addr: string, readTimeout: string, writeTimeout: string)
  datatype SchedulerConfig = SchedulerConfig(tickInterval: string, bulkReconcileInterval: string, syncInterval: string)
  datatype PoolConfig = PoolConfig(stage: string, concurrency: int)
  datatype WorkerConfig = WorkerConfig(pools: seq<PoolConfig>)
  datatype WatchConfig = WatchConfig(name: string, query: string, cadence: string, judgeSampleRate: real)

  /** The sections of a configuration. */
  datatype Settings = Settings(
    log: LogConfig, admin: AdminConfig, ebay: EbayConfig, postgres: PostgresConfig, valkey: ValkeyConfig,
    meilisearch: MeilisearchConfig, obs: ObsConfig, api: ApiConfig, scheduler: SchedulerConfig,
    worker: WorkerConfig, watches: seq<WatchConfig>)

  /** What one file declares; a declared section has zero values for the attributes it omits. */
  datatype Schema = Schema(
    log: Option<LogConfig>, admin: Option<AdminConfig>, ebay: Option<EbayConfig>, postgres: Option<PostgresConfig>,
    valkey: Option<ValkeyConfig>, meilisearch: Option<MeilisearchConfig>, obs: Option<ObsConfig>,
    api: Option<ApiConfig>, scheduler: Option<SchedulerConfig>, worker: Option<WorkerConfig>,
    watches: seq<WatchConfig>)

  datatype FlagOverrides = FlagOverrides(
    logFormat: string, logLevel: string, adminAddr: string, ebayAppId: string, ebayCertId: string,
    postgresDsn: string, valkeyAddr: string, meiliUrl: string)

  const DEFAULTS := Settings(
    LogConfig("auto", "info"), AdminConfig(":9090"), EbayConfig("", "", "EBAY_US", 0), PostgresConfig("", 0, 0),
    ValkeyConfig("", 0, ""), MeilisearchConfig("", ""), ObsConfig("", "", "", "", 1.0),
    ApiConfig(":8080", "15s", "15s"), SchedulerConfig("5s", "12h", "5m"), WorkerConfig([]), [])

  // ---- the declarative merge: last declaration wins ----

  const LOG: Schema -> Option<LogConfig> := (s: Schema) => s.log
  const ADMIN: Schema -> Option<AdminConfig> := (s: Schema) => s.admin
  const EBAY: Schema -> Option<EbayConfig> := (s: Schema) => s.ebay
  const POSTGRES: Schema -> Option<PostgresConfig> := (s: Schema) => s.postgres
  const VALKEY: Schema -> Option<ValkeyConfig> := (s: Schema) => s.valkey
  const MEILISEARCH: Schema -> Option<MeilisearchConfig> := (s: Schema) => s.meilisearch
  const OBS: Schema -> Option<ObsConfig> := (s: Schema) => s.obs
  const API: Schema -> Option<ApiConfig> := (s: Schema) => s.api
  const SCHEDULER: Schema -> Option<SchedulerConfig> := (s: Schema) => s.scheduler
  const WORKER: Schema -> Option<WorkerConfig> := (s: Schema) => s.worker

  /** What the last file to declare a section says, or the initial value if none does. */
  function LastDeclared<T>(section: Schema -> Option<T>, schemas: seq<Schema>, initial: T): T {
    if schemas == [] then initial
    else
      var n := |schemas| - 1;
      if section(schemas[n]).Some? then section(schemas[n]).value else LastDeclared(section, schemas[..n], initial)
  }

  function AllWatches(schemas: seq<Schema>): seq<WatchConfig> {
    if schemas == [] then [] else AllWatches(schemas[..|schemas| - 1]) + schemas[|schemas| - 1].watches
  }

  /** Every section is its last declaration, or else the initial one; watches are all of them in file order. */
  function Merged(schemas: seq<Schema>, initial: Settings): Settings {
    Settings(
      LastDeclared(LOG, schemas, initial.log),
      LastDeclared(ADMIN, schemas, initial.admin),
      LastDeclared(EBAY, schemas, initial.ebay),
      LastDeclared(POSTGRES, schemas, initial.postgres),
      LastDeclared(VALKEY, schemas, initial.valkey),
      LastDeclared(MEILISEARCH, schemas, initial.meilisearch),
      LastDeclared(OBS, schemas, initial.obs),
      LastDeclared(API, schemas, initial.api),
      LastDeclared(SCHEDULER, schemas, initial.scheduler),
      LastDeclared(WORKER, schemas, initial.worker),
      initial.watches + AllWatches(schemas))
  }

  lemma {:induction false} LastDeclaredConcat<T>(
    section: Schema -> Option<T>, a: seq<Schema>, b: seq<Schema>, initial: T)
    ensures LastDeclared(section, a + b, initial) == LastDeclared(section, b, LastDeclared(section, a, initial))
    decreases |b|
  {
    if b == [] {
      assert a + b == a;
    } else {
      assert (a + b)[..|a + b| - 1] == a + b[..|b| - 1];
      LastDeclaredConcat(section, a, b[..|b| - 1], initial);
    }
  }

  lemma {:induction false} AllWatchesConcat(a: seq<Schema>, b: seq<Schema>)
    ensures AllWatches(a + b) == AllWatches(a) + AllWatches(b)
    decreases |b|
  {
    if b == [] {
      assert a + b == a;
    } else {
      assert (a + b)[..|a + b| - 1] == a + b[..|b| - 1];
      AllWatchesConcat(a, b[..|b| - 1]);
    }
  }

  /** Loading one list of files and then another is loading both at once. */
  lemma MergeIsAssociative(a: seq<Schema>, b: seq<Schema>, initial: Settings)
    ensures Merged(a + b, initial) == Merged(b, Merged(a, initial))
  {
    LastDeclaredConcat(LOG, a, b, initial.log);
    LastDeclaredConcat(ADMIN, a, b, initial.admin);
    LastDeclaredConcat(EBAY, a, b, initial.ebay);
    LastDeclaredConcat(POSTGRES, a, b, initial.postgres);
    LastDeclaredConcat(VALKEY, a, b, initial.valkey);
    LastDeclaredConcat(MEILISEARCH, a, b, initial.meilisearch);
    LastDeclaredConcat(OBS, a, b, initial.obs);
    LastDeclaredConcat(API, a, b, initial.api);
    LastDeclaredConcat(SCHEDULER, a, b, initial.scheduler);
    LastDeclaredConcat(WORKER, a, b, initial.worker);
    AllWatchesConcat(a, b);
  }

  lemma LastDeclaredOne<T>(section: Schema -> Option<T>, s: Schema, initial: T)
    ensures LastDeclared(section, [s], initial) == if section(s).Some? then section(s).value else initial
  {
    assert [s][..0] == [];
  }

  lemma MergedOne(s: Schema, c: Settings)
    ensures Merged([s], c).log == if s.log.Some? then s.log.value else c.log
    ensures Merged([s], c).admin == if s.admin.Some? then s.admin.value else c.admin
    ensures Merged([s], c).ebay == if s.ebay.Some? then s.ebay.value else c.ebay
    ensures Merged([s], c).postgres == if s.postgres.Some? then s.postgres.value else c.postgres
    ensures Merged([s], c).valkey == if s.valkey.Some? then s.valkey.value else c.valkey
    ensures Merged([s], c).meilisearch == if s.meilisearch.Some? then s.meilisearch.value else c.meilisearch
    ensures Merged([s], c).obs == if s.obs.Some? then s.obs.value else c.obs
    ensures Merged([s], c).api == if s.api.Some? then s.api.value else c.api
    ensures Merged([s], c).scheduler == if s.scheduler.Some? then s.scheduler.value else c.scheduler
    ensures Merged([s], c).worker == if s.worker.Some? then s.worker.value else c.worker
    ensures Merged([s], c).watches == c.watches + s.watches
  {
    LastDeclaredOne(LOG, s, c.log);
    LastDeclaredOne(ADMIN, s, c.admin);
    LastDeclaredOne(EBAY, s, c.ebay);
    LastDeclaredOne(POSTGRES, s, c.postgres);
    LastDeclaredOne(VALKEY, s, c.valkey);
    LastDeclaredOne(MEILISEARCH, s, c.meilisearch);
    LastDeclaredOne(OBS, s, c.obs);
    LastDeclaredOne(API, s, c.api);
    LastDeclaredOne(SCHEDULER, s, c.scheduler);
    LastDeclaredOne(WORKER, s, c.worker);
    assert [s][..0] == [];
    assert AllWatches([s]) == s.watches;
  }

  /** A file that declares a section makes every earlier file's version of it irrelevant, attribute by attribute. */
  lemma RedeclaringForgets<T>(section: Schema -> Option<T>, earlier: seq<Schema>, file: Schema, later: seq<Schema>,
                              initial: T)
    requires section(file).Some?
    ensures LastDeclared(section, earlier + [file] + later, initial)
         == LastDeclared(section, later, section(file).value)
  {
    LastDeclaredConcat(section, earlier + [file], later, initial);
    LastDeclaredConcat(section, earlier, [file], initial);
  }

  // ---- flags and defaults ----

  function Or(first: string, second: string): string {
    if first != "" then first else second
  }

  function Overridden(c: Settings, f: FlagOverrides): Settings {
    c.(log := LogConfig(Or(f.logFormat, c.log.format), Or(f.logLevel, c.log.level)),
       admin := AdminConfig(Or(f.adminAddr, c.admin.addr)),
       ebay := c.ebay.(appId := Or(f.ebayAppId, c.ebay.appId), certId := Or(f.ebayCertId, c.ebay.certId)),
       postgres := c.postgres.(dsn := Or(f.postgresDsn, c.postgres.dsn)),
       valkey := c.valkey.(addr := Or(f.valkeyAddr, c.valkey.addr)),
       meilisearch := c.meilisearch.(url := Or(f.meiliUrl, c.meilisearch.url)))
  }

  function Defaulted(c: Settings): Settings {
    var d := DEFAULTS;
    c.(log := LogConfig(Or(c.log.format, d.log.format), Or(c.log.level, d.log.level)),
       admin := AdminConfig(Or(c.admin.addr, d.admin.addr)),
       ebay := c.ebay.(marketplace := Or(c.ebay.marketplace, d.ebay.marketplace)),
       api := ApiConfig(Or(c.api.addr, d.api.addr), Or(c.api.readTimeout, d.api.readTimeout),
                        Or(c.api.writeTimeout, d.api.writeTimeout)),
       scheduler := SchedulerConfig(
         Or(c.scheduler.tickInterval, d.scheduler.tickInterval),
         Or(c.scheduler.bulkReconcileInterval, d.scheduler.bulkReconcileInterval),
         Or(c.scheduler.syncInterval, d.scheduler.syncInterval)),
       obs := if c.obs.spanSampling == 0.0 then c.obs.(spanSampling := d.obs.spanSampling) else c.obs)
  }

  const NO_FLAGS := FlagOverrides("", "", "", "", "", "", "", "")

  /** The configuration all layers together make. */
  function Final(schemas: seq<Schema>, flags: FlagOverrides): Settings {
    Defaulted(Overridden(Merged(schemas, DEFAULTS), flags))
  }

  /**
   Leaf by leaf: the flag if there is one and it is not empty, else what the last declaring file says if
   that is not a zero value, else the default. A sampling ratio of 0 in a file therefore turns into 1.
   */
  lemma FinalLeaves(schemas: seq<Schema>, flags: FlagOverrides)
    ensures var c, log := Final(schemas, flags), LastDeclared(LOG, schemas, DEFAULTS.log);
      c.log == LogConfig(Or(flags.logFormat, Or(log.format, "auto")), Or(flags.logLevel, Or(log.level, "info")))
    ensures Final(schemas, flags).admin.addr
         == Or(flags.adminAddr, Or(LastDeclared(ADMIN, schemas, DEFAULTS.admin).addr, ":9090"))
    ensures var c, ebay := Final(schemas, flags), LastDeclared(EBAY, schemas, DEFAULTS.ebay);
      c.ebay == EbayConfig(Or(flags.ebayAppId, ebay.appId), Or(flags.ebayCertId, ebay.certId),
                           Or(ebay.marketplace, "EBAY_US"), ebay.rateLimit)
    ensures var c, obs := Final(schemas, flags), LastDeclared(OBS, schemas, DEFAULTS.obs);
      c.obs == obs.(spanSampling := if obs.spanSampling == 0.0 then 1.0 else obs.spanSampling)
    ensures var c, api := Final(schemas, flags), LastDeclared(API, schemas, DEFAULTS.api);
      c.api == ApiConfig(Or(api.addr, ":8080"), Or(api.readTimeout, "15s"), Or(api.writeTimeout, "15s"))
    ensures var c, sch := Final(schemas, flags), LastDeclared(SCHEDULER, schemas, DEFAULTS.scheduler);
      c.scheduler == SchedulerConfig(
        Or(sch.tickInterval, "5s"), Or(sch.bulkReconcileInterval, "12h"), Or(sch.syncInterval, "5m"))
    ensures var c, postgres := Final(schemas, flags), LastDeclared(POSTGRES, schemas, DEFAULTS.postgres);
      c.postgres == postgres.(dsn := Or(flags.postgresDsn, postgres.dsn))
    ensures var c, valkey := Final(schemas, flags), LastDeclared(VALKEY, schemas, DEFAULTS.valkey);
      c.valkey == valkey.(addr := Or(flags.valkeyAddr, valkey.addr))
    ensures var c, search := Final(schemas, flags), LastDeclared(MEILISEARCH, schemas, DEFAULTS.meilisearch);
      c.meilisearch == search.(url := Or(flags.meiliUrl, search.url))
    ensures Final(schemas, flags).watches == AllWatches(schemas)
    ensures Final(schemas, flags).worker == LastDeclared(WORKER, schemas, DEFAULTS.worker)
  {
    assert [] + AllWatches(schemas) == AllWatches(schemas);
  }

  /** The sampling ratio that the files set is the one in force exactly if it is not 0, which turns into 1. */
  lemma SamplingIsKeptIff(schemas: seq<Schema>, flags: FlagOverrides)
    ensures var declared := LastDeclared(OBS, schemas, DEFAULTS.obs).spanSampling;
      && (Final(schemas, flags).obs.spanSampling == declared <==> declared != 0.0)
      && (declared == 0.0 ==> Final(schemas, flags).obs.spanSampling == 1.0)
  {
  }

  // ---- loading in place ----

  class Config {
    var log: LogConfig
    var admin: AdminConfig
    var ebay: EbayConfig
    var postgres: PostgresConfig
    var valkey: ValkeyConfig
    var meilisearch: MeilisearchConfig
    var obs: ObsConfig
    var api: ApiConfig
    var scheduler: SchedulerConfig
    var worker: WorkerConfig
    var watches: seq<WatchConfig>

    function View(): Settings
      reads this
    {
      Settings(log, admin, ebay, postgres, valkey, meilisearch, obs, api, scheduler, worker, watches)
    }

    constructor Defaults()
      ensures View() == DEFAULTS
    {
      log := DEFAULTS.log;
      admin := DEFAULTS.admin;
      ebay := DEFAULTS.ebay;
      postgres := DEFAULTS.postgres;
      valkey := DEFAULTS.valkey;
      meilisearch := DEFAULTS.meilisearch;
      obs := DEFAULTS.obs;
      api := DEFAULTS.api;
      scheduler := DEFAULTS.scheduler;
      worker := DEFAULTS.worker;
      watches := DEFAULTS.watches;
    }

    /** Copies the declared sections over the current ones and appends the watches. */
    method ProjectSchema(s: Schema)
      modifies this
      ensures View() == Merged([s], old(View()))
    {
      MergedOne(s, View());
      ProjectStores(s);
      ProjectRoles(s);
    }

    method ProjectStores(s: Schema)
      modifies this`log, this`admin, this`ebay, this`postgres, this`valkey
      ensures log == if s.log.Some? then s.log.value else old(log)
      ensures admin == if s.admin.Some? then s.admin.value else old(admin)
      ensures ebay == if s.ebay.Some? then s.ebay.value else old(ebay)
      ensures postgres == if s.postgres.Some? then s.postgres.value else old(postgres)
      ensures valkey == if s.valkey.Some? then s.valkey.value else old(valkey)
    {
      if s.log.Some? {
        log := s.log.value;
      }
      if s.admin.Some? {
        admin := s.admin.value;
      }
      if s.ebay.Some? {
        ebay := s.ebay.value;
      }
      if s.postgres.Some? {
        postgres := s.postgres.value;
      }
      if s.valkey.Some? {
        valkey := s.valkey.value;
      }
    }

    method ProjectRoles(s: Schema)
      modifies this`meilisearch, this`obs, this`api, this`scheduler, this`worker, this`watches
      ensures meilisearch == if s.meilisearch.Some? then s.meilisearch.value else old(meilisearch)
      ensures obs == if s.obs.Some? then s.obs.value else old(obs)
      ensures api == if s.api.Some? then s.api.value else old(api)
      ensures scheduler == if s.scheduler.Some? then s.scheduler.value else old(scheduler)
      ensures worker == if s.worker.Some? then s.worker.value else old(worker)
      ensures watches == old(watches) + s.watches
    {
      if s.meilisearch.Some? {
        meilisearch := s.meilisearch.value;
      }
      if s.obs.Some? {
        obs := s.obs.value;
      }
      if s.api.Some? {
        api := s.api.value;
      }
      if s.scheduler.Some? {
        scheduler := s.scheduler.value;
      }
      if s.worker.Some? {
        worker := s.worker.value;
      }
      watches := watches + s.watches;
    }

    method ApplyFlagOverrides(flags: FlagOverrides)
      modifies this
      ensures View() == Overridden(old(View()), flags)
    {
      OverrideServing(flags);
      OverrideStores(flags);
    }

    method OverrideServing(flags: FlagOverrides)
      modifies this`log, this`admin, this`ebay
      ensures var c := Overridden(old(View()), flags); log == c.log && admin == c.admin && ebay == c.ebay
    {
      if flags.logFormat != "" {
        log := log.(format := flags.logFormat);
      }
      if flags.logLevel != "" {
        log := log.(level := flags.logLevel);
      }
      if flags.adminAddr != "" {
        admin := admin.(addr := flags.adminAddr);
      }
      if flags.ebayAppId != "" {
        ebay := ebay.(appId := flags.ebayAppId);
      }
      if flags.ebayCertId != "" {
        ebay := ebay.(certId := flags.ebayCertId);
      }
    }

    method OverrideStores(flags: FlagOverrides)
      modifies this`postgres, this`valkey, this`meilisearch
      ensures var c := Overridden(old(View()), flags);
        postgres == c.postgres && valkey == c.valkey && meilisearch == c.meilisearch
    {
      if flags.postgresDsn != "" {
        postgres := postgres.(dsn := flags.postgresDsn);
      }
      if flags.valkeyAddr != "" {
        valkey := valkey.(addr := flags.valkeyAddr);
      }
      if flags.meiliUrl != "" {
        meilisearch := meilisearch.(url := flags.meiliUrl);
      }
    }

    method ApplyDefaultsAfterMerge()
      modifies this
      ensures View() == Defaulted(old(View()))
    {
      DefaultServing(DEFAULTS);
      DefaultRoles(DEFAULTS);
    }

    method DefaultServing(d: Settings)
      modifies this`log, this`admin, this`ebay, this`obs
      ensures log == LogConfig(Or(old(log).format, d.log.format), Or(old(log).level, d.log.level))
      ensures admin == AdminConfig(Or(old(admin).addr, d.admin.addr))
      ensures ebay == old(ebay).(marketplace := Or(old(ebay).marketplace, d.ebay.marketplace))
      ensures obs == if old(obs).spanSampling == 0.0 then old(obs).(spanSampling := d.obs.spanSampling) else old(obs)
    {
      if log.format == "" {
        log := log.(format := d.log.format);
      }
      if log.level == "" {
        log := log.(level := d.log.level);
      }
      if admin.addr == "" {
        admin := admin.(addr := d.admin.addr);
      }
      if ebay.marketplace == "" {
        ebay := ebay.(marketplace := d.ebay.marketplace);
      }
      if obs.spanSampling == 0.0 {
        obs := obs.(spanSampling := d.obs.spanSampling);
      }
    }

    method DefaultRoles(d: Settings)
      modifies this`api, this`scheduler
      ensures api == ApiConfig(Or(old(api).addr, d.api.addr), Or(old(api).readTimeout, d.api.readTimeout),
                               Or(old(api).writeTimeout, d.api.writeTimeout))
      ensures scheduler == SchedulerConfig(
        Or(old(scheduler).tickInterval, d.scheduler.tickInterval),
        Or(old(scheduler).bulkReconcileInterval, d.scheduler.bulkReconcileInterval),
        Or(old(scheduler).syncInterval, d.scheduler.syncInterval))
    {
      if api.addr == "" {
        api := api.(addr := d.api.addr);
      }
      if api.readTimeout == "" {
        api := api.(readTimeout := d.api.readTimeout);
      }
      if api.writeTimeout == "" {
        api := api.(writeTimeout := d.api.writeTimeout);
      }
      if scheduler.tickInterval == "" {
        scheduler := scheduler.(tickInterval := d.scheduler.tickInterval);
      }
      if scheduler.bulkReconcileInterval == "" {
        scheduler := scheduler.(bulkReconcileInterval := d.scheduler.bulkReconcileInterval);
      }
      if scheduler.syncInterval == "" {
        scheduler := scheduler.(syncInterval := d.scheduler.syncInterval);
      }
    }
  }

  /** A file that cannot be read, parsed or decoded. */
  datatype FileError = ReadFile(cause: string) | Parse(cause: string) | Decode(cause: string)

  ghost predicate AllDecode(files: seq<Result<Schema, FileError>>) {
    forall i :: 0 <= i < |files| ==> files[i].Success?
  }

  function Schemas(files: seq<Result<Schema, FileError>>): (r: seq<Schema>)
    requires AllDecode(files)
    ensures |r| == |files|
  {
    seq(|files|, i requires 0 <= i < |files| => files[i].value)
  }

  /** Files are decoded and projected one after the other, up to the first that fails. */
  method DecodeFiles(files: seq<Result<Schema, FileError>>, cfg: Config) returns (error: Option<FileError>)
    modifies cfg
    ensures error.None? <==> AllDecode(files)
    ensures error.None? ==> cfg.View() == Merged(Schemas(files), old(cfg.View()))
    ensures error.Some? ==>
      exists i :: 0 <= i < |files| && files[i] == Failure(error.value) && AllDecode(files[..i])
  {
    for i := 0 to |files|
      invariant AllDecode(files[..i])
      invariant cfg.View() == Merged(Schemas(files[..i]), old(cfg.View()))
    {
      if files[i].Failure? {
        return Some(files[i].error);
      }
      var schema := files[i].value;
      assert files[..i + 1] == files[..i] + [files[i]];
      assert Schemas(files[..i + 1]) == Schemas(files[..i]) + [schema];
      MergeIsAssociative(Schemas(files[..i]), [schema], old(cfg.View()));
      cfg.ProjectSchema(schema);
    }
    assert files[..|files|] == files;
    return None;
  }
}
