# spt developer tools and configuration: a verified model

This project models the code of spt that holds state, loops and arithmetic: the stratified sampler of
`dataset-bootstrap`, the mock eBay server, the `dashgen` generator, the layered configuration loader, the
candidate strategies of `judge-bootstrap`, the reports of `regression-runner`, and the uploads of
`dataset-upload`. `dafny verify dfyconfig.toml` checks all of it.

## How it is laid out

| file | models |
|---|---|
| `Vocabulary.dfy`, `Sorting.dfy`, `GoStrings.dfy` | shared vocabulary; Go's sorts by contract (ordered permutation, not stable); the parts of `strings` and `strconv` in use |
| `Shuffle.dfy`, `Strata.dfy`, `Sampler.dfy`, `BucketSpec.dfy` | the stratified sampler and its bucket flag |
| `SamplerProperties.dfy`, `SamplerOrder.dfy`, `SamplerCap.dfy`, `SamplerUnbiased.dfy` | what a pull guarantees; when the order of the listings matters, without and with the total cap; unbiasedness of a whole pull |
| `Http.dfy`, `Quota.dfy`, `Scenarios.dfy`, `Search.dfy`, `MockServer.dfy` | the mock server |
| `MockServerProperties.dfy`, `MockServerAnswers.dfy`, `FaultAppends.dfy` | its runs: the counter, stamps and flips; what becomes of a request; what becomes of a fault rule |
| `Dashgen.dfy` | writing and validating generated files |
| `Config.dfy`, `ConfigValidation.dfy` | layered configuration and its validation |
| `JudgeBootstrap.dfy` | candidate surfacing |
| `RegressionRunner.dfy` | running backends and aggregating reports |
| `DatasetUpload.dfy` | idempotent upload |

Code that changes state is a class or a method with loops, proved against a specification function or
predicate; the properties are lemmas about that specification. What the code does not decide itself is a
parameter or an arbitrary choice: a random generator is any function from the bounds asked so far to a number
below the last bound, ranging over a Go map picks the remaining keys in an arbitrary order, a disk or remote
call may fail at any moment (and a failed remote call may still have taken effect), and a datastore is a record
of results. Numbers that Go holds as `float64` are `real`; the quota counter keeps its 64-bit wrap-around.

## Where the code and its documentation part

- `QuotaState.Apply` says zero fields leave the state alone. A zero `Count` overwrites it, so that setting only the
  limit resets the count; all zero fields are kept exactly if the snapshot sets a count or the counter is at 0
  (`Quota.ZeroFieldsKeptIff`, `Quota.LimitAloneResetsCount`).
- The README promises quota headers on successful responses. They are set after the handler has fixed its
  response, so over net/http no client of the shipped handlers receives them
  (`Quota.StampReachesClientIff`, `Quota.ShippedHandlersHideTheStamp`). The counter is right all the same.
- A search with a negative `offset` slices out of range and panics if the active or the default scenario has a
  search template: it neither answers nor counts. Without a template it is answered with 200 and counts like any
  other (`MockServerProperties.SearchesPanicIff`, `MockServerProperties.SearchPanics`).
- `/admin/fault` is described as appending a rule. Over any run without clears every call's rule is kept exactly
  if no call starts while another is between its two lock acquisitions (`FaultAppends.AllAppendsKeptIff`). A clear
  that falls between them is undone (`FaultAppends.ClearIsLostIff`).
- "Byte-identical output" for the same seed and population: the order in which the datastore lists the population
  changes the picks as soon as a stratum has different members to choose from, and listings that share an ID leave
  the final sort undetermined as soon as their stratum's target is at least 2. In every other case the selection
  is the same sequence (`SamplerOrder.PopulationDeterminesIff`, `SamplerOrder.OrderCounterexample`), and so it is
  for whole runs in which the total cap does not bite (`SamplerCap.UncappedRunsAgreeIff`). A cap can hide the
  difference: with distinct IDs runs agree exactly if no member of a stratum with a choice can come before the cap
  (`SamplerCap.CappedRunsAgreeIff`). The written file also carries a timestamp, which is not part of this model.
- `percentile` is called nearest-rank; it is one rank too high when `p * n` is a multiple of 100, and the latency
  is then another one unless the two neighbouring latencies are equal (`RegressionRunner.NearestRankIff`).
- `high-stakes` is described as surfacing the top decile. It surfaces the top `n`; when `n` exceeds a tenth of the
  population that reaches below the decile, unless the scores are tied from the decile's last rank down to the last
  rank returned (`JudgeBootstrap.WithinDecileIff`, `JudgeBootstrap.BelowTheDecile`).
- `span_sampling = 0` in a file becomes 1, although validation accepts 0; every other declared ratio is kept
  (`Config.SamplingIsKeptIff`, `ConfigValidation.SamplingAcceptedIff`).
- Validation and the logger read `log.format` and `log.level` with different case rules: they disagree on "json"
  spelled with a long s, and on "info" and "warning" spelled with a dotted capital I, and on nothing else
  (`ConfigValidation.FormatAgreesIff`, `ConfigValidation.LevelAgreesIff`).
- Empty input to `--per-confidence-bucket` is refused, but a value with nothing but blanks between its commas
  parses to the empty map, and no other value does (`BucketSpec.EmptyMapIff`, `BucketSpec.CommaIsEmpty`).

## Model

| member | source | states |
|---|---|---|
| Shuffle.PickIsInjectiveSelection | tools/dataset-bootstrap/sampler.go:216-223 | any draws d_i < len - i select distinct elements of the pool |
| Shuffle.PickAfterDrawsFor | tools/dataset-bootstrap/sampler.go:216-223 | every ordered selection of distinct elements is made by the draws that DrawsFor computes |
| Shuffle.DrawsForAfterPick | tools/dataset-bootstrap/sampler.go:216-223 | those draws are the only ones making that selection: Pick and DrawsFor are mutually inverse |
| Shuffle.PickIsNatural | tools/dataset-bootstrap/sampler.go:216-223 | the shuffle looks at positions only, so pools with equal elements are sampled by position |
| Shuffle.AllDrawsCount | tools/dataset-bootstrap/sampler.go:219-222 | there are len * (len - 1) * ... draw sequences of length n |
| Shuffle.EverySubsetEquallyLikely | tools/dataset-bootstrap/sampler.go:205-224 | each subset of size n is selected by exactly n! of them, whichever subset it is: the sample is unbiased |
| DatasetBootstrap.ExchangeDrawn | tools/dataset-bootstrap/sampler.go:220-221 | one round exchanges slot i with the slot drawn from the open ones, and asks for the bound len - i; slots before i stay as they are and the pool stays a permutation |
| DatasetBootstrap.ShufflePrefix | tools/dataset-bootstrap/sampler.go:219-223 | the in-place loop leaves Pick of the original pool in its first n slots and asks the stream for the bounds len, len - 1, ...; the pool ends as a permutation of what it was |
| DatasetBootstrap.UnderwayStep | tools/dataset-bootstrap/sampler.go:219-222 | a round keeps the pool a permutation of the input, and keeps "settled slots, then what the draws to come pick" equal to the whole selection: settled slots never change again |
| DatasetBootstrap.SampleN | tools/dataset-bootstrap/sampler.go:207-224 | nothing for n <= 0, everything for n >= len, otherwise the stream's selection; no draw is consumed in the first two cases |
| SamplerProperties.EverySelectionHasOneDrawSequence | tools/dataset-bootstrap/sampler.go:216-223 | for 0 < n < len every ordered choice of n positions is made by one and only one draw sequence |
| SamplerProperties.EveryDrawSequenceArises | tools/dataset-bootstrap/sampler.go:207-224 | for every draw sequence some generator makes sampleN return its selection |
| SamplerProperties.SampleIsPart | tools/dataset-bootstrap/sampler.go:207-224 | a sample is a sub-multiset of its stratum with min(size, max(0, n)) members |
| Strata.GroupByStrata | tools/dataset-bootstrap/sampler.go:134-152 | the groups are exactly the listings of each key, in listing order, keyed by the first component or as no-kind |
| Strata.InStratumIff | tools/dataset-bootstrap/sampler.go:134-152 | a listing is in a stratum exactly if its first component has the kind, the version and a confidence in the band the key names, or if it has no components and the key is that of no kind |
| Strata.GroupsPartition | tools/dataset-bootstrap/sampler.go:134-152 | in whatever order groups are visited, together they hold the listings as a multiset |
| Strata.KeyOrders | tools/dataset-bootstrap/sampler.go:169-179 | bucket then version is a strict weak order, and kind, bucket, version tells any two different keys apart |
| Strata.CanonicalKeysUnique | tools/dataset-bootstrap/sampler.go:158-179 | a set of keys has only one ordered listing, so collecting keys from maps cannot change the walk |
| Strata.CanonicalKeysAscend | tools/dataset-bootstrap/sampler.go:164-180 | in it, kinds ascend, within a kind buckets, and within a bucket extractor versions |
| Strata.AppendKind | tools/dataset-bootstrap/sampler.go:172-181 | appending a later kind's sorted keys keeps the walk canonical |
| DatasetBootstrap.KeysByKind | tools/dataset-bootstrap/sampler.go:158-162 | whatever order the groups are ranged over in, each kind has exactly its keys, once |
| DatasetBootstrap.KindNames | tools/dataset-bootstrap/sampler.go:164-169 | the kind names once each, strictly increasing |
| DatasetBootstrap.Sampler.SelectForKind | tools/dataset-bootstrap/sampler.go:189-203 | a kind's strata are sampled in the given order on the shared stream, with the bucket target or, where that is 0, the per-kind one |
| DatasetBootstrap.Sampler.SelectFromStrata | tools/dataset-bootstrap/sampler.go:155-187 | for every order of ranging over the maps, the picks are an ID-ordering of the canonical walk and the stream ends in the same state |
| DatasetBootstrap.Sampler.ApplyTotalCap | tools/dataset-bootstrap/sampler.go:229-234 | the result is a prefix: all of the picks, or a positive cap of them if there are more |
| DatasetBootstrap.FetchComponents | tools/dataset-bootstrap/sampler.go:68-76 | the components of every listing, or the error of the first listing whose read fails |
| DatasetBootstrap.AssembleSample | tools/dataset-bootstrap/sampler.go:87-105 | scores are asked for the picked IDs in order, and components are kept for exactly those IDs |
| DatasetBootstrap.Sampler.Run | tools/dataset-bootstrap/sampler.go:59-106 | the run returns one of the outcomes MayReturn allows, including the failures and the panic of a negative capacity |
| DatasetBootstrap.WalkConcat | tools/dataset-bootstrap/sampler.go:171-202 | walking strata kind by kind is walking all of them, with the stream threaded through |
| SamplerProperties.WalkCounts | tools/dataset-bootstrap/sampler.go:195-201 | each stratum contributes min(size, max(0, target)) members and no stratum contributes another's |
| SamplerProperties.SelectionStratifies | tools/dataset-bootstrap/sampler.go:155-203 | the selection is part of the listings, as long as the contributions' sum, with each stratum represented exactly |
| SamplerProperties.SelectionMeetsTargets | tools/dataset-bootstrap/sampler.go:194-202 | every stratum has min(size, max(0, target)) listings selected, the target being the configured count of its bucket if that is set and not 0, else `PerKind` |
| SamplerProperties.RunStratifies | tools/dataset-bootstrap/sampler.go:59-106 | a successful run is ID-ordered, drawn from the listings, exactly stratified unless the cap bites, and has the components of exactly its IDs |
| SamplerProperties.RunMeetsTargets | tools/dataset-bootstrap/sampler.go:59-106 | a successful run returns, in ascending ID order, a selection in which every stratum meets the target of its bucket or else `PerKind`, cut to its first `TotalCap` listings only if that is positive and exceeded |
| SamplerProperties.RunIsDeterministic | tools/dataset-bootstrap/sampler.go:155-203 | if listings share an ID only in strata with a target below 2, any two runs on the same inputs and stream return the same result and consume the same draws |
| SamplerOrder.DeterminedForEverySourceIff | tools/dataset-bootstrap/sampler.go:155-203 | it is determined for every stream exactly if no stratum with a target of at least 2 holds two different listings with one ID |
| SamplerOrder.OrderCounterexample | tools/dataset-bootstrap/sampler.go:207-224 | two listings in two orders, one asked for, the same generator: different samples |
| SamplerOrder.ChoiceDepends | tools/dataset-bootstrap/sampler.go:134-203 | a stratum with different members to choose from draws different ones for some order of the listings |
| SamplerOrder.OrderMattersIff | tools/dataset-bootstrap/sampler.go:155-203 | over all streams, the order of the listings never changes which are selected exactly if no stratum with 0 < target < size has different members |
| SamplerOrder.PopulationDeterminesIff | tools/dataset-bootstrap/sampler.go:155-203 | the same seed selects the same sequence from the same population, however listed, exactly under both conditions |
| SamplerOrder.StreamIgnoresOrder | tools/dataset-bootstrap/sampler.go:194-201 | the bounds asked of the stream depend on the sizes of the strata only |
| SamplerOrder.RunIgnoresOrder | tools/dataset-bootstrap/sampler.go:59-106 | under both conditions whole runs, cap included, agree in result and consumed draws however the population is listed |
| SamplerCap.KeptIff | tools/dataset-bootstrap/sampler.go:183-185 | of an ID-ordered selection exactly the listings with fewer smaller ones than the cap are kept |
| SamplerCap.WalkBelow | tools/dataset-bootstrap/sampler.go:195-201 | every draw holds at least as many listings smaller than m as the strata, with their targets, cannot avoid |
| SamplerCap.OrderShows | tools/dataset-bootstrap/sampler.go:155-234 | if those are fewer than the cap for a member of a stratum with a choice, some order of the listings keeps another sample |
| SamplerCap.OrderIsHidden | tools/dataset-bootstrap/sampler.go:155-234 | if they are not for any such member, every order and stream keeps the same sample |
| SamplerCap.CappedOrderMattersIff | tools/dataset-bootstrap/sampler.go:155-234 | with distinct IDs and a positive cap, what is kept never depends on the order exactly if no member of a stratum with a choice can come before the cap |
| SamplerCap.RunsAgreeIff | tools/dataset-bootstrap/sampler.go:59-106 | runs on the same stream and population agree, in result and consumed draws, exactly if what they keep does |
| SamplerCap.UncappedRunsAgreeIff | tools/dataset-bootstrap/sampler.go:59-106 | where the cap does not bite, runs agree however the population is listed exactly if no stratum has different members to choose from and none with a target of at least 2 holds different listings with one ID |
| SamplerCap.CappedRunsAgreeIff | tools/dataset-bootstrap/sampler.go:59-106 | with distinct IDs and a positive cap, runs agree exactly if no member of a stratum with a choice can be kept |
| SamplerUnbiased.EveryStreamArises | tools/dataset-bootstrap/sampler.go:171-202 | every combination of answers below the bounds of a whole pull is given by some generator, and the pull is what they pick |
| SamplerUnbiased.MadeIsPicked | tools/dataset-bootstrap/sampler.go:195-201 | answers that settle chosen positions pick exactly the listings at them from every stratum with a choice |
| SamplerUnbiased.EveryCombinationEquallyLikely | tools/dataset-bootstrap/sampler.go:171-224 | each combination of one target-sized subset per stratum with a choice is made by the same number of streams, the product of the factorials of the targets |
| SamplerProperties.SmallerCapRunIsPrefix | tools/dataset-bootstrap/sampler.go:226-234 | of two runs differing in the cap, the one with the smaller positive cap returns a prefix of the other's listings, with the same components for them, and consumes the same draws |
| Sorting.SortDeterminedIff | tools/dataset-bootstrap/sampler.go:182-185 | an unstable sort's result is determined exactly when elements that tie are equal |
| Sorting.SortSlice | tools/dataset-bootstrap/sampler.go:174-179 | an ordered permutation; nothing is promised about ties |
| Sorting.StrLessIff | tools/dataset-bootstrap/sampler.go:182-185 | one string sorts before another exactly if the other continues it or has the larger character where they first differ |
| BucketSpec.ParseBuckets | tools/dataset-bootstrap/config.go:47-73 | the parsing loop computes ParseSpec, error cases included |
| BucketSpec.PairRoundTrip | tools/dataset-bootstrap/config.go:53-70 | one printed "name:N" reads back as itself, with any blanks around its parts and ':' allowed in the name |
| BucketSpec.ParseInvertsPrint | tools/dataset-bootstrap/config.go:47-73 | parsing the comma-joined print of any non-empty list of entries gives the last-wins map |
| BucketSpec.ParsedSpecIsGood | tools/dataset-bootstrap/config.go:57-70 | accepted names are trimmed, non-empty and comma-free, accepted counts lie in 0 to the largest int |
| BucketSpec.AcceptedIff | tools/dataset-bootstrap/config.go:47-73 | a spec is accepted exactly if it is not blank and each part is blank or has something before its last colon and an integer of at least 0 after it |
| BucketSpec.ReprintIsStable | tools/dataset-bootstrap/config.go:47-73 | printing a parsed map in any order and parsing it again gives the same map |
| BucketSpec.NoKindAlwaysGetsPerKind | tools/dataset-bootstrap/sampler.go:195-199 | no accepted flag changes the target of listings without components |
| BucketSpec.EmptyMapIff | tools/dataset-bootstrap/config.go:44-72 | the empty map results exactly from a spec that is not blank and has only blanks between its commas |
| BucketSpec.CommaIsEmpty | tools/dataset-bootstrap/config.go:44-72 | a comma alone is such a spec, and the empty spec is refused |
| GoStrings.SplitJoin | tools/dataset-bootstrap/config.go:52 | splitting at a separator inverts joining parts that lack it |
| GoStrings.AtoiOfItoa | tools/dataset-bootstrap/config.go:63 | decimal text of a non-negative 64-bit number reads back as that number |
| GoStrings.LastIndexIsLast | tools/dataset-bootstrap/config.go:57 | no separator follows the one found |
| Quota.AtoiOfFormatInt | tools/mock-server/quota.go:83-85 | the decimal text of any 64-bit number, negative ones included, reads back as that number |
| Http.StatusRecorder.WriteHeader | tools/mock-server/quota.go:110-116 | the recorder keeps the first code and passes every code on |
| Http.StatusRecorder.Write | tools/mock-server/quota.go:118-123 | a write before any code settles 200 |
| Http.ServeHTTP | tools/mock-server/quota.go:94-95 | running a handler on the recorder leaves recorder and writer in the states its calls lead to |
| Http.ClientReceives | tools/mock-server/quota.go:88-100 | the client receives what the first response-fixing call fixed, with the headers set before it |
| Http.RecorderKeeps | tools/mock-server/quota.go:104-123 | the recorded status is that of the first WriteHeader or Write |
| Http.RecorderAgreesIff | tools/mock-server/quota.go:102-123 | recorded and received status agree exactly when the first such call is not an informational WriteHeader |
| Quota.QuotaState.Apply | tools/mock-server/quota.go:53-69 | count always overwritten; limit, window and auto-increment only if set |
| Quota.ZeroFieldsKeptIff | tools/mock-server/quota.go:49-69 | every zero field of a snapshot is left as it was exactly if the snapshot sets a count or the count is 0 |
| Quota.LimitAloneResetsCount | tools/mock-server/quota.go:49-69 | a snapshot that sets only the limit resets the count |
| Quota.QuotaState.TakeSnapshot | tools/mock-server/quota.go:36-47 | applying the snapshot to any later state brings the counter back, given a positive limit and a named window |
| Quota.QuotaState.IncrementAndStamp | tools/mock-server/quota.go:73-86 | the counter goes up by one with 64-bit wrap-around if counting is on, and the three headers show the new state |
| Quota.QuotaState.Middleware | tools/mock-server/quota.go:92-100 | counter and response change exactly if the recorded status is 2xx |
| Quota.RemainingIsFlooredIff | tools/mock-server/quota.go:79-82 | the stamped remainder is max(0, limit - count) exactly when the difference fits 64 bits |
| Quota.StampTells | tools/mock-server/quota.go:79-85 | the three headers read back as the limit, the count, and what is left of the limit or 0; no other header changes |
| Quota.CountedIff | tools/mock-server/quota.go:92-123 | a request counts unless the first call of its handler on the response is a WriteHeader with a code outside 200 to 299 |
| Quota.StampReachesClientIff | tools/mock-server/quota.go:88-100 | the client sees the stamp exactly when the handler returned without fixing its response |
| Quota.ShippedHandlersHideTheStamp | tools/mock-server/handlers.go:234-240 | the shipped handlers fix theirs, so no client sees the headers; a 200 still counts and a 404 does not |
| Scenarios.LoadScenarios | tools/mock-server/scenarios.go:69-102 | the registry holds exactly the directories; loading succeeds exactly if the root can be read, all directories load and one is the default, and fails with the first of these that does not hold |
| Scenarios.ResolveIsOverlay | tools/mock-server/scenarios.go:158-170 | resolving an item is a lookup in the default items overlaid by the active ones |
| Scenarios.TemplateIsOwnOrDefault | tools/mock-server/scenarios.go:192-199 | a search uses the template that the active scenario ships, else the one the default scenario ships |
| MockServer.FirstMatchIsFirst | tools/mock-server/faultinject.go:72-81 | the rule found is the first that matches |
| MockServer.FaultInjector.Match | tools/mock-server/faultinject.go:72-81 | the scanning loop finds that rule, or none |
| MockServer.Server.SetActiveScenario | tools/mock-server/server.go:111-122 | succeeds exactly for loaded names; a rejected flip changes neither name nor quota |
| MockServer.Server.HandleSetFault | tools/mock-server/handlers.go:171-204 | rejects exactly bodies that do not decode, or that do not clear and have no endpoint that compiles; otherwise, without interference, clears the rules or appends one and answers with their number |
| MockServer.Server.HandleSetQuota | tools/mock-server/handlers.go:158-166 | applies the snapshot and answers with one that has its count and describes the new state |
| MockServer.NewServer | tools/mock-server/server.go:54-100 | succeeds exactly with a logger, fixtures that load and a known scenario, whose quota is applied; each refusal has its own error, and its cause holds |
| MockServer.QuotaAfterApplied | tools/mock-server/quota.go:53-69 | applying a snapshot is what the log of counter events says after one more Applied entry |
| MockServer.QuotaAfterResponse | tools/mock-server/quota.go:73-78 | a stamped response moves the logged counter by one, wrap-around included, and any other response leaves it |
| MockServer.StepKeepsInv | tools/mock-server/server.go:102-145 | every event, at lock granularity, keeps: the active scenario is loaded, the counter is what the log says, every stamp shows the counter at its own place |
| MockServer.InitialInv | tools/mock-server/server.go:82-99 | a new server satisfies it |
| MockServer.RunKeepsInv | tools/mock-server/server.go:102-145 | so it holds after any interleaving of requests, admin calls and scenario flips |
| MockServerProperties.CounterFollowsLog | tools/mock-server/quota.go:53-123 | count is the last applied count plus the later 2xx completions on metered routes while counting is on; misses, injected faults and panics never count |
| MockServerProperties.ScenarioNeverDangles | tools/mock-server/server.go:111-122 | no run makes a scenario active, or answers from one, that is not loaded |
| MockServerProperties.SearchesPanicIff | tools/mock-server/handlers.go:35-74 | in every reachable state the searches that ended in a panic are exactly those with a negative offset that found a template, and all others that ended were answered with 200 and stamped |
| MockServerProperties.SearchPanics | tools/mock-server/handlers.go:66-74 | one such request on a new server does end in a panic and leaves the counter alone |
| MockServerProperties.CompleteIsMiddleware | tools/mock-server/quota.go:92-100 | completing a metered request does to the counter what the middleware does around the shipped handlers |
| MockServerProperties.SuccessiveStampsAreConsecutive | tools/mock-server/quota.go:73-86 | between applies, stamped counts follow each other by one in lock order while counting is on |
| MockServerProperties.EachRequestEndsOnce | tools/mock-server/server.go:129-145 | under each request ID every arrival has ended exactly once, except the one in flight |
| MockServerProperties.RequestsAreConserved | tools/mock-server/server.go:129-145 | in all, as many requests have arrived as are in flight or have ended |
| MockServerProperties.RunConcat | tools/mock-server/server.go:102-145 | running events in two parts is running them all |
| MockServerProperties.BeginFlipCommutes | tools/mock-server/server.go:111-122 | the first half of a flip can be moved after any event that happens before its second half |
| MockServerProperties.FlipIsAtomic | tools/mock-server/server.go:111-122 | whatever happens between a flip's two locks, the outcome is that of the flip happening in one piece at its end |
| MockServerProperties.FlipInOnePiece | tools/mock-server/server.go:111-122 | in one piece, it changes name and quota as SetActiveScenario does: the count is set to that of the scenario flipped to, and its positive limit, named window and auto-increment are taken over; a scenario without a quota leaves the counter alone |
| MockServerAnswers.CountedAreFound | tools/mock-server/handlers.go:95-111 | in every reachable state the counted responses are the searches and the requests for items that the active or the default scenario ships; a request for any other item ended in an uncounted 404 |
| MockServerAnswers.AnsweredAsHandled | tools/mock-server/handlers.go:95-111 | a request is answered from the scenario that was active when it was handled, whatever happens before it completes |
| MockServerAnswers.ArrivalDecidesFault | tools/mock-server/faultinject.go:54-81 | over any run, a request ends only in an injected fault if the first rule whose pattern matched its path on arrival has a fail rate of 1 or more, and never if that rate is at most 0 or no rule matched, whatever happens to the rules meanwhile |
| MockServerAnswers.NextStepIff | tools/mock-server/faultinject.go:54-70 | after its arrival a request can be faulted exactly if that rule has a positive rate, and handled exactly if there is no such rule with a rate of 1 or more and no flip is holding the lock it needs |
| FaultAppends.RulesAreBounded | tools/mock-server/handlers.go:197-202 | no more rules are in force, or read by an open call, than there were at first and have been put in place since |
| FaultAppends.CallsInTurnAppend | tools/mock-server/handlers.go:197-202 | while no two calls overlap, the rules are the old ones followed by those of the calls in order |
| FaultAppends.OverlapLoses | tools/mock-server/handlers.go:197-202 | once two calls have overlapped, a rule is lost or bound to be lost |
| FaultAppends.AllAppendsKeptIff | tools/mock-server/handlers.go:168-204 | over any run without clears that starts and ends between calls, all N rules are appended exactly if no two calls overlap; otherwise there are fewer |
| FaultAppends.UndisturbedAppend | tools/mock-server/handlers.go:197-202 | a call keeps its rule if no other call changes the rules between its two lock acquisitions |
| FaultAppends.OverlappingAppendIsLost | tools/mock-server/handlers.go:197-202 | of two overlapping calls the first to replace is lost |
| FaultAppends.UndisturbedSurvive | tools/mock-server/handlers.go:182-202 | over any run in which calls and clears take turns, exactly the rules that no later clear removes are in force, in order |
| FaultAppends.ClearIsLostIff | tools/mock-server/handlers.go:182-202 | a clear between a call's two lock acquisitions is undone; the outcome is that of clearing first only if there were no rules |
| Search.ContainsAllWords | tools/mock-server/handlers.go:222-232 | every non-empty term occurs in the title |
| Search.ContainsIff | tools/mock-server/handlers.go:222-232 | a term is contained exactly if it is the text at some position |
| Search.HandleSearch | tools/mock-server/handlers.go:35-80 | total, effective limit, and the page cut out of the matching items; a panic for a negative offset |
| Search.OddLimitIsFifty | tools/mock-server/handlers.go:54-56 | limits outside 1 to 200 act as 50, others as they are, and no page is longer than its limit |
| Search.CollectedIsPrefix | tools/mock-server/handlers.go:66-74 | the first k pages hold the first k * L matching items |
| Search.PagesTile | tools/mock-server/handlers.go:51-79 | walking offsets 0, L, 2L, ... takes ceil(total / L) non-empty pages that concatenate to the matching items, with the same total on each |
| Search.TermsCompose | tools/mock-server/handlers.go:222-232 | filtering by a ++ b is filtering by a and then by b |
| Search.TermsAreASet | tools/mock-server/handlers.go:222-232 | order, repetition and empty terms do not matter |
| Dashgen.WriteAtomic | tools/dashgen/main.go:153-165 | on success the target has the data and the temporary file is gone; on failure only the temporary file differs; no state in between shows the target half written |
| Dashgen.WriteOrCompare | tools/dashgen/main.go:108-128 | one file is written, or compared and its report line added; validation changes nothing |
| Dashgen.Generate | tools/dashgen/main.go:73-106 | a write passes only through mid-write states and ends with every file written; validation leaves the disk alone and reports exactly the drift; failure only for a failed operation, a file that does not marshal, or an unknown mode |
| Dashgen.AfterAt | tools/dashgen/main.go:153-165 | what a path holds after a write is decided by the last file that used it as target or temporary name |
| Dashgen.CrashLeavesOldOrNew | tools/dashgen/main.go:151-165 | at every moment of a write with disjoint targets, the first k targets are new and all others old |
| Dashgen.OtherPathsUntouched | tools/dashgen/main.go:153-165 | no other path ever changes |
| Dashgen.RewriteConverges | tools/dashgen/main.go:73-106 | writing again after a crash anywhere gives the clean result |
| Dashgen.ReportIsExact | tools/dashgen/main.go:112-123 | validation reports one line per missing or differing target, in registry order |
| Dashgen.WriteThenValidateCleanIff | tools/dashgen/main.go:73-128 | a completed write makes validation clean exactly if the last file to use each target wants the same content there |
| Dashgen.DisjointIsCoherent | tools/dashgen/main.go:73-128 | which holds if no target is another's target or temporary name |
| Dashgen.ShippedRegistryIsDisjoint | tools/dashgen/dashboards.go:19-26 | and that holds for the files the tool ships, whatever prefix joining the output directory puts before them |
| Config.Config.ProjectSchema | internal/config/loader.go:159-191 | projecting one file in place is merging it: declared sections replace, watches append |
| Config.DecodeFiles | internal/config/loader.go:128-153 | the loop computes the last-declaration-wins merge of all files, or fails with the first file that does not decode |
| Config.MergeIsAssociative | internal/config/loader.go:117-153 | loading one list of files and then another is loading both at once |
| Config.RedeclaringForgets | internal/config/loader.go:155-191 | once a file declares a section, no earlier file's attributes of it survive |
| Config.Config.ApplyFlagOverrides | internal/config/loader.go:211-236 | non-empty flags replace their leaves and nothing else changes |
| Config.Config.ApplyDefaultsAfterMerge | internal/config/loader.go:242-277 | zero-valued leaves get their defaults and nothing else changes |
| Config.Config.Defaults | internal/config/types.go:172-198 | a fresh configuration has the documented defaults |
| Config.FinalLeaves | internal/config/loader.go:37-63 | each leaf is the flag, else the last declaring file's non-zero value, else the default |
| Config.SamplingIsKeptIff | internal/config/loader.go:274-276 | the declared sampling ratio is the one in force exactly if it is not 0, which turns into 1 |
| ConfigValidation.ContainsFold | internal/config/validate.go:59-66 | some word of the list folds to the needle |
| ConfigValidation.ValidationError.Add | internal/config/errors.go:84-90 | appends one problem, or nothing without an error |
| ConfigValidation.ValidationError.AddRequired | internal/config/errors.go:93-100 | appends a required-field problem exactly for an empty value |
| ConfigValidation.ValidationError.Is | internal/config/errors.go:72-82 | some problem is of the kind asked for |
| ConfigValidation.Validate | internal/config/validate.go:27-38 | all problems in the fixed order, or nil if there are none |
| ConfigValidation.ProblemsAreExact | internal/config/validate.go:48-117 | a problem is reported if and only if the configuration breaks that requirement |
| ConfigValidation.DurationProblemsIff | internal/config/durations.go:45-48 | a duration is reported as invalid exactly if it is set and does not parse, for each api and scheduler field and for a watch of the name |
| ConfigValidation.WatchIsFineIff | internal/config/validate.go:106-117 | a watch has no problem exactly if it has a query, a rate from 0 to 1, and a cadence that parses or none |
| ConfigValidation.SamplingAcceptedIff | internal/config/validate.go:68-72 | validation accepts exactly the ratios from 0 to 1, 0 included |
| ConfigValidation.FormatAgreesIff | internal/obs/slog.go:69-83 | for every string, validation accepts a format exactly if the logger does, except "json" spelled with a long s |
| ConfigValidation.LevelAgreesIff | internal/obs/slog.go:51-64 | for every string, validation accepts a level exactly if the logger does, except "info" and "warning" spelled with a dotted I |
| ConfigValidation.AgreementCounterexamples | internal/config/validate.go:59-66 | both exceptions occur |
| ConfigValidation.Load | internal/config/loader.go:37-64 | files, flags, defaults and validation composed: the final settings, or the first file's error, or all problems |
| ConfigValidation.DefaultsAreValid | internal/config/types.go:169-198 | without files and flags loading succeeds, given that the default durations parse |
| ConfigValidation.LoadedIsUsable | internal/obs/tracing.go:47-50 | a loaded sampling ratio is in (0, 1], so the tracer's fallback never fires; the logger takes the level, and the format up to the one exception |
| JudgeBootstrap.LoadAllCandidates | tools/judge-bootstrap/strategy.go:236-267 | the candidates are the scored listings in order; it fails exactly if some read fails, components of unscored listings included, and with the first that does |
| JudgeBootstrap.PercentileBoundaries | tools/judge-bootstrap/strategy.go:269-283 | the scores at ranks n/4, n/2 and 3n/4 |
| JudgeBootstrap.QuartilesAreOrderedScores | tools/judge-bootstrap/strategy.go:269-283 | marks do not decrease and are candidates' scores |
| JudgeBootstrap.QuartilesIgnoreOrder | tools/judge-bootstrap/strategy.go:269-283 | marks do not depend on the order of the candidates |
| JudgeBootstrap.DistanceToNearest | tools/judge-bootstrap/strategy.go:285-294 | the least distance to a mark, infinite without marks |
| JudgeBootstrap.TakeClosest | tools/judge-bootstrap/strategy.go:98-109 | stopping at the first out-of-band candidate still returns the min(n, number in band) closest, nearest first, and leaves out none that is closer |
| JudgeBootstrap.AmbiguousStrategy.Surface | tools/judge-bootstrap/strategy.go:78-110 | that, for the loaded candidates and their quartiles; it fails exactly if loading does, with its error |
| JudgeBootstrap.AmbiguousIsEmptyIff | tools/judge-bootstrap/strategy.go:78-110 | nothing is returned exactly without candidates, for n = 0 or for a negative band; otherwise a candidate with exactly a quartile's score comes first |
| JudgeBootstrap.BandIsInPoints | tools/judge-bootstrap/strategy.go:98-109 | everything returned lies within 100 * `BandPct` points of a quartile, it is as many candidates as do or as were asked for, and if fewer, then all that do |
| JudgeBootstrap.HighStakesStrategy.Surface | tools/judge-bootstrap/strategy.go:160-184 | min(n, all) candidates, highest first, none left out scoring higher |
| JudgeBootstrap.WithinDecileIff | tools/judge-bootstrap/strategy.go:151-184 | everything returned has fewer than a tenth of the candidates above it exactly if nothing or no more than a tenth was asked for, there are no candidates, or the scores are tied from the decile's last rank down to the last one returned |
| JudgeBootstrap.BelowTheDecile | tools/judge-bootstrap/strategy.go:151-184 | of ten candidates with different scores and two asked for, the second returned is below the decile |
| JudgeBootstrap.LowConfidenceStrategy.Surface | tools/judge-bootstrap/strategy.go:125-147 | the first n candidates with a component below the threshold, in order, with their least confidence |
| JudgeBootstrap.LowestBelowIff | tools/judge-bootstrap/strategy.go:135-141 | the least confidence is below the threshold exactly if some component's is |
| JudgeBootstrap.DisagreementStrategy.Surface | tools/judge-bootstrap/strategy.go:202-232 | the first n candidates with a disagreeing or uncertain judgment, with the first such judgment; empty without a judgment reader |
| JudgeBootstrap.ContestedIff | tools/judge-bootstrap/strategy.go:219-230 | exactly the candidates whose score has a disagreeing or uncertain judgment surface, and the first such judgment is the reason |
| RegressionRunner.MatchComponents | tools/regression-runner/matcher.go:11-38 | exact if the kinds agree position by position, otherwise none; partial never occurs |
| RegressionRunner.Percentile | tools/regression-runner/report.go:75-87 | the latency at rank floor(p * n / 100), capped, and 0 for no latencies |
| RegressionRunner.PercentileBounds | tools/regression-runner/report.go:72-87 | for p < 100 more than p percent of the latencies are at most the result and at most p percent are below it |
| RegressionRunner.NearestRankIff | tools/regression-runner/report.go:72-87 | the result is the nearest-rank percentile exactly if p * n is not a multiple of 100 or the latencies at the two neighbouring positions are equal |
| RegressionRunner.NearestRankOfDistinct | tools/regression-runner/report.go:72-87 | on distinct latencies, exactly if p * n is not a multiple of 100 |
| RegressionRunner.NearestRankCounterexample | tools/regression-runner/report.go:72-87 | for latencies 1 and 2 the median by nearest rank is 1 and the code's is 2 |
| RegressionRunner.PercentileIsMonotone | tools/regression-runner/report.go:75-87 | a higher percentile is never a smaller latency |
| RegressionRunner.MedianAtMostP95 | tools/regression-runner/report.go:67-68 | P50 is at most P95 in every report |
| RegressionRunner.Aggregate | tools/regression-runner/report.go:25-70 | outcome counts, accuracy, per-kind accuracies of exactly the kinds that occur, and the two percentiles, as IsReport defines them by counting |
| RegressionRunner.TalliesAddUp | tools/regression-runner/report.go:39-58 | per-kind totals and correct counts add up to the overall ones, and outcome counts to the number of results |
| RegressionRunner.AccuracyIsWeightedMean | tools/regression-runner/report.go:60-66 | accuracy is the mean of the per-kind accuracies weighted by their totals |
| RegressionRunner.KindAccuracyIsShare | tools/regression-runner/report.go:34-66 | a kind is reported exactly if some result expects it first, or expects nothing for "<no-kind>", and its accuracy is the share of exact matches among those results |
| RegressionRunner.ReportIgnoresOrder | tools/regression-runner/report.go:25-70 | permuting the results changes no number of the report |
| RegressionRunner.ExecuteBackend | tools/regression-runner/main.go:132-154 | one result per entry in order, a backend error recorded as no match with the expected components kept |
| RegressionRunner.ExecuteAll | tools/regression-runner/main.go:117-130 | one report per backend in order |
| RegressionRunner.NoPartialMatches | tools/regression-runner/matcher.go:11-38 | no report counts a partial match |
| DatasetUpload.Uploader.Upsert | tools/dataset-upload/uploader.go:29-44 | all items uploaded, or a prefix of them after the first failing call (which may have taken effect); nothing in a dry run |
| DatasetUpload.UploadAt | tools/dataset-upload/uploader.go:29-44 | a row holds the last content with its ID, or what it held before |
| DatasetUpload.RetryConverges | tools/dataset-upload/uploader.go:26-44 | a completed upload after a failed one leaves the rows of one clean upload, for any ID function |
| DatasetUpload.ManyRetriesConverge | tools/dataset-upload/uploader.go:26-44 | and so after any number of failed ones |
| DatasetUpload.OrderDoesNotMatter | tools/dataset-upload/ids.go:16-19 | without ID collisions, order and repetition of the items do not matter |
| DatasetUpload.OneRowPerContentIff | tools/dataset-upload/ids.go:16-19 | a fresh dataset gets one row per distinct content exactly if no two contents share an ID |

## Left out

- Queue, datastore, scheduler, cache, search, agent and eBay client packages: interfaces without code that decides a property.
- HCL, JSON and YAML text, regular expressions, URL escapes, SHA-256 and `time.ParseDuration`: functions or results given as parameters.
- The PCG generator: any function of the bounds asked stands for it, so nothing is said about the quality of its numbers.
- Floating point: scores, confidences, rates and accuracies are reals, without rounding or NaN.
- Quota.QuotaState.Apply: the reset time, which is a clock reading plus a duration, is not modelled; the other fields are.
- Quota.QuotaState.TakeSnapshot: the time left until the reset, likewise.
- SamplerCap.CappedRunsAgreeIff: listings that share an ID under a cap that bites have the sufficient condition of SamplerOrder.RunIgnoresOrder only.
- Clocks: latency sleeps, timestamps in reports and sample files.
- Error texts and log lines; `Why` is a value instead of a sentence.
- Aliasing of slices: results are sequence values, so sharing of backing arrays between a page, a cap or a fault rule set and its origin is not captured. The pool of `sampleN` is an array.
- Very large `PerKind` values, for which `make` panics although the value is positive.
- Directories on disk: `MkdirAll` may fail but creates nothing in the model, which sees files only; a failed rename leaves the temporary file, as on disk.
- Discovery of configuration files, and the environment: the files arrive decoded or failed, in order.
- `watch` blocks' notify settings and the paths a configuration remembers, which no modelled code reads.
- Invalid UTF-8 in log settings: folding and lowering are per character.
- Passage of admin calls through the fault middleware, and the OAuth, analytics and listing endpoints, which change nothing.
- `atoiOr` on query parameters: limit and offset arrive as integers.
- `ParseItems`: left out as decoding; the contents to upload arrive as a list.
- Backends that answer differently on a second call for the same listing: a backend is a function of the listing.
- Dashgen.Generate: dashboards and rule files are one list of files, in the order in which the two loops visit them.
- DatasetBootstrap.ShufflePrefix: the loop of `sampleN` with its round as a method of its own; other loops split off in the same way are KeysByKind, KindNames, FetchComponents, AssembleSample, Tallied, Accuracies and SurfaceLoaded.
- JudgeBootstrap.HighStakesStrategy.Surface: for a negative n the source panics on its slice bound; n is a natural number here, as for the other strategies.
