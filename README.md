# ETL service — a Dafny model

This project models the core of `etl-service`, a small Node.js ETL (extract, transform, load) service for market data:

- **Extract and transform.** Two sources are read: a crypto-asset HTTP API and a CSV file. Their items become canonical `MarketRecord`s.
- **Load.** The records go into a MongoDB collection with one keyed upsert each, so re-running a batch leaves the same records.
- **Run log.** Every run gets an `EtlRun` document whose status goes from "started" to "completed" or "failed".
- **Read API.** An HTTP interface pages through the stored records with a cursor and reports run statistics.
- **Guard.** A bearer-token check protects the refresh endpoint.
- **Token bucket.** A rate limiter with one bucket per source key. No other file of the service imports or calls it.

The modules follow the program's files:

| module | file | models |
|---|---|---|
| `Wrappers` | `wrappers.dfy` | `Option` and `Result` |
| `Strings` | `strings.dfy` | the JavaScript string operations the core relies on: `toUpperCase`, `trim`, `split` on one character, `parseInt(s, 10)` |
| `MarketDataModel` | `market_data_model.dfy` | the `MarketData` schema: its setters, its validators and its unique index |
| `EtlRunModel` | `etl_run_model.dfy` | the `EtlRun` schema: its defaults, its status enum and the run lifecycle |
| `DocumentStore` | `document_store.dfy` | the two collections as stateful classes, including the upsert semantics of MongoDB `bulkWrite` |
| `EtlService` | `etl_service.dfy` | `transformData`, `loadData` and `runEtlProcess` |
| `RateController` | `rate_controller.dfy` | the `TokenBucket` class and the `rateController` registry |
| `DataController` | `data_controller.dfy` | `getData` and `getStats` |
| `Auth` | `auth.dfy` | the `protectWithToken` middleware |

How the environment is handled:

- **Inputs.** The outcome of each extraction (the HTTP call and the CSV read) is a parameter. So are clock readings (`Date.now()`, `new Date()`), fresh UUIDs, and a fault injected into a database write.
- **Conversions.** `parseFloat` and `new Date(string)` are uninterpreted functions, passed in with the inputs.
- **State.** The stores are classes whose fields the methods update: `map`s keyed by the unique index.
- **The rest.** Everything else is pure functions, with lemmas about them.

What the code does and does not do:

- The code has no retries or backoff, no raw-data cache, no reconciliation of drifted CSV headers, no quarantine for invalid rows, and no checkpoints or resume. `runEtlProcess` does one extract, transform and load, with no validity filter. `resume_from` and `stats` are schema fields that are never written.
- A bucket refills only after strictly more than one interval (`elapsed > interval`), so waiting exactly one interval adds nothing (`RateController.ExactIntervalAddsNothing`).

## Model

| member | source | states |
|---|---|---|
| Strings.Upper | src/api/models/marketData.model.js:8 | upper-casing keeps the length and maps each character through the ASCII case map |
| Strings.UpperIdempotent | src/api/controllers/data.controller.js:13 | upper-casing an upper-cased string changes nothing |
| Strings.UpperTrimCommute | src/api/models/marketData.model.js:8-9 | the `uppercase` and `trim` setters commute |
| Strings.TrimStart | src/api/models/marketData.model.js:9 | only leading whitespace is removed, and the result starts with non-whitespace |
| Strings.TrimEnd | src/api/models/marketData.model.js:9 | only trailing whitespace is removed, and the result ends with non-whitespace |
| Strings.Trim | src/api/models/marketData.model.js:9 | the result of `trim` neither starts nor ends with whitespace |
| Strings.TrimPiece | src/api/models/marketData.model.js:9 | `trim` gives a contiguous piece of the string, and everything cut off on either side is whitespace |
| Strings.Split | src/api/middleware/auth.js:8 | `split` on one character gives at least one segment, and no segment contains the separator |
| Strings.JoinSplit | src/api/middleware/auth.js:8 | joining the segments with the separator gives back the original string |
| Strings.SplitConcat | src/api/middleware/auth.js:8 | a separator-free word followed by the separator is split off as the first segment |
| Strings.ParseInt | src/api/controllers/data.controller.js:35 | `parseInt` is NaN exactly when, after leading whitespace and one sign, no digit follows |
| Strings.ParseShowInt | src/api/controllers/data.controller.js:35 | `parseInt` reads back the decimal form of every integer |
| MarketDataModel.ParseSourceName | src/api/models/marketData.model.js:18-23 | the `source` enum accepts exactly "api" and "csv", each naming its source |
| MarketDataModel.NormalizeSymbol | src/api/models/marketData.model.js:5-10 | a stored symbol has no lower-case letter and no surrounding whitespace |
| MarketDataModel.NormalizeSymbolIdempotent | src/api/models/marketData.model.js:5-10 | normalising a normalised symbol changes nothing |
| MarketDataModel.ValidationErrors | src/api/models/marketData.model.js:5-28 | a path fails exactly when its required value is missing, the symbol is empty after trimming, the `Number` cast meets NaN (price or a given volume), the `Date` cast meets the Invalid Date, or the source is outside the enum |
| MarketDataModel.Validate | src/api/models/marketData.model.js:5-28 | validation succeeds iff no path fails; a valid document keeps the given values, with the symbol normalised, a price and volume that are not NaN and a valid timestamp; otherwise the error lists every failing path |
| MarketDataModel.VolumeOptional | src/api/models/marketData.model.js:15-17 | leaving the volume out, or giving any number that is not NaN, makes no difference to whether a document validates |
| MarketDataModel.NaNVolumeRejected | src/api/models/marketData.model.js:15-17 | a NaN volume fails the `Number` cast on the volume path, whatever the other fields hold |
| MarketDataModel.ValidateStable | src/api/models/marketData.model.js:5-28 | re-validating a stored document gives it back unchanged |
| EtlRunModel.ParseStatusName | src/api/models/etlRun.model.js:17-21 | the status enum accepts exactly the four status names, in both directions |
| EtlRunModel.ParseStatus | src/api/models/etlRun.model.js:19 | a status string is accepted iff it is one of the four names |
| EtlRunModel.DefaultRunId | src/api/models/etlRun.model.js:5-9 | the default run id is "run_" followed by exactly the UUID |
| EtlRunModel.DefaultRunIdInjective | src/api/models/etlRun.model.js:5-9 | two default run ids are equal iff their UUIDs are |
| EtlRunModel.NewRunError | src/api/models/etlRun.model.js:34-40 | an error entry keeps its message and details and is stamped with the time it is pushed |
| EtlRunModel.NewEtlRun | src/api/models/etlRun.model.js:4-41 | a new run is "started", has no end time, zero stats, no errors, no resume point and a "run_" id, and it satisfies the lifecycle invariant |
| EtlRunModel.FinishKeepsLifecycle | src/api/models/etlRun.model.js:14-21 | finishing a started run with a terminal status and a later end time keeps the lifecycle invariant |
| DocumentStore.KeyedIsUnique | src/api/models/marketData.model.js:35 | a collection stored under its keys satisfies the unique (symbol, timestamp) index |
| DocumentStore.BatchRecordsKeys | src/services/etl.service.js:88-94 | the batch's last-record-per-key map covers exactly the batch keys |
| DocumentStore.BatchRecordsLast | src/services/etl.service.js:88-96 | a key is set to the update of the last operation that filters on it |
| DocumentStore.UpsertedRecords | src/services/etl.service.js:96 | after a bulk upsert, the records are the old ones overridden by the batch's last record per key |
| DocumentStore.UpsertedFrame | src/services/etl.service.js:96 | documents whose key is not in the batch are untouched, timestamps included |
| DocumentStore.UpsertIdempotent | src/services/etl.service.js:79-96 | applying a batch again, at any time, leaves the same records |
| DocumentStore.UpsertedKeyed | src/api/models/marketData.model.js:35 | consistent upserts keep the collection keyed, so the unique index is never violated |
| DocumentStore.UpsertedKeys | src/services/etl.service.js:92 | the keys after an upsert are the old keys plus the batch keys |
| DocumentStore.UpsertedCountIsNewKeys | src/services/etl.service.js:96-97 | `upsertedCount` is the number of distinct batch keys that were absent before |
| DocumentStore.CountsBound | src/services/etl.service.js:97 | upserted plus modified never exceeds the number of operations |
| DocumentStore.DistinctBatchKeys | src/services/etl.service.js:88-94 | a batch of pairwise distinct filters has as many keys as operations |
| DocumentStore.FreshBatchCounts | src/services/etl.service.js:96-97 | a batch of distinct new keys reports every operation as an upsert and none as modified |
| DocumentStore.ReapplyUpsertsNothing | src/services/etl.service.js:79-96 | a batch applied a second time inserts nothing |
| DocumentStore.MarketDataCollection.constructor | src/api/models/marketData.model.js:37 | a new collection is empty |
| DocumentStore.MarketDataCollection.BulkWrite | src/services/etl.service.js:96 | a fault rejects with that error and changes nothing; otherwise the collection becomes the batch applied in order, and the counts are those of the batch |
| DocumentStore.RunCollection.constructor | src/api/models/etlRun.model.js:43 | a new run collection is empty and valid |
| DocumentStore.RunCollection.Insert | src/services/etl.service.js:108-109 | the first save of a run succeeds iff its `run_id` is new, and then adds exactly that run |
| DocumentStore.RunCollection.Update | src/services/etl.service.js:129 | saving an existing run replaces that run and nothing else |
| EtlService.FromApi | src/services/etl.service.js:55-61 | an API item keeps its symbol, parses price and volume, is tagged "api", and uses the given timestamp when that is truthy or else the current time |
| EtlService.FromCsv | src/services/etl.service.js:64-70 | a CSV row's ticker becomes its symbol; price and volume are parsed; it is tagged "csv"; its timestamp comes from `time` with no fallback |
| EtlService.TransformData | src/services/etl.service.js:53-74 | all API records come first in input order, then all CSV records in input order, one per input |
| EtlService.TransformCountsSources | src/services/etl.service.js:53-74 | the output has one "api" record per API item and one "csv" record per CSV row |
| EtlService.OperationsFor | src/services/etl.service.js:88-94 | one upsert per record, filtering on the record's own key and setting the record |
| EtlService.RowsProcessed | src/services/etl.service.js:97 | the rows reported never exceed the records sent |
| EtlService.LoadData | src/services/etl.service.js:81-100 | a missing or empty list loads nothing and reports 0; a write fault propagates and leaves the collection unchanged; otherwise the collection is upserted and `upsertedCount + modifiedCount` is returned |
| EtlService.LoadLastRecordWins | src/services/etl.service.js:88-96 | each key of a loaded batch holds the batch's last record with that key |
| EtlService.LoadLeavesOthers | src/services/etl.service.js:88-96 | a load leaves every document outside the batch exactly as it was |
| EtlService.LoadIdempotent | src/services/etl.service.js:76-100 | loading a batch twice leaves the same records as loading it once, and the second load upserts nothing |
| EtlService.LoadKeepsIndex | src/api/models/marketData.model.js:35 | a load never breaks the unique (symbol, timestamp) index |
| EtlService.LoadFreshBatch | src/services/etl.service.js:96-99 | a batch of distinct, not yet stored keys reports one processed row per record |
| EtlService.JoinExtractions | src/services/etl.service.js:114-117 | `Promise.all` yields both lists iff both extractions succeed; otherwise it rejects with the error of a failed one, and with the only one when just one fails |
| EtlService.RunEtlProcess | src/services/etl.service.js:106-145 | the run is saved "started"; a duplicate id rejects with nothing changed; otherwise the run ends "completed" with no errors, or "failed" with exactly one error whose message, stack and time are those of the failure; extraction failure leaves the market data unchanged; otherwise the transformed records are loaded and the rows returned |
| RateController.Fresh | src/services/rate.controller.js:2-8 | a new bucket starts full, timed from its creation |
| RateController.TakeState | src/services/rate.controller.js:21-28 | taking never changes the bucket's configuration |
| RateController.RefillState | src/services/rate.controller.js:10-19 | refill keeps the configuration, leaves the refill time or moves it to now, and in a bucket within bounds never removes tokens nor exceeds the capacity |
| RateController.RefillQuiet | src/services/rate.controller.js:10-19 | refill changes nothing unless strictly more than one interval has elapsed |
| RateController.ExactIntervalAddsNothing | src/services/rate.controller.js:13 | waiting exactly one interval adds no token |
| RateController.RefillWholeIntervals | src/services/rate.controller.js:13-17 | when k whole intervals plus a remainder shorter than one have elapsed, and more than one interval in all, k quanta are added, capped at capacity, and the refill time moves to now |
| RateController.OneIntervalRefill | src/services/rate.controller.js:13-16 | strictly between one and two intervals, exactly one quantum is added, capped |
| RateController.RefillDiscardsFraction | src/services/rate.controller.js:15-17 | the partial interval is discarded: with a 10 ms interval, refills at 15 ms and at 30 ms add 2 tokens, where a single refill at 30 ms adds 3 |
| RateController.TakeSpends | src/services/rate.controller.js:21-28 | a take is granted iff the refilled bucket has a token, and then spends exactly one; a refusal spends none |
| RateController.TakeInBounds | src/services/rate.controller.js:16-24 | every take keeps `0 <= tokens <= capacity` |
| RateController.Takes | src/services/rate.controller.js:21-28 | n consecutive takes give n answers and keep the interval |
| RateController.TakesDrain | src/services/rate.controller.js:21-28 | with the clock standing still, the first n takes succeed while tokens remain, spending one each |
| RateController.FreshBucketGrantsCapacity | src/services/rate.controller.js:2-28 | a fresh bucket grants exactly `capacity` takes at one instant and refuses the next |
| RateController.TakesSplit | src/services/rate.controller.js:21-28 | n + 1 takes are n takes followed by one more |
| RateController.TokenBucket.constructor | src/services/rate.controller.js:2-8 | a new bucket object is in the fresh state |
| RateController.TokenBucket.Refill | src/services/rate.controller.js:10-19 | refilling in place moves the state to the refill of the old state |
| RateController.TokenBucket.Take | src/services/rate.controller.js:21-28 | taking in place moves the state as `TakeState` says, returns its grant, and preserves the bounds invariant |
| RateController.LookupAsWritten | src/services/rate.controller.js:34 | `buckets[source]` is a bucket iff one was stored; an inherited member iff the name is an `Object.prototype` member with no bucket; undefined otherwise |
| RateController.InheritedNameShadowsBucket | src/services/rate.controller.js:31-37 | on a fresh registry, the key "toString" finds an inherited member, not a bucket |
| RateController.RateRegistry.constructor | src/services/rate.controller.js:31 | the registry starts empty |
| RateController.RateRegistry.RateControllerAsWritten | src/services/rate.controller.js:33-38 | as written: an inherited name gives back the prototype member and creates nothing; a known key gives back its bucket; otherwise a fresh bucket is stored and returned |
| RateController.RateRegistry.RateController | src/services/rate.controller.js:33-38 | a known key gives back the same bucket; any other key gets a fresh bucket with the given configuration; other keys are untouched |
| DataController.FilterOf | src/api/controllers/data.controller.js:11-23 | the filter has a symbol constraint iff the symbol is truthy, and that constraint has no lower-case letter; a timestamp constraint iff a start or end date is given, each bound iff its own parameter is given; an `_id` bound iff the cursor is truthy |
| DataController.FilterMatchesEligible | src/api/controllers/data.controller.js:11-23 | the filter document built from a query matches exactly the documents the query asks for |
| DataController.LimitOf | src/api/controllers/data.controller.js:35 | the limit is never 0 |
| DataController.LimitParsed | src/api/controllers/data.controller.js:35 | a limit written as a non-zero integer is that integer |
| DataController.LimitDefault | src/api/controllers/data.controller.js:35 | a missing, non-numeric or zero limit is 10 |
| DataController.Filtered | src/api/controllers/data.controller.js:40 | `find` returns exactly the collection's documents that match the filter, each at most as often as the collection holds it |
| DataController.SortDesc | src/api/controllers/data.controller.js:41 | sorting by `_id` descending gives a descending permutation of its input |
| DataController.FindSubMultiset | src/api/controllers/data.controller.js:40-42 | the documents read are a sub-multiset of the collection |
| DataController.DataResponseFor | src/api/controllers/data.controller.js:8-55 | the response is a page in descending `_id` order whose cursor, when set, is the page's last id, or the 500 "Error fetching data" |
| DataController.GetData | src/api/controllers/data.controller.js:8-55 | the handler's response is the query's specified response |
| DataController.CastFailureIsServerError | src/api/controllers/data.controller.js:18-21 | the answer is a 500 "Error fetching data" iff a date is invalid or the cursor is not a valid id |
| DataController.SortByIgnored | src/api/controllers/data.controller.js:25-32 | `sortBy` never affects the response |
| DataController.PageContents | src/api/controllers/data.controller.js:40-42 | a page has only eligible documents, each at most as often as the collection holds it, in descending `_id` order, and at most the limit's size; any eligible document left out is at or below the last one returned, and then the page is full |
| DataController.NextCursorOnFullPage | src/api/controllers/data.controller.js:44 | `nextCursor` is set iff the page length equals the limit, and it is then the last `_id` on the page |
| DataController.FollowCursor | src/api/controllers/data.controller.js:36-44 | the page read with the returned cursor lies strictly below every document of this page; with unique ids, every eligible document not on this page is eligible for the next one |
| DataController.LatestRun | src/api/controllers/data.controller.js:63 | the latest run is absent iff there are no runs, and otherwise is a run with the largest start time |
| DataController.FindMetric | src/api/controllers/data.controller.js:87-92 | the metric found has the requested name, and none is found iff no metric has it |
| DataController.GetStats | src/api/controllers/data.controller.js:60-108 | the count is the collection's size; the time is null iff there are no runs, and then the status is "N/A" and the average 0; otherwise the time is the latest start time |
| DataController.StatsLastRun | src/api/controllers/data.controller.js:95-98 | status "N/A" and a null time exactly when there are no runs; otherwise the time and status of a run with the latest start |
| DataController.StatsMissingMetrics | src/api/controllers/data.controller.js:85-93 | missing metrics count as 0 |
| DataController.StatsNoCompletedRun | src/api/controllers/data.controller.js:66-83 | the average latency is 0 when no completed run has an end time |
| DataController.StatsAverageBounds | src/api/controllers/data.controller.js:66-83 | the average latency lies between the smallest and the largest completed-run latency bounds |
| Auth.TokenOf | src/api/middleware/auth.js:8 | the header has a token iff it contains a space, and a token never contains one |
| Auth.SegmentCount | src/api/middleware/auth.js:8 | `split(" ")` gives more than one segment iff the header contains a space |
| Auth.TokenIsSecondWord | src/api/middleware/auth.js:8 | the token is the characters after the first space, up to the next space or the end of the header |
| Auth.ProtectWithTokenAsWritten | src/api/middleware/auth.js:1-15 | (as written) `next` is called exactly when the header is non-empty and its token is strictly equal to the secret, where an absent token equals an unset secret; every other request gets the 401 or the 403 |
| Auth.ProtectWithToken | src/api/middleware/auth.js:1-15 | (corrected) `next` is called exactly when the header is non-empty, a secret is configured and the header's token equals it; every other request gets the 401 or the 403 response |
| Auth.MissingHeaderIs401 | src/api/middleware/auth.js:4-6 | 401 exactly when the header is missing or empty; every other refusal is 403 |
| Auth.BearerPasses | src/api/middleware/auth.js:8-14 | "scheme secret" passes for any scheme and any trailing space-separated words, and fails when the secret is followed by other characters |
| Auth.NoSpaceRefused | src/api/middleware/auth.js:8-12 | a non-empty header without a space is refused with 403 when a secret is set |
| Auth.ConfiguredAgrees | src/api/middleware/auth.js:1-15 | with a secret configured, the corrected guard decides exactly as the code does |
| Auth.UnsetSecretAdmitsAnyWord | src/api/middleware/auth.js:8-14 | with no secret configured, the code lets the header "x" through while the corrected guard refuses it |

## Left out

- Extraction I/O. Both the CoinCap HTTP call and the CSV file read are parameters that give their outcome: a list or an error. As written, `fetchFromApi` calls `get`, which src/services/etl.service.js never imports. The call therefore throws inside its `try`, and `fetchFromApi` rejects with "API fetch failed" on every call, so every run as shipped ends "failed" with that message. In the model this is the case where the API outcome is that error, and `EtlService.RunEtlProcess` covers it. `fetchFromCsv` also uses `__dirname`, which is undefined in an ES module.
- Logging (`console.log`/`console.error`) is left out: it has no effect on state or results.
- EtlService.FromApi: one clock reading stands for the per-item `Date.now()` calls inside the map.
- EtlService.RunEtlProcess: the error entry's `timestamp` default and `end_time` are given the same clock reading. `rows_processed` is set on the document but is not a schema field, so it appears only in the returned value.
- EtlService.RunEtlProcess: a failing save after the first one is not modelled; the first save may fail only on a duplicate `run_id`. `runEtlProcess` is assumed not to run twice at once.
- EtlService.LoadData: a write fault rejects the whole `bulkWrite`. The partial writes of an ordered bulk operation that stops part-way are not modelled, and neither are cast/validation failures of individual records. Mongoose applies the `uppercase` and `trim` setters and its casts when it casts the `$set` and the filter; the model does not apply them, and keeps each value as the code passes it. A NaN price or an Invalid Date fails that cast, and the model leaves such a rejection to the fault parameter.
- Timestamps on MarketData are modelled as `createdAt` and `updatedAt` at a single time per batch.
- Strings.Upper: only ASCII letters are upper-cased. Strings.Trim: only ASCII whitespace plus vertical tab and form feed count as whitespace. The full Unicode tables of `toUpperCase` and `trim` are not modelled.
- EtlService.FromApi and EtlService.FromCsv assume the symbol and ticker properties are present strings. An absent one would be `undefined` in the record; validation would then reject it, and the model does not carry that path.
- DataController.GetData: a database error during `find`, which the handler also answers with the 500 "Error fetching data", is not modelled; `DataController.CastFailureIsServerError` is an iff only under that assumption.
- DataController.GetData: a query parameter given twice (an array in Express) is not modelled; each parameter is absent or one string. `new Date(s)` and the `_id` cast from a string are uninterpreted.
- DataController.Matches: a document's timestamp is compared only when both it and the bound are valid dates, which stands in for the type-bracketed comparison of MongoDB.
- DataController.GetStats: a database error, which would give the 500 "Error fetching stats", is not modelled. The aggregate pipeline is a function over all runs. `countDocuments` is the collection's size. The metric registry is a list of name/values pairs.
- DataController.StatsAverageBounds: latencies are integer milliseconds, and the average is exact real division rather than floating-point.
- RateController.TokenBucket.constructor, RateController.TokenBucket.Refill, RateController.TokenBucket.Take and RateController.RateRegistry.RateController require a positive interval. With an interval of 0 or less, the JavaScript division gives Infinity or NaN, which is not modelled.
- RateController: `Date.now()` is a parameter. The `async` of `take` is left out; there is no interleaving to model, since its body does not await.
- The configuration of the database connection, the scheduler, the Express app and its routes, the quarantine, checkpoint and schema-version models, and the seed scripts are not part of this model.
- Number values are a tagged datatype (finite real, NaN, infinity); floating-point rounding is not modelled.

## Findings

| source | as written | input that shows it | evidently intended | confidence | as-written member | corrected member |
|---|---|---|---|---|---|---|
| src/services/rate.controller.js:31-37 | `buckets` is a plain `{}`, so `buckets[source]` also finds members inherited from `Object.prototype` | `rateController("toString", 5, 1, 1000)` on a fresh registry returns the `toString` function and creates no bucket | every source gets its own token bucket, whatever its name | not executed | RateController.RateRegistry.RateControllerAsWritten (with RateController.InheritedNameShadowsBucket) | RateController.RateRegistry.RateController |
| src/api/middleware/auth.js:8-14 | with `SECRET_REFRESH_TOKEN` unset, `header.split(" ")[1]` and the secret are both `undefined`, so `!==` finds them equal | header `Authorization: x`, secret unset: `next()` is called | a request passes only when a secret is configured and the header carries it | not executed | Auth.ProtectWithTokenAsWritten (with Auth.UnsetSecretAdmitsAnyWord) | Auth.ProtectWithToken |
