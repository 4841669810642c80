/**
 * The ETL service: transform two extracted lists into canonical records,
 * load them with one keyed upsert each, and run the whole process while
 * keeping an `EtlRun` document whose status goes from "started" to
 * "completed" or "failed".  The two extractions (an HTTP call and a CSV file
 * read) are given as their outcomes; `parseFloat` and the `Date` constructor
 * on strings are uninterpreted conversions; clock readings are parameters.
 */
module EtlService {
  import opened Wrappers
  import opened Strings
  import opened MarketDataModel
  import opened EtlRunModel
  import opened DocumentStore

  /** A property of a parsed JSON object or CSV row, `undefined` when absent. */
  type Field = Option<string>

  /** An asset object of the API response (only the properties the transform reads). */
  datatype ApiItem = ApiItem(symbol: string, priceUsd: Field, volumeUsd24Hr: Field, timestamp: Field)

  /** A CSV row as the CSV parser yields it, keyed by the header names. */
  datatype CsvRow = CsvRow(ticker: string, price_usd: Field, tx_volume: Field, time: Field)

  /** The uninterpreted conversions: `parseFloat(s)` and `new Date(s)` on strings. */
  datatype Conversions = Conversions(parseFloat: string -> Num, parseDate: string -> Date)

  /** `parseFloat(field)`; `parseFloat(undefined)` is NaN. */
  function ParseFloatField(c: Conversions, f: Field): Num {
    match f
    case None => NaN
    case Some(s) => c.parseFloat(s)
  }

  /** `new Date(field)`; `new Date(undefined)` is the Invalid Date. */
  function DateField(c: Conversions, f: Field): Date {
    match f
    case None => InvalidDate
    case Some(s) => c.parseDate(s)
  }

  /** The canonical record of one API item; a falsy timestamp falls back to `now`. */
  function FromApi(c: Conversions, item: ApiItem, now: int): (r: MarketRecord)
    ensures r.symbol == item.symbol && r.source == Api
    ensures r.price_usd == ParseFloatField(c, item.priceUsd)
    ensures r.volume == Some(ParseFloatField(c, item.volumeUsd24Hr))
    ensures r.timestamp == if Truthy(item.timestamp) then c.parseDate(item.timestamp.value) else Instant(now)
  {
    MarketRecord(
      item.symbol,
      ParseFloatField(c, item.priceUsd),
      Some(ParseFloatField(c, item.volumeUsd24Hr)),
      Api,
      if Truthy(item.timestamp) then c.parseDate(item.timestamp.value) else Instant(now))
  }

  /** The canonical record of one CSV row; its timestamp comes from `time`, with no fallback. */
  function FromCsv(c: Conversions, row: CsvRow): (r: MarketRecord)
    ensures r.symbol == row.ticker && r.source == Csv
    ensures r.price_usd == ParseFloatField(c, row.price_usd)
    ensures r.volume == Some(ParseFloatField(c, row.tx_volume))
    ensures r.timestamp == DateField(c, row.time)
  {
    MarketRecord(row.ticker, ParseFloatField(c, row.price_usd), Some(ParseFloatField(c, row.tx_volume)), Csv, DateField(c, row.time))
  }

  /** `transformData`: all API records in input order, then all CSV records in input order. */
  function TransformData(apiData: seq<ApiItem>, csvData: seq<CsvRow>, c: Conversions, now: int): (r: seq<MarketRecord>)
    ensures |r| == |apiData| + |csvData|
    ensures forall i :: 0 <= i < |apiData| ==> r[i] == FromApi(c, apiData[i], now)
    ensures forall j :: 0 <= j < |csvData| ==> r[|apiData| + j] == FromCsv(c, csvData[j])
  {
    seq(|apiData|, i requires 0 <= i < |apiData| => FromApi(c, apiData[i], now))
    + seq(|csvData|, j requires 0 <= j < |csvData| => FromCsv(c, csvData[j]))
  }

  /** The number of records tagged with a source. */
  function CountSource(rs: seq<MarketRecord>, s: Source): (n: nat)
    ensures n <= |rs|
  {
    if rs == [] then 0 else (if rs[0].source == s then 1 else 0) + CountSource(rs[1..], s)
  }

  lemma {:induction false} CountSourceAppend(a: seq<MarketRecord>, b: seq<MarketRecord>, s: Source)
    ensures CountSource(a + b, s) == CountSource(a, s) + CountSource(b, s)
    decreases |a|
  {
    if a != [] {
      assert (a + b)[1..] == a[1..] + b;
      CountSourceAppend(a[1..], b, s);
    } else {
      assert a + b == b;
    }
  }

  lemma {:induction false} CountSourceAll(rs: seq<MarketRecord>, s: Source)
    requires forall i :: 0 <= i < |rs| ==> rs[i].source == s
    ensures CountSource(rs, s) == |rs| && CountSource(rs, if s == Api then Csv else Api) == 0
    decreases |rs|
  {
    if rs != [] {
      CountSourceAll(rs[1..], s);
    }
  }

  /** No record is dropped or invented: one "api" record per API item and one "csv" record per CSV row. */
  lemma TransformCountsSources(apiData: seq<ApiItem>, csvData: seq<CsvRow>, c: Conversions, now: int)
    ensures var r := TransformData(apiData, csvData, c, now);
            CountSource(r, Api) == |apiData| && CountSource(r, Csv) == |csvData|
  {
    var r := TransformData(apiData, csvData, c, now);
    var a, b := r[..|apiData|], r[|apiData|..];
    assert r == a + b;
    CountSourceAll(a, Api);
    CountSourceAll(b, Csv);
    CountSourceAppend(a, b, Api);
    CountSourceAppend(a, b, Csv);
  }

  // ---------------------------------------------------------------- load

  /** The `bulkWrite` operations of `loadData`: one upsert per record, keyed by (symbol, timestamp), setting the whole record. */
  function OperationsFor(data: seq<MarketRecord>): (ops: seq<UpdateOne>)
    ensures |ops| == |data| && Consistent(ops)
    ensures forall i :: 0 <= i < |data| ==> ops[i].update == data[i]
  {
    seq(|data|, i requires 0 <= i < |data| => UpdateOne(KeyOf(data[i]), data[i]))
  }

  /** `upsertedCount + modifiedCount`. */
  function RowsProcessed(docs: map<Key, StoredDoc>, ops: seq<UpdateOne>, now: int): (n: nat)
    ensures n <= |ops|
  {
    CountsBound(docs, ops, now);
    Counts(docs, ops, now).upserted + Counts(docs, ops, now).modified
  }

  /**
   * `loadData`: nothing is written for a missing or empty list, which counts
   * 0 rows; otherwise the upserts are sent in one `bulkWrite`, whose
   * rejection propagates.
   */
  method LoadData(store: MarketDataCollection, data: Option<seq<MarketRecord>>, now: int, fault: Option<JsError>)
    returns (r: Result<nat, JsError>)
    modifies store
    ensures (data.None? || data.value == []) ==> r == Ok(0) && store.docs == old(store.docs)
    ensures data.Some? && data.value != [] && fault.Some? ==> r == Err(fault.value) && store.docs == old(store.docs)
    ensures data.Some? && data.value != [] && fault.None? ==>
              r == Ok(RowsProcessed(old(store.docs), OperationsFor(data.value), now))
              && store.docs == Upserted(old(store.docs), OperationsFor(data.value), now)
  {
    if data.None? || data.value == [] {
      return Ok(0);
    }
    var operations := OperationsFor(data.value);
    var result := store.BulkWrite(operations, now, fault);
    match result
    case Err(e) =>
      r := Err(e);
    case Ok(counts) =>
      r := Ok(counts.upserted + counts.modified);
  }

  /** After a load, each key of the batch holds the last record of the batch with that key. */
  lemma LoadLastRecordWins(docs: map<Key, StoredDoc>, data: seq<MarketRecord>, now: int, j: nat)
    requires j < |data|
    requires forall i :: j < i < |data| ==> KeyOf(data[i]) != KeyOf(data[j])
    ensures var after := Upserted(docs, OperationsFor(data), now);
            KeyOf(data[j]) in after && after[KeyOf(data[j])].record == data[j]
  {
    var ops := OperationsFor(data);
    BatchRecordsLast(ops, j);
    UpsertedRecords(docs, ops, now);
  }

  /** A load leaves every document whose key is not in the batch exactly as it was. */
  lemma LoadLeavesOthers(docs: map<Key, StoredDoc>, data: seq<MarketRecord>, now: int, k: Key)
    requires forall i :: 0 <= i < |data| ==> KeyOf(data[i]) != k
    ensures var after := Upserted(docs, OperationsFor(data), now);
            (k in after <==> k in docs) && (k in docs ==> after[k] == docs[k])
  {
    UpsertedFrame(docs, OperationsFor(data), now, k);
  }

  /** Loading the same batch twice leaves the same records as loading it once, and the second load inserts nothing. */
  lemma LoadIdempotent(docs: map<Key, StoredDoc>, data: seq<MarketRecord>, t1: int, t2: int)
    ensures var ops := OperationsFor(data);
            var once := Upserted(docs, ops, t1);
            Records(Upserted(once, ops, t2)) == Records(once) && Counts(once, ops, t2).upserted == 0
  {
    UpsertIdempotent(docs, OperationsFor(data), t1, t2);
    ReapplyUpsertsNothing(docs, OperationsFor(data), t1, t2);
  }

  /** A load never breaks the (symbol, timestamp) unique index. */
  lemma LoadKeepsIndex(docs: map<Key, StoredDoc>, data: seq<MarketRecord>, now: int)
    requires Keyed(docs)
    ensures Keyed(Upserted(docs, OperationsFor(data), now))
  {
    UpsertedKeyed(docs, OperationsFor(data), now);
  }

  /** A batch of distinct keys none of which is stored yet reports one processed row per record. */
  lemma LoadFreshBatch(docs: map<Key, StoredDoc>, data: seq<MarketRecord>, now: int)
    requires forall i, j :: 0 <= i < j < |data| ==> KeyOf(data[i]) != KeyOf(data[j])
    requires forall i :: 0 <= i < |data| ==> KeyOf(data[i]) !in docs
    ensures RowsProcessed(docs, OperationsFor(data), now) == |data|
  {
    FreshBatchCounts(docs, OperationsFor(data), now);
  }

  // --------------------------------------------------------- orchestrator

  /** The outcomes of the two concurrent extractions; when both reject, `csvRejectsFirst` says which rejection wins the race. */
  datatype Extractions = Extractions(
    api: Result<seq<ApiItem>, JsError>,
    csv: Result<seq<CsvRow>, JsError>,
    csvRejectsFirst: bool)

  /** `Promise.all([fetchFromApi(), fetchFromCsv()])`: both lists, or the first rejection. */
  function JoinExtractions(x: Extractions): (r: Result<(seq<ApiItem>, seq<CsvRow>), JsError>)
    ensures r.Ok? <==> x.api.Ok? && x.csv.Ok?
    ensures r.Ok? ==> r.value == (x.api.value, x.csv.value)
    ensures r.Err? ==> (x.api.Err? && r.error == x.api.error) || (x.csv.Err? && r.error == x.csv.error)
    ensures x.api.Err? && x.csv.Ok? ==> r == Err(x.api.error)
    ensures x.api.Ok? && x.csv.Err? ==> r == Err(x.csv.error)
  {
    if x.api.Err? && (x.csv.Ok? || !x.csvRejectsFirst) then Err(x.api.error)
    else if x.csv.Err? then Err(x.csv.error)
    else Ok((x.api.value, x.csv.value))
  }

  /** The clock readings of one run: the run's creation, the transform, the load, and its end. */
  datatype Clock = Clock(start: int, transformNow: int, loadNow: int, end: int)

  /** What `runEtlProcess` resolves to; `Rejected` is the promise rejecting because the first save failed. */
  datatype RunOutcome =
    | Success(run_id: string, rows_processed: nat)
    | Failure(run_id: string, error: string)
    | Rejected

  /** The records a run loads when both extractions succeed. */
  function RunData(x: Extractions, c: Conversions, clock: Clock): seq<MarketRecord>
    requires x.api.Ok? && x.csv.Ok?
  {
    TransformData(x.api.value, x.csv.value, c, clock.transformNow)
  }

  /**
   * `runEtlProcess`: save a new run, extract, transform, load, and record the
   * run's final status and end time; any failure after the first save ends
   * the run "failed" with exactly one error entry.
   */
  method RunEtlProcess(
    market: MarketDataCollection, runs: RunCollection, uuid: string, clock: Clock,
    sources: Extractions, c: Conversions, loadFault: Option<JsError>)
    returns (outcome: RunOutcome)
    requires runs.Valid()
    modifies market, runs
    ensures runs.Valid()
    ensures outcome.Rejected? <==> DefaultRunId(uuid) in old(runs.runs)
    ensures outcome.Rejected? ==> runs.runs == old(runs.runs) && market.docs == old(market.docs)
    ensures !outcome.Rejected? ==>
              var id := DefaultRunId(uuid);
              && outcome.run_id == id && id in runs.runs
              && runs.runs == old(runs.runs)[id := runs.runs[id]]
              && runs.runs[id].run_id == id
              && runs.runs[id].status == (if outcome.Success? then Completed else Failed)
              && Transition(Started, runs.runs[id].status)
              && runs.runs[id].start_time == clock.start
              && runs.runs[id].end_time == Some(clock.end)
              && runs.runs[id].stats == ZeroStats
              && runs.runs[id].resume_from.None?
              && (clock.start <= clock.end ==> Lifecycle(runs.runs[id]))
    ensures outcome.Success? ==> runs.runs[DefaultRunId(uuid)].errors == []
    ensures outcome.Failure? ==>
              var errs := runs.runs[DefaultRunId(uuid)].errors;
              |errs| == 1 && errs[0].message == outcome.error && errs[0].timestamp == clock.end
    // Extraction failure: neither transform nor load runs.
    ensures JoinExtractions(sources).Err? && !outcome.Rejected? ==>
              outcome == Failure(DefaultRunId(uuid), JoinExtractions(sources).error.message)
              && runs.runs[DefaultRunId(uuid)].errors[0].details == JoinExtractions(sources).error.stack
              && market.docs == old(market.docs)
    // Both extractions succeed: the transformed records are loaded.
    ensures JoinExtractions(sources).Ok? && !outcome.Rejected? ==>
              var data := RunData(sources, c, clock);
              var ops := OperationsFor(data);
              if data == [] then
                outcome == Success(DefaultRunId(uuid), 0) && market.docs == old(market.docs)
              else if loadFault.Some? then
                outcome == Failure(DefaultRunId(uuid), loadFault.value.message)
                && runs.runs[DefaultRunId(uuid)].errors[0].details == loadFault.value.stack
                && market.docs == old(market.docs)
              else
                outcome == Success(DefaultRunId(uuid), RowsProcessed(old(market.docs), ops, clock.loadNow))
                && market.docs == Upserted(old(market.docs), ops, clock.loadNow)
  {
    var etlRun := NewEtlRun(uuid, clock.start);
    var saved := runs.Insert(etlRun);
    if !saved {
      return Rejected;
    }
    var failure: Option<JsError> := None;
    var rowsProcessed: nat := 0;
    var extracted := JoinExtractions(sources);
    match extracted {
      case Err(e) =>
        failure := Some(e);
      case Ok(lists) =>
        var transformedData := TransformData(lists.0, lists.1, c, clock.transformNow);
        var loaded := LoadData(market, Some(transformedData), clock.loadNow, loadFault);
        match loaded {
          case Err(e) => failure := Some(e);
          case Ok(n) => rowsProcessed := n;
        }
    }
    if failure.None? {
      etlRun := etlRun.(status := Completed, end_time := Some(clock.end));
      runs.Update(etlRun);
      assert runs.runs[etlRun.run_id] == etlRun;
      outcome := Success(etlRun.run_id, rowsProcessed);
    } else {
      var error := failure.value;
      etlRun := etlRun.(status := Failed, end_time := Some(clock.end),
                        errors := etlRun.errors + [NewRunError(error.message, error.stack, clock.end)]);
      runs.Update(etlRun);
      assert runs.runs[etlRun.run_id] == etlRun;
      outcome := Failure(etlRun.run_id, error.message);
    }
  }
}
