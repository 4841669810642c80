/**
 * The read side: `getData` turns query parameters into a MongoDB filter
 * (upper-cased symbol, inclusive date range, `_id` below a cursor), reads at
 * most `limit` documents in descending `_id` order, and hands back a cursor
 * for the next page only when the page is full; `getStats` summarises the
 * collections with fallbacks for empty results.
 */
module DataController {
  import opened Wrappers
  import opened Strings
  import opened MarketDataModel
  import opened EtlRunModel

  /** A query-string parameter: its string value, or absent. */
  type Param = Option<string>

  /** Document ids, abstract and totally ordered. */
  type ObjectId = int

  /** A stored market-data document together with its `_id`. */
  datatype Doc = Doc(id: ObjectId, record: MarketRecord)

  /** The query parameters `getData` reads. */
  datatype Query = Query(symbol: Param, startDate: Param, endDate: Param, sortBy: Param, limit: Param, cursor: Param)

  /** The uninterpreted conversions a query relies on: `new Date(s)` and the cast of a cursor string to an id. */
  datatype Codecs = Codecs(parseDate: string -> Date, castId: string -> Option<ObjectId>)

  // ------------------------------------------------------------- filter

  /** `filter.timestamp`: the `$gte` and `$lte` bounds. */
  datatype DateRange = DateRange(gte: Option<Date>, lte: Option<Date>)

  /** The filter document handed to `find`: `symbol`, `timestamp` and `_id: { $lt: cursor }`. */
  datatype Filter = Filter(symbol: Option<string>, timestamp: Option<DateRange>, idBelow: Option<string>)

  /** The sort document `getData` builds from `sortBy` (and then never uses). */
  datatype SortSpec = SortSpec(field: string, order: int)

  /**
   * The filter document of a query: a symbol constraint, upper-cased, only
   * for a truthy symbol; a timestamp constraint only when a start or an end
   * date is given, each bound only for its own parameter; an `_id` bound only
   * for a truthy cursor.
   */
  function FilterOf(q: Query, codecs: Codecs): (r: Filter)
    ensures r.symbol.Some? <==> Truthy(q.symbol)
    ensures r.symbol.Some? ==> |r.symbol.value| == |q.symbol.value|
                               && forall i :: 0 <= i < |r.symbol.value| ==> !IsLower(r.symbol.value[i])
    ensures r.timestamp.Some? <==> Truthy(q.startDate) || Truthy(q.endDate)
    ensures r.timestamp.Some? ==> (r.timestamp.value.gte.Some? <==> Truthy(q.startDate))
                                  && (r.timestamp.value.lte.Some? <==> Truthy(q.endDate))
    ensures r.idBelow.Some? <==> Truthy(q.cursor)
  {
    Filter(
      if Truthy(q.symbol) then Some(Upper(q.symbol.value)) else None,
      if Truthy(q.startDate) || Truthy(q.endDate) then
        Some(DateRange(
          if Truthy(q.startDate) then Some(codecs.parseDate(q.startDate.value)) else None,
          if Truthy(q.endDate) then Some(codecs.parseDate(q.endDate.value)) else None))
      else None,
      if Truthy(q.cursor) then Some(q.cursor.value) else None)
  }

  /** The filter's values all cast: no Invalid Date bound and a cursor that is a valid id. */
  predicate Casts(f: Filter, codecs: Codecs) {
    && (f.timestamp.Some? ==> forall b :: b in [f.timestamp.value.gte, f.timestamp.value.lte] && b.Some? ==> b.value.Instant?)
    && (f.idBelow.Some? ==> codecs.castId(f.idBelow.value).Some?)
  }

  predicate DateAtLeast(t: Date, bound: Option<Date>) {
    bound.None? || (t.Instant? && bound.value.Instant? && t.ms >= bound.value.ms)
  }

  predicate DateAtMost(t: Date, bound: Option<Date>) {
    bound.None? || (t.Instant? && bound.value.Instant? && t.ms <= bound.value.ms)
  }

  /** Whether a document satisfies a (cast) filter. */
  predicate Matches(f: Filter, codecs: Codecs, d: Doc) {
    && (f.symbol.Some? ==> d.record.symbol == f.symbol.value)
    && (f.timestamp.Some? ==> DateAtLeast(d.record.timestamp, f.timestamp.value.gte)
                              && DateAtMost(d.record.timestamp, f.timestamp.value.lte))
    && (f.idBelow.Some? ==> codecs.castId(f.idBelow.value).Some? && d.id < codecs.castId(f.idBelow.value).value)
  }

  /** What the query asks for, read directly off its parameters. */
  predicate Eligible(q: Query, codecs: Codecs, d: Doc) {
    && (Truthy(q.symbol) ==> d.record.symbol == Upper(q.symbol.value))
    && (Truthy(q.startDate) ==> DateAtLeast(d.record.timestamp, Some(codecs.parseDate(q.startDate.value))))
    && (Truthy(q.endDate) ==> DateAtMost(d.record.timestamp, Some(codecs.parseDate(q.endDate.value))))
    && (Truthy(q.cursor) ==> codecs.castId(q.cursor.value).Some? && d.id < codecs.castId(q.cursor.value).value)
  }

  /** The filter matches exactly the documents the query asks for. */
  lemma FilterMatchesEligible(q: Query, codecs: Codecs, d: Doc)
    ensures Matches(FilterOf(q, codecs), codecs, d) <==> Eligible(q, codecs, d)
  {
  }

  // -------------------------------------------------------------- limit

  /** `parseInt(req.query.limit, 10) || 10`: NaN and 0 fall back to 10. */
  function LimitOf(p: Param): (n: int)
    ensures n != 0
  {
    match if p.Some? then ParseInt(p.value) else None
    case None => 10
    case Some(k) => if k == 0 then 10 else k
  }

  /** A limit given as the decimal form of a non-zero integer is that integer. */
  lemma LimitParsed(k: int)
    requires k != 0
    ensures LimitOf(Some(ShowInt(k))) == k
  {
    ParseShowInt(k);
  }

  /** A missing, non-numeric or zero limit is 10. */
  lemma LimitDefault(p: Param)
    requires p.None? || ParseInt(p.value).None? || ParseInt(p.value) == Some(0)
    ensures LimitOf(p) == 10
  {
  }

  /** How many documents `.limit(n)` lets through: a negative limit reads as its absolute value. */
  function PageSize(limit: int): nat {
    if limit < 0 then -limit else limit
  }

  // ----------------------------------------------------- find and sort

  /** The documents of a collection that match a filter, in collection order. */
  function Filtered(coll: seq<Doc>, f: Filter, codecs: Codecs): (r: seq<Doc>)
    ensures forall d :: d in r ==> d in coll && Matches(f, codecs, d)
    ensures forall d :: d in coll && Matches(f, codecs, d) ==> d in r
    ensures multiset(r) <= multiset(coll)
  {
    if coll == [] then []
    else
      assert coll == [coll[0]] + coll[1..];
      (if Matches(f, codecs, coll[0]) then [coll[0]] else []) + Filtered(coll[1..], f, codecs)
  }

  /** Ordered by `_id`, largest first. */
  predicate Descending(s: seq<Doc>) {
    forall i, j :: 0 <= i < j < |s| ==> s[i].id >= s[j].id
  }

  function InsertDesc(d: Doc, s: seq<Doc>): seq<Doc> {
    if s == [] then [d]
    else if d.id >= s[0].id then [d] + s
    else [s[0]] + InsertDesc(d, s[1..])
  }

  lemma {:induction false} InsertDescKeeps(d: Doc, s: seq<Doc>)
    ensures multiset(InsertDesc(d, s)) == multiset(s) + multiset{d}
    ensures |s| > 0 ==> InsertDesc(d, s)[0] == if d.id >= s[0].id then d else s[0]
  {
    if s != [] && d.id < s[0].id {
      InsertDescKeeps(d, s[1..]);
      assert s == [s[0]] + s[1..];
    }
  }

  lemma {:induction false} InsertDescSorted(d: Doc, s: seq<Doc>)
    requires Descending(s)
    ensures Descending(InsertDesc(d, s))
  {
    if s != [] && d.id < s[0].id {
      var rest := InsertDesc(d, s[1..]);
      InsertDescSorted(d, s[1..]);
      InsertDescKeeps(d, s[1..]);
      var r := [s[0]] + rest;
      forall j | 0 < j < |r| ensures s[0].id >= r[j].id {
        assert r[j] in multiset(rest);
        assert r[j] == d || r[j] in multiset(s[1..]);
        if r[j] != d {
          var k :| 0 <= k < |s[1..]| && s[1..][k] == r[j];
          assert s[k + 1] == r[j];
        }
      }
    }
  }

  /** `.sort({ _id: -1 })`. */
  function SortDesc(s: seq<Doc>): (r: seq<Doc>)
    ensures Descending(r) && multiset(r) == multiset(s)
  {
    if s == [] then []
    else
      var rest := SortDesc(s[1..]);
      InsertDescSorted(s[0], rest);
      InsertDescKeeps(s[0], rest);
      assert s == [s[0]] + s[1..];
      InsertDesc(s[0], rest)
  }

  /** `MarketData.find(filter).sort({ _id: -1 }).limit(limit)`, on a filter that casts. */
  function Find(coll: seq<Doc>, f: Filter, codecs: Codecs, limit: int): seq<Doc> {
    var sorted := SortDesc(Filtered(coll, f, codecs));
    if |sorted| <= PageSize(limit) then sorted else sorted[..PageSize(limit)]
  }

  lemma PrefixSubMultiset(s: seq<Doc>, n: nat)
    requires n <= |s|
    ensures multiset(s[..n]) <= multiset(s)
  {
    assert s == s[..n] + s[n..];
  }

  /** `find` returns each document at most as often as the collection holds it. */
  lemma FindSubMultiset(coll: seq<Doc>, f: Filter, codecs: Codecs, limit: int)
    ensures multiset(Find(coll, f, codecs, limit)) <= multiset(coll)
  {
    var sorted := SortDesc(Filtered(coll, f, codecs));
    if |sorted| > PageSize(limit) {
      PrefixSubMultiset(sorted, PageSize(limit));
    }
  }

  // ----------------------------------------------------------- getData

  /** The JSON `getData` answers with. */
  datatype DataResponse =
    | Page(data: seq<Doc>, nextCursor: Option<ObjectId>)
    | ServerError(message: string)

  /**
   * The response to a query, as the handler computes it: a page in
   * descending `_id` order whose cursor, when set, is the page's last id, or
   * the 500 answer.
   */
  function DataResponseFor(q: Query, coll: seq<Doc>, codecs: Codecs): (r: DataResponse)
    ensures r.ServerError? ==> r.message == "Error fetching data"
    ensures r.Page? ==> Descending(r.data)
    ensures r.Page? && r.nextCursor.Some? ==> r.data != [] && r.nextCursor.value == r.data[|r.data| - 1].id
  {
    var f := FilterOf(q, codecs);
    if !Casts(f, codecs) then ServerError("Error fetching data")
    else
      var limit := LimitOf(q.limit);
      var data := Find(coll, f, codecs, limit);
      Page(data, if |data| == limit then Some(data[|data| - 1].id) else None)
  }

  /** `getData`: the filter and sort documents are built step by step, then the page is read. */
  method GetData(q: Query, coll: seq<Doc>, codecs: Codecs) returns (resp: DataResponse)
    ensures resp == DataResponseFor(q, coll, codecs)
  {
    var filter := Filter(None, None, None);
    if Truthy(q.symbol) {
      filter := filter.(symbol := Some(Upper(q.symbol.value)));
    }
    if Truthy(q.startDate) || Truthy(q.endDate) {
      filter := filter.(timestamp := Some(DateRange(None, None)));
      if Truthy(q.startDate) {
        filter := filter.(timestamp := Some(filter.timestamp.value.(gte := Some(codecs.parseDate(q.startDate.value)))));
      }
      if Truthy(q.endDate) {
        filter := filter.(timestamp := Some(filter.timestamp.value.(lte := Some(codecs.parseDate(q.endDate.value)))));
      }
    }

    var sort: SortSpec;
    if Truthy(q.sortBy) {
      var parts := Split(q.sortBy.value, ':');
      var order := if |parts| > 1 && parts[1] == "desc" then -1 else 1;
      sort := SortSpec(parts[0], order);
    } else {
      sort := SortSpec("timestamp", -1);
    }

    var limit := LimitOf(q.limit);
    if Truthy(q.cursor) {
      filter := filter.(idBelow := Some(q.cursor.value));
    }

    if !Casts(filter, codecs) {
      return ServerError("Error fetching data");
    }
    var data := Find(coll, filter, codecs, limit);
    var nextCursor := if |data| == limit then Some(data[|data| - 1].id) else None;
    resp := Page(data, nextCursor);
  }

  // ---------------------------------------------------------- properties

  /** A query whose dates or cursor do not cast is answered with a 500. */
  lemma CastFailureIsServerError(q: Query, coll: seq<Doc>, codecs: Codecs)
    ensures DataResponseFor(q, coll, codecs).ServerError? <==> !Casts(FilterOf(q, codecs), codecs)
  {
  }

  /** `sortBy` never affects the response. */
  lemma SortByIgnored(q: Query, coll: seq<Doc>, codecs: Codecs, sortBy: Param)
    ensures DataResponseFor(q.(sortBy := sortBy), coll, codecs) == DataResponseFor(q, coll, codecs)
  {
    var q2 := q.(sortBy := sortBy);
    assert FilterOf(q2, codecs) == FilterOf(q, codecs);
    assert LimitOf(q2.limit) == LimitOf(q.limit);
  }

  lemma InMultiset(d: Doc, s: seq<Doc>, t: seq<Doc>)
    requires multiset(s) == multiset(t) && d in s
    ensures d in t
  {
    assert d in multiset(s);
  }

  /**
   * A page holds only documents the query asks for, in descending `_id`
   * order, at most `limit` of them; every eligible document left out lies at
   * or below the last one returned, and then the page is full.
   */
  lemma {:induction false} PageContents(q: Query, coll: seq<Doc>, codecs: Codecs)
    requires DataResponseFor(q, coll, codecs).Page?
    ensures var data := DataResponseFor(q, coll, codecs).data;
            && Descending(data)
            && |data| <= PageSize(LimitOf(q.limit))
            && multiset(data) <= multiset(coll)
            && (forall d :: d in data ==> d in coll && Eligible(q, codecs, d))
            && (forall d :: d in coll && Eligible(q, codecs, d) && d !in data ==>
                  |data| == PageSize(LimitOf(q.limit)) && d.id <= data[|data| - 1].id)
  {
    PageDocuments(q, coll, codecs);
    PageGap(q, coll, codecs);
  }

  /** The documents of a page: sorted, bounded, and each one eligible and drawn from the collection. */
  lemma {:induction false} PageDocuments(q: Query, coll: seq<Doc>, codecs: Codecs)
    requires DataResponseFor(q, coll, codecs).Page?
    ensures var data := DataResponseFor(q, coll, codecs).data;
            && Descending(data)
            && |data| <= PageSize(LimitOf(q.limit))
            && multiset(data) <= multiset(coll)
            && (forall d :: d in data ==> d in coll && Eligible(q, codecs, d))
  {
    var f := FilterOf(q, codecs);
    var n := PageSize(LimitOf(q.limit));
    var matching := Filtered(coll, f, codecs);
    var sorted := SortDesc(matching);
    var data := DataResponseFor(q, coll, codecs).data;
    assert data == if |sorted| <= n then sorted else sorted[..n];
    FindSubMultiset(coll, f, codecs, LimitOf(q.limit));
    forall d | d in data ensures d in coll && Eligible(q, codecs, d) {
      InMultiset(d, sorted, matching);
      FilterMatchesEligible(q, codecs, d);
    }
  }

  /** An eligible document a page leaves out lies at or below its last one, and then the page is full. */
  lemma {:induction false} PageGap(q: Query, coll: seq<Doc>, codecs: Codecs)
    requires DataResponseFor(q, coll, codecs).Page?
    ensures var data := DataResponseFor(q, coll, codecs).data;
            forall d :: d in coll && Eligible(q, codecs, d) && d !in data ==>
              |data| == PageSize(LimitOf(q.limit)) && d.id <= data[|data| - 1].id
  {
    var f := FilterOf(q, codecs);
    var n := PageSize(LimitOf(q.limit));
    var matching := Filtered(coll, f, codecs);
    var sorted := SortDesc(matching);
    var data := DataResponseFor(q, coll, codecs).data;
    assert data == if |sorted| <= n then sorted else sorted[..n];
    forall d | d in coll && Eligible(q, codecs, d) && d !in data
      ensures |data| == n && d.id <= data[|data| - 1].id
    {
      FilterMatchesEligible(q, codecs, d);
      InMultiset(d, matching, sorted);
      var j :| 0 <= j < |sorted| && sorted[j] == d;
      assert j >= n;
    }
  }

  /** The next cursor is the last id on the page exactly when the page length equals `limit`. */
  lemma NextCursorOnFullPage(q: Query, coll: seq<Doc>, codecs: Codecs)
    requires DataResponseFor(q, coll, codecs).Page?
    ensures var r := DataResponseFor(q, coll, codecs);
            (r.nextCursor.Some? <==> |r.data| == LimitOf(q.limit))
            && (r.nextCursor.Some? ==> r.data != [] && r.nextCursor.value == r.data[|r.data| - 1].id)
  {
  }

  /** `_id`s are unique in a collection. */
  predicate DistinctIds(coll: seq<Doc>) {
    forall i, j :: 0 <= i < j < |coll| ==> coll[i].id != coll[j].id
  }

  /**
   * Following the cursor: the next page (the same query with the cursor set
   * to any string that casts to `nextCursor`) holds only documents below every
   * document of this page, and with unique ids no eligible document falls
   * between the two pages.
   */
  lemma {:induction false} FollowCursor(q: Query, coll: seq<Doc>, codecs: Codecs, cursor: string)
    requires DataResponseFor(q, coll, codecs).Page? && DataResponseFor(q, coll, codecs).nextCursor.Some?
    requires cursor != [] && codecs.castId(cursor) == DataResponseFor(q, coll, codecs).nextCursor
    ensures var first := DataResponseFor(q, coll, codecs);
            var next := DataResponseFor(q.(cursor := Some(cursor)), coll, codecs);
            && next.Page?
            && (forall a, b :: a in first.data && b in next.data ==> b.id < a.id)
            && (DistinctIds(coll) ==>
                  forall d :: d in coll && Eligible(q, codecs, d) && d !in first.data ==>
                    Eligible(q.(cursor := Some(cursor)), codecs, d))
  {
    NextPageBelow(q, coll, codecs, cursor);
    if DistinctIds(coll) {
      NoDocumentSkipped(q, coll, codecs, cursor);
    }
  }

  /** The page after the cursor lies strictly below every document of this page. */
  lemma {:induction false} NextPageBelow(q: Query, coll: seq<Doc>, codecs: Codecs, cursor: string)
    requires DataResponseFor(q, coll, codecs).Page? && DataResponseFor(q, coll, codecs).nextCursor.Some?
    requires cursor != [] && codecs.castId(cursor) == DataResponseFor(q, coll, codecs).nextCursor
    ensures var first := DataResponseFor(q, coll, codecs);
            var next := DataResponseFor(q.(cursor := Some(cursor)), coll, codecs);
            && next.Page?
            && (forall a, b :: a in first.data && b in next.data ==> b.id < a.id)
  {
    var first := DataResponseFor(q, coll, codecs);
    var q2 := q.(cursor := Some(cursor));
    var last := first.data[|first.data| - 1];
    PageDocuments(q, coll, codecs);
    assert Casts(FilterOf(q2, codecs), codecs);
    PageDocuments(q2, coll, codecs);
    var next := DataResponseFor(q2, coll, codecs);
    forall a, b | a in first.data && b in next.data ensures b.id < a.id {
      var i :| 0 <= i < |first.data| && first.data[i] == a;
      assert first.data[i].id >= last.id;
    }
  }

  /** With unique ids, every eligible document this page leaves out is eligible after the cursor. */
  lemma {:induction false} NoDocumentSkipped(q: Query, coll: seq<Doc>, codecs: Codecs, cursor: string)
    requires DataResponseFor(q, coll, codecs).Page? && DataResponseFor(q, coll, codecs).nextCursor.Some?
    requires cursor != [] && codecs.castId(cursor) == DataResponseFor(q, coll, codecs).nextCursor
    requires DistinctIds(coll)
    ensures var first := DataResponseFor(q, coll, codecs);
            forall d :: d in coll && Eligible(q, codecs, d) && d !in first.data ==>
              Eligible(q.(cursor := Some(cursor)), codecs, d)
  {
    var first := DataResponseFor(q, coll, codecs);
    var data := first.data;
    assert data != [] && first.nextCursor == Some(data[|data| - 1].id);
    PageDocuments(q, coll, codecs);
    assert data[|data| - 1] in data;
    PageGap(q, coll, codecs);
    GapBelowCursor(q, codecs, coll, data, cursor);
  }

  /**
   * When every eligible document left off `data` lies at or below its last
   * one, and ids are unique, all of them lie strictly below it.
   */
  lemma {:induction false} GapBelowCursor(q: Query, codecs: Codecs, coll: seq<Doc>, data: seq<Doc>, cursor: string)
    requires data != [] && data[|data| - 1] in coll && DistinctIds(coll)
    requires cursor != [] && codecs.castId(cursor) == Some(data[|data| - 1].id)
    requires forall d :: d in coll && Eligible(q, codecs, d) && d !in data ==> d.id <= data[|data| - 1].id
    ensures forall d :: d in coll && Eligible(q, codecs, d) && d !in data ==>
              Eligible(q.(cursor := Some(cursor)), codecs, d)
  {
    var last := data[|data| - 1];
    forall d | d in coll && Eligible(q, codecs, d) && d !in data
      ensures Eligible(q.(cursor := Some(cursor)), codecs, d)
    {
      var i :| 0 <= i < |coll| && coll[i] == d;
      var j :| 0 <= j < |coll| && coll[j] == last;
      assert i != j;
    }
  }

  // ---------------------------------------------------------- getStats

  /** A metric as `getMetricsAsJSON` lists it: its name and its sample values. */
  datatype Metric = Metric(name: string, values: seq<real>)

  /** The JSON `getStats` answers with. */
  datatype Stats = Stats(
    record_count: nat,
    last_run_time: Option<int>,
    last_run_status: string,
    average_etl_latency_ms: real,
    throttle_events_total: real,
    etl_errors_total: real)

  /** `EtlRun.findOne().sort({ start_time: -1 })`: a run with the latest start time. */
  function LatestRun(runs: seq<EtlRun>): (r: Option<EtlRun>)
    ensures r.None? <==> runs == []
    ensures r.Some? ==> r.value in runs && forall x :: x in runs ==> x.start_time <= r.value.start_time
  {
    if runs == [] then None
    else
      var rest := LatestRun(runs[1..]);
      if rest.None? || rest.value.start_time <= runs[0].start_time then Some(runs[0]) else rest
  }

  /** The latencies the aggregate averages: runs that completed and have an end time. */
  function CompletedLatencies(runs: seq<EtlRun>): (ls: seq<int>)
    ensures |ls| <= |runs|
  {
    if runs == [] then []
    else
      (if runs[0].status == Completed && runs[0].end_time.Some? then [runs[0].end_time.value - runs[0].start_time] else [])
      + CompletedLatencies(runs[1..])
  }

  function Sum(xs: seq<int>): int {
    if xs == [] then 0 else xs[0] + Sum(xs[1..])
  }

  /** The `$avg` of the aggregate, or 0 when no run matches. */
  function AverageLatency(runs: seq<EtlRun>): real {
    var ls := CompletedLatencies(runs);
    if ls == [] then 0.0 else Sum(ls) as real / |ls| as real
  }

  /** `metrics.find(m => m.name === name)`. */
  function FindMetric(metrics: seq<Metric>, name: string): (r: Option<Metric>)
    ensures r.Some? ==> r.value in metrics && r.value.name == name
    ensures r.None? <==> forall m :: m in metrics ==> m.name != name
  {
    if metrics == [] then None
    else if metrics[0].name == name then Some(metrics[0])
    else FindMetric(metrics[1..], name)
  }

  /** `metric?.values?.[0]?.value || 0`. */
  function MetricTotal(metrics: seq<Metric>, name: string): real {
    var m := FindMetric(metrics, name);
    if m.Some? && m.value.values != [] then m.value.values[0] else 0.0
  }

  /**
   * `getStats`, over the documents, the runs and the metrics registry: the
   * count is the collection's size, and with no runs the time is null, the
   * status "N/A" and the average 0.
   */
  function GetStats(coll: seq<Doc>, runs: seq<EtlRun>, metrics: seq<Metric>): (s: Stats)
    ensures s.record_count == |coll|
    ensures s.last_run_time.None? <==> runs == []
    ensures runs == [] ==> s.last_run_status == "N/A" && s.average_etl_latency_ms == 0.0
    ensures s.last_run_time.Some? ==> forall x :: x in runs ==> x.start_time <= s.last_run_time.value
  {
    var last := LatestRun(runs);
    Stats(
      |coll|,
      if last.Some? then Some(last.value.start_time) else None,
      if last.Some? then StatusName(last.value.status) else "N/A",
      AverageLatency(runs),
      MetricTotal(metrics, "throttle_events_total"),
      MetricTotal(metrics, "etl_errors_total"))
  }

  /** With no runs, the status is "N/A" and the time null; otherwise they are those of a latest-starting run. */
  lemma StatsLastRun(coll: seq<Doc>, runs: seq<EtlRun>, metrics: seq<Metric>)
    ensures var s := GetStats(coll, runs, metrics);
            && (runs == [] <==> s.last_run_status == "N/A")
            && (runs == [] <==> s.last_run_time.None?)
            && (runs != [] ==> exists r :: r in runs && s.last_run_time == Some(r.start_time)
                                && ParseStatus(s.last_run_status) == Some(r.status)
                                && forall x :: x in runs ==> x.start_time <= r.start_time)
  {
    var last := LatestRun(runs);
    if last.Some? {
      ParseStatusName(StatusName(last.value.status), last.value.status);
    }
  }

  /** Missing metrics count as 0. */
  lemma StatsMissingMetrics(coll: seq<Doc>, runs: seq<EtlRun>, metrics: seq<Metric>)
    requires forall m :: m in metrics ==> m.name != "throttle_events_total" && m.name != "etl_errors_total"
    ensures GetStats(coll, runs, metrics).throttle_events_total == 0.0
    ensures GetStats(coll, runs, metrics).etl_errors_total == 0.0
  {
  }

  lemma {:induction false} NoCompletedNoLatencies(runs: seq<EtlRun>)
    requires forall r :: r in runs ==> r.status != Completed || r.end_time.None?
    ensures CompletedLatencies(runs) == []
  {
    if runs != [] {
      NoCompletedNoLatencies(runs[1..]);
    }
  }

  /** The average latency is 0 when no completed run has an end time. */
  lemma StatsNoCompletedRun(coll: seq<Doc>, runs: seq<EtlRun>, metrics: seq<Metric>)
    requires forall r :: r in runs ==> r.status != Completed || r.end_time.None?
    ensures GetStats(coll, runs, metrics).average_etl_latency_ms == 0.0
  {
    NoCompletedNoLatencies(runs);
  }

  lemma {:induction false} SumBounds(xs: seq<int>, lo: int, hi: int)
    requires forall i :: 0 <= i < |xs| ==> lo <= xs[i] <= hi
    ensures |xs| * lo <= Sum(xs) <= |xs| * hi
  {
    if xs != [] {
      SumBounds(xs[1..], lo, hi);
    }
  }

  lemma MeanBounds(sum: int, n: nat, lo: int, hi: int)
    requires n > 0 && n * lo <= sum <= n * hi
    ensures lo as real <= sum as real / n as real <= hi as real
  {
    CastProduct(n, lo);
    CastProduct(n, hi);
    BelowQuotient(lo as real, sum as real, n as real);
    AboveQuotient(hi as real, sum as real, n as real);
  }

  lemma CastProduct(a: int, b: int)
    ensures (a * b) as real == a as real * b as real
  {
  }

  lemma BelowQuotient(x: real, s: real, m: real)
    requires m > 0.0 && m * x <= s
    ensures x <= s / m
  {
    assert s / m - x == (s - m * x) / m;
  }

  lemma AboveQuotient(x: real, s: real, m: real)
    requires m > 0.0 && s <= m * x
    ensures s / m <= x
  {
    assert x - s / m == (m * x - s) / m;
  }

  /** When every completed run's latency lies in `[lo, hi]`, so does the average (if any run completed). */
  lemma StatsAverageBounds(coll: seq<Doc>, runs: seq<EtlRun>, metrics: seq<Metric>, lo: int, hi: int)
    requires forall i :: 0 <= i < |CompletedLatencies(runs)| ==> lo <= CompletedLatencies(runs)[i] <= hi
    requires CompletedLatencies(runs) != []
    ensures lo as real <= GetStats(coll, runs, metrics).average_etl_latency_ms <= hi as real
  {
    var ls := CompletedLatencies(runs);
    SumBounds(ls, lo, hi);
    MeanBounds(Sum(ls), |ls|, lo, hi);
  }
}
