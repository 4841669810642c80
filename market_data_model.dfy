/**
 * The `MarketData` collection's schema: one canonical market observation per
 * document, with a required upper-cased and trimmed symbol, a required price,
 * an optional volume, a source tag that is "api" or "csv", a required
 * timestamp, and a unique compound index on (symbol, timestamp).
 */
module MarketDataModel {
  import opened Wrappers
  import opened Strings

  /** A JavaScript number as `parseFloat` produces it. */
  datatype Num = Finite(value: real) | NaN | Infinite(negative: bool)

  /** A JavaScript `Date`: milliseconds since the epoch, or the Invalid Date. */
  datatype Date = Instant(ms: int) | InvalidDate

  /** The `source` enum. */
  datatype Source = Api | Csv

  function SourceName(s: Source): string {
    match s
    case Api => "api"
    case Csv => "csv"
  }

  /** The enum validator: only the two exact spellings are accepted. */
  function ParseSource(name: string): (r: Option<Source>)
    ensures r.Some? <==> name == "api" || name == "csv"
  {
    if name == "api" then Some(Api) else if name == "csv" then Some(Csv) else None
  }

  /** The enum validator accepts exactly the names of the two sources. */
  lemma ParseSourceName(name: string, s: Source)
    ensures ParseSource(name) == Some(s) <==> SourceName(s) == name
  {
  }

  /** A market-data document (its automatic `createdAt`/`updatedAt` are kept by the store). */
  datatype MarketRecord = MarketRecord(
    symbol: string,
    price_usd: Num,
    volume: Option<Num>,
    source: Source,
    timestamp: Date)

  /** The fields of the unique compound index. */
  type Key = (string, Date)

  function KeyOf(r: MarketRecord): Key {
    (r.symbol, r.timestamp)
  }

  /** The unique index holds of a set of documents: no two share a key. */
  ghost predicate UniqueIndex(docs: set<MarketRecord>) {
    forall a, b :: a in docs && b in docs && KeyOf(a) == KeyOf(b) ==> a == b
  }

  /** The `uppercase` and `trim` setters of `symbol`. */
  function NormalizeSymbol(s: string): (r: string)
    ensures forall i :: 0 <= i < |r| ==> !IsLower(r[i])
    ensures r == [] || (!IsWhitespace(r[0]) && !IsWhitespace(r[|r| - 1]))
  {
    TrimUpperHasNoLower(s);
    Trim(Upper(s))
  }

  lemma {:induction false} TrimStartNormal(s: string)
    requires s == [] || !IsWhitespace(s[0])
    ensures TrimStart(s) == s
  {
  }

  lemma {:induction false} TrimEndNormal(s: string)
    requires s == [] || !IsWhitespace(s[|s| - 1])
    ensures TrimEnd(s) == s
  {
  }

  /** Normalising an already stored symbol changes nothing. */
  lemma NormalizeSymbolIdempotent(s: string)
    ensures NormalizeSymbol(NormalizeSymbol(s)) == NormalizeSymbol(s)
  {
    var n := NormalizeSymbol(s);
    assert Upper(n) == n by {
      assert forall i :: 0 <= i < |n| ==> UpperChar(n[i]) == n[i];
    }
    TrimStartNormal(n);
    TrimEndNormal(n);
  }

  /** The fields handed to `new MarketData({...})`; any of them may be missing. */
  datatype Fields = Fields(
    symbol: Option<string>,
    price_usd: Option<Num>,
    volume: Option<Num>,
    source: Option<string>,
    timestamp: Option<Date>)

  /** The schema paths whose casts or validators can fail. */
  datatype Path = SymbolPath | PricePath | VolumePath | SourcePath | TimestampPath

  /**
   * Whether one path rejects the fields: a required value is missing, the
   * `Number` cast meets NaN, the `Date` cast meets the Invalid Date, or the
   * source is outside the enum.
   */
  predicate PathFails(f: Fields, p: Path) {
    match p
    case SymbolPath => f.symbol.None? || NormalizeSymbol(f.symbol.value) == []
    case PricePath => f.price_usd.None? || f.price_usd.value.NaN?
    case VolumePath => f.volume.Some? && f.volume.value.NaN?
    case SourcePath => f.source.None? || ParseSource(f.source.value).None?
    case TimestampPath => f.timestamp.None? || f.timestamp.value.InvalidDate?
  }

  /** `{p}` when the path fails, otherwise nothing. */
  function Failing(f: Fields, p: Path): (s: set<Path>)
    ensures s == {} || s == {p}
    ensures p in s <==> PathFails(f, p)
  {
    if PathFails(f, p) then {p} else {}
  }

  /** The paths that fail validation: missing required values, failed casts and an unknown source. */
  function ValidationErrors(f: Fields): (errs: set<Path>)
    ensures SymbolPath in errs <==> f.symbol.None? || NormalizeSymbol(f.symbol.value) == []
    ensures PricePath in errs <==> f.price_usd.None? || f.price_usd.value.NaN?
    ensures VolumePath in errs <==> f.volume == Some(NaN)
    ensures SourcePath in errs <==> f.source.None? || (f.source.value != "api" && f.source.value != "csv")
    ensures TimestampPath in errs <==> f.timestamp.None? || f.timestamp == Some(InvalidDate)
  {
    Failing(f, SymbolPath) + Failing(f, PricePath) + Failing(f, VolumePath)
      + Failing(f, SourcePath) + Failing(f, TimestampPath)
  }

  /**
   * Creating and validating a document: the setters and casts run first,
   * then the required and enum validators; every failing path is reported.
   */
  function Validate(f: Fields): (r: Result<MarketRecord, set<Path>>)
    ensures r.Ok? <==> ValidationErrors(f) == {}
    ensures r.Err? ==> r.error == ValidationErrors(f) && r.error != {}
    ensures r.Ok? ==> f.symbol.Some? && r.value.symbol == NormalizeSymbol(f.symbol.value) && r.value.symbol != []
    ensures r.Ok? ==> f.price_usd == Some(r.value.price_usd) && r.value.volume == f.volume
    ensures r.Ok? ==> !r.value.price_usd.NaN? && r.value.volume != Some(NaN) && r.value.timestamp.Instant?
    ensures r.Ok? ==> f.source == Some(SourceName(r.value.source)) && f.timestamp == Some(r.value.timestamp)
  {
    var errs := ValidationErrors(f);
    if errs != {} then Err(errs)
    else
      NoErrors(f);
      Ok(MarketRecord(
      NormalizeSymbol(f.symbol.value), f.price_usd.value, f.volume,
      ParseSource(f.source.value).value, f.timestamp.value))
  }

  /** What a document with no failing path holds. */
  lemma NoErrors(f: Fields)
    requires ValidationErrors(f) == {}
    ensures f.symbol.Some? && NormalizeSymbol(f.symbol.value) != []
    ensures f.price_usd.Some? && !f.price_usd.value.NaN? && f.volume != Some(NaN)
    ensures f.source.Some? && ParseSource(f.source.value).Some?
    ensures SourceName(ParseSource(f.source.value).value) == f.source.value
    ensures f.timestamp.Some? && f.timestamp.value.Instant?
  {
    var errs := ValidationErrors(f);
    assert SymbolPath !in errs && PricePath !in errs && VolumePath !in errs;
    assert SourcePath !in errs && TimestampPath !in errs;
    ParseSourceName(f.source.value, ParseSource(f.source.value).value);
  }

  /** The volume is optional: a document without one validates exactly when it would with any number that is not NaN. */
  lemma VolumeOptional(f: Fields, v: Num)
    requires !v.NaN?
    ensures Validate(f.(volume := None)).Ok? == Validate(f.(volume := Some(v))).Ok?
  {
  }

  /** A NaN volume fails the `Number` cast, whatever the other fields hold. */
  lemma NaNVolumeRejected(f: Fields)
    ensures Validate(f.(volume := Some(NaN))).Err?
    ensures VolumePath in Validate(f.(volume := Some(NaN))).error
  {
  }

  /** A stored document's symbol is already in normal form: re-validating it keeps it unchanged. */
  lemma ValidateStable(f: Fields)
    requires Validate(f).Ok?
    ensures var d := Validate(f).value;
            Validate(Fields(Some(d.symbol), Some(d.price_usd), d.volume, Some(SourceName(d.source)), Some(d.timestamp)))
              == Ok(d)
  {
    var d := Validate(f).value;
    NormalizeSymbolIdempotent(f.symbol.value);
    ParseSourceName(SourceName(d.source), d.source);
  }
}
