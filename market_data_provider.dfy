/**
 * The Polygon market-data provider: how its three queries build their requests and
 * turn Polygon's responses into quotes, option contracts and daily bars. The HTTP
 * round trip (`make_request`) is the `PolygonApi` parameter; a failed request is an
 * `Err` that every query passes on unchanged.
 */
module MarketDataProvider {
  import opened Wrappers
  import opened MarketDataModels
  import BlackScholes

  /** The three requests the provider makes; the historical one is keyed by symbol and date range. */
  datatype PolygonApi = PolygonApi(
    quote: string -> Result<PolygonQuoteResponse, MarketDataError>,
    options: (string, seq<(string, string)>) -> Result<PolygonOptionsResponse, MarketDataError>,
    historical: (string, Date, Date) -> Result<HistoricalResponse, MarketDataError>)

  const OPTIONS_ENDPOINT: string := "/v3/reference/options/contracts"
  const OPTIONS_LIMIT: string := "1000"

  // ---------------------------------------------------------------------------
  // Quotes
  // ---------------------------------------------------------------------------

  function QuoteEndpoint(symbol: string): string {
    "/v2/aggs/ticker/" + symbol + "/prev"
  }

  /**
   * The previous-day quote of `symbol`. No result means an unknown symbol; otherwise
   * the price is the close (0 when absent), the volume the saturated integer volume (0
   * when absent), there is no bid or ask, and the quote is stamped `now`.
   */
  function GetQuote(api: PolygonApi, symbol: string, now: Instant): (r: Result<StockQuote, MarketDataError>)
    ensures api.quote(QuoteEndpoint(symbol)).Err? ==> r == Err(api.quote(QuoteEndpoint(symbol)).error)
    ensures api.quote(QuoteEndpoint(symbol)).Ok? ==>
              var results := api.quote(QuoteEndpoint(symbol)).value.results;
              && (results.None? <==> r.Err?)
              && (results.None? ==> r.error == InvalidSymbol)
              && (results.Some? ==>
                    && r.value.symbol == symbol
                    && r.value.price == results.value.close.UnwrapOr(0.0)
                    && r.value.bid.None? && r.value.ask.None?
                    && (results.value.volume.None? ==> r.value.volume == 0)
                    && (results.value.volume.Some? ==> r.value.volume == SaturatingI64(results.value.volume.value))
                    && r.value.timestamp == now)
    ensures r.Ok? ==> r.value.symbol == symbol && I64_MIN <= r.value.volume <= I64_MAX
  {
    match api.quote(QuoteEndpoint(symbol))
    case Err(e) => Err(e)
    case Ok(response) =>
      match response.results
      case Some(quote) =>
        var volume := match quote.volume
          case Some(v) => SaturatingI64(v)
          case None => 0;
        Ok(StockQuote(symbol, quote.close.UnwrapOr(0.0), None, None, volume, now))
      case None => Err(InvalidSymbol)
  }

  // ---------------------------------------------------------------------------
  // Options chains
  // ---------------------------------------------------------------------------

  /** The query of an options-chain request: the underlying, the page limit, and the expiry when one is given. */
  function QueryParams(symbol: string, expiry: Option<Date>, cal: Calendar): (params: seq<(string, string)>)
    ensures |params| == if expiry.Some? then 3 else 2
    ensures params[0] == ("underlying_ticker", symbol) && params[1] == ("limit", OPTIONS_LIMIT)
    ensures expiry.Some? ==> params[2] == ("expiration_date", cal.formatDate(expiry.value))
  {
    var base := [("underlying_ticker", symbol), ("limit", OPTIONS_LIMIT)];
    if expiry.Some? then base + [("expiration_date", cal.formatDate(expiry.value))] else base
  }

  /** The option type a Polygon contract type names: exactly "call" or "put". */
  function ContractType(contractType: string): (t: Option<BlackScholes.OptionType>)
    ensures t == Some(BlackScholes.Call) <==> contractType == "call"
    ensures t == Some(BlackScholes.Put) <==> contractType == "put"
  {
    if contractType == "call" then Some(BlackScholes.Call)
    else if contractType == "put" then Some(BlackScholes.Put)
    else None
  }

  /** A Polygon contract with its parsed expiry and type, as a domain contract stamped `now`. */
  function ToContract(o: PolygonOption, expirationDate: Date, optionType: BlackScholes.OptionType, now: Instant): OptionsContract {
    var bid := if o.lastQuote.Some? then o.lastQuote.value.bid else None;
    var ask := if o.lastQuote.Some? then o.lastQuote.value.ask else None;
    var last := if o.lastQuote.Some? then o.lastQuote.value.last else None;
    OptionsContract(
      o.symbol, o.underlyingSymbol, o.strikePrice, expirationDate, optionType,
      bid, ask, last, None, None,
      o.impliedVolatility, o.delta, o.gamma, o.theta, o.vega, now)
  }

  /**
   * The conversion of a page of Polygon contracts, front to back: contracts that are
   * neither calls nor puts are skipped, and the first kept contract whose expiry does
   * not parse fails the whole page.
   */
  function ConvertChain(options: seq<PolygonOption>, cal: Calendar, now: Instant): Result<seq<OptionsContract>, MarketDataError>
    decreases |options|
  {
    if |options| == 0 then Ok([])
    else
      var o := options[0];
      match ContractType(o.contractType)
      case None => ConvertChain(options[1..], cal, now)
      case Some(t) =>
        match cal.parseDate(o.expirationDate)
        case Err(message) => Err(ParseError(message))
        case Ok(date) =>
          match ConvertChain(options[1..], cal, now)
          case Err(e) => Err(e)
          case Ok(rest) => Ok([ToContract(o, date, t, now)] + rest)
  }

  /** The contracts the conversion keeps: calls and puts, in order. */
  function Tradable(options: seq<PolygonOption>): (kept: seq<PolygonOption>)
    decreases |options|
  {
    if |options| == 0 then []
    else if ContractType(options[0].contractType).Some? then [options[0]] + Tradable(options[1..])
    else Tradable(options[1..])
  }

  /** A kept contract whose expiry does not parse. */
  predicate BadDate(o: PolygonOption, cal: Calendar) {
    ContractType(o.contractType).Some? && cal.parseDate(o.expirationDate).Err?
  }

  /** `results` prefixed with `done`, when it is a success; a failure stays as it is. */
  function Prepend(done: seq<OptionsContract>, results: Result<seq<OptionsContract>, MarketDataError>): (r: Result<seq<OptionsContract>, MarketDataError>)
    ensures results.Err? ==> r == results
    ensures results.Ok? ==> r == Ok(done + results.value)
  {
    if results.Ok? then Ok(done + results.value) else results
  }

  /** The whole options-chain query: the request, then the conversion; no results is an empty chain. */
  function OptionsChain(api: PolygonApi, cal: Calendar, symbol: string, expiry: Option<Date>, now: Instant): Result<seq<OptionsContract>, MarketDataError> {
    match api.options(OPTIONS_ENDPOINT, QueryParams(symbol, expiry, cal))
    case Err(e) => Err(e)
    case Ok(response) =>
      match response.results
      case None => Ok([])
      case Some(options) => ConvertChain(options, cal, now)
  }

  /**
   * Fetches and converts an options chain: builds the query, then walks the contracts
   * in order, skipping the ones of an unknown type and returning at the first bad expiry.
   */
  method GetOptionsChain(api: PolygonApi, cal: Calendar, symbol: string, expiry: Option<Date>, now: Instant)
    returns (r: Result<seq<OptionsContract>, MarketDataError>)
    ensures r == OptionsChain(api, cal, symbol, expiry, now)
  {
    var params := [("underlying_ticker", symbol), ("limit", OPTIONS_LIMIT)];
    if expiry.Some? {
      params := params + [("expiration_date", cal.formatDate(expiry.value))];
    }
    assert params == QueryParams(symbol, expiry, cal);

    var response := api.options(OPTIONS_ENDPOINT, params);
    if response.Err? {
      return Err(response.error);
    }
    if response.value.results.None? {
      return Ok([]);
    }
    var options := response.value.results.value;
    var contracts: seq<OptionsContract> := [];
    assert options[0..] == options;
    var whole := ConvertChain(options, cal, now);
    assert whole.Ok? ==> [] + whole.value == whole.value;
    for i := 0 to |options|
      invariant ConvertChain(options, cal, now) == Prepend(contracts, ConvertChain(options[i..], cal, now))
    {
      var opt := options[i];
      assert options[i..][0] == opt && options[i..][1..] == options[i + 1..];
      var optionType;
      if opt.contractType == "call" {
        optionType := BlackScholes.Call;
      } else if opt.contractType == "put" {
        optionType := BlackScholes.Put;
      } else {
        continue;
      }
      var parsed := cal.parseDate(opt.expirationDate);
      if parsed.Err? {
        assert ConvertChain(options[i..], cal, now) == Err(ParseError(parsed.error));
        return Err(ParseError(parsed.error));
      }
      var contract := ToContract(opt, parsed.value, optionType, now);
      PrependStep(contracts, contract, ConvertChain(options[i + 1..], cal, now));
      contracts := contracts + [contract];
    }
    assert options[|options|..] == [];
    assert contracts + [] == contracts;
    r := Ok(contracts);
  }

  lemma PrependStep(done: seq<OptionsContract>, c: OptionsContract, results: Result<seq<OptionsContract>, MarketDataError>)
    ensures Prepend(done, Prepend([c], results)) == Prepend(done + [c], results)
  {
    if results.Ok? {
      assert done + ([c] + results.value) == (done + [c]) + results.value;
    }
  }

  /** A converted page has one contract per call or put of the input, in order, each taken from it. */
  lemma {:induction false} ChainIsTradableMapped(options: seq<PolygonOption>, cal: Calendar, now: Instant)
    requires ConvertChain(options, cal, now).Ok?
    ensures var cs := ConvertChain(options, cal, now).value;
            var kept := Tradable(options);
            && |cs| == |kept| <= |options|
            && forall j :: 0 <= j < |cs| ==>
                 && ContractType(kept[j].contractType).Some?
                 && cal.parseDate(kept[j].expirationDate).Ok?
                 && cs[j] == ToContract(kept[j], cal.parseDate(kept[j].expirationDate).value,
                                        ContractType(kept[j].contractType).value, now)
    decreases |options|
  {
    if |options| > 0 {
      ChainIsTradableMapped(options[1..], cal, now);
    }
  }

  /**
   * A page fails exactly when some call or put has an expiry that does not parse, and
   * then the error is the parse error of the first such contract.
   */
  lemma {:induction false} ChainFailsAtFirstBadDate(options: seq<PolygonOption>, cal: Calendar, now: Instant)
    ensures ConvertChain(options, cal, now).Err? <==> exists i :: 0 <= i < |options| && BadDate(options[i], cal)
    ensures ConvertChain(options, cal, now).Err? ==>
              exists i :: 0 <= i < |options| && BadDate(options[i], cal)
                && (forall j :: 0 <= j < i ==> !BadDate(options[j], cal))
                && ConvertChain(options, cal, now).error == ParseError(cal.parseDate(options[i].expirationDate).error)
    decreases |options|
  {
    if |options| > 0 {
      var tail := options[1..];
      ChainFailsAtFirstBadDate(tail, cal, now);
      assert forall i :: 0 <= i < |tail| ==> tail[i] == options[i + 1];
      if !BadDate(options[0], cal) && ConvertChain(options, cal, now).Err? {
        var i :| 0 <= i < |tail| && BadDate(tail[i], cal)
                 && (forall j :: 0 <= j < i ==> !BadDate(tail[j], cal))
                 && ConvertChain(tail, cal, now).error == ParseError(cal.parseDate(tail[i].expirationDate).error);
        assert BadDate(options[i + 1], cal);
        assert forall j :: 0 <= j < i + 1 ==> !BadDate(options[j], cal) by {
          forall j | 0 <= j < i + 1 ensures !BadDate(options[j], cal) {
            if j > 0 {
              assert options[j] == tail[j - 1];
            }
          }
        }
      }
      if exists i :: 0 <= i < |options| && BadDate(options[i], cal) {
        var i :| 0 <= i < |options| && BadDate(options[i], cal);
        if i > 0 {
          assert BadDate(tail[i - 1], cal);
        }
      }
    }
  }

  // ---------------------------------------------------------------------------
  // Historical bars
  // ---------------------------------------------------------------------------

  /** One bar: the millisecond timestamp cut to whole seconds (rounding toward zero), prices copied. */
  function ToBar(symbol: string, bar: HistoricalResult, cal: Calendar, now: Instant): HistoricalBar {
    HistoricalBar(
      symbol,
      cal.fromTimestamp(WholeSeconds(bar.timestamp)).UnwrapOr(now),
      bar.open, bar.high, bar.low, bar.close,
      SaturatingI64(bar.volume))
  }

  function ToBars(symbol: string, bars: seq<HistoricalResult>, cal: Calendar, now: Instant): (r: seq<HistoricalBar>)
    ensures |r| == |bars|
    ensures forall i :: 0 <= i < |bars| ==> r[i] == ToBar(symbol, bars[i], cal, now)
  {
    if |bars| == 0 then [] else [ToBar(symbol, bars[0], cal, now)] + ToBars(symbol, bars[1..], cal, now)
  }

  /**
   * Daily bars of `symbol` between two dates: one bar per Polygon bar, in order, with
   * the prices copied; no results is an empty list.
   */
  function GetHistoricalData(api: PolygonApi, cal: Calendar, symbol: string, from: Date, to: Date, now: Instant)
    : (r: Result<seq<HistoricalBar>, MarketDataError>)
    ensures api.historical(symbol, from, to).Err? <==> r.Err?
    ensures r.Err? ==> r.error == api.historical(symbol, from, to).error
    ensures r.Ok? ==>
              var results := api.historical(symbol, from, to).value.results;
              && (results.None? ==> r.value == [])
              && (results.Some? ==>
                    && |r.value| == |results.value|
                    && forall i :: 0 <= i < |results.value| ==>
                         var bar := results.value[i];
                         && r.value[i].symbol == symbol
                         && r.value[i].open == bar.open && r.value[i].high == bar.high
                         && r.value[i].low == bar.low && r.value[i].close == bar.close
                         && r.value[i].volume == SaturatingI64(bar.volume)
                         && r.value[i].timestamp == cal.fromTimestamp(WholeSeconds(bar.timestamp)).UnwrapOr(now))
  {
    match api.historical(symbol, from, to)
    case Err(e) => Err(e)
    case Ok(response) =>
      match response.results
      case None => Ok([])
      case Some(bars) => Ok(ToBars(symbol, bars, cal, now))
  }
}
