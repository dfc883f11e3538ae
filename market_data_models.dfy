/**
 * The market-data records: the domain types the server hands out, the response shapes
 * of the Polygon REST API it reads, and the integer conversions the mapping between
 * them performs.
 *
 * Time is modelled as whole milliseconds since the Unix epoch (`Instant`) and calendar
 * dates as day numbers (`Date`). Date parsing and formatting and the conversion of a
 * Unix timestamp to an instant are library services, passed in as a `Calendar`.
 */
module MarketDataModels {
  import opened Wrappers
  import BlackScholes

  type Instant = int
  type Date = int

  const I64_MIN: int := -0x8000_0000_0000_0000
  const I64_MAX: int := 0x7FFF_FFFF_FFFF_FFFF
  const I32_MIN: int := -0x8000_0000
  const I32_MAX: int := 0x7FFF_FFFF

  /** Calendar services: `%Y-%m-%d` parsing (with its error text) and formatting, epoch seconds to an instant, an instant's UTC date. */
  datatype Calendar = Calendar(
    parseDate: string -> Result<Date, string>,
    formatDate: Date -> string,
    fromTimestamp: int -> Option<Instant>,
    dateOf: Instant -> Date)

  datatype StockQuote = StockQuote(
    symbol: string,
    price: real,
    bid: Option<real>,
    ask: Option<real>,
    volume: int,
    timestamp: Instant)

  datatype OptionsContract = OptionsContract(
    symbol: string,
    underlyingSymbol: string,
    strikePrice: real,
    expirationDate: Date,
    optionType: BlackScholes.OptionType,
    bid: Option<real>,
    ask: Option<real>,
    lastPrice: Option<real>,
    volume: Option<int>,
    openInterest: Option<int>,
    impliedVolatility: Option<real>,
    delta: Option<real>,
    gamma: Option<real>,
    theta: Option<real>,
    vega: Option<real>,
    updatedAt: Instant)

  datatype VolatilityPoint = VolatilityPoint(
    strike: real,
    expiryDays: int,
    impliedVolatility: real,
    optionType: BlackScholes.OptionType)

  datatype VolatilitySurface = VolatilitySurface(
    underlyingSymbol: string,
    spotPrice: real,
    riskFreeRate: real,
    dividendYield: real,
    surfaceDate: Instant,
    points: seq<VolatilityPoint>)

  datatype HistoricalBar = HistoricalBar(
    symbol: string,
    timestamp: Instant,
    open: real,
    high: real,
    low: real,
    close: real,
    volume: int)

  /** `NetworkError` carries the HTTP client's error, which is not modelled. */
  datatype MarketDataError = ApiError(message: string) | RateLimited | InvalidSymbol | NetworkError | ParseError(message: string)

  // ---------------------------------------------------------------------------
  // Polygon response shapes
  // ---------------------------------------------------------------------------

  datatype PolygonQuote = PolygonQuote(
    symbol: string,
    close: Option<real>,
    high: Option<real>,
    low: Option<real>,
    volume: Option<real>,
    timestamp: Option<int>)

  datatype PolygonQuoteResponse = PolygonQuoteResponse(results: Option<PolygonQuote>, status: string)

  datatype PolygonOptionQuote = PolygonOptionQuote(bid: Option<real>, ask: Option<real>, last: Option<real>)

  datatype PolygonOption = PolygonOption(
    symbol: string,
    underlyingSymbol: string,
    strikePrice: real,
    expirationDate: string,
    contractType: string,
    lastQuote: Option<PolygonOptionQuote>,
    impliedVolatility: Option<real>,
    delta: Option<real>,
    gamma: Option<real>,
    theta: Option<real>,
    vega: Option<real>)

  datatype PolygonOptionsResponse = PolygonOptionsResponse(results: Option<seq<PolygonOption>>, status: string)

  /** One daily bar; `timestamp` is in milliseconds. */
  datatype HistoricalResult = HistoricalResult(
    timestamp: int,
    open: real,
    high: real,
    low: real,
    close: real,
    volume: real)

  datatype HistoricalResponse = HistoricalResponse(results: Option<seq<HistoricalResult>>, status: string)

  // ---------------------------------------------------------------------------
  // Integer conversions
  // ---------------------------------------------------------------------------

  /** Whole seconds in a span of milliseconds, rounded toward zero as Rust's `/` on signed integers and chrono's `num_seconds` round. */
  function WholeSeconds(ms: int): (secs: int)
    ensures ms >= 0 ==> secs >= 0 && secs * 1000 <= ms < secs * 1000 + 1000
    ensures ms < 0 ==> secs <= 0 && secs * 1000 - 1000 < ms <= secs * 1000
  {
    if ms >= 0 then ms / 1000 else -((-ms) / 1000)
  }

  /** A real rounded toward zero. */
  function Truncate(x: real): (n: int)
    ensures x >= 0.0 ==> n >= 0 && n as real <= x < n as real + 1.0
    ensures x < 0.0 ==> n <= 0 && n as real - 1.0 < x <= n as real
  {
    if x >= 0.0 then x.Floor else -((-x).Floor)
  }

  /** Rust's `f64 as i64`: rounded toward zero, saturating at the bounds of `i64`. */
  function SaturatingI64(x: real): (n: int)
    ensures I64_MIN <= n <= I64_MAX
    ensures I64_MIN as real <= x < I64_MAX as real + 1.0 ==> n == Truncate(x)
  {
    var t := Truncate(x);
    if t < I64_MIN then I64_MIN else if t > I64_MAX then I64_MAX else t
  }

  /** Rust's `i64 as i32`: the low 32 bits, read as two's complement. */
  function WrapI32(x: int): (n: int)
    ensures I32_MIN <= n <= I32_MAX
    ensures I32_MIN <= x <= I32_MAX ==> n == x
    ensures (x - n) % 0x1_0000_0000 == 0
  {
    (x - I32_MIN) % 0x1_0000_0000 + I32_MIN
  }
}
