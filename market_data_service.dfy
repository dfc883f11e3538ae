/**
 * The market-data service: a provider behind a per-symbol quote cache with a time to
 * live, and the volatility surface built from a quote and an options chain.
 *
 * The clock is the `now` parameter of each operation; one reading stands for every
 * time the source reads the clock during that operation.
 */
module MarketDataService {
  import opened Wrappers
  import opened MarketDataModels
  import MarketDataProvider

  const CACHE_TTL_SECONDS: int := 300
  /** The surface's constant rate and dividend yield. */
  const RISK_FREE_RATE: real := 0.05
  const DIVIDEND_YIELD: real := 0.0

  type Cache = map<string, (StockQuote, Instant)>

  /** A quote cached for `symbol` less than `ttl` whole seconds before `now`. */
  predicate Fresh(cache: Cache, symbol: string, now: Instant, ttl: int) {
    symbol in cache && WholeSeconds(now - cache[symbol].1) < ttl
  }

  /** With the 300-second time to live, a cached quote is used exactly when it is younger than 300000 ms. */
  lemma FreshIffYoungerThanTtl(cache: Cache, symbol: string, now: Instant)
    requires symbol in cache
    ensures Fresh(cache, symbol, now, CACHE_TTL_SECONDS) <==> now - cache[symbol].1 < CACHE_TTL_SECONDS * 1000
  {
  }

  /** The quote the cached lookup answers: the cached one when fresh, otherwise the provider's. */
  function CachedQuote(api: MarketDataProvider.PolygonApi, cache: Cache, symbol: string, now: Instant, ttl: int)
    : (r: Result<StockQuote, MarketDataError>)
    ensures Fresh(cache, symbol, now, ttl) ==> r == Ok(cache[symbol].0)
    ensures !Fresh(cache, symbol, now, ttl) ==> r == MarketDataProvider.GetQuote(api, symbol, now)
  {
    if Fresh(cache, symbol, now, ttl) then Ok(cache[symbol].0) else MarketDataProvider.GetQuote(api, symbol, now)
  }

  /** The cache after the lookup: a fresh provider quote replaces the entry, stamped `now`; nothing else changes. */
  function CacheAfter(api: MarketDataProvider.PolygonApi, cache: Cache, symbol: string, now: Instant, ttl: int): (c: Cache)
    ensures Fresh(cache, symbol, now, ttl) || CachedQuote(api, cache, symbol, now, ttl).Err? ==> c == cache
    ensures !Fresh(cache, symbol, now, ttl) && CachedQuote(api, cache, symbol, now, ttl).Ok? ==>
              c == cache[symbol := (CachedQuote(api, cache, symbol, now, ttl).value, now)]
  {
    var q := CachedQuote(api, cache, symbol, now, ttl);
    if !Fresh(cache, symbol, now, ttl) && q.Ok? then cache[symbol := (q.value, now)] else cache
  }

  /** Every entry is keyed by the symbol of its quote. */
  predicate KeyedBySymbol(cache: Cache) {
    forall s :: s in cache ==> cache[s].0.symbol == s
  }

  /** The lookup answers a quote for the symbol asked, and keeps the cache keyed by symbol. */
  lemma {:induction false} LookupKeepsKeys(api: MarketDataProvider.PolygonApi, cache: Cache, symbol: string, now: Instant, ttl: int)
    requires KeyedBySymbol(cache)
    ensures CachedQuote(api, cache, symbol, now, ttl).Ok? ==> CachedQuote(api, cache, symbol, now, ttl).value.symbol == symbol
    ensures KeyedBySymbol(CacheAfter(api, cache, symbol, now, ttl))
  {
    var after := CacheAfter(api, cache, symbol, now, ttl);
    forall s | s in after ensures after[s].0.symbol == s {
      if s != symbol {
        assert after[s] == cache[s];
      }
    }
  }

  /** A quote just fetched answers every lookup of its symbol made before 300 seconds have passed, without the provider. */
  lemma RefetchWithinTtlHits(api: MarketDataProvider.PolygonApi, cache: Cache, symbol: string, now: Instant, later: Instant)
    requires !Fresh(cache, symbol, now, CACHE_TTL_SECONDS)
    requires CachedQuote(api, cache, symbol, now, CACHE_TTL_SECONDS).Ok?
    requires later < now + CACHE_TTL_SECONDS * 1000
    ensures var after := CacheAfter(api, cache, symbol, now, CACHE_TTL_SECONDS);
            && Fresh(after, symbol, later, CACHE_TTL_SECONDS)
            && CachedQuote(api, after, symbol, later, CACHE_TTL_SECONDS) == CachedQuote(api, cache, symbol, now, CACHE_TTL_SECONDS)
  {
    var after := CacheAfter(api, cache, symbol, now, CACHE_TTL_SECONDS);
    FreshIffYoungerThanTtl(after, symbol, later);
  }

  // ---------------------------------------------------------------------------
  // Volatility surfaces
  // ---------------------------------------------------------------------------

  /** A contract that gives a surface point: it has an implied volatility and expires after `today`. */
  predicate OnSurface(o: OptionsContract, today: Date) {
    o.impliedVolatility.Some? && o.expirationDate - today > 0
  }

  /** The surface point of such a contract; the day count is narrowed to 32 bits. */
  function PointOf(o: OptionsContract, today: Date): (p: VolatilityPoint)
    requires OnSurface(o, today)
    ensures p.strike == o.strikePrice && p.impliedVolatility == o.impliedVolatility.value && p.optionType == o.optionType
    ensures o.expirationDate - today <= I32_MAX ==> p.expiryDays == o.expirationDate - today > 0
  {
    VolatilityPoint(o.strikePrice, WrapI32(o.expirationDate - today), o.impliedVolatility.value, o.optionType)
  }

  /** The points of a chain, in chain order. */
  function SurfacePoints(options: seq<OptionsContract>, today: Date): (points: seq<VolatilityPoint>)
    ensures |points| <= |options|
    decreases |options|
  {
    if |options| == 0 then []
    else
      var last := options[|options| - 1];
      var init := SurfacePoints(options[..|options| - 1], today);
      if OnSurface(last, today) then init + [PointOf(last, today)] else init
  }

  /** The points of two pages are the points of the first followed by those of the second. */
  lemma {:induction false} SurfacePointsAppend(a: seq<OptionsContract>, b: seq<OptionsContract>, today: Date)
    ensures SurfacePoints(a + b, today) == SurfacePoints(a, today) + SurfacePoints(b, today)
    decreases |b|
  {
    if |b| == 0 {
      assert a + b == a;
    } else {
      var b' := b[..|b| - 1];
      SurfacePointsAppend(a, b', today);
      assert (a + b)[..|a + b| - 1] == a + b';
      assert (a + b)[|a + b| - 1] == b[|b| - 1];
    }
  }

  /** `p` is the point of some contract of `options` that lies on the surface. */
  predicate PointFrom(p: VolatilityPoint, options: seq<OptionsContract>, today: Date) {
    exists i :: 0 <= i < |options| && OnSurface(options[i], today) && p == PointOf(options[i], today)
  }

  /** Every point comes from a contract of the chain that lies on the surface. */
  lemma {:induction false} SurfacePointsSound(options: seq<OptionsContract>, today: Date)
    ensures forall p :: p in SurfacePoints(options, today) ==> PointFrom(p, options, today)
    decreases |options|
  {
    if |options| > 0 {
      var init := options[..|options| - 1];
      SurfacePointsSound(init, today);
      forall p | p in SurfacePoints(options, today) ensures PointFrom(p, options, today) {
        if p in SurfacePoints(init, today) {
          var i :| 0 <= i < |init| && OnSurface(init[i], today) && p == PointOf(init[i], today);
          assert options[i] == init[i];
        } else {
          var k := |options| - 1;
          assert OnSurface(options[k], today) && p == PointOf(options[k], today);
        }
      }
    }
  }

  /** Every contract of the chain that lies on the surface gives a point. */
  lemma {:induction false} SurfacePointsComplete(options: seq<OptionsContract>, today: Date)
    ensures forall i :: 0 <= i < |options| && OnSurface(options[i], today) ==>
              PointOf(options[i], today) in SurfacePoints(options, today)
    decreases |options|
  {
    if |options| > 0 {
      var init := options[..|options| - 1];
      SurfacePointsComplete(init, today);
      forall i | 0 <= i < |options| && OnSurface(options[i], today)
        ensures PointOf(options[i], today) in SurfacePoints(options, today)
      {
        if i < |init| {
          assert options[i] == init[i];
        }
      }
    }
  }

  /** The surface of `symbol`: the (cached) spot price and the points of its whole chain, dated `now`. */
  function Surface(api: MarketDataProvider.PolygonApi, cal: Calendar, cache: Cache, symbol: string, now: Instant, ttl: int)
    : Result<VolatilitySurface, MarketDataError>
  {
    match CachedQuote(api, cache, symbol, now, ttl)
    case Err(e) => Err(e)
    case Ok(quote) =>
      match MarketDataProvider.OptionsChain(api, cal, symbol, None, now)
      case Err(e) => Err(e)
      case Ok(options) =>
        Ok(VolatilitySurface(symbol, quote.price, RISK_FREE_RATE, DIVIDEND_YIELD, now, SurfacePoints(options, cal.dateOf(now))))
  }

  /** A surface fails exactly when the quote lookup or the chain query fails, with the quote's error first. */
  lemma SurfaceFails(api: MarketDataProvider.PolygonApi, cal: Calendar, cache: Cache, symbol: string, now: Instant, ttl: int)
    ensures var quote := CachedQuote(api, cache, symbol, now, ttl);
            var chain := MarketDataProvider.OptionsChain(api, cal, symbol, None, now);
            && (Surface(api, cal, cache, symbol, now, ttl).Err? <==> quote.Err? || chain.Err?)
            && (quote.Err? ==> Surface(api, cal, cache, symbol, now, ttl) == Err(quote.error))
            && (quote.Ok? && chain.Err? ==> Surface(api, cal, cache, symbol, now, ttl) == Err(chain.error))
  {
  }

  /** A surface carries the asked symbol, the quoted spot, the fixed rate and yield, and only points of its chain. */
  lemma SurfaceShape(api: MarketDataProvider.PolygonApi, cal: Calendar, cache: Cache, symbol: string, now: Instant, ttl: int)
    requires Surface(api, cal, cache, symbol, now, ttl).Ok?
    ensures var s := Surface(api, cal, cache, symbol, now, ttl).value;
            var chain := MarketDataProvider.OptionsChain(api, cal, symbol, None, now);
            && CachedQuote(api, cache, symbol, now, ttl).Ok? && chain.Ok?
            && s.underlyingSymbol == symbol
            && s.spotPrice == CachedQuote(api, cache, symbol, now, ttl).value.price
            && s.riskFreeRate == 0.05 && s.dividendYield == 0.0 && s.surfaceDate == now
            && |s.points| <= |chain.value|
            && forall p :: p in s.points ==> PointFrom(p, chain.value, cal.dateOf(now))
  {
    var quote := CachedQuote(api, cache, symbol, now, ttl);
    var chain := MarketDataProvider.OptionsChain(api, cal, symbol, None, now);
    assert quote.Ok? && chain.Ok?;
    var surface := Surface(api, cal, cache, symbol, now, ttl).value;
    assert surface.points == SurfacePoints(chain.value, cal.dateOf(now));
    SurfacePointsSound(chain.value, cal.dateOf(now));
  }

  class MarketDataService {
    const provider: MarketDataProvider.PolygonApi
    const calendar: Calendar
    var cache: Cache
    const cacheTtlSeconds: int

    ghost predicate Valid()
      reads this
    {
      cacheTtlSeconds == CACHE_TTL_SECONDS && KeyedBySymbol(cache)
    }

    constructor(provider: MarketDataProvider.PolygonApi, calendar: Calendar)
      ensures Valid()
      ensures this.provider == provider && this.calendar == calendar
      ensures cache == map[] && cacheTtlSeconds == CACHE_TTL_SECONDS
    {
      this.provider := provider;
      this.calendar := calendar;
      cache := map[];
      cacheTtlSeconds := CACHE_TTL_SECONDS;
    }

    /** The quote of `symbol`: from the cache while fresh, otherwise fetched and cached with its time. */
    method GetQuoteCached(symbol: string, now: Instant) returns (r: Result<StockQuote, MarketDataError>)
      requires Valid()
      modifies this
      ensures Valid()
      ensures r == CachedQuote(provider, old(cache), symbol, now, cacheTtlSeconds)
      ensures cache == CacheAfter(provider, old(cache), symbol, now, cacheTtlSeconds)
      ensures r.Ok? ==> r.value.symbol == symbol
    {
      LookupKeepsKeys(provider, cache, symbol, now, cacheTtlSeconds);
      if symbol in cache {
        var (quote, cachedAt) := cache[symbol];
        if WholeSeconds(now - cachedAt) < cacheTtlSeconds {
          return Ok(quote);
        }
      }
      var fetched := MarketDataProvider.GetQuote(provider, symbol, now);
      if fetched.Err? {
        return Err(fetched.error);
      }
      cache := cache[symbol := (fetched.value, now)];
      r := Ok(fetched.value);
    }

    /** The volatility surface of `symbol`, from its cached quote and its options chain. */
    method BuildVolatilitySurface(symbol: string, now: Instant) returns (r: Result<VolatilitySurface, MarketDataError>)
      requires Valid()
      modifies this
      ensures Valid()
      ensures r == Surface(provider, calendar, old(cache), symbol, now, cacheTtlSeconds)
      ensures cache == CacheAfter(provider, old(cache), symbol, now, cacheTtlSeconds)
    {
      var quote := GetQuoteCached(symbol, now);
      if quote.Err? {
        return Err(quote.error);
      }
      var options := MarketDataProvider.GetOptionsChain(provider, calendar, symbol, None, now);
      if options.Err? {
        return Err(options.error);
      }
      var chain := options.value;
      var today := calendar.dateOf(now);
      var points: seq<VolatilityPoint> := [];
      for i := 0 to |chain|
        invariant points == SurfacePoints(chain[..i], today)
      {
        assert chain[..i + 1][..i] == chain[..i];
        var option := chain[i];
        if option.impliedVolatility.Some? {
          var daysToExpiry := option.expirationDate - today;
          if daysToExpiry > 0 {
            points := points + [VolatilityPoint(option.strikePrice, WrapI32(daysToExpiry), option.impliedVolatility.value, option.optionType)];
          }
        }
      }
      assert chain[..|chain|] == chain;
      r := Ok(VolatilitySurface(symbol, quote.value.price, RISK_FREE_RATE, DIVIDEND_YIELD, now, points));
    }
  }
}
