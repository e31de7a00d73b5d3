/** The `/api/market` route: one chart request per ticker symbol, each
    turned into a quote or an error value, gathered into a record keyed by
    symbol. Prices are JavaScript numbers, modelled as reals. */
module MarketRoute {
  import opened Optional
  import Decimal

  /** The symbols the route quotes, in request order. */
  const SYMBOLS: seq<string> := ["BTC-USD", "^DJI", "^IXIC", "^GSPC", "GC=F", "SI=F"]

  const HTTP_PREFIX: string := "HTTP "
  const NO_DATA: string := "No data"
  const FETCH_FAILED: string := "Fetch failed"
  const DEFAULT_STATE: string := "CLOSED"

  /** A symbol's entry in the reply. */
  datatype QuoteResult =
    | Quote(price: real, change: real, changePercent: real, marketState: string)
    | QuoteError(error: string)

  /** The fields of the upstream `meta` object the route reads; each may be missing. */
  datatype Meta = Meta(regularMarketPrice: Option<real>, chartPreviousClose: Option<real>,
                       previousClose: Option<real>, marketState: Option<string>)

  /** The parsed body `{chart: {result: [{meta}]}}`, every link optional. */
  datatype ChartEntry = ChartEntry(meta: Option<Meta>)
  datatype Chart = Chart(result: Option<seq<ChartEntry>>)
  datatype ChartBody = ChartBody(chart: Option<Chart>)

  /** What one chart request produced: a response with its status and, when
      the body is read, its parsed JSON (`None` when parsing throws); or a
      rejection of the request itself (network failure, timeout). */
  datatype QuoteResponse =
    | Responded(status: nat, body: Option<ChartBody>)
    | Threw

  /** `Response.ok`. */
  predicate IsOk(status: nat) {
    200 <= status <= 299
  }

  /** `json.chart?.result?.[0]?.meta`. */
  function MetaOf(body: ChartBody): (meta: Option<Meta>)
    ensures meta.Some? <==>
      && body.chart.Some? && body.chart.value.result.Some?
      && |body.chart.value.result.value| > 0
      && body.chart.value.result.value[0].meta.Some?
  {
    match body.chart
    case None => None
    case Some(chart) =>
      match chart.result
      case None => None
      case Some(entries) => if |entries| == 0 then None else entries[0].meta
  }

  /** `regularMarketPrice ?? 0`. */
  function Price(m: Meta): (p: real)
    ensures m.regularMarketPrice.Some? ==> p == m.regularMarketPrice.value
    ensures m.regularMarketPrice.None? ==> p == 0.0
  {
    m.regularMarketPrice.GetOr(0.0)
  }

  /** `chartPreviousClose ?? previousClose ?? price`. */
  function PreviousClose(m: Meta): (pc: real)
    ensures m.chartPreviousClose.Some? ==> pc == m.chartPreviousClose.value
    ensures m.chartPreviousClose.None? && m.previousClose.Some? ==> pc == m.previousClose.value
    ensures m.chartPreviousClose.None? && m.previousClose.None? ==> pc == Price(m)
  {
    m.chartPreviousClose.GetOr(m.previousClose.GetOr(Price(m)))
  }

  /** The quote derived from a present `meta`. The percentage is the change
      relative to the previous close, and zero when that close is zero. */
  function Derive(m: Meta): (q: QuoteResult)
    ensures q.Quote?
    ensures q.price == Price(m) && q.change == q.price - PreviousClose(m)
    ensures PreviousClose(m) != 0.0 ==> q.changePercent * PreviousClose(m) == 100.0 * q.change
    ensures PreviousClose(m) == 0.0 ==> q.changePercent == 0.0
    ensures m.marketState.Some? ==> q.marketState == m.marketState.value
    ensures m.marketState.None? ==> q.marketState == DEFAULT_STATE
  {
    var price := Price(m);
    var previousClose := PreviousClose(m);
    var change := price - previousClose;
    var changePercent := if previousClose != 0.0 then (change / previousClose) * 100.0 else 0.0;
    Quote(price, change, changePercent, m.marketState.GetOr(DEFAULT_STATE))
  }

  /** `fetchQuote`: the pair `[symbol, result]`, on every path. */
  function FetchQuote(symbol: string, resp: QuoteResponse): (r: (string, QuoteResult))
    ensures r.0 == symbol
    ensures r.1.Quote? <==>
      resp.Responded? && IsOk(resp.status) && resp.body.Some? && MetaOf(resp.body.value).Some?
    ensures resp.Threw? ==> r.1 == QuoteError(FETCH_FAILED)
    ensures resp.Responded? && !IsOk(resp.status) ==>
      r.1 == QuoteError(HTTP_PREFIX + Decimal.Show(resp.status))
    ensures resp.Responded? && IsOk(resp.status) && resp.body.None? ==> r.1 == QuoteError(FETCH_FAILED)
    ensures resp.Responded? && IsOk(resp.status) && resp.body.Some? && MetaOf(resp.body.value).None? ==>
      r.1 == QuoteError(NO_DATA)
    ensures r.1.Quote? ==> r.1 == Derive(MetaOf(resp.body.value).value)
  {
    match resp
    case Threw => (symbol, QuoteError(FETCH_FAILED))
    case Responded(status, body) =>
      if !IsOk(status) then (symbol, QuoteError(HTTP_PREFIX + Decimal.Show(status)))
      else if body.None? then (symbol, QuoteError(FETCH_FAILED))
      else
        match MetaOf(body.value)
        case None => (symbol, QuoteError(NO_DATA))
        case Some(meta) => (symbol, Derive(meta))
  }

  /** What an error message says went wrong. */
  datatype Cause = HttpStatus(status: nat) | NoData | FetchFailed | Unknown

  /** Reads the cause back out of an error message. */
  function CauseOf(error: string): Cause {
    if error == NO_DATA then NoData
    else if error == FETCH_FAILED then FetchFailed
    else if |error| >= |HTTP_PREFIX| && error[..|HTTP_PREFIX|] == HTTP_PREFIX then
      match Decimal.Parse(error[|HTTP_PREFIX|..])
      case Some(n) => HttpStatus(n)
      case None => Unknown
    else Unknown
  }

  /** The three error messages are told apart, and a non-2xx message gives
      back the exact status. */
  lemma ErrorNamesItsCause(symbol: string, resp: QuoteResponse)
    requires FetchQuote(symbol, resp).1.QuoteError?
    ensures var cause := CauseOf(FetchQuote(symbol, resp).1.error);
      && (resp.Responded? && !IsOk(resp.status) ==> cause == HttpStatus(resp.status))
      && (cause.HttpStatus? ==> resp.Responded? && !IsOk(resp.status))
      && (cause == NoData <==> resp.Responded? && IsOk(resp.status) && resp.body.Some?)
      && (cause == FetchFailed <==> resp.Threw? || (IsOk(resp.status) && resp.body.None?))
  {
    if resp.Responded? && !IsOk(resp.status) {
      var e := HTTP_PREFIX + Decimal.Show(resp.status);
      assert e[..|HTTP_PREFIX|] == HTTP_PREFIX;
      assert e[|HTTP_PREFIX|..] == Decimal.Show(resp.status);
      Decimal.ParseShow(resp.status);
      assert e != NO_DATA && e != FETCH_FAILED by {
        assert e[0] == 'H';
      }
    }
  }

  /** With neither close field present, the previous close is the price
      itself, so there is no change and no percentage. */
  lemma NoCloseMeansNoChange(m: Meta)
    requires m.chartPreviousClose.None? && m.previousClose.None?
    ensures Derive(m).change == 0.0 && Derive(m).changePercent == 0.0
  {
  }

  /** Against a positive previous close, the percentage has the sign of the
      change, so a card's one sign fits both numbers. */
  lemma PercentFollowsChange(m: Meta)
    requires PreviousClose(m) > 0.0
    ensures Derive(m).changePercent >= 0.0 <==> Derive(m).change >= 0.0
  {
  }

  /** The state of one request once `Promise.allSettled` has joined it. */
  datatype Settled<T> = Fulfilled(value: T) | Rejected

  /** The record the aggregation loop builds: entries written in order, a
      later one for the same symbol replacing an earlier one, rejections
      skipped. */
  function Collect(results: seq<Settled<(string, QuoteResult)>>): (quotes: map<string, QuoteResult>)
    ensures |quotes| <= |results|
    ensures results != [] && results[|results| - 1].Fulfilled? ==>
      var (symbol, data) := results[|results| - 1].value;
      symbol in quotes && quotes[symbol] == data
  {
    if results == [] then map[]
    else
      var m := Collect(results[..|results| - 1]);
      match results[|results| - 1]
      case Fulfilled(entry) => m[entry.0 := entry.1]
      case Rejected => m
  }

  /** The symbols of the fulfilled results. */
  function FulfilledSymbols(results: seq<Settled<(string, QuoteResult)>>): set<string> {
    set i | 0 <= i < |results| && results[i].Fulfilled? :: results[i].value.0
  }

  /** The `for` loop of `GET` over the settled results. */
  method CollectQuotes(results: seq<Settled<(string, QuoteResult)>>) returns (quotes: map<string, QuoteResult>)
    ensures quotes == Collect(results)
  {
    quotes := map[];
    for i := 0 to |results|
      invariant quotes == Collect(results[..i])
    {
      assert results[..i + 1][..i] == results[..i];
      if results[i].Fulfilled? {
        var (symbol, data) := results[i].value;
        quotes := quotes[symbol := data];
      }
    }
    assert results[..|results|] == results;
  }

  /** Every requested symbol gets exactly one key, and nothing else does. */
  lemma {:induction false} CollectKeys(results: seq<Settled<(string, QuoteResult)>>)
    ensures Collect(results).Keys == FulfilledSymbols(results)
  {
    if results != [] {
      var init := results[..|results| - 1];
      CollectKeys(init);
      assert forall i :: 0 <= i < |init| ==> init[i] == results[i];
    }
  }

  /** A fulfilled result whose symbol no later result repeats is what the
      record holds for that symbol. */
  lemma {:induction false} CollectLastWins(results: seq<Settled<(string, QuoteResult)>>, i: int)
    requires 0 <= i < |results| && results[i].Fulfilled?
    requires forall j :: i < j < |results| && results[j].Fulfilled? ==> results[j].value.0 != results[i].value.0
    ensures results[i].value.0 in Collect(results)
    ensures Collect(results)[results[i].value.0] == results[i].value.1
  {
    if i < |results| - 1 {
      var init := results[..|results| - 1];
      CollectLastWins(init, i);
    }
  }

  predicate Distinct<T(==)>(s: seq<T>) {
    forall i, j :: 0 <= i < j < |s| ==> s[i] != s[j]
  }

  /** `Promise.allSettled(symbols.map(fetchQuote))`, given one response per
      symbol. `fetchQuote` catches every exception, so each settles fulfilled. */
  function SettleAll(symbols: seq<string>, responses: seq<QuoteResponse>): (r: seq<Settled<(string, QuoteResult)>>)
    requires |responses| == |symbols|
    ensures |r| == |symbols|
    ensures forall i :: 0 <= i < |r| ==> r[i] == Fulfilled(FetchQuote(symbols[i], responses[i]))
  {
    if symbols == [] then []
    else [Fulfilled(FetchQuote(symbols[0], responses[0]))] + SettleAll(symbols[1..], responses[1..])
  }

  lemma {:induction false} DistinctSize<T>(s: seq<T>)
    requires Distinct(s)
    ensures |set x | x in s| == |s|
  {
    if s != [] {
      var rest := s[1..];
      DistinctSize(rest);
      assert (set x | x in s) == {s[0]} + (set x | x in rest);
      assert s[0] !in rest;
    }
  }

  /** However many fetches fail, the record's keys are exactly the requested
      symbols, and with distinct symbols each holds its own fetch's result. */
  lemma AggregateCoversSymbols(symbols: seq<string>, responses: seq<QuoteResponse>)
    requires |responses| == |symbols|
    ensures Collect(SettleAll(symbols, responses)).Keys == set s | s in symbols
    ensures Distinct(symbols) ==>
      && |Collect(SettleAll(symbols, responses))| == |symbols|
      && forall i :: 0 <= i < |symbols| ==>
           Collect(SettleAll(symbols, responses))[symbols[i]] == FetchQuote(symbols[i], responses[i]).1
  {
    var results := SettleAll(symbols, responses);
    CollectKeys(results);
    assert FulfilledSymbols(results) == set s | s in symbols by {
      forall s | s in symbols ensures s in FulfilledSymbols(results) {
        var i :| 0 <= i < |symbols| && symbols[i] == s;
        assert results[i].value.0 == s;
      }
    }
    if Distinct(symbols) {
      DistinctSize(symbols);
      forall i | 0 <= i < |symbols|
        ensures Collect(results)[symbols[i]] == FetchQuote(symbols[i], responses[i]).1
      {
        CollectLastWins(results, i);
      }
    }
  }

  /** No symbol is listed twice, so no entry of the record overwrites another. */
  lemma SymbolsDistinct()
    ensures Distinct(SYMBOLS)
  {
  }

  /** The route's JSON body and its `no-store` header flag. */
  datatype MarketReply = MarketReply(quotes: map<string, QuoteResult>, fetchedAt: int, noStore: bool)

  /** `GET /api/market`, with the upstream responses (one per symbol, in
      order) and the clock read `now` as inputs. */
  method Get(responses: seq<QuoteResponse>, now: int) returns (reply: MarketReply)
    requires |responses| == |SYMBOLS|
    ensures reply.quotes.Keys == set s | s in SYMBOLS
    ensures |reply.quotes| == |SYMBOLS|
    ensures forall i :: 0 <= i < |SYMBOLS| ==> reply.quotes[SYMBOLS[i]] == FetchQuote(SYMBOLS[i], responses[i]).1
    ensures reply.fetchedAt == now && reply.noStore
  {
    var results := SettleAll(SYMBOLS, responses);
    var quotes := CollectQuotes(results);
    SymbolsDistinct();
    AggregateCoversSymbols(SYMBOLS, responses);
    reply := MarketReply(quotes, now, true);
  }
}
