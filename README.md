# Personal dashboard: caching, quote aggregation and card state

A Dafny model of the logic of a small personal dashboard web application:

- **`/api/news`** (`news_route.dfy`, module `NewsRoute`): a keyword-search
  news fetch behind a single-slot, process-wide cache with a ten-minute
  time-to-live. The cache is a class with one `Option<CachedData>` field;
  the handler `NewsCache.Get` is specified by the pure function `Serve`,
  and the hit/miss, boundary and refresh properties are lemmas about it.
- **`/api/market`** (`market_route.dfy`, module `MarketRoute`): one chart
  request per ticker symbol, each turned into a quote (price, change,
  change percentage, market state) or an error value, and the loop that
  gathers the results into a record keyed by symbol.
- **Dashboard client** (`dashboard.dfy`, module `Dashboard`): the
  `(quotes, lastUpdated)` state and the stale-on-failure update rule of a
  poll, as a class; the row of market cards rendered from that state.
- **Market card** (`market_card.dfy`, module `MarketCard`): the badge
  text for a market state, the loading / unavailable / priced
  classification, the sign and the open-badge rule.
- **Search card** (`search_card.dfy`, module `SearchCard`): the text field
  and its submit rule (trim, ignore a blank query, otherwise open the search
  and clear the field), as a class.

Helper modules: `Optional` (`optional.dfy`, `null`/`undefined` as
`Option`, `??` as `GetOr`), `Decimal` (`decimal.dfy`, the decimal rendering
of an HTTP status in an error message, and its inverse), `JsText`
(`js_text.dfy`, ECMAScript `String.prototype.trim`) and `UriComponent`
(`uri_component.dfy`, `encodeURIComponent` with UTF-8 escapes, and
`decodeURIComponent` with its `URIError` cases).

Network calls, the environment variable holding the API key, JSON
decoding and the clock are inputs: each upstream outcome is a datatype
(`NewsRoute.Upstream`, `MarketRoute.QuoteResponse`, `Dashboard.Poll`), and
each clock read is an integer parameter in milliseconds. JavaScript numbers
are modelled as `real`; nothing here claims IEEE rounding behaviour.

Behaviour of the code that a reader might not expect, and which the model
keeps:

- The news route does not always answer: a rejected `fetch` (network
  error, the ten-second timeout) or a body that is not JSON propagates out
  of the handler, which has no `catch`. The model has an upstream outcome
  `Threw` for this; the request then ends in `ServerError` and the cache
  keeps its previous content (`NewsRoute.RejectionKeepsCache`).
- A refresh and the cache hits that follow it report different `fetchedAt`
  values: the refreshing reply reports a clock read taken after the fetch
  (route.ts line 54), while the cache stores, and every later hit reports,
  the time the refreshing request started (lines 46 and 51). So a hit's
  timestamp is earlier than the reply that filled the cache whenever the
  fetch took any time (`NewsRoute.TwoRequests`).
- The market state is the upstream `marketState` string passed through,
  with `"CLOSED"` when it is missing; nothing derives it from trading-period
  windows.

## Model

| member | source | states |
|---|---|---|
| `NewsRoute.SourceName` | src/app/api/news/route.ts:35 | the source is the upstream `source.name` when both are present, and "Unknown" otherwise |
| `NewsRoute.MapArticles` | src/app/api/news/route.ts:32-37 | the mapped list has the upstream count, and element i is the conversion of upstream element i |
| `NewsRoute.FetchNews` | src/app/api/news/route.ts:18-38 | no key or a non-2xx status gives an empty list; a missing `articles` field gives an empty list; a rejected fetch or failed JSON decode rejects; otherwise one article per upstream item |
| `NewsRoute.FetchedArticlesMirrorUpstream` | src/app/api/news/route.ts:32-37 | each fetched article keeps the upstream title, url and date, in order, with the source-name fallback |
| `NewsRoute.NewsCache.constructor` | src/app/api/news/route.ts:15 | the cache slot starts empty |
| `NewsRoute.NewsCache.Get` | src/app/api/news/route.ts:40-57 | the reply and the new slot are those `Serve` gives for the old slot, request time, upstream outcome and later clock read |
| `NewsRoute.HitServesCache` | src/app/api/news/route.ts:43-48 | a hit replies with the cached articles and the stored `fetchedAt`, without the no-store header, and leaves the slot unchanged |
| `NewsRoute.HitIgnoresUpstream` | src/app/api/news/route.ts:43-50 | on a hit the outcome does not depend on the upstream at all (no upstream call) |
| `NewsRoute.TtlBoundary` | src/app/api/news/route.ts:16-43 | content exactly `CACHE_TTL` old is a miss; one millisecond younger is a hit |
| `NewsRoute.MissRefreshes` | src/app/api/news/route.ts:50-56 | a miss whose fetch completes stores the fresh list stamped with the request time, replies with it, the later clock read and no-store; with a non-decreasing clock the reported time is not before the stored one |
| `NewsRoute.FailureIsCachedEmpty` | src/app/api/news/route.ts:18-51 | a missing key or non-2xx status on a miss caches an empty list |
| `NewsRoute.RejectionKeepsCache` | src/app/api/news/route.ts:24-51 | a rejected fetch on a miss fails the request and leaves the slot as it was |
| `NewsRoute.RefreshThenHit` | src/app/api/news/route.ts:43-51 | after a refresh at t, any request at t' with t <= t' < t + TTL is a hit returning the same articles and timestamp |
| `NewsRoute.IsHit` | src/app/api/news/route.ts:16-43 | a request hits exactly when the slot is filled and the request time is before the content's expiry (`fetchedAt + CACHE_TTL`) |
| `NewsRoute.Serve` | src/app/api/news/route.ts:43-56 | a JSON reply always carries the articles the slot holds afterwards; no-store is sent exactly on a refresh; the request fails exactly when a miss meets a rejected fetch; the slot only changes to the replied list stamped with the request time |
| `NewsRoute.TwoRequests` | src/app/api/news/route.ts:40-57 | from a fresh process, the first request refreshes and reports the clock read after its fetch; a second within the TTL returns the same articles but reports the first request's start time; one TTL or more later refreshes |
| `MarketRoute.MetaOf` | src/app/api/market/route.ts:25 | `meta` is present exactly when chart, result, a first entry and its meta all exist |
| `MarketRoute.Price` | src/app/api/market/route.ts:31 | the price is `regularMarketPrice`, or 0 when it is missing |
| `MarketRoute.PreviousClose` | src/app/api/market/route.ts:32 | previous close falls back from `chartPreviousClose` to `previousClose` to the price |
| `MarketRoute.Derive` | src/app/api/market/route.ts:31-43 | price defaults to 0; change is price minus previous close; percentage times previous close is 100 times change when the close is non-zero, and 0 when it is zero; market state defaults to "CLOSED" |
| `MarketRoute.FetchQuote` | src/app/api/market/route.ts:12-48 | the pair's first part is the input symbol on every path; a quote exactly when a 2xx body with `meta` arrived; "HTTP <status>" for non-2xx, "No data" for missing meta, "Fetch failed" for a thrown error |
| `MarketRoute.ErrorNamesItsCause` | src/app/api/market/route.ts:20-47 | the error message identifies its cause, and a non-2xx message gives back the exact status |
| `MarketRoute.NoCloseMeansNoChange` | src/app/api/market/route.ts:31-34 | with both close fields absent, change and percentage are 0 |
| `MarketRoute.PercentFollowsChange` | src/app/api/market/route.ts:33-34 | against a positive previous close the percentage has the change's sign |
| `MarketRoute.CollectQuotes` | src/app/api/market/route.ts:53-59 | the loop builds the record `Collect` describes: fulfilled entries in order, later ones for the same symbol replacing earlier ones |
| `MarketRoute.Collect` | src/app/api/market/route.ts:53-59 | the record has at most one entry per result, and the last result, when fulfilled, is what its symbol maps to |
| `MarketRoute.CollectKeys` | src/app/api/market/route.ts:53-59 | the record's keys are exactly the symbols of the fulfilled results |
| `MarketRoute.CollectLastWins` | src/app/api/market/route.ts:53-59 | a fulfilled result whose symbol no later result repeats is the record's value for that symbol |
| `MarketRoute.SettleAll` | src/app/api/market/route.ts:51 | every symbol's request settles fulfilled with its `fetchQuote` pair, in symbol order |
| `MarketRoute.AggregateCoversSymbols` | src/app/api/market/route.ts:51-59 | the key set equals the symbol list whatever fails; with distinct symbols the record has one entry per symbol holding its own result |
| `MarketRoute.SymbolsDistinct` | src/app/api/market/route.ts:1 | the six symbols are distinct |
| `MarketRoute.Get` | src/app/api/market/route.ts:50-69 | the reply's keys are exactly the six symbols, each with its own fetch result, stamped with the clock read and no-store |
| `Decimal.Show` | src/app/api/market/route.ts:21 | the status renders as a non-empty digit string without leading zero |
| `Decimal.ParseShow` | src/app/api/market/route.ts:21 | parsing the rendered status gives the status back |
| `Dashboard.CardData` | src/components/Dashboard.tsx:62 | a card gets data exactly when quotes are held and contain its key, and then it gets that entry |
| `Dashboard.Render` | src/components/Dashboard.tsx:54-71 | one card per entry of `SYMBOLS`, in order, each rendered from its lookup; the "Last updated" line exactly when `lastUpdated` is a non-empty string |
| `Dashboard.DashboardState.constructor` | src/components/Dashboard.tsx:33-34 | quotes and lastUpdated start null |
| `Dashboard.DashboardState.FetchMarketData` | src/components/Dashboard.tsx:36-46 | success replaces both fields together; a non-2xx status, a failed decode or a rejection leaves both unchanged; both stay null or non-null together |
| `Dashboard.InitialViewIsLoading` | src/components/Dashboard.tsx:57-69 | before any success every card is the loading placeholder and there is no footer |
| `Dashboard.CardKeysAreRouteSymbols` | src/components/Dashboard.tsx:21-28 | the cards' keys are the route's symbols, in the same order |
| `Dashboard.RouteReplyFillsEveryCard` | src/components/Dashboard.tsx:57-64 | once a record built by the route is held, no card is a placeholder, and a card is priced exactly when its entry is a quote |
| `Dashboard.PollTwice` | src/components/Dashboard.tsx:36-46 | a failed poll after a successful one leaves the rendered dashboard unchanged (stale data on failure) |
| `MarketCard.FormatMarketState` | src/components/MarketCard.tsx:14-26 | REGULAR, PRE, POST/POSTPOST map to Open, Pre-Market, After Hours, each in both directions, and every other string to Closed |
| `MarketCard.Sign` | src/components/MarketCard.tsx:48-50 | `isPositive` and the sign: "+" exactly when the change is at least zero (zero included), and empty otherwise |
| `MarketCard.IsOpen` | src/components/MarketCard.tsx:52 | the badge is highlighted exactly when its label is "Open" |
| `MarketCard.PrefixOrDefault` | src/components/MarketCard.tsx:28 | an omitted prefix is the empty string |
| `MarketCard.Render` | src/components/MarketCard.tsx:28-84 | no data is the placeholder, an error entry is "Unavailable", and only a quote is priced |
| `MarketCard.PricedShowsQuote` | src/components/MarketCard.tsx:48-80 | a priced card shows the quote's own numbers and prefix, the sign and colour agree with the change, and the badge is the label of the quote's market state |
| `MarketCard.OpenBadgeMatchesLabel` | src/components/MarketCard.tsx:51-60 | the badge is `formatMarketState` of the quote's state, highlighted exactly when that state is "REGULAR", which is exactly when it reads "Open" |
| `JsText.Trim` | src/components/SearchCard.tsx:10 | the result is a slice of the query, cut only at whitespace, and starts and ends with non-whitespace; it is empty exactly when the query is all whitespace |
| `JsText.TrimIdempotent` | src/components/SearchCard.tsx:10 | trimming again changes nothing |
| `UriComponent.Encode` | src/components/SearchCard.tsx:13 | the encoding holds only unreserved characters, '%' and upper-case hex digits |
| `UriComponent.DecodeEncode` | src/components/SearchCard.tsx:13 | decoding the encoding gives the string back |
| `UriComponent.EncodeInjective` | src/components/SearchCard.tsx:13 | distinct strings encode differently |
| `SearchCard.SearchAddress` | src/components/SearchCard.tsx:12-14 | the address is the search prefix followed by text that decodes to the trimmed query |
| `SearchCard.SearchBox.constructor` | src/components/SearchCard.tsx:6 | the query starts empty and no tab is open |
| `SearchCard.SearchBox.Change` | src/components/SearchCard.tsx:26 | the query becomes the input's value |
| `SearchCard.SearchBox.Submit` | src/components/SearchCard.tsx:8-17 | a blank trimmed query changes nothing; otherwise exactly one search for the trimmed query opens and the query is cleared |
| `SearchCard.SearchSendsTrimmedQuery` | src/components/SearchCard.tsx:10-13 | the opened address decodes to the trimmed query, and distinct trimmed queries open distinct addresses |
| `SearchCard.TypeAndSubmit` | src/components/SearchCard.tsx:6-26 | typing then submitting opens one tab and clears the field when the text has a non-whitespace character, and opens nothing otherwise |

## Left out

- Network I/O (`fetch`, `AbortSignal.timeout`, request headers), the
  `NEWS_API_KEY` environment variable and `Response.json` decoding: their
  outcomes are inputs (`Upstream`, `QuoteResponse`, `Poll`).
- The request URLs built for the news and chart providers, and the `"_blank"`
  target of the opened search tab: constant strings with no logic.
- ISO-8601 timestamp formatting (`toISOString`): the news and market routes
  report the clock read in milliseconds; the client keeps `fetchedAt` as the
  string it received.
- `MarketRoute.Get`: takes one upstream response per symbol (the model's
  environment), so it requires as many responses as symbols; the concurrency
  of `Promise.allSettled` is modelled as a sequential map, which is exact
  because `fetchQuote` never rejects.
- `NewsRoute.MissRefreshes`: the later clock read is not assumed to follow
  the request's clock read; the lemma states the ordering of the two
  timestamps only under the hypothesis `now <= later`, that is, for a clock
  that does not go backwards.
- Concurrent requests racing on a cache miss: requests are modelled one at
  a time.
- `setInterval` polling, `useEffect` and React rendering, `preventDefault`
  on the form event, and the clock card: timers and framework behaviour;
  only the single-step update rules are modelled.
- Number formatting (`toLocaleString`, `toFixed`, `toLocaleTimeString`) and
  floating-point rounding: numbers are reals and the views hold the numbers
  themselves.
- `encodeURIComponent` throws on a lone UTF-16 surrogate; Dafny strings
  are sequences of Unicode scalar values, so that case cannot arise here.
- The news card, clock, bookmarks, layout, page and drag-and-drop wrapper
  components: presentational, with no logic beyond what is modelled. Widget
  order persistence, feed scraping and market state derived from trading
  windows are not part of this model: no code for them is present.
