/** The `/api/news` route: a keyword-search news fetch behind a single-slot,
    process-wide cache with a ten-minute time-to-live. Times are integer
    milliseconds since the epoch, as `Date.now()` returns them. */
module NewsRoute {
  import opened Optional

  /** An article as the route returns it. */
  datatype Article = Article(title: string, url: string, source: string, publishedAt: string)

  /** One element of the upstream `articles` array. Its `source` object, and
      that object's `name`, may each be missing. */
  datatype RawSource = RawSource(name: Option<string>)
  datatype RawArticle = RawArticle(title: string, url: string, source: Option<RawSource>, publishedAt: string)

  /** What the upstream request produced. */
  datatype Upstream =
    | NoKey                                  // the API key is unset or empty
    | NotOk                                  // a response whose status is not 2xx
    | Ok(articles: Option<seq<RawArticle>>)  // a parsed 2xx body; its `articles` may be missing
    | Threw                                  // fetch rejected or timed out, or the body was not JSON

  /** The outcome of `fetchNews`: a list, or a rejected promise. */
  datatype NewsFetch = Fetched(articles: seq<Article>) | Rejected

  /** The contents of the cache slot. */
  datatype CachedData = CachedData(articles: seq<Article>, fetchedAt: int)

  /** The route's reply: a JSON body (with the `no-store` header or not), or
      the framework's error response when the handler's promise rejects. */
  datatype Reply =
    | Json(articles: seq<Article>, fetchedAt: int, noStore: bool)
    | ServerError

  const CACHE_TTL: int := 10 * 60 * 1000
  const UNKNOWN_SOURCE: string := "Unknown"

  /** `source?.name ?? "Unknown"`. */
  function SourceName(source: Option<RawSource>): (name: string)
    ensures source.Some? && source.value.name.Some? ==> name == source.value.name.value
    ensures source.None? || source.value.name.None? ==> name == UNKNOWN_SOURCE
  {
    match source
    case Some(s) => s.name.GetOr(UNKNOWN_SOURCE)
    case None => UNKNOWN_SOURCE
  }

  function ToArticle(a: RawArticle): Article {
    Article(a.title, a.url, SourceName(a.source), a.publishedAt)
  }

  /** The `map` over the upstream list: one article per raw article, in order. */
  function MapArticles(raw: seq<RawArticle>): (r: seq<Article>)
    ensures |r| == |raw|
    ensures forall i :: 0 <= i < |raw| ==> r[i] == ToArticle(raw[i])
  {
    if raw == [] then [] else [ToArticle(raw[0])] + MapArticles(raw[1..])
  }

  /** `fetchNews`, with the request and its response given as `up`. */
  function FetchNews(up: Upstream): (r: NewsFetch)
    ensures up.NoKey? || up.NotOk? ==> r == Fetched([])
    ensures up.Threw? <==> r.Rejected?
    ensures up.Ok? && up.articles.None? ==> r == Fetched([])
    ensures up.Ok? && up.articles.Some? ==> r.Fetched? && |r.articles| == |up.articles.value|
  {
    match up
    case NoKey => Fetched([])
    case NotOk => Fetched([])
    case Ok(raw) => Fetched(MapArticles(raw.GetOr([])))
    case Threw => Rejected
  }

  /** The cache slot answers a request made at `now`: it is filled and its
      content is strictly younger than the time-to-live, that is, `now` is
      before the content's expiry time. */
  predicate IsHit(cache: Option<CachedData>, now: int)
    ensures IsHit(cache, now) <==> cache.Some? && now < cache.value.fetchedAt + CACHE_TTL
  {
    cache.Some? && now - cache.value.fetchedAt < CACHE_TTL
  }

  /** One request to `GET`: its reply and the new cache slot. The request
      starts at `now`; `later` is the clock read when the reply is built on a
      miss. A JSON reply always carries the articles the slot holds
      afterwards; `no-store` is sent exactly on a refresh; the request fails
      exactly when a miss meets a rejected fetch; and the slot only ever
      changes to the replied list stamped with the request time. */
  function Serve(cache: Option<CachedData>, now: int, up: Upstream, later: int): (r: (Reply, Option<CachedData>))
    ensures r.0.Json? ==> r.1.Some? && r.0.articles == r.1.value.articles
    ensures r.0.Json? && r.0.noStore <==> !IsHit(cache, now) && FetchNews(up).Fetched?
    ensures r.0.ServerError? <==> !IsHit(cache, now) && up.Threw?
    ensures r.1 != cache ==> r.0.Json? && r.1 == Some(CachedData(r.0.articles, now))
  {
    if IsHit(cache, now) then
      (Json(cache.value.articles, cache.value.fetchedAt, false), cache)
    else
      match FetchNews(up)
      case Fetched(articles) => (Json(articles, later, true), Some(CachedData(articles, now)))
      case Rejected => (ServerError, cache)
  }

  /** The module-level cache and the handler that reads and overwrites it. */
  class NewsCache {
    var cache: Option<CachedData>

    /** The slot is empty when the process starts. */
    constructor ()
      ensures cache == None
    {
      cache := None;
    }

    /** `GET /api/news`, with the clock reads `now` (on entry) and `later`
        (after the upstream call) and the upstream outcome as inputs. */
    method Get(now: int, up: Upstream, later: int) returns (reply: Reply)
      modifies this
      ensures (reply, cache) == Serve(old(cache), now, up, later)
    {
      if cache.Some? && now - cache.value.fetchedAt < CACHE_TTL {
        return Json(cache.value.articles, cache.value.fetchedAt, false);
      }
      var fetched := FetchNews(up);
      if fetched.Rejected? {
        return ServerError;
      }
      cache := Some(CachedData(fetched.articles, now));
      reply := Json(fetched.articles, later, true);
    }
  }

  /** A hit returns the cached articles and their original timestamp, sends
      no `no-store` header, and leaves the slot as it was. */
  lemma HitServesCache(cache: Option<CachedData>, now: int, up: Upstream, later: int)
    requires IsHit(cache, now)
    ensures Serve(cache, now, up, later)
         == (Json(cache.value.articles, cache.value.fetchedAt, false), cache)
  {
  }

  /** A hit makes no upstream call: its outcome does not depend on it. */
  lemma HitIgnoresUpstream(cache: Option<CachedData>, now: int, up1: Upstream, up2: Upstream, later: int)
    requires IsHit(cache, now)
    ensures Serve(cache, now, up1, later) == Serve(cache, now, up2, later)
  {
  }

  /** The time-to-live is exclusive: content exactly `CACHE_TTL` old is
      refreshed, content one millisecond younger is served. */
  lemma TtlBoundary(c: CachedData)
    ensures !IsHit(Some(c), c.fetchedAt + CACHE_TTL)
    ensures IsHit(Some(c), c.fetchedAt + CACHE_TTL - 1)
  {
  }

  /** On a miss whose fetch completes, the slot is overwritten with the fresh
      list (an empty one included) stamped with the request time, and the
      reply carries that list, the later clock read and `no-store`. With a
      clock that does not go backwards, the reported time is not before the
      stored one. */
  lemma MissRefreshes(cache: Option<CachedData>, now: int, up: Upstream, later: int)
    requires !IsHit(cache, now) && FetchNews(up).Fetched?
    ensures var (reply, next) := Serve(cache, now, up, later);
      && next == Some(CachedData(FetchNews(up).articles, now))
      && reply == Json(FetchNews(up).articles, later, true)
      && (now <= later ==> reply.fetchedAt >= next.value.fetchedAt)
  {
  }

  /** A missing key or a non-2xx status is cached as an empty list, so the
      following ten minutes are served from it without calling upstream. */
  lemma FailureIsCachedEmpty(cache: Option<CachedData>, now: int, up: Upstream, later: int)
    requires !IsHit(cache, now) && (up.NoKey? || up.NotOk?)
    ensures Serve(cache, now, up, later).1 == Some(CachedData([], now))
  {
  }

  /** When the fetch rejects on a miss, the request fails and the slot keeps
      whatever (stale) content it had. */
  lemma RejectionKeepsCache(cache: Option<CachedData>, now: int, later: int)
    requires !IsHit(cache, now)
    ensures Serve(cache, now, Threw, later) == (ServerError, cache)
  {
  }

  /** After a refresh at `t`, every request at `t'` with `t <= t' < t + TTL`
      is a hit returning the same articles with the same timestamp, whatever
      upstream would have said. */
  lemma RefreshThenHit(cache: Option<CachedData>, t: int, up: Upstream, later: int,
                       t': int, up': Upstream, later': int)
    requires !IsHit(cache, t) && FetchNews(up).Fetched?
    requires t <= t' < t + CACHE_TTL
    ensures var (_, next) := Serve(cache, t, up, later);
      && IsHit(next, t')
      && Serve(next, t', up', later') == (Json(FetchNews(up).articles, t, false), next)
  {
  }

  /** The upstream list is mapped one for one and in order; each article's
      source is the upstream source name, or "Unknown" when that is missing. */
  lemma FetchedArticlesMirrorUpstream(raw: seq<RawArticle>, i: int)
    requires 0 <= i < |raw|
    ensures var r := FetchNews(Ok(Some(raw)));
      && r.Fetched? && |r.articles| == |raw|
      && r.articles[i].title == raw[i].title
      && r.articles[i].url == raw[i].url
      && r.articles[i].publishedAt == raw[i].publishedAt
      && r.articles[i].source == SourceName(raw[i].source)
  {
  }

  /** From a fresh process: the first request refreshes and reports the
      clock read taken after its fetch. A second request within the
      time-to-live returns the same articles but reports the first
      request's start time, which is what the cache stores, so the two
      replies' `fetchedAt` differ whenever the fetch took any time. A second
      request `CACHE_TTL` or more later refreshes again. */
  method TwoRequests(t1: int, up1: Upstream, l1: int, t2: int, up2: Upstream, l2: int)
    returns (r1: Reply, r2: Reply)
    requires !up1.Threw?
    ensures r1.Json? && r1.noStore && r1.fetchedAt == l1
    ensures t1 <= t2 < t1 + CACHE_TTL ==> r2 == Json(r1.articles, t1, false)
    ensures t2 >= t1 + CACHE_TTL && !up2.Threw? ==> r2.Json? && r2.noStore && r2.fetchedAt == l2
  {
    var c := new NewsCache();
    r1 := c.Get(t1, up1, l1);
    r2 := c.Get(t2, up2, l2);
  }
}
