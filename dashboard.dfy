/** The dashboard client: the last market snapshot it holds, the rule by
    which a poll of `/api/market` updates it, and the row of market cards
    it renders from it. Polling timers and the clock card are not modelled. */
module Dashboard {
  import opened Optional
  import MarketRoute
  import MarketCard

  type Quotes = map<string, MarketRoute.QuoteResult>

  /** One market card: the symbol it looks up, its caption and price prefix. */
  datatype SymbolEntry = SymbolEntry(key: string, caption: string, prefix: string)

  /** The cards, in display order. */
  const SYMBOLS: seq<SymbolEntry> := [
    SymbolEntry("BTC-USD", "Bitcoin", "$"),
    SymbolEntry("^DJI", "Dow Jones", ""),
    SymbolEntry("^IXIC", "NASDAQ", ""),
    SymbolEntry("^GSPC", "S&P 500", ""),
    SymbolEntry("GC=F", "Gold", "$"),
    SymbolEntry("SI=F", "Silver", "$")
  ]

  /** The decoded body of a market reply. */
  datatype MarketResponse = MarketResponse(quotes: Quotes, fetchedAt: string)

  /** What one poll produced: a response with its status and, when the body
      is read, its decoded JSON (`None` when decoding throws); or a rejected
      request. */
  datatype Poll =
    | Responded(status: nat, body: Option<MarketResponse>)
    | Threw

  /** The poll that updates the state: a 2xx response whose body decodes. */
  predicate Succeeded(poll: Poll) {
    poll.Responded? && MarketRoute.IsOk(poll.status) && poll.body.Some?
  }

  /** `quotes ? (quotes[key] ?? null) : null`: what a card is given. */
  function CardData(quotes: Option<Quotes>, key: string): (data: Option<MarketRoute.QuoteResult>)
    ensures data.Some? <==> quotes.Some? && key in quotes.value
    ensures data.Some? ==> data.value == quotes.value[key]
  {
    match quotes
    case None => None
    case Some(q) => if key in q then Some(q[key]) else None
  }

  /** The rendered dashboard: the market cards, and the "Last updated" line
      with the timestamp it shows (formatting not modelled). */
  datatype View = View(cards: seq<MarketCard.CardView>, footer: Option<string>)

  /** One card per entry of `SYMBOLS`, in that order; the footer only when
      `lastUpdated` is set and non-empty (an empty string is falsy). */
  function Render(quotes: Option<Quotes>, lastUpdated: Option<string>): (v: View)
    ensures |v.cards| == |SYMBOLS|
    ensures forall i :: 0 <= i < |SYMBOLS| ==>
      v.cards[i] == MarketCard.Render(SYMBOLS[i].caption, Some(SYMBOLS[i].prefix), CardData(quotes, SYMBOLS[i].key))
    ensures v.footer.Some? <==> lastUpdated.Some? && lastUpdated.value != ""
    ensures v.footer.Some? ==> v.footer == lastUpdated
  {
    var cards := seq(|SYMBOLS|, i requires 0 <= i < |SYMBOLS| =>
      MarketCard.Render(SYMBOLS[i].caption, Some(SYMBOLS[i].prefix), CardData(quotes, SYMBOLS[i].key)));
    View(cards, if lastUpdated.Some? && lastUpdated.value != "" then lastUpdated else None)
  }

  /** The component's two pieces of state. */
  class DashboardState {
    var quotes: Option<Quotes>
    var lastUpdated: Option<string>

    /** Both are set together or neither is. */
    ghost predicate Valid()
      reads this
    {
      quotes.Some? <==> lastUpdated.Some?
    }

    /** Before the first successful poll both are `null`. */
    constructor ()
      ensures Valid()
      ensures quotes == None && lastUpdated == None
    {
      quotes := None;
      lastUpdated := None;
    }

    /** `fetchMarketData`: a successful poll replaces both fields; a non-2xx
        status, a body that fails to decode or a rejected request leaves
        both as they were. */
    method FetchMarketData(poll: Poll)
      requires Valid()
      modifies this
      ensures Valid()
      ensures Succeeded(poll) ==>
        quotes == Some(poll.body.value.quotes) && lastUpdated == Some(poll.body.value.fetchedAt)
      ensures !Succeeded(poll) ==> quotes == old(quotes) && lastUpdated == old(lastUpdated)
    {
      match poll
      case Threw =>
        return;
      case Responded(status, body) =>
        if !MarketRoute.IsOk(status) {
          return;
        }
        if body.None? {
          return;
        }
        quotes := Some(body.value.quotes);
        lastUpdated := Some(body.value.fetchedAt);
    }

    /** What the component renders from its state. */
    function View(): View
      reads this
    {
      Render(quotes, lastUpdated)
    }
  }

  /** Until a poll succeeds, every card is the loading placeholder and there
      is no "Last updated" line. */
  lemma InitialViewIsLoading()
    ensures var v := Render(None, None);
      v.footer.None? && forall i :: 0 <= i < |v.cards| ==> v.cards[i].Placeholder?
  {
  }

  /** The cards ask for exactly the symbols the market route quotes, in the
      same order. */
  lemma CardKeysAreRouteSymbols()
    ensures |SYMBOLS| == |MarketRoute.SYMBOLS|
    ensures forall i :: 0 <= i < |SYMBOLS| ==> SYMBOLS[i].key == MarketRoute.SYMBOLS[i]
  {
  }

  /** Once the state holds a record the route built, no card is a loading
      placeholder: each shows its symbol's quote or "Unavailable". */
  lemma RouteReplyFillsEveryCard(q: Quotes, lastUpdated: Option<string>)
    requires q.Keys == set s | s in MarketRoute.SYMBOLS
    ensures var v := Render(Some(q), lastUpdated);
      forall i :: 0 <= i < |v.cards| ==>
        !v.cards[i].Placeholder? && (v.cards[i].Priced? <==> q[SYMBOLS[i].key].Quote?)
  {
    CardKeysAreRouteSymbols();
  }

  /** Stale data on failure: after a successful poll, a failed one leaves
      the rendered dashboard exactly as the successful one left it. */
  method PollTwice(first: Poll, second: Poll) returns (after1: View, after2: View)
    requires Succeeded(first) && !Succeeded(second)
    ensures after2 == after1
    ensures after1 == Render(Some(first.body.value.quotes), Some(first.body.value.fetchedAt))
  {
    var d := new DashboardState();
    d.FetchMarketData(first);
    after1 := d.View();
    d.FetchMarketData(second);
    after2 := d.View();
  }
}
