/** The market card: how one symbol's entry is displayed. Number
    formatting (`toLocaleString`, `toFixed`) is not modelled: the view keeps
    the numbers themselves. */
module MarketCard {
  import opened Optional
  import opened MarketRoute

  const OPEN: string := "Open"
  const PRE_MARKET: string := "Pre-Market"
  const AFTER_HOURS: string := "After Hours"
  const CLOSED: string := "Closed"

  /** `formatMarketState`: the badge text for an upstream market state. */
  function FormatMarketState(state: string): (text: string)
    ensures text in {OPEN, PRE_MARKET, AFTER_HOURS, CLOSED}
    ensures text == OPEN <==> state == "REGULAR"
    ensures text == PRE_MARKET <==> state == "PRE"
    ensures text == AFTER_HOURS <==> state == "POST" || state == "POSTPOST"
    ensures text == CLOSED <==> state !in {"REGULAR", "PRE", "POST", "POSTPOST"}
  {
    match state
    case "REGULAR" => OPEN
    case "PRE" => PRE_MARKET
    case "POST" => AFTER_HOURS
    case "POSTPOST" => AFTER_HOURS
    case _ => CLOSED
  }

  /** The sign written before the change and the percentage: "+" when
      `isPositive` (a change of zero included); a negative number brings its
      own minus sign. */
  function Sign(change: real): (sign: string)
    ensures sign == "+" <==> change >= 0.0
    ensures sign == "" <==> change < 0.0
  {
    if change >= 0.0 then "+" else ""
  }

  /** `isOpen`: whether the badge is highlighted. It is exactly the case in
      which the badge reads "Open". */
  predicate IsOpen(marketState: string)
    ensures IsOpen(marketState) <==> FormatMarketState(marketState) == OPEN
  {
    marketState == "REGULAR"
  }

  /** The three ways a card can look. `Priced` holds what the card shows:
      its prefix, the price, the signed change and percentage (with the
      green colour when `positive`), and the badge with its highlight. */
  datatype CardView =
    | Placeholder(caption: string)
    | Unavailable(caption: string)
    | Priced(caption: string, prefix: string, price: real, sign: string, change: real,
             changePercent: real, positive: bool, badge: string, open: bool)

  /** The `prefix` property, `""` when the caller omits it. */
  function PrefixOrDefault(prefix: Option<string>): (p: string)
    ensures prefix.Some? ==> p == prefix.value
    ensures prefix.None? ==> p == ""
  {
    prefix.GetOr("")
  }

  /** `MarketCard({label, prefix, data})`, with `caption` for `label`.
      Missing data is the loading placeholder, an error entry reads
      "Unavailable", and only a quote shows numbers. */
  function Render(caption: string, prefix: Option<string>, data: Option<QuoteResult>): (v: CardView)
    ensures v.caption == caption
    ensures v.Placeholder? <==> data.None?
    ensures v.Unavailable? <==> data.Some? && data.value.QuoteError?
    ensures v.Priced? <==> data.Some? && data.value.Quote?
  {
    match data
    case None => Placeholder(caption)
    case Some(QuoteError(_)) => Unavailable(caption)
    case Some(q) =>
      Priced(caption, PrefixOrDefault(prefix), q.price, Sign(q.change), q.change, q.changePercent,
             q.change >= 0.0, FormatMarketState(q.marketState), IsOpen(q.marketState))
  }

  /** A priced card shows the quote's own numbers, with the caller's prefix
      (or none), and a "+" exactly when the change is not negative. */
  lemma PricedShowsQuote(caption: string, prefix: Option<string>, q: QuoteResult)
    requires q.Quote?
    ensures var v := Render(caption, prefix, Some(q));
      && v.price == q.price && v.change == q.change && v.changePercent == q.changePercent
      && v.prefix == (if prefix.Some? then prefix.value else "")
      && (v.sign == "+" <==> q.change >= 0.0)
      && v.positive == (v.sign == "+")
      && v.badge == FormatMarketState(q.marketState)
      && (v.open <==> q.marketState == "REGULAR")
  {
  }

  /** The badge shows the label of the quote's market state and is
      highlighted exactly when that state is "REGULAR", which is exactly
      when the badge reads "Open". */
  lemma OpenBadgeMatchesLabel(caption: string, prefix: Option<string>, q: QuoteResult)
    requires q.Quote?
    ensures var v := Render(caption, prefix, Some(q));
      && v.badge == FormatMarketState(q.marketState)
      && (v.open <==> q.marketState == "REGULAR")
      && (v.open <==> v.badge == OPEN)
  {
  }
}
