/** Fundamentals of the charted ticker and the figures derived from them and
    from its price history. */
module Fundamentals {

  import opened Wrappers

  /** The fields of a ticker's `info` snapshot that the dashboard reads; a
      field the snapshot lacks (or holds as null) is `None`. */
  datatype Info = Info(
    marketCap: Option<real>,
    trailingPE: Option<real>,
    totalRevenue: Option<real>,
    revenue: Option<real>,
    sharesOutstanding: Option<int>,
    regularMarketPrice: Option<real>)

  /** Python truthiness of an optional number: present and non-zero. */
  predicate Truthy(x: Option<real>)
  {
    x.Some? && x.value != 0.0
  }

  /** Revenue: `totalRevenue`, falling back to `revenue` only when
      `totalRevenue` is missing (a zero `totalRevenue` is kept). */
  function Revenue(info: Info): (r: Option<real>)
    ensures r.Some? <==> info.totalRevenue.Some? || info.revenue.Some?
    ensures info.totalRevenue.Some? ==> r == info.totalRevenue
    ensures info.totalRevenue.None? ==> r == info.revenue
  {
    if info.totalRevenue.None? then info.revenue else info.totalRevenue
  }

  /** The market-cap to revenue ratio: present exactly when both figures are
      present and non-zero, and then it is the factor that turns revenue into
      market cap. */
  function CapToRevenue(marketCap: Option<real>, revenue: Option<real>): (r: Option<real>)
    ensures r.Some? <==> Truthy(marketCap) && Truthy(revenue)
    ensures r.Some? ==> r.value * revenue.value == marketCap.value
    ensures r.Some? ==> r.value != 0.0
  {
    if Truthy(marketCap) && Truthy(revenue) && revenue.value != 0.0 then
      Some(marketCap.value / revenue.value)
    else
      None
  }

  /** Relative change from the first to the last close. The script divides
      without a guard; a zero first close gives an infinite or undefined
      value, which is `None` here. */
  function PriceChange(closes: seq<real>): (r: Option<real>)
    requires closes != []
    ensures r.Some? <==> closes[0] != 0.0
    ensures r.Some? ==> closes[0] * (1.0 + r.value) == closes[|closes| - 1]
  {
    var first, last := closes[0], closes[|closes| - 1];
    if first == 0.0 then None else Some((last - first) / first)
  }

  /** The colour of the price curve and of the change figure. */
  datatype Color = Green | Red

  /** The colour's name as handed to the chart; the two names differ. */
  function ColorName(c: Color): (s: string)
    ensures s == "green" <==> c == Green
    ensures s == "red" <==> c == Red
  {
    match c
    case Green => "green"
    case Red => "red"
  }

  /** Green exactly when the last close is at least the first. */
  function TrendColor(closes: seq<real>): (c: Color)
    requires closes != []
    ensures c == Green <==> closes[|closes| - 1] >= closes[0]
  {
    if closes[|closes| - 1] >= closes[0] then Green else Red
  }

  /** For positive prices the colour is the sign of the change. */
  lemma ColorIsSignOfChange(closes: seq<real>)
    requires closes != [] && closes[0] > 0.0
    ensures PriceChange(closes).Some?
    ensures TrendColor(closes) == Green <==> PriceChange(closes).value >= 0.0
  {
  }

  /** What the fundamentals panel shows: market cap, trailing P/E, the ratio,
      the price change and the colour. */
  datatype Panel = Panel(
    marketCap: Option<real>,
    per: Option<real>,
    ratio: Option<real>,
    change: Option<real>,
    color: Color)

  /** The panel for a non-empty price history. */
  function Derive(info: Info, closes: seq<real>): (p: Panel)
    requires closes != []
    ensures p.marketCap == info.marketCap && p.per == info.trailingPE
    ensures p.ratio.Some? <==> Truthy(info.marketCap) && Truthy(Revenue(info))
    ensures p.ratio.Some? ==> p.ratio.value * Revenue(info).value == info.marketCap.value
    ensures (p.color == Green) <==> closes[|closes| - 1] >= closes[0]
    ensures p.change.Some? <==> closes[0] != 0.0
    ensures p.change.Some? ==> closes[0] * (1.0 + p.change.value) == closes[|closes| - 1]
    ensures ColorName(p.color) == "green" <==> closes[|closes| - 1] >= closes[0]
  {
    Panel(info.marketCap, info.trailingPE, CapToRevenue(info.marketCap, Revenue(info)),
          PriceChange(closes), TrendColor(closes))
  }

  /** A zero `totalRevenue` is not replaced by `revenue`, so it suppresses the
      ratio whatever `revenue` holds. */
  lemma ZeroTotalRevenueSuppressesRatio(info: Info)
    requires info.totalRevenue == Some(0.0)
    ensures Derive(info, [1.0]).ratio.None?
  {
  }

  /** Closes 100 then 80 give a change of exactly -20%; a single close gives
      a change of 0. */
  lemma PriceChangeExamples(p: real)
    requires p != 0.0
    ensures PriceChange([100.0, 80.0]) == Some(-0.2)
    ensures PriceChange([p]) == Some(0.0)
  {
  }
}
