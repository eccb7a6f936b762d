/** The market prices card: the trend icon and colour of each price row. */
module MarketPrices {
  import opened Types

  datatype TrendIcon = TrendingUpIcon | TrendingDownIcon | MinusIcon

  datatype MarketPrice = MarketPrice(crop: string, variety: string, market: string,
                                     price: int, unit: string, date: string, trend: string)

  /** Icon for a trend string; anything but "up" and "down" is flat. */
  function TrendIconFor(trend: string): (r: TrendIcon)
    ensures r == TrendingUpIcon <==> ParseTrend(trend) == Some(Up)
    ensures r == TrendingDownIcon <==> ParseTrend(trend) == Some(Down)
  {
    match trend
    case "up" => TrendingUpIcon
    case "down" => TrendingDownIcon
    case _ => MinusIcon
  }

  /** Colour for a trend string, switched on separately in the source. */
  function TrendTone(trend: string): (r: Tone)
    ensures r in {Green, Red, Gray}
    ensures r == Green <==> ParseTrend(trend) == Some(Up)
    ensures r == Red <==> ParseTrend(trend) == Some(Down)
  {
    match trend
    case "up" => Green
    case "down" => Red
    case _ => Gray
  }

  /** The two switches always agree. */
  lemma IconMatchesTone(trend: string)
    ensures TrendIconFor(trend) == TrendingUpIcon <==> TrendTone(trend) == Green
    ensures TrendIconFor(trend) == TrendingDownIcon <==> TrendTone(trend) == Red
    ensures TrendIconFor(trend) == MinusIcon <==> TrendTone(trend) == Gray
  {
  }

  /** A stable trend is drawn flat and gray. */
  lemma StableIsFlat()
    ensures TrendIconFor(TrendCode(Stable)) == MinusIcon
    ensures TrendTone(TrendCode(Stable)) == Gray
  {
    CodesRoundTrip();
  }

  /** What one rendered row shows. */
  datatype PriceRow = PriceRow(crop: string, price: int, icon: TrendIcon, tone: Tone)

  /** One row per price entry, in input order. */
  function PriceRows(prices: seq<MarketPrice>): (r: seq<PriceRow>)
    ensures |r| == |prices|
    ensures forall i :: 0 <= i < |r| ==>
              r[i].crop == prices[i].crop && r[i].price == prices[i].price
              && r[i].icon == TrendIconFor(prices[i].trend) && r[i].tone == TrendTone(prices[i].trend)
  {
    seq(|prices|, i requires 0 <= i < |prices| =>
      PriceRow(prices[i].crop, prices[i].price, TrendIconFor(prices[i].trend), TrendTone(prices[i].trend)))
  }
}
