/**
 * The value types shared by the service, the application shell and the
 * market card (types.ts).
 */
module Domain {

  datatype Option<+T> = None | Some(value: T)

  /** The two display languages of the client. */
  datatype Language = En | Ur

  /** The header's language button switches to the other language. */
  function Toggled(lang: Language): (r: Language)
    ensures r != lang
  {
    match lang
    case En => Ur
    case Ur => En
  }

  /** The quality tier of a market quote, as declared. */
  datatype Quality = Premium | Standard | Fair

  /** The price trend of a market quote, as declared. */
  datatype Trend = Up | Down | Stable

  /** The string under which a declared trend arrives in the JSON payload. */
  function TrendKey(t: Trend): string
  {
    match t
    case Up => "up"
    case Down => "down"
    case Stable => "stable"
  }

  /** No two trends arrive under the same string. */
  lemma TrendKeyInjective(a: Trend, b: Trend)
    requires TrendKey(a) == TrendKey(b)
    ensures a == b
  {
  }

  /** A geographic position; the coordinates are only carried, never computed with. */
  datatype LatLng = LatLng(latitude: real, longitude: real)

  /**
   * One market's quote for the searched item. Prices are whole rupees here;
   * nothing computes with them. The trend is kept as the raw string the
   * payload carries: the payload is never checked against the declared
   * union, and the card has explicit fallbacks for other values.
   */
  datatype MarketPrice = MarketPrice(
    marketName: string,
    city: string,
    price: int,
    yesterdayPrice: int,
    lastWeekPrice: int,
    unit: string,
    quality: Quality,
    trend: string,
    lastUpdated: string,
    reportTime: string,
    verified: bool,
    reportedBy: string)

  /** One point of the price history. */
  datatype PriceHistory = PriceHistory(date: string, price: int)

  /** The aggregate result of one search. */
  datatype ItemData = ItemData(
    name: string,
    nameUr: string,
    category: string,
    categoryUr: string,
    averagePrice: int,
    description: string,
    descriptionUr: string,
    imageUrl: Option<string>,
    markets: seq<MarketPrice>,
    history: seq<PriceHistory>,
    sourceUrls: seq<string>)
}
