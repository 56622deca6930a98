/**
 * One market card (components/MarketCard.tsx): the trend icon and label,
 * the thumbnail with its initials fallback, the two badges, and the two
 * one-way flags the card keeps for itself.
 */
module MarketCard {
  import opened Domain
  import opened JsString

  // ---------------------------------------------------------------------
  // Trend icon and label

  datatype TrendIcon = TrendingUp | TrendingDown | Minus

  /** `getTrendIcon`: "up" and "down" have their own icons; any other string gets Minus. */
  function TrendIconFor(trend: string): (r: TrendIcon)
    ensures r == TrendingUp <==> trend == "up"
    ensures r == TrendingDown <==> trend == "down"
  {
    if trend == "up" then TrendingUp
    else if trend == "down" then TrendingDown
    else Minus
  }

  /**
   * The three declared trends get three different icons, and a string
   * outside the declared union is drawn like "stable".
   */
  lemma DeclaredTrendIcons(trend: string)
    ensures TrendIconFor(TrendKey(Up)) == TrendingUp
    ensures TrendIconFor(TrendKey(Down)) == TrendingDown
    ensures TrendIconFor(TrendKey(Stable)) == Minus
    ensures (forall t: Trend :: trend != TrendKey(t)) ==> TrendIconFor(trend) == TrendIconFor(TrendKey(Stable))
  {
  }

  /** The card's translation table for one language. */
  function CardText(lang: Language): map<string, string>
  {
    match lang
    case En => map[
      "verified" := "Verified",
      "verifiedByYou" := "Verified by You",
      "quality" := "Quality",
      "today" := "Today",
      "yesterday" := "Yesterday",
      "lastWeek" := "Last Week",
      "verifyBtn" := "Verify This Price",
      "confirmedBtn" := "Price Confirmed",
      "reportedBy" := "Reported By",
      "time" := "Time",
      "trend" := "Trend",
      "stable" := "Stable",
      "up" := "Up",
      "down" := "Down"]
    case Ur => map[
      "verified" := "تصدیق شدہ",
      "verifiedByYou" := "آپ کی طرف سے تصدیق شدہ",
      "quality" := "معیار",
      "today" := "آج",
      "yesterday" := "کل",
      "lastWeek" := "گزشتہ ہفتہ",
      "verifyBtn" := "قیمت کی تصدیق کریں",
      "confirmedBtn" := "قیمت کی تصدیق ہو گئی",
      "reportedBy" := "رپورٹر",
      "time" := "وقت",
      "trend" := "رجحان",
      "stable" := "مستحکم",
      "up" := "بڑھ رہی ہے",
      "down" := "کم ہو رہی ہے"]
  }

  /** Both tables translate the same keys, so switching language changes which text is shown, never whether one is. */
  lemma CardTextSameKeys()
    ensures CardText(En).Keys == CardText(Ur).Keys
  {
  }

  /**
   * `t[market.trend] || market.trend`: the entry of the card's table under
   * the trend string when there is one (any key of the table, not only the
   * three trends), and the raw trend string otherwise.
   */
  function TrendLabel(lang: Language, trend: string): (r: string)
    ensures trend in CardText(lang) ==> r == CardText(lang)[trend] && r != ""
    ensures trend !in CardText(lang) ==> r == trend
  {
    var t := CardText(lang);
    if trend in t && t[trend] != "" then t[trend] else trend
  }

  /** The declared trends are always shown translated, never as the raw key. */
  lemma DeclaredTrendLabels(lang: Language, t: Trend)
    ensures TrendLabel(lang, TrendKey(t)) != TrendKey(t)
    ensures lang == En ==>
      TrendLabel(lang, TrendKey(t)) == (match t case Up => "Up" case Down => "Down" case Stable => "Stable")
  {
  }

  // ---------------------------------------------------------------------
  // Thumbnail and badges

  datatype Thumbnail = Photo(url: string) | InitialsBadge(text: string)

  /**
   * `itemImage && !imgError ? <img> : initials`: the photo is shown when
   * the URL is truthy (present and non-empty) and has not failed to load;
   * otherwise the item's initials are.
   */
  function ThumbnailFor(image: Option<string>, failed: bool, name: string): (r: Thumbnail)
    ensures r.Photo? <==> image.Some? && image.value != "" && !failed
    ensures r.Photo? ==> r.url == image.value
    ensures r.InitialsBadge? ==> r.text == Initials(name) && |r.text| <= 2
  {
    if image.Some? && image.value != "" && !failed then Photo(image.value)
    else InitialsBadge(Initials(name))
  }

  datatype Badge = VerifiedBadge | VerifiedByYouBadge

  // ---------------------------------------------------------------------
  // The card's own state

  /** The state one card keeps: two flags that start false and can only become true. */
  class CardState {
    var userVerified: bool
    var imgError: bool

    constructor()
      ensures !userVerified && !imgError
    {
      userVerified := false;
      imgError := false;
    }

    /** The verify button: sets `userVerified` and leaves the image flag alone. */
    method ConfirmPrice()
      modifies this`userVerified
      ensures userVerified && VerifyButtonDisabled()
    {
      userVerified := true;
    }

    /** The image's `onError`: sets `imgError` and leaves the verification flag alone. */
    method ImageFailed()
      modifies this`imgError
      ensures imgError
    {
      imgError := true;
    }

    /** The verify button is disabled exactly while the user has verified. */
    predicate VerifyButtonDisabled()
      reads this
    {
      userVerified
    }

    /**
     * The badges in the card header: "Verified" follows the quote's own
     * flag and "Verified by You" the card's flag, independently.
     */
    function Badges(market: MarketPrice): (r: set<Badge>)
      reads this
      ensures VerifiedBadge in r <==> market.verified
      ensures VerifiedByYouBadge in r <==> userVerified
    {
      (if market.verified then {VerifiedBadge} else {})
      + (if userVerified then {VerifiedByYouBadge} else {})
    }

    /** The thumbnail this card shows for the item. */
    function Thumb(itemImage: Option<string>, itemName: string): (r: Thumbnail)
      reads this
      ensures r.Photo? <==> itemImage.Some? && itemImage.value != "" && !imgError
      ensures r.Photo? ==> r.url == itemImage.value
      ensures r.InitialsBadge? ==> r.text == Initials(itemName)
    {
      ThumbnailFor(itemImage, imgError, itemName)
    }
  }

  /**
   * Each event sets only its own flag, no event clears either flag, and a
   * card whose image failed shows the initials from then on.
   */
  method CardLifecycleExample(market: MarketPrice, image: string, name: string)
  {
    var card := new CardState();
    assert card.Thumb(Some(image), name).Photo? <==> image != "";
    card.ConfirmPrice();
    assert card.VerifyButtonDisabled() && !card.imgError;
    assert VerifiedByYouBadge in card.Badges(market);
    card.ImageFailed();
    assert card.userVerified;
    assert card.Thumb(Some(image), name) == InitialsBadge(Initials(name));
    card.ConfirmPrice();
    assert card.userVerified && card.imgError;
  }
}
