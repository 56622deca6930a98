/**
 * The application shell (App.tsx): the state it owns, the events that
 * change it, and the views derived from it: the city list, the city
 * filter, and the client-side pagination window.
 */
module AppShell {
  import opened Domain
  import opened JsString
  import opened JsArray
  import MarketCard

  /** `RESULTS_PER_PAGE`: the size of one page of market cards. */
  const ResultsPerPage: nat := 4

  /** The filter value that selects every city. */
  const AllCities: string := "All"

  /** `t.error`: the one message shown for every kind of failure. */
  function ErrorText(lang: Language): string
  {
    match lang
    case En => EnglishErrorText
    case Ur => UrduErrorText
  }

  const EnglishErrorText: string := "Unable to fetch current market rates. Please try again."
  const UrduErrorText: string := "مارکیٹ ریٹس حاصل کرنے میں ناکامی۔ براہ کرم دوبارہ کوشش کریں۔"

  /**
   * Each language has its own failure message, and the English one is the
   * text the app shows.
   */
  lemma ErrorTextPerLanguage()
    ensures ErrorText(En) == "Unable to fetch current market rates. Please try again."
    ensures ErrorText(Ur) != ErrorText(En) && ErrorText(Ur) != ""
  {
    var en, ur := ErrorText(En), ErrorText(Ur);
    assert en == "Unable to fetch current market rates. Please try again.";
    assert ur == "مارکیٹ ریٹس حاصل کرنے میں ناکامی۔ براہ کرم دوبارہ کوشش کریں۔";
    assert |en| == 55 && |ur| == 60;
  }

  // ---------------------------------------------------------------------
  // Views

  /** `markets.map(m => m.city)` */
  function Cities(markets: seq<MarketPrice>): (r: seq<string>)
    ensures |r| == |markets|
    ensures forall i :: 0 <= i < |markets| ==> r[i] == markets[i].city
  {
    seq(|markets|, i requires 0 <= i < |markets| => markets[i].city)
  }

  /** Some market of `markets` is in `city`. */
  ghost predicate HasCity(markets: seq<MarketPrice>, city: string)
  {
    exists i :: 0 <= i < |markets| && markets[i].city == city
  }

  /**
   * `availableCities`: nothing without a result; otherwise every city of
   * the result's markets, each once, in ascending order.
   */
  function AvailableCities(data: Option<ItemData>): (r: seq<string>)
    ensures data.None? ==> r == []
    ensures StrictlySorted(r)
    ensures forall i :: 0 <= i < |r| ==> data.Some? && HasCity(data.value.markets, r[i])
    ensures data.Some? ==> forall i :: 0 <= i < |data.value.markets| ==> data.value.markets[i].city in r
  {
    match data
    case None => []
    case Some(item) =>
      DistinctSortedCities(item.markets);
      SortStrings(Dedupe(Cities(item.markets)))
  }

  lemma DistinctSortedCities(markets: seq<MarketPrice>)
    ensures var r := SortStrings(Dedupe(Cities(markets)));
      && StrictlySorted(r)
      && (forall i :: 0 <= i < |r| ==> HasCity(markets, r[i]))
      && (forall i :: 0 <= i < |markets| ==> markets[i].city in r)
  {
    var cities := Cities(markets);
    var distinct := Dedupe(cities);
    var r := SortStrings(distinct);
    SortStringsSorted(distinct);
    SortStringsSameElements(distinct);
    forall i | 0 <= i < |r| ensures HasCity(markets, r[i]) {
      assert r[i] in distinct;
      var k :| 0 <= k < |cities| && cities[k] == r[i];
      assert markets[k].city == r[i];
    }
    forall i | 0 <= i < |markets| ensures markets[i].city in r {
      assert cities[i] == markets[i].city;
    }
  }

  /** `markets.filter(m => m.city === city)` */
  function FilterByCity(markets: seq<MarketPrice>, city: string): (r: seq<MarketPrice>)
    ensures |r| <= |markets|
    ensures forall i :: 0 <= i < |r| ==> r[i].city == city && r[i] in markets
  {
    if |markets| == 0 then []
    else
      var rest := FilterByCity(markets[1..], city);
      if markets[0].city == city then [markets[0]] + rest else rest
  }

  /** `a` is `b` with some elements left out, the rest kept in order. */
  ghost predicate IsSubsequence<T>(a: seq<T>, b: seq<T>)
    decreases |b|
  {
    if |a| == 0 then true
    else if |b| == 0 then false
    else if a[0] == b[0] then IsSubsequence(a[1..], b[1..])
    else IsSubsequence(a, b[1..])
  }

  /**
   * The filter keeps exactly the markets of the city, in their original
   * relative order: it is a subsequence of the input, and each market
   * occurs in it as often as in the input if it is in the city, and not at
   * all otherwise.
   */
  lemma {:induction false} FilterByCityKeepsExactlyTheCity(markets: seq<MarketPrice>, city: string)
    ensures IsSubsequence(FilterByCity(markets, city), markets)
    ensures forall m :: multiset(FilterByCity(markets, city))[m] ==
                        (if m.city == city then multiset(markets)[m] else 0)
  {
    if |markets| > 0 {
      var rest := FilterByCity(markets[1..], city);
      FilterByCityKeepsExactlyTheCity(markets[1..], city);
      assert markets == [markets[0]] + markets[1..];
      if markets[0].city == city {
        assert ([markets[0]] + rest)[1..] == rest;
      } else {
        assert rest == [] || rest[0] != markets[0];
      }
    }
  }

  /**
   * `filteredMarkets`: nothing without a result; every market under "All";
   * otherwise the markets of the selected city.
   */
  function FilteredMarkets(data: Option<ItemData>, filterCity: string): (r: seq<MarketPrice>)
    ensures data.None? ==> r == []
    ensures data.Some? && filterCity == AllCities ==> r == data.value.markets
    ensures data.Some? && filterCity != AllCities ==> r == FilterByCity(data.value.markets, filterCity)
  {
    match data
    case None => []
    case Some(item) =>
      if filterCity == AllCities then item.markets else FilterByCity(item.markets, filterCity)
  }

  /** Markets in Lahore, Karachi and Lahore give the city list [Karachi, Lahore]. */
  lemma CityListExample(item: ItemData, m1: MarketPrice, m2: MarketPrice, m3: MarketPrice)
    requires m1.city == "Lahore" && m2.city == "Karachi" && m3.city == "Lahore"
    requires item.markets == [m1, m2, m3]
    ensures AvailableCities(Some(item)) == ["Karachi", "Lahore"]
  {
    var r := AvailableCities(Some(item));
    var expected := [m2.city, m1.city];
    assert StrLess("Karachi", "Lahore");
    forall x | x in r ensures x in expected {
      var i :| 0 <= i < |r| && r[i] == x;
      CityOfThreeMarkets(item.markets, r[i]);
    }
    assert item.markets[0].city in r && item.markets[1].city in r;
    StrictlySortedUnique(r, expected);
  }

  /** A city some market of three is in is the city of one of the three. */
  lemma CityOfThreeMarkets(markets: seq<MarketPrice>, city: string)
    requires |markets| == 3 && HasCity(markets, city)
    ensures city == markets[0].city || city == markets[1].city || city == markets[2].city
  {
    var i :| 0 <= i < |markets| && markets[i].city == city;
  }

  /** The Lahore filter over those markets keeps the two Lahore markets, in order. */
  lemma CityFilterExample(item: ItemData, m1: MarketPrice, m2: MarketPrice, m3: MarketPrice)
    requires m1.city == "Lahore" && m2.city == "Karachi" && m3.city == "Lahore"
    requires item.markets == [m1, m2, m3]
    ensures FilteredMarkets(Some(item), "Lahore") == [m1, m3]
  {
    assert [m1, m2, m3][1..] == [m2, m3] && [m2, m3][1..] == [m3] && [m3][1..] == [];
    assert FilterByCity([m3], "Lahore") == [m3];
    assert FilterByCity([m2, m3], "Lahore") == [m3];
    assert FilterByCity([m1, m2, m3], "Lahore") == [m1, m3];
  }

  /** `filteredMarkets.slice(0, visibleCount)`: the first page-window of the filtered markets. */
  function VisibleMarkets(filtered: seq<MarketPrice>, visibleCount: nat): (r: seq<MarketPrice>)
    ensures |r| == if visibleCount < |filtered| then visibleCount else |filtered|
    ensures r == filtered[..|r|]
  {
    Take(filtered, visibleCount)
  }

  /** `hasMore`: the window does not yet reach the end of the filtered markets. */
  predicate HasMore(filtered: seq<MarketPrice>, visibleCount: nat)
  {
    visibleCount < |filtered|
  }

  /** "Fetch more" is offered exactly when some filtered market is not yet visible. */
  lemma HasMoreIffSomeHidden(filtered: seq<MarketPrice>, visibleCount: nat)
    ensures HasMore(filtered, visibleCount) <==> VisibleMarkets(filtered, visibleCount) != filtered
    ensures HasMore(filtered, visibleCount) ==> |VisibleMarkets(filtered, visibleCount)| == visibleCount
  {
    if !HasMore(filtered, visibleCount) {
      assert filtered[..|filtered|] == filtered;
    }
  }

  /**
   * With ten filtered markets: four are shown and more are offered; after
   * one "fetch more", eight and more offered; after two, all ten and no more.
   */
  lemma PaginationExample(filtered: seq<MarketPrice>)
    requires |filtered| == 10
    ensures |VisibleMarkets(filtered, ResultsPerPage)| == 4 && HasMore(filtered, ResultsPerPage)
    ensures |VisibleMarkets(filtered, 2 * ResultsPerPage)| == 8 && HasMore(filtered, 2 * ResultsPerPage)
    ensures VisibleMarkets(filtered, 3 * ResultsPerPage) == filtered && !HasMore(filtered, 3 * ResultsPerPage)
  {
    assert filtered[..10] == filtered;
  }

  // ---------------------------------------------------------------------
  // The shell's state and events

  datatype LocationStatus = Requesting | Granted | Denied

  /**
   * What a submission hands to the query service, together with the
   * language whose error text the submission's handler will show if the
   * search fails.
   */
  datatype PendingSearch = PendingSearch(query: string, location: Option<LatLng>, language: Language)

  class Shell {
    var language: Language
    var searchTerm: string
    var loading: bool
    var data: Option<ItemData>
    var error: Option<string>
    var userLocation: Option<LatLng>
    var locationStatus: LocationStatus
    var filterCity: string
    var mainImgError: bool
    var visibleCount: nat
    var isFetchingMore: bool
    /**
     * The search whose reply is awaited. `handleSearch` is a closure over
     * the render it was created in, so its failure branch shows the error
     * text of the language in force at submission.
     */
    var inFlight: Option<PendingSearch>

    /**
     * The window is a positive whole number of pages; while a search is
     * in flight neither an old result nor an old error is shown, and a
     * result and an error are never shown together; coordinates are known
     * exactly when the location was granted.
     */
    ghost predicate Valid()
      reads this
    {
      && visibleCount >= ResultsPerPage && visibleCount % ResultsPerPage == 0
      && (loading ==> data.None? && error.None?)
      && (loading <==> inFlight.Some?)
      && (data.None? || error.None?)
      && (userLocation.Some? <==> locationStatus == Granted)
    }

    constructor()
      ensures Valid()
      ensures language == En && searchTerm == "" && !loading && data.None? && error.None? && inFlight.None?
      ensures userLocation.None? && locationStatus == Requesting
      ensures filterCity == AllCities && !mainImgError && visibleCount == ResultsPerPage && !isFetchingMore
    {
      language := En;
      searchTerm := "";
      loading := false;
      data := None;
      error := None;
      userLocation := None;
      locationStatus := Requesting;
      filterCity := AllCities;
      mainImgError := false;
      visibleCount := ResultsPerPage;
      isFetchingMore := false;
      inFlight := None;
    }

    /** The search box's `onChange`. */
    method EditSearchTerm(value: string)
      requires Valid()
      modifies this`searchTerm
      ensures Valid() && searchTerm == value
    {
      searchTerm := value;
    }

    /**
     * The synchronous part of `handleSearch`. A blank term changes nothing
     * and starts no search. Otherwise, before any reply, the shell enters
     * loading, drops the previous result and error, resets the city filter,
     * the image flag and the window, and hands the term and the known
     * location to the query service. The submit button is disabled while
     * loading, so no submission happens then.
     */
    method Submit() returns (pending: Option<PendingSearch>)
      requires Valid() && !loading
      modifies this`loading, this`error, this`data, this`filterCity, this`mainImgError, this`visibleCount
      modifies this`inFlight
      ensures Valid()
      ensures inFlight == pending
      ensures pending.None? <==> IsBlank(searchTerm)
      ensures pending.None? ==>
        && !loading && error == old(error) && data == old(data) && filterCity == old(filterCity)
        && mainImgError == old(mainImgError) && visibleCount == old(visibleCount)
      ensures pending.Some? ==>
        && pending.value == PendingSearch(searchTerm, userLocation, language)
        && loading && error.None? && data.None? && filterCity == AllCities
        && !mainImgError && visibleCount == ResultsPerPage
    {
      var blank := TrimsToEmpty(searchTerm);
      if blank {
        pending := None;
        return;
      }
      loading := true;
      error := None;
      data := None;
      filterCity := AllCities;
      mainImgError := false;
      visibleCount := ResultsPerPage;
      pending := Some(PendingSearch(searchTerm, userLocation, language));
      inFlight := pending;
    }

    /** The query service resolved: the result is shown and loading ends. */
    method Resolve(result: ItemData)
      requires Valid() && loading
      modifies this`data, this`loading, this`inFlight
      ensures Valid() && data == Some(result) && !loading && error.None? && inFlight.None?
    {
      data := Some(result);
      loading := false;
      inFlight := None;
    }

    /**
     * The query service rejected: the error text in the language of the
     * submission is shown, no result is, and loading ends.
     */
    method Reject()
      requires Valid() && loading
      modifies this`error, this`loading, this`inFlight
      ensures Valid() && error == Some(ErrorText(old(inFlight).value.language)) && data.None? && !loading
      ensures inFlight.None?
    {
      var message := ErrorText(inFlight.value.language);
      loading := false;
      inFlight := None;
      error := Some(message);
    }

    /** `handleFetchMore`, at the click. */
    method StartFetchMore()
      requires Valid()
      modifies this`isFetchingMore
      ensures Valid() && isFetchingMore
    {
      isFetchingMore := true;
    }

    /** `handleFetchMore`, when its timer fires: the window grows by one page. */
    method CompleteFetchMore()
      requires Valid()
      modifies this`visibleCount, this`isFetchingMore
      ensures Valid() && visibleCount == old(visibleCount) + ResultsPerPage && !isFetchingMore
    {
      visibleCount := visibleCount + ResultsPerPage;
      isFetchingMore := false;
    }

    /** The city selector's `onChange`: the new filter, and the window back to one page. */
    method ChangeCityFilter(city: string)
      requires Valid()
      modifies this`filterCity, this`visibleCount
      ensures Valid() && filterCity == city && visibleCount == ResultsPerPage
    {
      filterCity := city;
      visibleCount := ResultsPerPage;
    }

    /** The header's language button. */
    method ToggleLanguage()
      requires Valid()
      modifies this`language
      ensures Valid() && language == Toggled(old(language))
    {
      language := Toggled(language);
    }

    /** The one-shot geolocation request succeeded. */
    method LocationGranted(position: LatLng)
      requires Valid() && locationStatus == Requesting
      modifies this`userLocation, this`locationStatus
      ensures Valid() && userLocation == Some(position) && locationStatus == Granted
    {
      userLocation := Some(position);
      locationStatus := Granted;
    }

    /** The one-shot geolocation request failed, or geolocation is unavailable. */
    method LocationDenied()
      requires Valid() && locationStatus == Requesting
      modifies this`locationStatus
      ensures Valid() && locationStatus == Denied
    {
      locationStatus := Denied;
    }

    /** The result's image failed to load. */
    method MainImageFailed()
      requires Valid()
      modifies this`mainImgError
      ensures Valid() && mainImgError
    {
      mainImgError := true;
    }

    /**
     * The result panel is drawn only for a result that is not being
     * replaced; under the invariant the error panel is then hidden.
     */
    predicate ShowsResult()
      reads this
      ensures Valid() && ShowsResult() ==> error.None? && inFlight.None?
    {
      data.Some? && !loading
    }

    /** The summary card's thumbnail: the result's image, or its name's initials. */
    function MainThumbnail(): (r: MarketCard.Thumbnail)
      reads this
      requires data.Some?
      ensures r.Photo? <==> data.value.imageUrl.Some? && data.value.imageUrl.value != "" && !mainImgError
      ensures r.Photo? ==> r.url == data.value.imageUrl.value
      ensures r.InitialsBadge? ==> r.text == Initials(data.value.name)
    {
      MarketCard.ThumbnailFor(data.value.imageUrl, mainImgError, data.value.name)
    }
  }

  /**
   * A full round: a blank submission does nothing; a real one clears the
   * dashboard at once; the reply shows four cards of the result; one
   * "fetch more" shows a second page; changing the city returns to one page.
   */
  method ShellScenario(item: ItemData)
    requires |item.markets| == 10
  {
    var shell := new Shell();
    shell.EditSearchTerm("  ");
    var none := shell.Submit();
    assert none.None? && !shell.loading;
    shell.EditSearchTerm("Potato");
    assert !IsBlank(shell.searchTerm) by { assert !IsSpace(shell.searchTerm[0]); }
    var pending := shell.Submit();
    assert pending.Some? && shell.loading && shell.data.None?;
    assert FilteredMarkets(shell.data, shell.filterCity) == [] && AvailableCities(shell.data) == [];
    shell.Resolve(item);
    assert shell.ShowsResult();
    var filtered := FilteredMarkets(shell.data, shell.filterCity);
    assert filtered == item.markets;
    assert |VisibleMarkets(filtered, shell.visibleCount)| == 4 && HasMore(filtered, shell.visibleCount);
    shell.StartFetchMore();
    shell.CompleteFetchMore();
    assert shell.visibleCount == 8 && HasMore(filtered, shell.visibleCount);
    shell.ChangeCityFilter("Lahore");
    assert shell.visibleCount == ResultsPerPage;
  }

  /**
   * A search submitted in English that fails after the user switched to
   * Urdu shows the English error text: the handler kept the translations
   * of the render that created it.
   */
  method LanguageOfFailedSearchScenario()
  {
    var shell := new Shell();
    shell.EditSearchTerm("Sugar");
    assert !IsBlank(shell.searchTerm) by { assert !IsSpace(shell.searchTerm[0]); }
    var pending := shell.Submit();
    shell.ToggleLanguage();
    assert shell.language == Ur;
    shell.Reject();
    assert shell.error == Some(ErrorText(En)) && shell.data.None? && !shell.loading;
  }
}
