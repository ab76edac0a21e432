/** The state of the `App` component of src/App.tsx that the search touches,
    and its Submit handler `handleUserInputClick`. The provider's answer to
    the one text-search request is a parameter of the handler; alerts and
    console messages become the outcome the handler returns. */
module App {
  import opened Wrappers
  import opened JsText
  import opened DrinkMatching

  /** What the place-search request came back with. */
  datatype ProviderResponse =
    | Failed                        // fetch threw, or the status was not ok, or the body was unusable
    | NoPlaces                      // a body without a (truthy) `places` field
    | Places(places: seq<Place>)    // a `places` array, possibly empty

  /** How a click ended, one value per message the user or the console gets. */
  datatype SearchOutcome =
    | BlankQuery          // "please type a drink"
    | LocationPending     // "still locating you, try again"
    | SearchFailed        // request error, logged to the console
    | NoStoresInRange     // "no drink stores in the search area"
    | NoStoreSellsDrink   // "no store nearby sells this drink"
    | StoresFound
  {
    /** The click was refused before any state changed. */
    predicate Refused() {
      BlankQuery? || LocationPending?
    }

    /** The search ran but no places list came back. */
    predicate Unanswered() {
      SearchFailed? || NoStoresInRange?
    }
  }

  class DrinkFinder {
    /** The bundled catalog, imported once and never changed. */
    const catalog: seq<CatalogEntry>

    var userInput: string
    var userLocation: Option<Coordinate>
    var hasSearched: bool
    var matchingStores: seq<CatalogEntry>
    var finalStores: seq<Place>

    /** The component's initial state. */
    constructor (catalog: seq<CatalogEntry>)
      ensures this.catalog == catalog
      ensures userInput == "" && userLocation == None
      ensures !hasSearched && matchingStores == [] && finalStores == []
    {
      this.catalog := catalog;
      userInput := "";
      userLocation := None;
      hasSearched := false;
      matchingStores := [];
      finalStores := [];
    }

    /** `handleUserInput`: the text box's value becomes the query. */
    method HandleUserInput(value: string)
      modifies this`userInput
      ensures userInput == value
    {
      userInput := value;
    }

    /** The location effect once the browser reports a position. */
    method LocationResolved(position: Coordinate)
      modifies this`userLocation
      ensures userLocation == Some(position)
    {
      userLocation := Some(position);
    }

    /** `handleUserInputClick`. A blank query or an unknown location stops the
        search before anything changes. Otherwise the catalog matches of the
        trimmed query are stored at once; a failed request or a response
        without places stops there, leaving the previous search's results
        and flag in place; a response with places stores their
        reconciliation against the fresh catalog matches (possibly empty)
        and marks that a search has completed. */
    method HandleUserInputClick(response: ProviderResponse) returns (outcome: SearchOutcome)
      modifies this`matchingStores, this`finalStores, this`hasSearched
      ensures userInput == old(userInput) && userLocation == old(userLocation)
      ensures outcome == BlankQuery <==> Trim(userInput) == []
      ensures outcome == LocationPending <==> Trim(userInput) != [] && userLocation == None
      ensures outcome.Refused() ==>
                && matchingStores == old(matchingStores)
                && finalStores == old(finalStores)
                && hasSearched == old(hasSearched)
      ensures !outcome.Refused() ==> matchingStores == CatalogMatches(catalog, Trim(userInput))
      ensures outcome.Unanswered() ==>
                finalStores == old(finalStores) && hasSearched == old(hasSearched)
      ensures !outcome.Refused() && response.Failed? ==> outcome == SearchFailed
      ensures !outcome.Refused() && response.NoPlaces? ==> outcome == NoStoresInRange
      ensures !outcome.Refused() && response.Places? ==>
                && finalStores == Reconcile(matchingStores, response.places)
                && hasSearched
                && (outcome == if finalStores == [] then NoStoreSellsDrink else StoresFound)
    {
      var query := Trim(userInput);
      if query == [] {
        return BlankQuery;
      }
      if userLocation.None? {
        return LocationPending;
      }
      var foundStoresInJson := CatalogMatches(catalog, query);
      matchingStores := foundStoresInJson;
      match response
      case Failed =>
        return SearchFailed;
      case NoPlaces =>
        return NoStoresInRange;
      case Places(places) =>
        var drinkingStoreInMap := Reconcile(foundStoresInJson, places);
        outcome := if drinkingStoreInMap == [] then NoStoreSellsDrink else StoresFound;
        finalStores := drinkingStoreInMap;
        hasSearched := true;
    }
  }

  /** A failed request leaves nothing cached: the catalog matches are stored
      at once, but the list and the flag keep their previous (here initial)
      values, and repeating the same click once the provider answers gives
      exactly what a first successful search gives. */
  method RetryAfterFailure(catalog: seq<CatalogEntry>, query: string, here: Coordinate,
                           places: seq<Place>)
      returns (first: SearchOutcome, shownAfterFailure: seq<Place>, searchedAfterFailure: bool,
               second: SearchOutcome, shown: seq<Place>)
    requires Trim(query) != []
    ensures first == SearchFailed
    ensures shownAfterFailure == [] && !searchedAfterFailure
    ensures shown == Reconcile(CatalogMatches(catalog, Trim(query)), places)
    ensures second == if shown == [] then NoStoreSellsDrink else StoresFound
  {
    var app := new DrinkFinder(catalog);
    app.HandleUserInput(query);
    app.LocationResolved(here);
    ghost var found := CatalogMatches(catalog, Trim(query));
    first := app.HandleUserInputClick(Failed);
    assert !first.Refused();
    assert app.matchingStores == found;
    shownAfterFailure, searchedAfterFailure := app.finalStores, app.hasSearched;
    second := app.HandleUserInputClick(Places(places));
    assert !second.Refused();
    shown := app.finalStores;
  }

  /** An empty `places` array is not an absent one: it is reconciled to
      nothing and ends as "no store sells this drink", with the search marked
      as done, whatever the catalog holds. */
  method EmptyPlacesListCompletesSearch(catalog: seq<CatalogEntry>, query: string, here: Coordinate)
      returns (outcome: SearchOutcome, shown: seq<Place>, searched: bool)
    requires Trim(query) != []
    ensures outcome == NoStoreSellsDrink && shown == [] && searched
  {
    var app := new DrinkFinder(catalog);
    app.HandleUserInput(query);
    app.LocationResolved(here);
    outcome := app.HandleUserInputClick(Places([]));
    assert !outcome.Refused();
    shown, searched := app.finalStores, app.hasSearched;
  }

  /** A response without places after a search that found stores: the user
      is told there are none in range, yet the earlier stores stay listed. */
  method AbsentPlacesKeepsEarlierStores(catalog: seq<CatalogEntry>, query: string, here: Coordinate,
                                        places: seq<Place>)
      returns (outcome: SearchOutcome, shown: seq<Place>, searched: bool)
    requires Trim(query) != []
    requires Reconcile(CatalogMatches(catalog, Trim(query)), places) != []
    ensures outcome == NoStoresInRange && searched
    ensures shown == Reconcile(CatalogMatches(catalog, Trim(query)), places) && shown != []
  {
    var app := new DrinkFinder(catalog);
    app.HandleUserInput(query);
    app.LocationResolved(here);
    var first := app.HandleUserInputClick(Places(places));
    assert !first.Refused();
    assert app.finalStores == Reconcile(CatalogMatches(catalog, Trim(query)), places) && app.hasSearched;
    outcome := app.HandleUserInputClick(NoPlaces);
    assert !outcome.Refused();
    shown, searched := app.finalStores, app.hasSearched;
  }
}
