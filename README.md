# Drinking Finder: the search pipeline, modelled in Dafny

Drinking Finder is a single React component (`src/App.tsx`) that finds
drink stores near the user. It bundles a catalog of stores and the drinks
each one sells. When the user types a drink and presses Submit, the handler
`handleUserInputClick` does four things:

1. It refuses a blank query and refuses to search before the user's
   position is known.
2. It picks the catalog stores whose drink list holds exactly the trimmed
   query.
3. It asks the Google Places text search for drink shops within about 800 m,
   ranked by distance.
4. It keeps those places whose display name contains the name of one of the
   picked stores. The result goes into the component state `finalStores`,
   which is shown as a list and as map markers.

This project models steps 1, 2 and 4, and the component state the handler
changes. The network call is replaced by a parameter holding its outcome.

- `wrappers.dfy` (module `Wrappers`): an `Option` type for the source's
  nullable and optional fields.
- `jstext.dfy` (module `JsText`): JavaScript's `trim` and `includes`.
  `Trim` strips ECMAScript whitespace and line terminators from both ends.
  `Includes` is a scan, proved equal to "is a substring".
- `sequences.dfy` (module `Sequences`): `Array.prototype.filter` as a
  function. It is proved to keep exactly the elements that pass, with their
  multiplicities and in order (a subsequence). It is also proved idempotent.
- `matching.dfy` (module `DrinkMatching`): the catalog and place records,
  the catalog filter `CatalogMatches` and the reconciler `Reconcile`, with
  their lemmas.
- `app.dfy` (module `App`): class `DrinkFinder`. Its fields are the
  component's state `userInput`, `userLocation`, `hasSearched`,
  `matchingStores` and `finalStores`; the catalog is a constant. The method
  `HandleUserInputClick` takes the provider's response as a
  `ProviderResponse`:
  - `Failed`: the request threw, or the status was not ok;
  - `NoPlaces`: a body without `places`;
  - `Places(ps)`: the list of places.

  It returns a `SearchOutcome` that stands for the alert or console message
  the source produces. Three client methods show what callers can rely on.

Three behaviours of the handler as written:
- An empty `places` array is truthy in JavaScript, so it is reconciled like
  any other list. The search then ends with "no store nearby sells this
  drink", `finalStores` empty and `hasSearched` true. Only a body with no
  `places` field ends as "no stores in range", and it leaves `finalStores`
  and `hasSearched` as they were.
- A failed request does not clear anything. `matchingStores` already holds
  the new catalog matches. `finalStores` and `hasSearched` keep the values
  of the previous search.
- The handler returns no "provider returned zero" flag. The cases can be
  told apart only by the message shown, which is what `SearchOutcome`
  records.

## Model

| member | source | states |
|---|---|---|
| `JsText.IsJsWhitespace` | src/App.tsx:66 | The characters `trim` strips and the blank-query guard ignores: ECMAScript's WhiteSpace and LineTerminator code points, among them U+00A0 and the full-width space U+3000. |
| `JsText.FullWidthSpacesAreBlank` | src/App.tsx:66-69 | A query made only of full-width spaces, of any length, trims to the empty string and is refused as blank. |
| `JsText.TrimStartDropsWhitespace` | src/App.tsx:66 | Trimming the start keeps the longest suffix that does not begin with whitespace, and drops only whitespace. |
| `JsText.TrimEndDropsWhitespace` | src/App.tsx:66 | Trimming the end keeps the longest prefix that does not end with whitespace, and drops only whitespace. |
| `JsText.Trim` | src/App.tsx:66 | A non-empty trimmed query neither starts nor ends with whitespace. |
| `JsText.TrimIsPadded` | src/App.tsx:77 | The input is the trimmed query with whitespace-only text on either side: `trim` removes whitespace and nothing else. |
| `JsText.TrimBlankIff` | src/App.tsx:66-69 | The guard `!userInput.trim()` holds exactly when every character of the input is whitespace, including the empty input. |
| `JsText.Includes` | src/App.tsx:141 | `text.includes(name)` holds exactly when `name` occurs at some offset of `text`. The empty name occurs everywhere. |
| `Sequences.Filter` | src/App.tsx:76-78 | `filter` keeps exactly the elements that pass, each as often as in the input, as a subsequence of the input. |
| `Sequences.SubsequenceMember` | src/App.tsx:138-143 | Every element of a filtered list is at some position of the original list. |
| `Sequences.SubsequenceKeepsOrder` | src/App.tsx:138-143 | Two elements in order in a filtered list are at positions in the same order in the original list. |
| `Sequences.FilterKeepsAll` | src/App.tsx:138-143 | When every element passes, the filter returns its input unchanged. |
| `Sequences.FilterKeepsNone` | src/App.tsx:138-143 | When no element passes, the filter is empty. |
| `Sequences.FilterIdempotent` | src/App.tsx:138-143 | Filtering twice with the same test is the same as filtering once. |
| `DrinkMatching.CatalogMatches` | src/App.tsx:76-78 | An entry is a catalog match iff its `drink` list holds an element equal to the query (no case folding). Matches are unchanged catalog entries, with the catalog's multiplicities and order. |
| `DrinkMatching.Reconcile` | src/App.tsx:137-143 | A place is kept iff the name of some catalog match is a substring of its display name. The kept places are unchanged provider places, with the provider's multiplicities and order. |
| `DrinkMatching.ReconcileKeepsProviderOrder` | src/App.tsx:138-143 | The provider's distance ranking is kept: two kept places appear in the same order in the provider's list. |
| `DrinkMatching.NoMatchesNoStores` | src/App.tsx:140-142 | With no catalog matches the reconciliation is empty, whatever the provider returned. |
| `DrinkMatching.UnknownDrinkFindsNothing` | src/App.tsx:76-143 | A drink no catalog entry lists gives no catalog matches, and so no stores, for any provider response. |
| `DrinkMatching.ReconcileIdempotent` | src/App.tsx:138-143 | Reconciling an already reconciled list changes nothing. |
| `DrinkMatching.EmptyNameMatchesEveryPlace` | src/App.tsx:141 | A catalog match with an empty name keeps every place the provider returned. Containment is the only criterion. |
| `DrinkMatching.QueryIsCaseSensitive` | src/App.tsx:77 | The query "green tea" does not match a catalog drink "Green Tea". |
| `DrinkMatching.NameMatchIsContainment` | src/App.tsx:141 | "清心" is found in "清心福全" but not in "心清茶坊". |
| `DrinkMatching.OnlyStoreSellingDrinkMatches` | src/App.tsx:76-78 | For the query "紅茶", of the stores 迷客夏 (紅茶) and 五十嵐 (綠茶), only 迷客夏 matches. |
| `DrinkMatching.BranchOfListedStoreIsKept` | src/App.tsx:137-143 | With 迷客夏 as the only catalog match, of the places "迷客夏 中山店" and "五十嵐" only the first is kept. |
| `App.DrinkFinder.constructor` | src/App.tsx:28-32 | The initial state: empty input, no location, no search done, no matches, no stores. |
| `App.DrinkFinder.HandleUserInput` | src/App.tsx:156-158 | Typing replaces the query and nothing else. |
| `App.DrinkFinder.LocationResolved` | src/App.tsx:49-50 | A reported position becomes the known location and nothing else changes. |
| `App.DrinkFinder.HandleUserInputClick` | src/App.tsx:65-154 | A blank query or an unknown location returns early and changes no state. Otherwise `matchingStores` becomes the catalog matches of the trimmed query. A failed request or an absent `places` field leaves `finalStores` and `hasSearched` unchanged. A `places` list sets `finalStores` to its reconciliation against the fresh catalog matches (not the old `matchingStores`) and sets `hasSearched`. Each case has its own outcome. |
| `App.RetryAfterFailure` | src/App.tsx:116-153 | A failed request caches nothing: right after it, no stores are listed and no search is marked done (from the initial state). The same click repeated after the provider answers gives the reconciled stores and the matching outcome. |
| `App.EmptyPlacesListCompletesSearch` | src/App.tsx:131-148 | An empty `places` array ends as "no store sells this drink", with no stores listed and the search marked done, for any catalog. |
| `App.AbsentPlacesKeepsEarlierStores` | src/App.tsx:131-134 | A response without `places` after a successful search reports "no stores in range". The earlier stores stay listed and the search stays marked done. |

## Left out

- The search rectangle (src/App.tsx:90-95, 102-113) is not modelled. It is floating-point arithmetic with `Math.cos`, and it only shapes the request; the response is a parameter here.
- The request itself is not modelled: `fetch`, its headers, the API key and the request body (src/App.tsx:87-89, 97-101, 116-130). A thrown error, a non-ok status and an unreadable body are all the single response `Failed`.
- A `places` payload that throws during reconciliation (for example a place without `displayName`) is treated as `Failed`, which it is in the source because the `catch` receives it. The model's `Place` always has a display name.
- Getting the location (src/App.tsx:41-63) is not modelled: it is an asynchronous browser API with a permission prompt. Only its effect, `LocationResolved`, is modelled.
- `alert` and `console` output (src/App.tsx:67, 71, 80, 132, 145, 149-153) is shown only as the returned `SearchOutcome`. The `console.log(matchingStores)` at line 80 prints the state from before the click; it is logging only.
- Rendering is not modelled: JSX, markers, `InfoWindow`, `selectedPlace` and the Google Maps links (src/App.tsx:160-318).
- Asynchrony is not modelled. The handler's state updates are applied as one atomic step, and overlapping searches are not modelled. The source has no handling for them: a late response simply overwrites the state.
- Coordinates are `real` values the model never computes on. The model does not represent the fact that they are IEEE doubles.
- Strings are sequences of Unicode scalar values, not UTF-16 code units. Every character `trim` removes is in the Basic Multilingual Plane, and substring tests on well-formed strings agree in both readings.
