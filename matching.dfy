/** The matching pipeline of the search handler in src/App.tsx: the local
    catalog filter (which stores are known to sell the drink) and the
    reconciler (which of the places the provider returned are such stores). */
module DrinkMatching {
  import opened Wrappers
  import opened JsText
  import opened Sequences

  /** One record of the bundled catalog: a store and the drinks it sells. */
  datatype CatalogEntry = CatalogEntry(name: string, drink: seq<string>)

  datatype DisplayName = DisplayName(languageCode: string, text: string)

  /** Degrees, as the provider reports them; the model never computes on them. */
  datatype Coordinate = Coordinate(latitude: real, longitude: real)

  /** One place of the provider's response. */
  datatype Place = Place(displayName: DisplayName, location: Coordinate, id: string,
                         formattedAddress: Option<string>)

  /** The catalog filter: the entries whose drink list holds an element equal
      to `query`, unchanged, with their multiplicity and order in the catalog. */
  function CatalogMatches(catalog: seq<CatalogEntry>, query: string): (found: seq<CatalogEntry>)
    ensures forall store :: store in found <==> store in catalog && query in store.drink
    ensures forall store :: multiset(found)[store] ==
              if query in store.drink then multiset(catalog)[store] else 0
    ensures IsSubsequence(found, catalog)
  {
    // `store.drink.includes(query)`: exact, case-sensitive element equality
    Filter((store: CatalogEntry) => query in store.drink, catalog)
  }

  /** `found.some(store => place.displayName.text.includes(store.name))`. */
  predicate SoldAt(place: Place, found: seq<CatalogEntry>) {
    exists store :: store in found && Includes(place.displayName.text, store.name)
  }

  /** Some store of `found` has a name that occurs in the place's display name. */
  ghost predicate NamesAStoreOf(place: Place, found: seq<CatalogEntry>) {
    exists store :: store in found && IsSubstring(store.name, place.displayName.text)
  }

  /** The reconciler: the provider's places whose display name contains the
      name of some catalog match, unchanged, with their multiplicity and in
      the provider's (distance) order. */
  function Reconcile(found: seq<CatalogEntry>, places: seq<Place>): (inMap: seq<Place>)
    ensures forall p :: p in inMap <==> p in places && NamesAStoreOf(p, found)
    ensures forall p :: multiset(inMap)[p] ==
              if NamesAStoreOf(p, found) then multiset(places)[p] else 0
    ensures IsSubsequence(inMap, places)
  {
    Filter(place => SoldAt(place, found), places)
  }

  /** The provider's distance ranking survives reconciliation: two places in
      order in the result come in that order in the provider's list. */
  lemma ReconcileKeepsProviderOrder(found: seq<CatalogEntry>, places: seq<Place>, i: int, j: int)
    requires 0 <= i < j < |Reconcile(found, places)|
    ensures exists a, b :: 0 <= a < b < |places|
              && places[a] == Reconcile(found, places)[i]
              && places[b] == Reconcile(found, places)[j]
  {
    SubsequenceKeepsOrder(Reconcile(found, places), places, i, j);
  }

  /** With no catalog matches, reconciliation is empty whatever the provider returned. */
  lemma NoMatchesNoStores(places: seq<Place>)
    ensures Reconcile([], places) == []
  {
    FilterKeepsNone(place => SoldAt(place, []), places);
  }

  /** A drink no catalog entry lists yields no catalog matches, hence no
      stores, whatever the provider returned. */
  lemma UnknownDrinkFindsNothing(catalog: seq<CatalogEntry>, query: string, places: seq<Place>)
    requires forall store :: store in catalog ==> query !in store.drink
    ensures CatalogMatches(catalog, query) == []
    ensures Reconcile(CatalogMatches(catalog, query), places) == []
  {
    FilterKeepsNone((store: CatalogEntry) => query in store.drink, catalog);
    NoMatchesNoStores(places);
  }

  /** Reconciling an already reconciled list changes nothing. */
  lemma ReconcileIdempotent(found: seq<CatalogEntry>, places: seq<Place>)
    ensures Reconcile(found, Reconcile(found, places)) == Reconcile(found, places)
  {
    FilterIdempotent(place => SoldAt(place, found), places);
  }

  /** Containment is the only criterion: a catalog match with an empty name
      occurs in every display name, so every place the provider returned is
      kept. */
  lemma EmptyNameMatchesEveryPlace(found: seq<CatalogEntry>, places: seq<Place>)
    requires exists store :: store in found && store.name == ""
    ensures Reconcile(found, places) == places
  {
    var store :| store in found && store.name == "";
    forall p | p in places ensures SoldAt(p, found) {
      assert Includes(p.displayName.text, store.name);
    }
    FilterKeepsAll(place => SoldAt(place, found), places);
  }

  /** Catalog matching is case-sensitive: "green tea" does not find "Green Tea". */
  lemma QueryIsCaseSensitive()
    ensures CatalogMatches([CatalogEntry("Tea House", ["Green Tea"])], "green tea") == []
  {
    var catalog := [CatalogEntry("Tea House", ["Green Tea"])];
    assert "green tea" != "Green Tea" by { assert "green tea"[0] != "Green Tea"[0]; }
    UnknownDrinkFindsNothing(catalog, "green tea", []);
  }

  /** Name matching is substring containment, not similarity: "清心" is found
      in "清心福全" but not in "心清茶坊". */
  lemma NameMatchIsContainment()
    ensures Includes("清心福全", "清心")
    ensures !Includes("心清茶坊", "清心")
  {
    assert OccursAt("清心", "清心福全", 0);
    // the scan tries "心清", "清茶", "茶坊" and then runs out of text
    assert "心清茶坊"[1..] == "清茶坊" && "清茶坊"[1..] == "茶坊" && "茶坊"[1..] == "坊";
    assert "心清茶坊"[..2] != "清心" by { assert "心清茶坊"[0] != "清心"[0]; }
    assert "清茶坊"[..2] != "清心" by { assert "清茶坊"[1] != "清心"[1]; }
    assert "茶坊"[..2] != "清心" by { assert "茶坊"[0] != "清心"[0]; }
  }

  /** A worked search, first half: of two catalog stores only the one that
      lists the drink is a match. */
  lemma OnlyStoreSellingDrinkMatches()
    ensures CatalogMatches([CatalogEntry("迷客夏", ["紅茶"]), CatalogEntry("五十嵐", ["綠茶"])], "紅茶")
            == [CatalogEntry("迷客夏", ["紅茶"])]
  {
    var store := CatalogEntry("迷客夏", ["紅茶"]);
    var rival := CatalogEntry("五十嵐", ["綠茶"]);
    var sells := (s: CatalogEntry) => "紅茶" in s.drink;
    assert "綠茶" != "紅茶" by { assert "綠茶"[0] != "紅茶"[0]; }
    assert !sells(rival) && sells(store);
    assert [store, rival][1..] == [rival] && [rival][1..] == [];
    assert Filter(sells, [rival]) == [];
    assert Filter(sells, [store, rival]) == [store] + Filter(sells, [rival]);
  }

  /** A worked search, second half: of two nearby places, only the branch of
      the matching store is kept. */
  lemma BranchOfListedStoreIsKept(here: Coordinate, there: Coordinate, id1: string, id2: string)
    ensures var store := CatalogEntry("迷客夏", ["紅茶"]);
            var branch := Place(DisplayName("zh-TW", "迷客夏 中山店"), here, id1, None);
            var other := Place(DisplayName("zh-TW", "五十嵐"), there, id2, None);
            Reconcile([store], [branch, other]) == [branch]
  {
    var store := CatalogEntry("迷客夏", ["紅茶"]);
    var branch := Place(DisplayName("zh-TW", "迷客夏 中山店"), here, id1, None);
    var other := Place(DisplayName("zh-TW", "五十嵐"), there, id2, None);
    var sold := p => SoldAt(p, [store]);
    assert OccursAt("迷客夏", "迷客夏 中山店", 0);
    assert Includes("迷客夏 中山店", "迷客夏");
    assert sold(branch);
    // "五十嵐" does not start with "迷客夏", and what follows is too short to hold it
    assert "五十嵐"[..3] != "迷客夏" by { assert "五十嵐"[0] != "迷客夏"[0]; }
    assert !Includes("五十嵐", "迷客夏");
    assert !sold(other);
    assert [branch, other][1..] == [other] && [other][1..] == [];
    assert Filter(sold, [other]) == [];
    assert Filter(sold, [branch, other]) == [branch] + Filter(sold, [other]);
  }
}
