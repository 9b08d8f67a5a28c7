/** Concrete behaviours of the listing store on small inputs: price and
    expiry boundaries, sort stability, a filter/sort query, and what the
    store's method contracts let a caller conclude. */
module ProductScenarios {
  import opened Seqs
  import opened Sorting
  import opened Listings
  import opened Products

  /** A listing with only the fields these scenarios vary. */
  function Item(id: string, price: real, category: string, createdAt: int): Listing
  {
    Listing(id, "", price, "", category, [], createdAt, None, [], [], None, None, None, None)
  }

  /** A query on category and price range only, sorted by `sort`. */
  function PriceQuery(category: string, minPrice: real, maxPrice: real, sort: string): Query
  {
    Query("", category, minPrice, maxPrice, sort, "all", "all", "all")
  }

  /** Both ends of the price range are included; one unit outside is not. */
  lemma PriceBoundsInclusive(q: Query, l: Listing)
    requires q.minPrice <= q.maxPrice
    ensures l.price == q.minPrice ==> MatchesPrice(q.minPrice, q.maxPrice, l)
    ensures l.price == q.maxPrice ==> MatchesPrice(q.minPrice, q.maxPrice, l)
    ensures l.price == q.minPrice - 1.0 || l.price == q.maxPrice + 1.0 ==> !Matches(q, l)
  {
  }

  /** A listing created 30 days and one second ago has expired; one created
      29 days ago has not; one exactly at the cutoff has expired. */
  lemma ExpiryBoundary(now: int)
    ensures RemoveOldProducts([Item("a", 1.0, "", now - 30 * DayMs - 1000)], now) == []
    ensures RemoveOldProducts([Item("b", 1.0, "", now - 29 * DayMs)], now) == [Item("b", 1.0, "", now - 29 * DayMs)]
    ensures RemoveOldProducts([Item("c", 1.0, "", Cutoff(now))], now) == []
  {
  }

  /** Two listings of equal price keep their insertion order under "price_asc". */
  lemma EqualPricesKeepOrder(a: Listing, b: Listing)
    requires a.price == b.price
    ensures ApplySort("price_asc", [a, b]) == [a, b]
  {
    assert [a, b][..1] == [a] && [a][..0] == [];
    assert SortBy([a], AscPrice) == [a];
    assert Insert([a], b, AscPrice) == [a, b];
  }

  /** A query that matches the first two of three listings selects them in order. */
  lemma SelectFirstTwo(a: Listing, b: Listing, c: Listing, q: Query)
    requires Matches(q, a) && Matches(q, b) && !Matches(q, c)
    ensures Select([a, b, c], q) == [a, b]
  {
    var p := MatchesQuery(q);
    assert p(a) && p(b) && !p(c);
    assert [a, b, c][1..] == [b, c] && [b, c][1..] == [c] && [c][1..] == [];
    assert Filter([c], p) == [];
    assert Filter([b, c], p) == [b];
  }

  /** "price_desc" puts the dearer of two listings first. */
  lemma PriceDescOfTwo(a: Listing, b: Listing)
    requires a.price < b.price
    ensures ApplySort("price_desc", [a, b]) == [b, a]
  {
    assert [a, b][..1] == [a] && [a][..0] == [];
    assert SortBy([a], DescPrice) == [a];
    assert Insert([a], b, DescPrice) == [b, a];
  }

  /** Listings priced 50, 150 (Electronics) and 300 (Books): the Electronics
      query sorted by "price_desc" returns [150, 50]. */
  lemma ElectronicsByPriceDesc(now: int)
    ensures var a := Item("1", 50.0, "Electronics", now);
            var b := Item("2", 150.0, "Electronics", now);
            var c := Item("3", 300.0, "Books", now);
            var q := PriceQuery("Electronics", 0.0, 1000.0, "price_desc");
            ApplySort(q.sort, Select([a, b, c], q)) == [b, a]
  {
    var a := Item("1", 50.0, "Electronics", now);
    var b := Item("2", 150.0, "Electronics", now);
    var c := Item("3", 300.0, "Books", now);
    var q := PriceQuery("Electronics", 0.0, 1000.0, "price_desc");
    assert "Books" != "Electronics" by { assert "Books"[0] != "Electronics"[0]; }
    SelectFirstTwo(a, b, c, q);
    PriceDescOfTwo(a, b);
  }

  /** A second cleanup at the same instant removes nothing. */
  method CleanupTwice(store: Store, now: int) returns (first: int, second: int)
    modifies store
    ensures second == 0
    ensures first == |old(store.products)| - |store.products|
  {
    first := store.CleanupOldProducts(now);
    RemoveOldIdempotent(old(store.products), now);
    second := store.CleanupOldProducts(now);
  }

  /** A listing created after the cutoff is returned by the next
      `getAllProducts`, after the listings that were already there. */
  method AddThenGetAll(store: Store, p: Listing, now: int) returns (all: seq<Listing>)
    requires p.createdAt > Cutoff(now)
    modifies store
    ensures all == RemoveOldProducts(old(store.products), now) + [p]
    ensures p in all
  {
    var added := store.AddProduct(p);
    RemoveOldAppend(old(store.products), p, now);
    all := store.GetAllProducts(now);
  }

  /** A query leaves the listings, and the next `getAllProducts`, unchanged;
      deleting an absent id returns false and changes nothing. */
  method QueryAndDeleteAbsent(store: Store, q: Query, id: string, now: int)
    returns (all: seq<Listing>, deleted: bool)
    requires !HasId(store.products, id)
    modifies store
    ensures !deleted
    ensures all == RemoveOldProducts(old(store.products), now)
  {
    var found := store.FilterProducts(q);
    deleted := store.DeleteProduct(id);
    all := store.GetAllProducts(now);
  }
}
