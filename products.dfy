/** The listing store of src/data/products.ts: the one owner of all listings,
    mirrored to the "marketplace_products" storage slot after every change,
    with age-based expiry and a read-only filter/sort query. */
module Products {
  import opened Seqs
  import opened Sorting
  import opened Listings

  /** Milliseconds in a day; timestamps are milliseconds since the epoch. */
  const DayMs: int := 24 * 60 * 60 * 1000
  /** Listings older than this many days are expired. */
  const ExpiryDays: int := 30
  /** `Number.MAX_SAFE_INTEGER`, the default upper price bound. */
  const MaxSafeInteger: int := 0x1F_FFFF_FFFF_FFFF

  /** The instant thirty days before `now`. */
  function Cutoff(now: int): int
  {
    now - ExpiryDays * DayMs
  }

  // ---------------------------------------------------------------- expiry

  /** The test kept by expiry: created strictly after the cutoff. */
  function FreshAt(now: int): Listing -> bool
  {
    (l: Listing) => l.createdAt > Cutoff(now)
  }

  /** `removeOldProducts`: the listings created after the cutoff, in order. */
  function RemoveOldProducts(s: seq<Listing>, now: int): seq<Listing>
  {
    Filter(s, FreshAt(now))
  }

  /** Expiry keeps exactly the listings newer than the cutoff. */
  lemma RemoveOldKeepsExactly(s: seq<Listing>, now: int, x: Listing)
    ensures x in RemoveOldProducts(s, now) <==> x in s && x.createdAt > Cutoff(now)
  {
  }

  /** Expiring twice at the same instant is expiring once. */
  lemma RemoveOldIdempotent(s: seq<Listing>, now: int)
    ensures RemoveOldProducts(RemoveOldProducts(s, now), now) == RemoveOldProducts(s, now)
  {
    FilterIdempotent(s, FreshAt(now));
  }

  /** Expiry preserves order: it acts on an appended listing independently of
      the listings before it. */
  lemma RemoveOldAppend(s: seq<Listing>, p: Listing, now: int)
    ensures RemoveOldProducts(s + [p], now)
         == RemoveOldProducts(s, now) + (if p.createdAt > Cutoff(now) then [p] else [])
  {
    FilterAppend(s, [p], FreshAt(now));
    FilterSingleton(p, FreshAt(now));
  }

  // ---------------------------------------------------------------- search

  /** Lower-casing of one character (ASCII letters only). */
  function LowerChar(c: char): char
  {
    if 'A' <= c <= 'Z' then (c as int + 32) as char else c
  }

  /** `toLowerCase` on a string, character by character. */
  function Lower(s: string): (r: string)
    ensures |r| == |s|
    ensures forall i :: 0 <= i < |s| ==> r[i] == LowerChar(s[i])
  {
    if s == [] then [] else [LowerChar(s[0])] + Lower(s[1..])
  }

  /** Lower-casing twice is lower-casing once. */
  lemma LowerIdempotent(s: string)
    ensures Lower(Lower(s)) == Lower(s)
  {
  }

  /** `needle` occurs in `haystack` starting at offset `i`. */
  predicate OccursAt(haystack: string, needle: string, i: int)
  {
    0 <= i && i + |needle| <= |haystack| && haystack[i..i + |needle|] == needle
  }

  /** `haystack.includes(needle)`, scanning offsets from the front. */
  function Contains(haystack: string, needle: string): (b: bool)
    ensures b <==> exists i :: OccursAt(haystack, needle, i)
  {
    if needle <= haystack then
      assert OccursAt(haystack, needle, 0);
      true
    else if haystack == [] then false
    else
      var rest := haystack[1..];
      assert forall i :: OccursAt(haystack, needle, i) ==> i >= 1 && OccursAt(rest, needle, i - 1);
      assert forall i :: OccursAt(rest, needle, i) ==> OccursAt(haystack, needle, i + 1);
      Contains(rest, needle)
  }

  // ---------------------------------------------------------------- query

  /** The eight parameters of `filterProducts`, with `seller` the seller type. */
  datatype Query = Query(
    searchTerm: string,
    category: string,
    minPrice: real,
    maxPrice: real,
    sort: string,
    condition: string,
    location: string,
    seller: string)

  /** The parameters' default values. */
  const DefaultQuery := Query("", "", 0.0, MaxSafeInteger as real, "default", "all", "all", "all")

  /** An empty term matches; otherwise the term, case-folded, occurs in the
      case-folded title or description. */
  predicate MatchesSearch(term: string, l: Listing)
  {
    term != "" ==> Contains(Lower(l.title), Lower(term)) || Contains(Lower(l.description), Lower(term))
  }

  /** An empty category matches every listing. */
  predicate MatchesCategory(category: string, l: Listing)
  {
    category != "" ==> l.category == category
  }

  /** The price range is inclusive at both ends. */
  predicate MatchesPrice(minPrice: real, maxPrice: real, l: Listing)
  {
    minPrice <= l.price <= maxPrice
  }

  /** Permissive match of an optional field: the sentinel "all", or a field the
      listing leaves unset (or empty), matches; otherwise equality is needed. */
  predicate MatchesOptional(wanted: string, field: Option<string>)
  {
    wanted == "all" || !Truthy(field) || field.value == wanted
  }

  /** The AND of the six tests of the `filter` callback. */
  predicate Matches(q: Query, l: Listing)
  {
    MatchesSearch(q.searchTerm, l) && MatchesCategory(q.category, l) &&
    MatchesPrice(q.minPrice, q.maxPrice, l) && MatchesOptional(q.condition, l.condition) &&
    MatchesOptional(q.location, l.location) && MatchesOptional(q.seller, l.sellerType)
  }

  function MatchesQuery(q: Query): Listing -> bool
  {
    (l: Listing) => Matches(q, l)
  }

  /** The listings that match `q`, in insertion order. */
  function Select(s: seq<Listing>, q: Query): seq<Listing>
  {
    Filter(s, MatchesQuery(q))
  }

  /** Search ignores the case of the term. */
  lemma SearchIgnoresTermCase(term: string, l: Listing)
    ensures MatchesSearch(Lower(term), l) == MatchesSearch(term, l)
  {
    LowerIdempotent(term);
  }

  /** With every parameter at its default, exactly the listings priced in
      [0, MAX_SAFE_INTEGER] match, so the query returns them all in order. */
  lemma DefaultQuerySelectsAll(s: seq<Listing>)
    requires forall x :: x in s ==> 0.0 <= x.price <= MaxSafeInteger as real
    ensures Select(s, DefaultQuery) == s
  {
    FilterKeepsAll(s, MatchesQuery(DefaultQuery));
  }

  // ---------------------------------------------------------------- sort

  /** The modes that reorder; every other mode keeps insertion order. */
  predicate IsSortMode(mode: string)
  {
    mode == "price_asc" || mode == "price_desc" || mode == "newest"
  }

  function AscPrice(l: Listing): real { l.price }
  function DescPrice(l: Listing): real { -l.price }
  function NewestFirst(l: Listing): real { -(l.createdAt as real) }

  /** The key whose ascending order the comparator of `mode` sorts by. */
  function KeyFor(mode: string): Listing -> real
  {
    if mode == "price_desc" then DescPrice
    else if mode == "newest" then NewestFirst
    else AscPrice
  }

  /** The `switch (sort)`: a stable sort by the mode's key, or no reordering. */
  function ApplySort(mode: string, s: seq<Listing>): seq<Listing>
  {
    if IsSortMode(mode) then SortBy(s, KeyFor(mode)) else s
  }

  /** Sorting permutes the filtered listings, orders them as the mode says,
      and keeps listings with equal keys in insertion order. */
  lemma ApplySortCorrect(mode: string, s: seq<Listing>)
    ensures multiset(ApplySort(mode, s)) == multiset(s)
    ensures |ApplySort(mode, s)| == |s|
    ensures mode == "price_asc" ==> forall i, j :: 0 <= i < j < |ApplySort(mode, s)| ==>
      ApplySort(mode, s)[i].price <= ApplySort(mode, s)[j].price
    ensures mode == "price_desc" ==> forall i, j :: 0 <= i < j < |ApplySort(mode, s)| ==>
      ApplySort(mode, s)[i].price >= ApplySort(mode, s)[j].price
    ensures mode == "newest" ==> forall i, j :: 0 <= i < j < |ApplySort(mode, s)| ==>
      ApplySort(mode, s)[i].createdAt >= ApplySort(mode, s)[j].createdAt
    ensures !IsSortMode(mode) ==> ApplySort(mode, s) == s
    ensures forall k :: WithKey(ApplySort(mode, s), KeyFor(mode), k) == WithKey(s, KeyFor(mode), k)
  {
    var key := KeyFor(mode);
    SortPermutes(s, key);
    if IsSortMode(mode) {
      SortSorted(s, key);
      forall k ensures WithKey(SortBy(s, key), key, k) == WithKey(s, key, k) {
        SortStable(s, key, k);
      }
      var r := SortBy(s, key);
      forall i, j | 0 <= i < j < |r| ensures key(r[i]) <= key(r[j]) { }
    }
  }

  /** Two permutations of each other have the same members. */
  lemma SameMembers(a: seq<Listing>, b: seq<Listing>)
    requires multiset(a) == multiset(b)
    ensures forall x :: x in a <==> x in b
  {
    forall x ensures x in a <==> x in b {
      assert x in a <==> x in multiset(a);
      assert x in b <==> x in multiset(b);
    }
  }

  // ---------------------------------------------------------------- store

  /** The module state of products.ts: the `products` array and the
      "marketplace_products" slot (None while the key is absent). */
  class Store {
    var products: seq<Listing>
    var stored: Option<seq<Listing>>

    /** The slot holds exactly the in-memory listings. */
    predicate Mirrored()
      reads this
    {
      stored == Some(products)
    }

    /** Module load: read the slot (absent means no listings), expire old
        listings and save the result back. */
    constructor Load(slot: Option<seq<Listing>>, now: int)
      ensures products == RemoveOldProducts(if slot.Some? then slot.value else [], now)
      ensures Mirrored()
    {
      var initial := if slot.Some? then slot.value else [];
      products := RemoveOldProducts(initial, now);
      stored := Some(products);
    }

    /** `saveProducts`: write the listings to the slot. */
    method SaveProducts()
      modifies this`stored
      ensures Mirrored()
    {
      stored := Some(products);
    }

    /** `getAllProducts`: expire, save, and return the remaining listings. */
    method GetAllProducts(now: int) returns (r: seq<Listing>)
      modifies this
      ensures products == RemoveOldProducts(old(products), now)
      ensures r == products && Mirrored()
      ensures forall x :: x in r ==> x.createdAt > Cutoff(now)
    {
      products := RemoveOldProducts(products, now);
      SaveProducts();
      r := products;
    }

    /** `addProduct`: append, save, and return the listing unchanged. */
    method AddProduct(p: Listing) returns (r: Listing)
      modifies this
      ensures products == old(products) + [p]
      ensures r == p && Mirrored()
    {
      products := products + [p];
      SaveProducts();
      r := p;
    }

    /** `filterProducts`: the matching listings, sorted as `q.sort` asks. It
        reads the store and changes nothing. */
    method FilterProducts(q: Query) returns (r: seq<Listing>)
      ensures forall x :: x in r ==> x in products && Matches(q, x)
      ensures forall x :: x in products && Matches(q, x) ==> x in r
      ensures multiset(r) == multiset(Select(products, q))
      ensures q.sort == "price_asc" ==> forall i, j :: 0 <= i < j < |r| ==> r[i].price <= r[j].price
      ensures q.sort == "price_desc" ==> forall i, j :: 0 <= i < j < |r| ==> r[i].price >= r[j].price
      ensures q.sort == "newest" ==> forall i, j :: 0 <= i < j < |r| ==> r[i].createdAt >= r[j].createdAt
      ensures forall k :: WithKey(r, KeyFor(q.sort), k) == WithKey(Select(products, q), KeyFor(q.sort), k)
      ensures !IsSortMode(q.sort) ==> r == Select(products, q)
    {
      var filtered := Select(products, q);
      ghost var selected := filtered;
      // `filtered.sort(...)` reorders the array in place
      filtered := ApplySort(q.sort, filtered);
      ApplySortCorrect(q.sort, selected);
      SameMembers(filtered, selected);
      r := filtered;
    }

    /** `cleanupOldProducts`: expire, save, and report how many were removed. */
    method CleanupOldProducts(now: int) returns (removed: int)
      modifies this
      ensures products == RemoveOldProducts(old(products), now) && Mirrored()
      ensures removed == |old(products)| - |products| && removed >= 0
      ensures removed == 0 <==> products == old(products)
    {
      var oldCount := |products|;
      products := RemoveOldProducts(products, now);
      SaveProducts();
      removed := oldCount - |products|;
      FilterKeepsAll(old(products), FreshAt(now));
    }

    /** `deleteProduct`: drop every listing with the id; save and report true
        only when the length changed. */
    method DeleteProduct(id: string) returns (deleted: bool)
      modifies this
      ensures products == WithoutId(old(products), id)
      ensures deleted <==> HasId(old(products), id)
      ensures deleted <==> |products| != |old(products)|
      ensures deleted ==> Mirrored()
      ensures !deleted ==> products == old(products) && stored == old(stored)
    {
      var oldLength := |products|;
      products := WithoutId(products, id);
      WithoutIdChanges(old(products), id);
      if |products| != oldLength {
        SaveProducts();
        deleted := true;
      } else {
        deleted := false;
      }
    }
  }
}
