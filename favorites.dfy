/** The favourites list of src/contexts/FavoritesContext.tsx and the like
    toggle of src/components/ProductCard.tsx. Each update is followed by the
    effect that writes the list to the "marketplace_favorites" slot, or
    removes the slot when the list is empty. */
module Favorites {
  import opened Seqs
  import opened Listings

  /** What the storage effect leaves in the slot for a given list. */
  function SlotFor(favorites: seq<Listing>): (slot: Option<seq<Listing>>)
    ensures slot.None? <==> favorites == []
    ensures slot.Some? ==> slot.value == favorites
  {
    if |favorites| > 0 then Some(favorites) else None
  }

  /** The provider's `favorites` state and its storage slot. */
  class FavoritesProvider {
    var favorites: seq<Listing>
    var slot: Option<seq<Listing>>

    /** The slot is what the storage effect last wrote for the list. */
    predicate Synced()
      reads this
    {
      slot == SlotFor(favorites)
    }

    /** Mount: start from the stored list when the slot is set, else from
        the empty list; then the storage effect runs. */
    constructor Mount(saved: Option<seq<Listing>>)
      ensures favorites == (if saved.Some? then saved.value else [])
      ensures Synced()
    {
      var initial := if saved.Some? then saved.value else [];
      favorites := initial;
      slot := SlotFor(initial);
    }

    /** The storage effect: write a non-empty list, remove the key otherwise. */
    method PersistFavorites()
      modifies this`slot
      ensures Synced()
    {
      if |favorites| > 0 {
        slot := Some(favorites);
      } else {
        slot := None;
      }
    }

    /** `isFavorite`: some entry carries the id. */
    function IsFavorite(id: string): (b: bool)
      reads this
      ensures b <==> exists i :: 0 <= i < |favorites| && favorites[i].id == id
    {
      HasId(favorites, id)
    }

    /** `addToFavorites`: append at the end, without deduplication. */
    method AddToFavorites(p: Listing)
      modifies this
      ensures favorites == old(favorites) + [p]
      ensures IsFavorite(p.id) && Synced()
    {
      favorites := favorites + [p];
      PersistFavorites();
      assert favorites[|favorites| - 1] == p;
    }

    /** `removeFromFavorites`: drop every entry with the id, keeping the rest
        in order. */
    method RemoveFromFavorites(id: string)
      modifies this
      ensures favorites == WithoutId(old(favorites), id)
      ensures !IsFavorite(id) && Synced()
      ensures !old(IsFavorite(id)) ==> favorites == old(favorites)
    {
      favorites := WithoutId(favorites, id);
      PersistFavorites();
      WithoutIdClears(old(favorites), id);
      WithoutIdChanges(old(favorites), id);
    }

    /** `handleLikeClick`: remove the listing if it is a favourite, add it
        otherwise; membership of its id flips. */
    method ToggleFavorite(p: Listing)
      modifies this
      ensures favorites == if old(IsFavorite(p.id)) then WithoutId(old(favorites), p.id)
                           else old(favorites) + [p]
      ensures IsFavorite(p.id) == !old(IsFavorite(p.id))
      ensures Synced()
    {
      var liked := IsFavorite(p.id);
      if liked {
        RemoveFromFavorites(p.id);
      } else {
        AddToFavorites(p);
      }
    }
  }

  /** Adding a listing and then removing its id restores a list that did not
      hold the id: two toggles from "not a favourite" are a round trip. */
  lemma {:induction false} AddThenRemoveRestores(s: seq<Listing>, p: Listing)
    requires !HasId(s, p.id)
    ensures WithoutId(s + [p], p.id) == s
  {
    WithoutIdAppend(s, [p], p.id);
    WithoutIdChanges(s, p.id);
    FilterSingleton(p, IdIsNot(p.id));
  }
}
