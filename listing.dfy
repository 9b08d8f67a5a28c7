/** The marketplace's one entity, the listing (`Product` in src/types/index.ts),
    and the two id-based list operations shared by the listing store and the
    favourites list. */
module Listings {
  import opened Seqs

  datatype Option<T> = None | Some(value: T)

  /** JavaScript truthiness of an optional string field: present and not "". */
  predicate Truthy(o: Option<string>)
  {
    o.Some? && o.value != ""
  }

  /** How a buyer may reach the seller (`ContactInfo`); every field is optional. */
  datatype ContactInfo = ContactInfo(
    phone: Option<string>,
    email: Option<string>,
    preferredContactMethod: Option<string>,
    availabilityHours: Option<string>,
    showPublicly: Option<bool>,
    profileUrl: Option<string>)

  /** A listing. `createdAt` is the creation instant in milliseconds since the
      epoch; `videos` and `audios` are empty when the record has none. */
  datatype Listing = Listing(
    id: string,
    title: string,
    price: real,
    description: string,
    category: string,
    images: seq<string>,
    createdAt: int,
    contactInfo: Option<ContactInfo>,
    videos: seq<string>,
    audios: seq<string>,
    condition: Option<string>,
    location: Option<string>,
    sellerType: Option<string>,
    sellerId: Option<string>)

  /** `some(l => l.id === id)`: scans from the front until a match. */
  function HasId(s: seq<Listing>, id: string): (b: bool)
    ensures b <==> exists i :: 0 <= i < |s| && s[i].id == id
  {
    if s == [] then false
    else if s[0].id == id then true
    else
      assert forall i :: 1 <= i < |s| ==> s[i] == s[1..][i - 1];
      HasId(s[1..], id)
  }

  /** The test kept by `filter(l => l.id !== id)`. */
  function IdIsNot(id: string): Listing -> bool
  {
    (l: Listing) => l.id != id
  }

  /** Every listing whose id differs from `id`, in order. */
  function WithoutId(s: seq<Listing>, id: string): seq<Listing>
  {
    Filter(s, IdIsNot(id))
  }

  /** Removing by id drops exactly the listings with that id. */
  lemma WithoutIdMembers(s: seq<Listing>, id: string, x: Listing)
    ensures x in WithoutId(s, id) <==> x in s && x.id != id
  {
  }

  /** After removal no listing with that id is left. */
  lemma {:induction false} WithoutIdClears(s: seq<Listing>, id: string)
    ensures !HasId(WithoutId(s, id), id)
  {
    var r := WithoutId(s, id);
    forall i | 0 <= i < |r| ensures r[i].id != id {
      assert r[i] in r;
    }
  }

  /** Removal changes the list (and its length) exactly when the id is present;
      an absent id leaves the list as it was. */
  lemma {:induction false} WithoutIdChanges(s: seq<Listing>, id: string)
    ensures WithoutId(s, id) == s <==> !HasId(s, id)
    ensures |WithoutId(s, id)| == |s| <==> !HasId(s, id)
    ensures |WithoutId(s, id)| < |s| <==> HasId(s, id)
  {
    FilterKeepsAll(s, IdIsNot(id));
    if HasId(s, id) {
      var i :| 0 <= i < |s| && s[i].id == id;
      assert s[i] in s && !IdIsNot(id)(s[i]);
    } else {
      forall x | x in s ensures IdIsNot(id)(x) {
        var i :| 0 <= i < |s| && s[i] == x;
      }
    }
  }

  /** Removal on a concatenation removes from each part, so the listings that
      stay keep their relative order. */
  lemma WithoutIdAppend(s: seq<Listing>, t: seq<Listing>, id: string)
    ensures WithoutId(s + t, id) == WithoutId(s, id) + WithoutId(t, id)
  {
    FilterAppend(s, t, IdIsNot(id));
  }
}
