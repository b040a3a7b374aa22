/**
  The wishlist slice of the client store: an ordered list of saved records and
  an `isOpen` flag. Records come from endpoints that name their key `id` or
  `_id` (here `dbId`), so the reducers match on either field with plain
  equality; a missing field is `None`, and two missing fields are equal.
 */
module WishlistSlice {
  import opened Wrappers
  import Seqs

  type Id = string

  datatype WishItem = WishItem(id: Option<Id>, dbId: Option<Id>, title: Option<string>)

  /** The test inside `addToWishlist`'s `find`: the same `id` or the same `_id`. */
  predicate SameRecord(item: WishItem, payload: WishItem) {
    item.id == payload.id || item.dbId == payload.dbId
  }

  predicate AlreadyListed(items: seq<WishItem>, payload: WishItem) {
    exists i | 0 <= i < |items| :: SameRecord(items[i], payload)
  }

  /** The test inside `removeFromWishlist`'s `filter`: the record survives when neither key equals `key`. */
  predicate KeptAfterRemove(item: WishItem, key: Option<Id>) {
    item.id != key && item.dbId != key
  }

  /** `action.payload || []`: a missing list counts as empty. */
  function ListOrEmpty(payload: Option<seq<WishItem>>): seq<WishItem> {
    payload.GetOr([])
  }

  /** The list after `addToWishlist(payload)`. */
  function WishAdded(items: seq<WishItem>, payload: WishItem): seq<WishItem> {
    if AlreadyListed(items, payload) then items else items + [payload]
  }

  /** The list after `removeFromWishlist(key)`. */
  function WishRemoved(items: seq<WishItem>, key: Option<Id>): seq<WishItem> {
    Seqs.Filter((item: WishItem) => KeptAfterRemove(item, key), items)
  }

  /** No two records of the list would be taken for one another by `addToWishlist`. */
  ghost predicate Distinct(items: seq<WishItem>) {
    forall i, j :: 0 <= i < j < |items| ==> !SameRecord(items[i], items[j])
  }

  class Wishlist {
    var items: seq<WishItem>
    var isOpen: bool

    constructor ()
      ensures items == [] && !isOpen
    {
      items := [];
      isOpen := false;
    }

    method SetWishlist(payload: Option<seq<WishItem>>)
      modifies this
      ensures items == ListOrEmpty(payload)
      ensures isOpen == old(isOpen)
    {
      match payload {
        case Some(list) => items := list;
        case None => items := [];
      }
    }

    method AddToWishlist(payload: WishItem)
      modifies this
      ensures items == WishAdded(old(items), payload)
      ensures isOpen == old(isOpen)
    {
      if !AlreadyListed(items, payload) {
        items := items + [payload];
      }
    }

    method RemoveFromWishlist(key: Option<Id>)
      modifies this
      ensures items == WishRemoved(old(items), key)
      ensures isOpen == old(isOpen)
    {
      items := Seqs.Filter((item: WishItem) => KeptAfterRemove(item, key), items);
    }

    method ClearWishlist()
      modifies this
      ensures items == []
      ensures isOpen == old(isOpen)
    {
      items := [];
    }

    method ToggleWishlist()
      modifies this
      ensures isOpen == !old(isOpen)
      ensures items == old(items)
    {
      isOpen := !isOpen;
    }
  }

  /** `addToWishlist` appends exactly when no listed record shares a key with the payload, and otherwise changes nothing. */
  lemma AddAppendsIffNew(items: seq<WishItem>, payload: WishItem)
    ensures WishAdded(items, payload) == items + [payload] <==> !AlreadyListed(items, payload)
    ensures WishAdded(items, payload) == items <==> AlreadyListed(items, payload)
  {
    if WishAdded(items, payload) == items + [payload] {
      assert |items + [payload]| != |items|;
    }
  }

  /** Adding the same record twice is adding it once. */
  lemma AddIdempotent(items: seq<WishItem>, payload: WishItem)
    ensures WishAdded(WishAdded(items, payload), payload) == WishAdded(items, payload)
  {
    var once := WishAdded(items, payload);
    if !AlreadyListed(items, payload) {
      assert SameRecord(once[|items|], payload);
    }
  }

  /**
    Plain equality on missing keys: a payload without `_id` is taken as already
    listed whenever some record also lacks `_id`, and likewise for `id`.
   */
  lemma MissingKeyCollides(items: seq<WishItem>, payload: WishItem, i: nat)
    requires i < |items|
    requires (payload.dbId.None? && items[i].dbId.None?) || (payload.id.None? && items[i].id.None?)
    ensures WishAdded(items, payload) == items
  {
    assert SameRecord(items[i], payload);
  }

  /** `addToWishlist` keeps a list of distinct records distinct. */
  lemma AddKeepsDistinct(items: seq<WishItem>, payload: WishItem)
    requires Distinct(items)
    ensures Distinct(WishAdded(items, payload))
  {
  }

  /**
    `removeFromWishlist(key)` removes exactly the records whose `id` or `_id` is
    `key`, keeps the others in order, and is a no-op when no record has that key.
   */
  lemma RemoveExactly(items: seq<WishItem>, key: Option<Id>)
    ensures forall x :: x in WishRemoved(items, key) <==> x in items && x.id != key && x.dbId != key
    ensures forall a, b :: WishRemoved(a + b, key) == WishRemoved(a, key) + WishRemoved(b, key)
    ensures (forall j :: 0 <= j < |items| ==> KeptAfterRemove(items[j], key)) ==> WishRemoved(items, key) == items
  {
    forall a, b ensures WishRemoved(a + b, key) == WishRemoved(a, key) + WishRemoved(b, key) {
      Seqs.FilterConcat((item: WishItem) => KeptAfterRemove(item, key), a, b);
    }
    if forall j :: 0 <= j < |items| ==> KeptAfterRemove(items[j], key) {
      Seqs.FilterAllKept((item: WishItem) => KeptAfterRemove(item, key), items);
    }
  }

  /** Removal keeps a distinct list distinct. */
  lemma RemoveKeepsDistinct(items: seq<WishItem>, key: Option<Id>)
    requires Distinct(items)
    ensures Distinct(WishRemoved(items, key))
  {
    Seqs.FilterKeepsPairwise((item: WishItem) => KeptAfterRemove(item, key), SameRecord, items);
  }

  /** Adding a new record and then removing it by one of its keys leaves what removing alone leaves. */
  lemma AddThenRemove(items: seq<WishItem>, payload: WishItem, key: Option<Id>)
    requires !AlreadyListed(items, payload)
    requires payload.id == key || payload.dbId == key
    ensures WishRemoved(WishAdded(items, payload), key) == WishRemoved(items, key)
  {
    Seqs.FilterConcat((item: WishItem) => KeptAfterRemove(item, key), items, [payload]);
    assert [payload][1..] == [];
  }

  /** A record known only by `_id` is removed when its `_id` is given. */
  lemma RemoveByUnderscoreId(title: Option<string>)
    ensures WishRemoved([WishItem(None, Some("a"), title)], Some("a")) == []
  {
    var x := WishItem(None, Some("a"), title);
    assert [x][1..] == [];
  }
}
