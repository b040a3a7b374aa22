/**
  The cart slice of the client store: an ordered list of cart entries and an
  `isOpen` flag for the sidebar. Entries are keyed on their `_id` field only;
  a record without `_id` has the key `None`, and two such records match each
  other, as `undefined === undefined` does.
 */
module CartSlice {
  import opened Wrappers
  import Seqs

  type Id = string

  /** A cart entry: the product record the page passed in, plus its quantity. Prices are integer cents. */
  datatype CartItem = CartItem(id: Option<Id>, title: string, price: int, quantity: int)

  /** `items.find(item => item._id === id)`, as a position: the first entry with that key. */
  function FindIndex(items: seq<CartItem>, id: Option<Id>): (r: Option<nat>)
    ensures r.Some? ==> r.value < |items| && items[r.value].id == id
    ensures r.Some? ==> forall j :: 0 <= j < r.value ==> items[j].id != id
    ensures r.None? <==> forall j :: 0 <= j < |items| ==> items[j].id != id
  {
    if items == [] then None
    else if items[0].id == id then Some(0)
    else match FindIndex(items[1..], id)
      case None => None
      case Some(k) => Some(k + 1)
  }

  /** No two entries share a key. */
  ghost predicate UniqueIds(items: seq<CartItem>) {
    forall i, j :: 0 <= i < j < |items| ==> items[i].id != items[j].id
  }

  /** The entry list after `addToCart(payload)`. */
  function Added(items: seq<CartItem>, payload: CartItem): seq<CartItem> {
    match FindIndex(items, payload.id)
    case Some(i) => items[i := items[i].(quantity := items[i].quantity + 1)]
    case None => items + [payload.(quantity := 1)]
  }

  /** The entry list after `removeFromCart(id)`. */
  function Removed(items: seq<CartItem>, id: Option<Id>): seq<CartItem> {
    Seqs.Filter((item: CartItem) => item.id != id, items)
  }

  /** The entry list after `updateQuantity({id, quantity})`. */
  function QuantityUpdated(items: seq<CartItem>, id: Option<Id>, quantity: int): seq<CartItem> {
    match FindIndex(items, id)
    case Some(i) => items[i := items[i].(quantity := quantity)]
    case None => items
  }

  /** `n` successive `addToCart(payload)` calls. */
  function AddedTimes(items: seq<CartItem>, payload: CartItem, n: nat): seq<CartItem>
    decreases n
  {
    if n == 0 then items else Added(AddedTimes(items, payload, n - 1), payload)
  }

  /** The store's cart state, changed in place by the reducers. */
  class Cart {
    var items: seq<CartItem>
    var isOpen: bool

    /** `initialState`: no entries and a closed sidebar. */
    constructor ()
      ensures items == [] && !isOpen
    {
      items := [];
      isOpen := false;
    }

    method AddToCart(payload: CartItem)
      modifies this
      ensures items == Added(old(items), payload)
      ensures isOpen == old(isOpen)
    {
      var existing := FindIndex(items, payload.id);
      match existing {
        case Some(i) =>
          items := items[i := items[i].(quantity := items[i].quantity + 1)];
        case None =>
          items := items + [payload.(quantity := 1)];
      }
    }

    method RemoveFromCart(id: Option<Id>)
      modifies this
      ensures items == Removed(old(items), id)
      ensures isOpen == old(isOpen)
    {
      items := Seqs.Filter((item: CartItem) => item.id != id, items);
    }

    method UpdateQuantity(id: Option<Id>, quantity: int)
      modifies this
      ensures items == QuantityUpdated(old(items), id, quantity)
      ensures isOpen == old(isOpen)
    {
      var found := FindIndex(items, id);
      if found.Some? {
        var i := found.value;
        items := items[i := items[i].(quantity := quantity)];
      }
    }

    method ToggleCart()
      modifies this
      ensures isOpen == !old(isOpen)
      ensures items == old(items)
    {
      isOpen := !isOpen;
    }

    method ClearCart()
      modifies this
      ensures items == []
      ensures isOpen == old(isOpen)
    {
      items := [];
    }
  }

  /** Adding a key already in the cart bumps that entry's quantity by one and changes nothing else. */
  lemma AddExistingIncrements(items: seq<CartItem>, payload: CartItem, i: nat)
    requires UniqueIds(items)
    requires i < |items| && items[i].id == payload.id
    ensures |Added(items, payload)| == |items|
    ensures Added(items, payload)[i] == items[i].(quantity := items[i].quantity + 1)
    ensures forall j :: 0 <= j < |items| && j != i ==> Added(items, payload)[j] == items[j]
  {
    var f := FindIndex(items, payload.id);
    assert f.Some? && f.value == i;
  }

  /** Adding a new key appends the payload with its quantity forced to 1, whatever quantity it carried. */
  lemma AddNewAppends(items: seq<CartItem>, payload: CartItem)
    requires forall j :: 0 <= j < |items| ==> items[j].id != payload.id
    ensures Added(items, payload) == items + [payload.(quantity := 1)]
    ensures Added(items, payload)[|items|].quantity == 1
  {
  }

  /** Find-or-insert keeps the keys unique. */
  lemma AddKeepsIdsUnique(items: seq<CartItem>, payload: CartItem)
    requires UniqueIds(items)
    ensures UniqueIds(Added(items, payload))
  {
  }

  /** `n` adds of one key to an empty cart leave a single entry whose quantity is `n`. */
  lemma {:induction false} RepeatedAdds(payload: CartItem, n: nat)
    requires n >= 1
    ensures AddedTimes([], payload, n) == [payload.(quantity := n)]
  {
    if n > 1 {
      RepeatedAdds(payload, n - 1);
      var before := [payload.(quantity := n - 1)];
      assert FindIndex(before, payload.id) == Some(0);
    }
  }

  /** Removal drops exactly the entries with that key and keeps the rest in order. */
  lemma RemoveDropsOnlyThatId(items: seq<CartItem>, id: Option<Id>)
    ensures forall x :: x in Removed(items, id) <==> x in items && x.id != id
    ensures forall a, b :: Removed(a + b, id) == Removed(a, id) + Removed(b, id)
    ensures (forall j :: 0 <= j < |items| ==> items[j].id != id) ==> Removed(items, id) == items
  {
    forall a, b ensures Removed(a + b, id) == Removed(a, id) + Removed(b, id) {
      Seqs.FilterConcat((item: CartItem) => item.id != id, a, b);
    }
    if forall j :: 0 <= j < |items| ==> items[j].id != id {
      Seqs.FilterAllKept((item: CartItem) => item.id != id, items);
    }
  }

  /** Removing keeps the keys unique. */
  lemma RemoveKeepsIdsUnique(items: seq<CartItem>, id: Option<Id>)
    requires UniqueIds(items)
    ensures UniqueIds(Removed(items, id))
  {
    Seqs.FilterKeepsPairwise((item: CartItem) => item.id != id, (x: CartItem, y: CartItem) => x.id == y.id, items);
  }

  /** After a removal, adding that key starts a fresh entry at quantity 1: no old quantity carries over. */
  lemma RemoveThenAdd(items: seq<CartItem>, payload: CartItem)
    ensures Added(Removed(items, payload.id), payload) == Removed(items, payload.id) + [payload.(quantity := 1)]
  {
    var r := Removed(items, payload.id);
    assert forall j :: 0 <= j < |r| ==> r[j].id != payload.id;
  }

  /**
    With unique keys, `updateQuantity` sets the quantity of exactly the entry with
    that key, with no lower bound, and leaves every other entry as it was; an
    absent key changes nothing.
   */
  lemma UpdateSetsOnlyMatch(items: seq<CartItem>, id: Option<Id>, quantity: int)
    requires UniqueIds(items)
    ensures |QuantityUpdated(items, id, quantity)| == |items|
    ensures forall j :: 0 <= j < |items| ==>
      QuantityUpdated(items, id, quantity)[j] == if items[j].id == id then items[j].(quantity := quantity) else items[j]
    ensures UniqueIds(QuantityUpdated(items, id, quantity))
  {
  }

  /** Two toggles restore the state. */
  method ToggleTwice(cart: Cart)
    modifies cart
    ensures cart.items == old(cart.items) && cart.isOpen == old(cart.isOpen)
  {
    cart.ToggleCart();
    cart.ToggleCart();
  }
}
