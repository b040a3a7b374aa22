/**
  The cart sidebar: it shows the subtotal of the cart and turns the plus,
  minus and trash buttons of each row into cart actions. Its one guard, that a
  requested quantity below 1 is never sent, is what keeps every quantity at 1
  or more.
 */
module CartSidebar {
  import opened Wrappers
  import opened CartSlice

  /** `items.reduce((total, item) => total + item.price * item.quantity, 0)`, in cents. */
  function Subtotal(items: seq<CartItem>): int
    decreases |items|
  {
    if items == [] then 0 else items[0].price * items[0].quantity + Subtotal(items[1..])
  }

  /** The subtotal of two lists one after the other is the sum of their subtotals. */
  lemma {:induction false} SubtotalConcat(a: seq<CartItem>, b: seq<CartItem>)
    ensures Subtotal(a + b) == Subtotal(a) + Subtotal(b)
    decreases |a|
  {
    if a == [] {
      assert a + b == b;
    } else {
      assert (a + b)[0] == a[0] && (a + b)[1..] == a[1..] + b;
      SubtotalConcat(a[1..], b);
    }
  }

  /** Replacing one entry changes the subtotal by the difference of the two lines. */
  lemma {:induction false} SubtotalReplace(items: seq<CartItem>, i: nat, x: CartItem)
    requires i < |items|
    ensures Subtotal(items[i := x]) == Subtotal(items) - items[i].price * items[i].quantity + x.price * x.quantity
    decreases |items|
  {
    if i > 0 {
      assert items[i := x][1..] == items[1..][i - 1 := x];
      SubtotalReplace(items[1..], i - 1, x);
    } else {
      assert items[i := x][1..] == items[1..];
    }
  }

  /** Adding to the cart raises the subtotal by one unit price: the listed entry's, or the payload's for a new entry. */
  lemma SubtotalAfterAdd(items: seq<CartItem>, payload: CartItem)
    ensures Subtotal(Added(items, payload)) ==
      Subtotal(items) + match FindIndex(items, payload.id) {
        case Some(i) => items[i].price
        case None => payload.price
      }
  {
    match FindIndex(items, payload.id) {
      case Some(i) =>
        var x := items[i].(quantity := items[i].quantity + 1);
        SubtotalReplace(items, i, x);
        OneMoreUnit(items[i].price, items[i].quantity);
      case None =>
        var x := payload.(quantity := 1);
        SubtotalConcat(items, [x]);
        assert [x][1..] == [];
        assert Subtotal([x]) == x.price * 1 + 0;
    }
  }

  /** One more unit adds one unit price to a line. */
  lemma OneMoreUnit(price: int, quantity: int)
    ensures price * (quantity + 1) == price * quantity + price
  {
  }

  /** No entry has a quantity below 1. */
  ghost predicate QuantitiesPositive(items: seq<CartItem>) {
    forall i :: 0 <= i < |items| ==> items[i].quantity >= 1
  }

  /** With non-negative prices and positive quantities the subtotal is never negative; an empty cart totals 0. */
  lemma {:induction false} SubtotalNonNegative(items: seq<CartItem>)
    requires QuantitiesPositive(items)
    requires forall i :: 0 <= i < |items| ==> items[i].price >= 0
    ensures Subtotal(items) >= 0
    ensures items == [] ==> Subtotal(items) == 0
    decreases |items|
  {
    if items != [] {
      SubtotalNonNegative(items[1..]);
    }
  }

  /** A button press in one row of the sidebar. */
  datatype Click = Minus(row: nat) | Plus(row: nat) | Trash(row: nat)

  /** `handleQuantityChange(id, q)`: `updateQuantity` is dispatched only for `q >= 1`. */
  function QuantityChanged(items: seq<CartItem>, id: Option<Id>, newQuantity: int): seq<CartItem> {
    if newQuantity < 1 then items else QuantityUpdated(items, id, newQuantity)
  }

  /** The cart after one click; a row that is not on screen cannot be clicked. */
  function AfterClick(items: seq<CartItem>, click: Click): seq<CartItem> {
    if click.row >= |items| then items
    else
      var item := items[click.row];
      match click
      case Minus(_) => QuantityChanged(items, item.id, item.quantity - 1)
      case Plus(_) => QuantityChanged(items, item.id, item.quantity + 1)
      case Trash(_) => Removed(items, item.id)
  }

  function AfterClicks(items: seq<CartItem>, clicks: seq<Click>): seq<CartItem>
    decreases |clicks|
  {
    if clicks == [] then items else AfterClicks(AfterClick(items, clicks[0]), clicks[1..])
  }

  /** The reducers reachable from the sidebar never bring a quantity below 1. */
  lemma ClickKeepsQuantitiesPositive(items: seq<CartItem>, click: Click)
    requires QuantitiesPositive(items)
    ensures QuantitiesPositive(AfterClick(items, click))
  {
    if click.row < |items| && click.Trash? {
      var r := AfterClick(items, click);
      forall i | 0 <= i < |r| ensures r[i].quantity >= 1 {
        assert r[i] in items;
      }
    }
  }

  /** Any sequence of plus, minus and trash clicks keeps every quantity at 1 or more. */
  lemma {:induction false} ClicksKeepQuantitiesPositive(items: seq<CartItem>, clicks: seq<Click>)
    requires QuantitiesPositive(items)
    ensures QuantitiesPositive(AfterClicks(items, clicks))
    decreases |clicks|
  {
    if clicks != [] {
      ClickKeepsQuantitiesPositive(items, clicks[0]);
      ClicksKeepQuantitiesPositive(AfterClick(items, clicks[0]), clicks[1..]);
    }
  }

  /** Adding from a product page also keeps quantities positive: a new entry starts at 1, whatever the payload says. */
  lemma AddKeepsQuantitiesPositive(items: seq<CartItem>, payload: CartItem)
    requires QuantitiesPositive(items)
    ensures QuantitiesPositive(Added(items, payload))
  {
  }

  method HandleQuantityChange(cart: Cart, id: Option<Id>, newQuantity: int)
    modifies cart
    ensures cart.items == QuantityChanged(old(cart.items), id, newQuantity)
    ensures cart.isOpen == old(cart.isOpen)
  {
    if newQuantity < 1 {
      return;
    }
    cart.UpdateQuantity(id, newQuantity);
  }

  method HandleRemoveItem(cart: Cart, id: Option<Id>)
    modifies cart
    ensures cart.items == Removed(old(cart.items), id)
    ensures cart.isOpen == old(cart.isOpen)
  {
    cart.RemoveFromCart(id);
  }

  /** A click on a row's button: minus asks for one less, plus for one more, trash removes that row's key. */
  method ClickButton(cart: Cart, click: Click)
    requires click.row < |cart.items|
    modifies cart
    ensures cart.items == AfterClick(old(cart.items), click)
    ensures cart.isOpen == old(cart.isOpen)
  {
    var item := cart.items[click.row];
    match click {
      case Minus(_) => HandleQuantityChange(cart, item.id, item.quantity - 1);
      case Plus(_) => HandleQuantityChange(cart, item.id, item.quantity + 1);
      case Trash(_) => HandleRemoveItem(cart, item.id);
    }
  }

  /**
    The worked scenario: two adds of one book give quantity 2, a request for
    quantity 0 is refused by the sidebar, and removal empties the cart.
   */
  method Scenario()
  {
    var cart := new Cart();
    var book := CartItem(Some("b1"), "Dune", 1000, 7);
    cart.AddToCart(book);
    assert cart.items == [book.(quantity := 1)];
    cart.AddToCart(book);
    assert FindIndex([book.(quantity := 1)], Some("b1")) == Some(0);
    assert cart.items == [book.(quantity := 2)];
    HandleQuantityChange(cart, Some("b1"), 0);
    assert cart.items == [book.(quantity := 2)];
    HandleRemoveItem(cart, Some("b1"));
    assert [book.(quantity := 2)][1..] == [];
    assert cart.items == [];
  }
}
