/** The cart page: the money arithmetic it shows, the guards on its buttons, and the
    handlers that send a change to the server and then reconcile the local cart
    with the server's answer. Server answers are parameters. */
module CartPage {
  import opened Entities
  import opened CartRules
  import UserSlice

  /** Delivery charge per cart line. */
  const DeliveryPerLine: int := 15

  /** One line's contribution to the subtotal, `(price || 0) * quantity`. */
  function LineAmount(item: CartItem): int
  {
    item.product.price * item.quantity
  }

  /** `calcTotal`: the left fold `reduce((sum, obj) => sum + ..., 0)`. */
  function Subtotal(cart: seq<CartItem>): int
  {
    if |cart| == 0 then 0 else Subtotal(cart[..|cart| - 1]) + LineAmount(cart[|cart| - 1])
  }

  /** The delivery charge shown in the summary: 15 per line. */
  function DeliveryCharge(cart: seq<CartItem>): int
  {
    DeliveryPerLine * |cart|
  }

  /** The total per line shown in the table: its amount plus one delivery charge. */
  function LineTotal(item: CartItem): int
  {
    LineAmount(item) + DeliveryPerLine
  }

  /** The grand total of the summary. */
  function GrandTotal(subtotal: int, cart: seq<CartItem>): int
  {
    subtotal + DeliveryCharge(cart)
  }

  lemma {:induction false} SubtotalAppend(a: seq<CartItem>, b: seq<CartItem>)
    ensures Subtotal(a + b) == Subtotal(a) + Subtotal(b)
  {
    if |b| == 0 {
      assert a + b == a;
    } else {
      var ab := a + b;
      assert ab[..|ab| - 1] == a + b[..|b| - 1];
      assert ab[|ab| - 1] == b[|b| - 1];
      SubtotalAppend(a, b[..|b| - 1]);
    }
  }

  /** The subtotal is the sum of the lines' amounts, whatever their order of
      insertion: it splits over any cut of the cart. */
  lemma SubtotalSplit(cart: seq<CartItem>, k: nat)
    requires k < |cart|
    ensures Subtotal(cart) == Subtotal(cart[..k]) + LineAmount(cart[k]) + Subtotal(cart[k + 1..])
  {
    assert cart == cart[..k] + [cart[k]] + cart[k + 1..];
    SubtotalAppend(cart[..k] + [cart[k]], cart[k + 1..]);
    SubtotalAppend(cart[..k], [cart[k]]);
    assert Subtotal([cart[k]]) == LineAmount(cart[k]) by {
      assert [cart[k]][..0] == [];
    }
  }

  /** A one-line cart totals its price times its quantity plus one delivery charge,
      the same figure the line itself shows. */
  lemma SingleLineTotal(item: CartItem)
    ensures GrandTotal(Subtotal([item]), [item]) == item.product.price * item.quantity + 15
    ensures GrandTotal(Subtotal([item]), [item]) == LineTotal(item)
  {
    assert [item][..0] == [];
  }

  /** Replacing one line changes the subtotal by the difference of the two amounts. */
  lemma SubtotalUpdate(cart: seq<CartItem>, k: nat, x: CartItem)
    requires k < |cart|
    ensures Subtotal(cart[k := x]) == Subtotal(cart) - LineAmount(cart[k]) + LineAmount(x)
  {
    var u := cart[k := x];
    SubtotalSplit(cart, k);
    SubtotalSplit(u, k);
    assert u[..k] == cart[..k];
    assert u[k + 1..] == cart[k + 1..];
  }

  lemma AmountUp(item: CartItem)
    ensures LineAmount(item.(quantity := item.quantity + 1)) == LineAmount(item) + item.product.price
  {
    var p, q := item.product.price, item.quantity;
    assert p * (q + 1) == p * q + p;
  }

  lemma AmountDown(item: CartItem)
    ensures LineAmount(item.(quantity := item.quantity - 1)) == LineAmount(item) - item.product.price
  {
    var p, q := item.product.price, item.quantity;
    assert p * (q - 1) == p * q - p;
  }

  /** A confirmed add of a product already in the cart raises the subtotal by one
      unit price of the line that was there. */
  lemma SubtotalAfterAddPresent(cart: seq<CartItem>, payload: CartItem, k: nat)
    requires k < |cart| && cart[k].Id() == payload.Id()
    requires forall j :: 0 <= j < k ==> cart[j].Id() != payload.Id()
    ensures Subtotal(Added(cart, payload)) == Subtotal(cart) + cart[k].product.price
  {
    AddedIncrementsFirstMatch(cart, payload, k);
    SubtotalOfIncrement(cart, k, Added(cart, payload));
  }

  lemma SubtotalOfIncrement(cart: seq<CartItem>, k: nat, r: seq<CartItem>)
    requires k < |cart| && r == cart[k := cart[k].(quantity := cart[k].quantity + 1)]
    ensures Subtotal(r) == Subtotal(cart) + cart[k].product.price
  {
    SubtotalUpdate(cart, k, cart[k].(quantity := cart[k].quantity + 1));
    AmountUp(cart[k]);
  }

  /** A confirmed add of a new product raises the subtotal by the appended line's amount. */
  lemma SubtotalAfterAddAbsent(cart: seq<CartItem>, payload: CartItem)
    requires !Holds(cart, payload.Id())
    ensures Subtotal(Added(cart, payload)) == Subtotal(cart) + LineAmount(payload)
  {
    AddedAppendsAbsent(cart, payload);
    SubtotalAppend(cart, [payload]);
    assert [payload][..0] == [];
  }

  /** On a well-formed cart a confirmed remove lowers the subtotal by one unit price
      of the removed product. */
  lemma SubtotalAfterRemove(cart: seq<CartItem>, id: string, k: nat)
    requires WellFormed(cart) && k < |cart| && cart[k].Id() == id
    ensures Subtotal(UserRemoved(cart, id)) == Subtotal(cart) - cart[k].product.price
  {
    if cart[k].quantity >= 2 {
      UserRemovedDecrements(cart, id, k);
      SubtotalOfDecrement(cart, k, UserRemoved(cart, id));
    } else {
      UserRemovedDropsLast(cart, id, k);
      SubtotalOfDrop(cart, k, UserRemoved(cart, id));
    }
  }

  lemma SubtotalOfDecrement(cart: seq<CartItem>, k: nat, r: seq<CartItem>)
    requires k < |cart| && r == cart[k := cart[k].(quantity := cart[k].quantity - 1)]
    ensures Subtotal(r) == Subtotal(cart) - cart[k].product.price
  {
    SubtotalUpdate(cart, k, cart[k].(quantity := cart[k].quantity - 1));
    AmountDown(cart[k]);
  }

  lemma SubtotalOfDrop(cart: seq<CartItem>, k: nat, r: seq<CartItem>)
    requires k < |cart| && cart[k].quantity == 1 && r == cart[..k] + cart[k + 1..]
    ensures Subtotal(r) == Subtotal(cart) - cart[k].product.price
  {
    SubtotalSplit(cart, k);
    SubtotalAppend(cart[..k], cart[k + 1..]);
  }

  /** What the page shows: the empty-cart view exactly when the cart is empty,
      otherwise the summary built from the stored `total`. */
  datatype CartView = EmptyCartView | Summary(subtotal: int, delivery: int, grand: int)

  function Render(cart: seq<CartItem>, total: int): (v: CartView)
    ensures v.EmptyCartView? <==> |cart| == 0
    ensures v.Summary? ==> v.subtotal == total && v.delivery == 15 * |cart|
    ensures v.Summary? ==> v.grand == v.subtotal + v.delivery
  {
    if |cart| != 0 then Summary(total, DeliveryCharge(cart), GrandTotal(total, cart)) else EmptyCartView
  }

  /** A quantity cell: a spinner, a count, or the add label ("Add to cart" on this
      page, "Add to Cart" on the product page; the two differ only in letter case). */
  datatype QtyCell = Spinner | Count(n: int) | AddToCartLabel

  function LineQtyCell(qtyLoading: bool, activeProduct: Option<CartItem>, line: CartItem): (c: QtyCell)
    ensures c.Spinner? <==> qtyLoading && activeProduct.Some? && activeProduct.value.Id() == line.Id()
    ensures c.Count? ==> c.n == line.quantity && c.n != 0
    ensures c.AddToCartLabel? <==> !c.Spinner? && line.quantity == 0
  {
    if qtyLoading && activeProduct.Some? && line.Id() == activeProduct.value.Id() then Spinner
    else if line.quantity != 0 then Count(line.quantity)
    else AddToCartLabel
  }

  /** The minus button of a line. */
  predicate MinusDisabled(quantity: int, qtyLoading: bool, userId: string)
  {
    quantity == 0 || qtyLoading || userId == ""
  }

  /** The plus button of a line. */
  predicate PlusDisabled(qtyLoading: bool, userId: string)
  {
    qtyLoading || userId == ""
  }

  /** The page's local state. */
  class CartPageState {
    var qtyLoading: bool
    var activeProduct: Option<CartItem>
    var total: int

    constructor ()
      ensures !qtyLoading && activeProduct == None && total == 0
    {
      qtyLoading := false;
      activeProduct := None;
      total := 0;
    }

    /** The effect on `[cart, qtyLoading]`: the total is recomputed only for a
        non-empty cart; an empty cart keeps the old figure (and shows the empty view). */
    method RecalculateTotal(cart: seq<CartItem>)
      modifies this
      ensures total == if |cart| != 0 then Subtotal(cart) else old(total)
      ensures qtyLoading == old(qtyLoading) && activeProduct == old(activeProduct)
    {
      if |cart| != 0 {
        total := Subtotal(cart);
      }
    }

    /** `addToUserCart`: the first line of the server's cart with the product's id is
        dispatched to `addToCart` and the spinner stops; with no such line nothing is
        dispatched and the spinner keeps turning. A rejected post (`None`) stops the
        handler at the `await`, with the same effect as a cart with no such line. */
    method AddToUserCart(store: UserSlice.UserStore, product: CartItem, response: Option<seq<CartItem>>)
      modifies this, store
      ensures activeProduct == Some(product) && total == old(total)
      ensures response.None? ==> store.value == old(store.value) && qtyLoading
      ensures response.Some? ==>
        var k := FirstIndex(response.value, product.Id());
        if k < |response.value| then
          store.value == old(store.value).(cart := Added(old(store.value.cart), response.value[k])) && !qtyLoading
        else
          store.value == old(store.value) && qtyLoading
    {
      qtyLoading := true;
      activeProduct := Some(product);
      if response.None? {
        return;
      }
      var server := response.value;
      var i := 0;
      while i < |server|
        invariant 0 <= i <= |server|
        invariant forall j :: 0 <= j < i ==> server[j].Id() != product.Id()
        invariant store.value == old(store.value) && qtyLoading
        invariant activeProduct == Some(product) && total == old(total)
      {
        if server[i].Id() == product.Id() {
          store.AddToCart(server[i]);
          qtyLoading := false;
          return;
        }
        i := i + 1;
      }
    }

    /** `removeFromUserCart`: exactly one `removeFromCart` for the product's id, with
        the server's line or else the product at quantity 1; both have the same
        effect on the local cart, and the spinner stops. A rejected post (`None`)
        stops the handler at the `await`: nothing is dispatched and the spinner
        keeps turning. */
    method RemoveFromUserCart(store: UserSlice.UserStore, product: CartItem, response: Option<seq<CartItem>>)
      modifies this, store
      ensures activeProduct == Some(product) && total == old(total)
      ensures response.None? ==> store.value == old(store.value) && qtyLoading
      ensures response.Some? ==>
                store.value == old(store.value).(cart := UserRemoved(old(store.value.cart), product.Id()))
                && !qtyLoading
    {
      qtyLoading := true;
      activeProduct := Some(product);
      if response.None? {
        return;
      }
      var server := response.value;
      var i := 0;
      while i < |server|
        invariant 0 <= i <= |server|
        invariant store.value == old(store.value) && qtyLoading
        invariant activeProduct == Some(product) && total == old(total)
      {
        if server[i].Id() == product.Id() {
          store.RemoveFromCart(server[i]);
          qtyLoading := false;
          return;
        }
        i := i + 1;
      }
      store.RemoveFromCart(product.(quantity := 1));
      qtyLoading := false;
    }

    /** `placeOrder`: once the order is posted the cart is cleared; if the post
        fails the handler stops before that. */
    method PlaceOrder(store: UserSlice.UserStore, posted: bool)
      modifies store
      ensures posted ==> store.value == old(store.value).(cart := [])
      ensures !posted ==> store.value == old(store.value)
    {
      if posted {
        store.ClearCart();
      }
    }
  }

  /** Because the product clicked is a line of the local cart, a confirmed add makes
      its local quantity one more than before, whatever quantity the server reported. */
  lemma ConfirmedAddIncrements(cart: seq<CartItem>, k: nat, server: CartItem)
    requires UniqueIds(cart) && k < |cart| && server.Id() == cart[k].Id()
    ensures |Added(cart, server)| == |cart|
    ensures Added(cart, server)[k] == cart[k].(quantity := cart[k].quantity + 1)
  {
    AddedIncrementsFirstMatch(cart, server, k);
  }

  /** A click on the page, with the server's answer to it (`None` for a rejected
      post). `line` is the clicked cart line. */
  datatype Click =
    | Plus(line: nat, server: Option<seq<CartItem>>)
    | Minus(line: nat, server: Option<seq<CartItem>>)

  /** The local cart after one handled click (the effect stated by the handlers). */
  ghost function AfterClick(cart: seq<CartItem>, click: Click): seq<CartItem>
  {
    if click.line >= |cart| || click.server.None? then cart
    else
      var id := cart[click.line].Id();
      match click
      case Plus(_, server) =>
        var k := FirstIndex(server.value, id);
        if k < |server.value| then Added(cart, server.value[k]) else cart
      case Minus(_, _) => UserRemoved(cart, id)
  }

  ghost function AfterClicks(cart: seq<CartItem>, clicks: seq<Click>): seq<CartItem>
    decreases |clicks|
  {
    if |clicks| == 0 then cart else AfterClicks(AfterClick(cart, clicks[0]), clicks[1..])
  }

  /** Whatever the server answers, the handlers keep a well-formed cart well-formed. */
  lemma {:induction false} ClicksKeepWellFormed(cart: seq<CartItem>, clicks: seq<Click>)
    requires WellFormed(cart)
    ensures WellFormed(AfterClicks(cart, clicks))
    decreases |clicks|
  {
    if |clicks| > 0 {
      var c := clicks[0];
      if c.line < |cart| && c.server.Some? {
        var id := cart[c.line].Id();
        match c
        case Plus(_, server) =>
          var k := FirstIndex(server.value, id);
          if k < |server.value| {
            assert Holds(cart, server.value[k].Id());
            AddedKeepsWellFormed(cart, server.value[k]);
          }
        case Minus(_, _) =>
          UserRemovedKeepsWellFormed(cart, id);
      }
      ClicksKeepWellFormed(AfterClick(cart, c), clicks[1..]);
    }
  }
}
