/** The product page: a local quantity counter kept beside the store's cart, the
    handlers that reconcile it with the server's cart, the button guards, the
    quantity cell, the login prompt and the 10%-off price. */
module ProductPage {
  import opened Entities
  import opened CartRules
  import UserSlice
  import CartPage

  /** The starting counter: the quantity of the first cart line with the viewed
      product's id, or 0. `None` is the page's initial empty product `{}`, whose
      missing id matches no line. */
  function InitialQty(cart: seq<CartItem>, product: Option<Product>): (q: int)
    ensures product.None? ==> q == 0
    ensures product.Some? && !Holds(cart, product.value.id) ==> q == 0
    ensures product.Some? && Holds(cart, product.value.id) ==>
              q == cart[FirstIndex(cart, product.value.id)].quantity
  {
    if product.None? then 0
    else
      var k := FirstIndex(cart, product.value.id);
      if k < |cart| then cart[k].quantity else 0
  }

  /** `Math.ceil(price - price / 10)`: the price less 10%, rounded up. */
  function SalePrice(price: int): (r: int)
    ensures (r - 1) as real < price as real - price as real / 10.0 <= r as real
    ensures 0 <= price ==> 0 <= r <= price
  {
    -((-9 * price) / 10)
  }

  /** The quantity cell: a spinner while a request is out, else the counter if it is
      positive, else the "Add to Cart" label. */
  function QtyCell(qtyLoading: bool, qty: int): (c: CartPage.QtyCell)
    ensures c.Spinner? <==> qtyLoading
    ensures c.Count? <==> !qtyLoading && qty > 0
    ensures c.Count? ==> c.n == qty
  {
    if qtyLoading then CartPage.Spinner
    else if qty > 0 then CartPage.Count(qty)
    else CartPage.AddToCartLabel
  }

  /** What sits under the counter. */
  datatype CartLink = ContinueToCart | LoginPrompt

  function CartLinkFor(userId: string): (l: CartLink)
    ensures l == LoginPrompt <==> userId == ""
  {
    if userId != "" then ContinueToCart else LoginPrompt
  }

  /** The page's local state. */
  class ProductPageState {
    var qty: int
    var qtyLoading: bool
    var product: Option<Product>
    var isLoading: bool

    /** The first render: no product yet, so the counter starts at 0. */
    constructor (cart: seq<CartItem>)
      ensures product == None && qty == 0 && !qtyLoading && !isLoading
    {
      product := None;
      qty := InitialQty(cart, None);
      qtyLoading := false;
      isLoading := false;
    }

    /** `getProduct`: `None` is a failed request, after which the product stays. */
    method GetProduct(response: Option<Product>)
      modifies this
      ensures product == if response.Some? then response else old(product)
      ensures !isLoading && qty == old(qty) && qtyLoading == old(qtyLoading)
    {
      isLoading := true;
      if response.Some? {
        product := response;
      }
      isLoading := false;
    }

    /** `addToUserCart`: when the server's cart has a line with the product's id, that
        line goes to `addToCart`, the spinner stops and the counter goes up by one;
        otherwise nothing changes and the spinner keeps turning. A rejected post
        (`None`) stops the handler at the `await`, with the same effect as a cart with
        no such line. */
    method AddToUserCart(store: UserSlice.UserStore, response: Option<seq<CartItem>>)
      modifies this, store
      ensures product == old(product) && isLoading == old(isLoading)
      ensures Confirmed(response, product) ==>
                var k := FirstIndex(response.value, product.value.id);
                store.value == old(store.value).(cart := Added(old(store.value.cart), response.value[k]))
                && qty == old(qty) + 1 && !qtyLoading
      ensures !Confirmed(response, product) ==>
                store.value == old(store.value) && qty == old(qty) && qtyLoading
    {
      qtyLoading := true;
      if response.None? {
        return;
      }
      var server := response.value;
      var i := 0;
      while i < |server|
        invariant 0 <= i <= |server|
        invariant product.Some? ==> forall j :: 0 <= j < i ==> server[j].Id() != product.value.id
        invariant store.value == old(store.value) && qty == old(qty) && qtyLoading
        invariant product == old(product) && isLoading == old(isLoading)
      {
        if product.Some? && server[i].Id() == product.value.id {
          store.AddToCart(server[i]);
          qtyLoading := false;
          qty := qty + 1;
          return;
        }
        i := i + 1;
      }
    }

    /** `removeFromUserCart`: one `removeFromCart` for the product's id (the server's
        line, or the product at quantity 1), the counter goes down by one on both
        paths and the spinner stops. With no product loaded the payload has no id,
        which matches no line and filters nothing, so the cart stays as it is. A
        rejected post (`None`) stops the handler at the `await`: nothing is
        dispatched, the counter keeps its value and the spinner keeps turning. */
    method RemoveFromUserCart(store: UserSlice.UserStore, response: Option<seq<CartItem>>)
      modifies this, store
      ensures product == old(product) && isLoading == old(isLoading)
      ensures response.None? ==> store.value == old(store.value) && qty == old(qty) && qtyLoading
      ensures response.Some? ==> qty == old(qty) - 1 && !qtyLoading
      ensures response.Some? && product.Some? ==>
                store.value == old(store.value).(cart := UserRemoved(old(store.value.cart), product.value.id))
      ensures response.Some? && product.None? ==> store.value == old(store.value)
    {
      qtyLoading := true;
      if response.None? {
        return;
      }
      var server := response.value;
      var i := 0;
      while i < |server|
        invariant 0 <= i <= |server|
        invariant store.value == old(store.value) && qty == old(qty) && qtyLoading
        invariant product == old(product) && isLoading == old(isLoading)
      {
        if product.Some? && server[i].Id() == product.value.id {
          store.RemoveFromCart(server[i]);
          qty := qty - 1;
          qtyLoading := false;
          return;
        }
        i := i + 1;
      }
      if product.Some? {
        store.RemoveFromCart(CartItem(product.value, 1));
      }
      qty := qty - 1;
      qtyLoading := false;
    }
  }

  /** The post succeeded and the server's cart holds a line for the loaded product. */
  predicate Confirmed(response: Option<seq<CartItem>>, product: Option<Product>)
  {
    response.Some? && product.Some? && FirstIndex(response.value, product.value.id) < |response.value|
  }

  /** A click on the counter's buttons. `Minus(posted)` says whether the post
      succeeded; `Plus(confirmed)` whether it succeeded and the server's cart came
      back with the product. */
  datatype CounterClick = Minus(posted: bool) | Plus(confirmed: bool)

  /** The counter and the spinner flag. */
  datatype Counter = Counter(qty: int, loading: bool)

  /** One click as the guards and the handlers treat it (the same buttons the cart
      page has). */
  function CounterAfter(c: Counter, userId: string, click: CounterClick): Counter
  {
    match click
    case Minus(posted) =>
      if CartPage.MinusDisabled(c.qty, c.loading, userId) then c
      else if posted then Counter(c.qty - 1, false)
      else Counter(c.qty, true)
    case Plus(confirmed) =>
      if CartPage.PlusDisabled(c.loading, userId) then c
      else if confirmed then Counter(c.qty + 1, false)
      else Counter(c.qty, true)
  }

  function CounterAfterAll(c: Counter, userId: string, clicks: seq<CounterClick>): Counter
    decreases |clicks|
  {
    if |clicks| == 0 then c else CounterAfterAll(CounterAfter(c, userId, clicks[0]), userId, clicks[1..])
  }

  /** The minus button is dead at 0, so no sequence of clicks takes the counter
      below 0. */
  lemma {:induction false} CounterStaysNonNegative(c: Counter, userId: string, clicks: seq<CounterClick>)
    requires c.qty >= 0
    ensures CounterAfterAll(c, userId, clicks).qty >= 0
    decreases |clicks|
  {
    if |clicks| > 0 {
      CounterStaysNonNegative(CounterAfter(c, userId, clicks[0]), userId, clicks[1..]);
    }
  }

  /** Signed out, nothing the buttons do moves the counter. */
  lemma {:induction false} SignedOutCounterFrozen(c: Counter, clicks: seq<CounterClick>)
    ensures CounterAfterAll(c, "", clicks) == c
    decreases |clicks|
  {
    if |clicks| > 0 {
      SignedOutCounterFrozen(c, clicks[1..]);
    }
  }
}
