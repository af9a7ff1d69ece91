/** The standalone cart store: a second copy of the cart rules over a bare cart,
    with the zero check inside the id match. The application's store combines only
    the user and product stores, so this one serves as the reference version of
    the rules. */
module CartSlice {
  import opened Entities
  import opened CartRules

  class CartStore {
    /** The cart lines (`state.value`). */
    var value: seq<CartItem>

    /** The cart starts empty. */
    constructor ()
      ensures value == []
    {
      value := [];
    }

    /** `addToCart`: the same find-then-increment-or-push rule as the user store. */
    method AddToCart(payload: CartItem)
      modifies this
      ensures value == Added(old(value), payload)
    {
      var k := 0;
      while k < |value| && value[k].Id() != payload.Id()
        invariant 0 <= k <= |value|
        invariant forall j :: 0 <= j < k ==> value[j].Id() != payload.Id()
      {
        k := k + 1;
      }
      if k < |value| {
        var found := value[k];
        value := value[k := found.(quantity := found.quantity + 1)];
      } else {
        value := value + [payload];
      }
    }

    /** `removeFromCart`: `forEach` over the cart as it was when the walk began;
        a matching line is decremented, and if that line is now at zero the
        payload's id is filtered out of the current cart. As in the user store,
        once the cart has been filtered, later decrements touch only lines it no
        longer holds. */
    method RemoveFromCart(payload: CartItem)
      modifies this
      ensures value == CartRemoved(old(value), payload.Id())
    {
      var id := payload.Id();
      ghost var original := value;
      var visited := value;
      var filtered := false;
      var i := 0;
      while i < |visited|
        invariant 0 <= i <= |visited| == |original|
        invariant forall j :: 0 <= j < i ==> visited[j] == Dec(original[j], id)
        invariant forall j :: i <= j < |visited| ==> visited[j] == original[j]
        invariant filtered <==> exists j :: 0 <= j < i && visited[j].Id() == id && visited[j].quantity == 0
        invariant value == if filtered then Without(visited, id) else visited
      {
        if visited[i].Id() == id {
          visited := visited[i := visited[i].(quantity := visited[i].quantity - 1)];
          value := if filtered then Without(visited, id) else visited;
          if visited[i].quantity == 0 {
            WithoutTwice(visited, id);
            value := Without(value, id);
            filtered := true;
          }
        }
        i := i + 1;
      }
      assert visited == Decremented(original, id) by {
        forall j | 0 <= j < |visited| ensures visited[j] == Decremented(original, id)[j] { }
      }
    }
  }
}
