/** The user/session store: one record holding the signed-in identity, the cart and
    the order history, changed in place by its reducers. */
module UserSlice {
  import opened Entities
  import opened CartRules

  class UserStore {
    /** The whole session record (`state.value`). */
    var value: UserRecord

    /** The store starts signed out, with an empty cart and no orders. */
    constructor ()
      ensures value == SignedOut
      ensures value.id == "" && value.username == "" && value.cart == [] && value.orders == []
    {
      value := SignedOut;
    }

    /** `setUser` replaces the record wholesale; logout passes `SignedOut`, which
        brings back exactly the initial state. */
    method SetUser(record: UserRecord)
      modifies this
      ensures value == record
    {
      value := record;
    }

    /** `addToCart`: locate the first line with the payload's id; raise its quantity
        by one, or push the payload when there is none. */
    method AddToCart(payload: CartItem)
      modifies this
      ensures value == old(value).(cart := Added(old(value.cart), payload))
    {
      var k := 0;
      while k < |value.cart| && value.cart[k].Id() != payload.Id()
        invariant 0 <= k <= |value.cart|
        invariant forall j :: 0 <= j < k ==> value.cart[j].Id() != payload.Id()
      {
        k := k + 1;
      }
      if k < |value.cart| {
        var found := value.cart[k];
        value := value.(cart := value.cart[k := found.(quantity := found.quantity + 1)]);
      } else {
        value := value.(cart := value.cart + [payload]);
      }
    }

    /** `removeFromCart`: walk the cart as it was when the loop started, decrement
        every line with the payload's id, and whenever the visited line (of any id)
        is at zero, filter the payload's id out of the current cart. The lines are
        shared between the walked array and the stored cart, so until the first
        filter each decrement shows in the stored cart; after it, later steps only
        decrement lines the filter already dropped and cannot change the stored cart
        (`WithoutIgnoresDecrement`). */
    method RemoveFromCart(payload: CartItem)
      modifies this
      ensures value == old(value).(cart := UserRemoved(old(value.cart), payload.Id()))
    {
      var id := payload.Id();
      ghost var original := value.cart;
      var visited := value.cart;
      var filtered := false;
      var i := 0;
      while i < |visited|
        invariant 0 <= i <= |visited| == |original|
        invariant forall j :: 0 <= j < i ==> visited[j] == Dec(original[j], id)
        invariant forall j :: i <= j < |visited| ==> visited[j] == original[j]
        invariant filtered <==> exists j :: 0 <= j < i && visited[j].quantity == 0
        invariant value.id == old(value).id && value.username == old(value).username
        invariant value.orders == old(value).orders
        invariant value.cart == if filtered then Without(visited, id) else visited
      {
        if visited[i].Id() == id {
          visited := visited[i := visited[i].(quantity := visited[i].quantity - 1)];
          value := value.(cart := if filtered then Without(visited, id) else visited);
        }
        if visited[i].quantity == 0 {
          WithoutTwice(visited, id);
          value := value.(cart := Without(value.cart, id));
          filtered := true;
        }
        i := i + 1;
      }
      assert visited == Decremented(original, id) by {
        forall j | 0 <= j < |visited| ensures visited[j] == Decremented(original, id)[j] { }
      }
    }

    /** `clearCart` empties the cart and nothing else. */
    method ClearCart()
      modifies this
      ensures value == old(value).(cart := [])
    {
      value := value.(cart := []);
    }

    /** The fulfilled case of `refreshOrders`: the payload replaces the orders. */
    method RefreshOrdersFulfilled(payload: seq<OrderItem>)
      modifies this
      ensures value == old(value).(orders := payload)
    {
      value := value.(orders := payload);
    }
  }

  /** `s` read back to front. */
  function Reversed<T>(s: seq<T>): (r: seq<T>)
    ensures |r| == |s|
    ensures forall i :: 0 <= i < |s| ==> r[i] == s[|s| - 1 - i]
  {
    if |s| == 0 then [] else [s[|s| - 1]] + Reversed(s[..|s| - 1])
  }

  /** The `refreshOrders` payload creator: the server's order list, reversed in place
      (`Array.prototype.reverse`), so that the latest order comes first. */
  method ReverseOrders(server: seq<OrderItem>) returns (payload: seq<OrderItem>)
    ensures payload == Reversed(server)
  {
    var a := new OrderItem[|server|](i requires 0 <= i < |server| => server[i]);
    var lower, upper := 0, a.Length - 1;
    while lower < upper
      invariant 0 <= lower && upper == a.Length - 1 - lower
      invariant lower <= a.Length / 2
      invariant forall j :: 0 <= j < lower ==> a[j] == server[a.Length - 1 - j] && a[a.Length - 1 - j] == server[j]
      invariant forall j :: lower <= j < a.Length - lower ==> a[j] == server[j]
    {
      a[lower], a[upper] := a[upper], a[lower];
      lower, upper := lower + 1, upper - 1;
    }
    payload := a[..];
  }

  /** The header's logout: `setUser` with the empty record, after which the store
      holds exactly what a new store holds. */
  method Logout(store: UserStore)
    modifies store
    ensures store.value.id == "" && store.value.username == ""
    ensures store.value.cart == [] && store.value.orders == []
    ensures store.value == SignedOut
  {
    store.SetUser(UserRecord("", "", [], []));
  }

  /** `refreshOrders(userId)` as seen by the store: `None` is a rejected request,
      for which there is no reducer case, so the record stays as it was. */
  method RefreshOrders(store: UserStore, response: Option<seq<OrderItem>>)
    modifies store
    ensures response.None? ==> store.value == old(store.value)
    ensures response.Some? ==> store.value == old(store.value).(orders := Reversed(response.value))
  {
    if response.Some? {
      var payload := ReverseOrders(response.value);
      store.RefreshOrdersFulfilled(payload);
    }
  }

  /** The server list `[o1, o2]` is stored as `[o2, o1]`. */
  lemma ReversedTwoOrders(o1: OrderItem, o2: OrderItem)
    ensures Reversed([o1, o2]) == [o2, o1]
  {
  }

  /** Reversing twice gives the server's list back. */
  lemma {:induction false} ReversedTwice<T>(s: seq<T>)
    ensures Reversed(Reversed(s)) == s
  {
    var r := Reversed(s);
    var rr := Reversed(r);
    forall i | 0 <= i < |s| ensures rr[i] == s[i] {
      assert rr[i] == r[|s| - 1 - i];
    }
  }
}
