/** The add/remove rules both cart reducers apply, as functions on the cart
    sequence, and what they promise. The store classes (UserSlice, CartSlice) prove
    their methods against these functions. */
module CartRules {
  import opened Entities

  /** No two lines share a product id. */
  ghost predicate UniqueIds(cart: seq<CartItem>)
  {
    forall i, j :: 0 <= i < j < |cart| ==> cart[i].Id() != cart[j].Id()
  }

  /** Every line has quantity at least one. */
  ghost predicate AllPositive(cart: seq<CartItem>)
  {
    forall i :: 0 <= i < |cart| ==> cart[i].quantity >= 1
  }

  /** The cart invariant the design intends: unique ids, quantities at least one. */
  ghost predicate WellFormed(cart: seq<CartItem>)
  {
    UniqueIds(cart) && AllPositive(cart)
  }

  /** Some line carries product id `id`. */
  ghost predicate Holds(cart: seq<CartItem>, id: string)
  {
    exists i :: 0 <= i < |cart| && cart[i].Id() == id
  }

  /** Position of the first line with id `id` (what `Array.find` locates), or
      `|cart|` when there is none. */
  function FirstIndex(cart: seq<CartItem>, id: string): (k: nat)
    ensures k <= |cart|
    ensures k < |cart| ==> cart[k].Id() == id
    ensures forall j :: 0 <= j < k ==> cart[j].Id() != id
  {
    if |cart| == 0 then 0
    else if cart[0].Id() == id then 0
    else 1 + FirstIndex(cart[1..], id)
  }

  /** Result of `addToCart(payload)`: the first line with the payload's id gets one
      more unit; otherwise the payload itself is appended. */
  function Added(cart: seq<CartItem>, payload: CartItem): seq<CartItem>
  {
    var k := FirstIndex(cart, payload.Id());
    if k < |cart| then cart[k := cart[k].(quantity := cart[k].quantity + 1)]
    else cart + [payload]
  }

  /** One line after the decrement step of `removeFromCart`. */
  function Dec(item: CartItem, id: string): CartItem
  {
    if item.Id() == id then item.(quantity := item.quantity - 1) else item
  }

  /** The cart after every line with id `id` has been decremented in place. */
  function Decremented(cart: seq<CartItem>, id: string): seq<CartItem>
  {
    seq(|cart|, j requires 0 <= j < |cart| => Dec(cart[j], id))
  }

  /** `cart.filter(item => item._id !== id)`. */
  function Without(cart: seq<CartItem>, id: string): (r: seq<CartItem>)
    ensures |r| <= |cart|
  {
    if |cart| == 0 then []
    else (if cart[0].Id() == id then [] else [cart[0]]) + Without(cart[1..], id)
  }

  /** The filter keeps exactly the lines with other ids. */
  lemma {:induction false} WithoutMembers(cart: seq<CartItem>, id: string)
    ensures forall x :: x in Without(cart, id) <==> x in cart && x.Id() != id
  {
    if |cart| > 0 {
      WithoutMembers(cart[1..], id);
      assert cart == [cart[0]] + cart[1..];
    }
  }

  /** Some line (of any id) has quantity zero. */
  predicate SomeAtZero(cart: seq<CartItem>)
  {
    exists j :: 0 <= j < |cart| && cart[j].quantity == 0
  }

  /** Some line with id `id` has quantity zero. */
  predicate MatchAtZero(cart: seq<CartItem>, id: string)
  {
    exists j :: 0 <= j < |cart| && cart[j].Id() == id && cart[j].quantity == 0
  }

  /** Result of the user store's `removeFromCart`: the zero check looks at every
      visited line, whatever its id, and then filters out the payload's id. */
  function UserRemoved(cart: seq<CartItem>, id: string): seq<CartItem>
  {
    var d := Decremented(cart, id);
    if SomeAtZero(d) then Without(d, id) else d
  }

  /** Result of the standalone cart store's `removeFromCart`: the zero check only
      looks at lines with the payload's id. */
  function CartRemoved(cart: seq<CartItem>, id: string): seq<CartItem>
  {
    var d := Decremented(cart, id);
    if MatchAtZero(d, id) then Without(d, id) else d
  }

  // ---------------------------------------------------------------------------
  // Facts about filtering and decrementing

  lemma {:induction false} WithoutAppend(a: seq<CartItem>, b: seq<CartItem>, id: string)
    ensures Without(a + b, id) == Without(a, id) + Without(b, id)
  {
    if |a| == 0 {
      assert a + b == b;
    } else {
      assert (a + b)[1..] == a[1..] + b;
      WithoutAppend(a[1..], b, id);
    }
  }

  lemma {:induction false} WithoutAbsent(cart: seq<CartItem>, id: string)
    requires !Holds(cart, id)
    ensures Without(cart, id) == cart
  {
    if |cart| > 0 {
      assert !Holds(cart[1..], id) by {
        forall i | 0 <= i < |cart[1..]| ensures cart[1..][i].Id() != id {
          assert cart[1..][i] == cart[i + 1];
        }
      }
      WithoutAbsent(cart[1..], id);
      assert cart == [cart[0]] + cart[1..];
    }
  }

  lemma WithoutTwice(cart: seq<CartItem>, id: string)
    ensures Without(Without(cart, id), id) == Without(cart, id)
  {
    var w := Without(cart, id);
    WithoutMembers(cart, id);
    assert !Holds(w, id) by {
      forall i | 0 <= i < |w| ensures w[i].Id() != id {
        assert w[i] in w;
      }
    }
    WithoutAbsent(w, id);
  }

  /** Once a cart has been filtered, decrementing one of the payload's lines in the
      walked array leaves the filtered cart as it was. */
  lemma {:induction false} WithoutIgnoresDecrement(cart: seq<CartItem>, i: nat, id: string)
    requires i < |cart| && cart[i].Id() == id
    ensures Without(cart[i := Dec(cart[i], id)], id) == Without(cart, id)
    decreases i
  {
    var u := cart[i := Dec(cart[i], id)];
    if i > 0 {
      assert u[1..] == cart[1..][i - 1 := Dec(cart[1..][i - 1], id)];
      WithoutIgnoresDecrement(cart[1..], i - 1, id);
    } else {
      assert u[1..] == cart[1..];
    }
  }

  lemma DecrementedAbsent(cart: seq<CartItem>, id: string)
    requires !Holds(cart, id)
    ensures Decremented(cart, id) == cart
  {
  }

  lemma DecrementedAt(cart: seq<CartItem>, id: string, k: nat)
    requires UniqueIds(cart) && k < |cart| && cart[k].Id() == id
    ensures Decremented(cart, id) == cart[k := cart[k].(quantity := cart[k].quantity - 1)]
  {
  }

  // ---------------------------------------------------------------------------
  // addToCart

  /** Adding an id already present raises the first such line by one, whatever the
      payload's own quantity or fields; the length and every other line stay. */
  lemma AddedIncrementsFirstMatch(cart: seq<CartItem>, payload: CartItem, k: nat)
    requires k < |cart| && cart[k].Id() == payload.Id()
    requires forall j :: 0 <= j < k ==> cart[j].Id() != payload.Id()
    ensures Added(cart, payload) == cart[k := cart[k].(quantity := cart[k].quantity + 1)]
  {
  }

  /** Adding an absent id appends the payload as it is. */
  lemma AddedAppendsAbsent(cart: seq<CartItem>, payload: CartItem)
    requires !Holds(cart, payload.Id())
    ensures Added(cart, payload) == cart + [payload]
  {
  }

  lemma AddedKeepsUniqueIds(cart: seq<CartItem>, payload: CartItem)
    requires UniqueIds(cart)
    ensures UniqueIds(Added(cart, payload))
  {
    var k := FirstIndex(cart, payload.Id());
    if k == |cart| {
      var a := cart + [payload];
      forall i, j | 0 <= i < j < |a| ensures a[i].Id() != a[j].Id() {
        if j == |cart| { assert a[i] == cart[i]; }
      }
    }
  }

  /** From a well-formed cart, adding keeps it well-formed, provided a fresh line
      arrives with quantity at least one. */
  lemma AddedKeepsWellFormed(cart: seq<CartItem>, payload: CartItem)
    requires WellFormed(cart)
    requires Holds(cart, payload.Id()) || payload.quantity >= 1
    ensures WellFormed(Added(cart, payload))
  {
    AddedKeepsUniqueIds(cart, payload);
    var k := FirstIndex(cart, payload.Id());
    if k == |cart| {
      assert !Holds(cart, payload.Id());
    }
  }

  // ---------------------------------------------------------------------------
  // removeFromCart of the user store

  /** On a well-formed cart, a line with quantity two or more is decremented in place. */
  lemma UserRemovedDecrements(cart: seq<CartItem>, id: string, k: nat)
    requires WellFormed(cart) && k < |cart| && cart[k].Id() == id && cart[k].quantity >= 2
    ensures UserRemoved(cart, id) == cart[k := cart[k].(quantity := cart[k].quantity - 1)]
  {
    DecrementedAt(cart, id, k);
    var d := Decremented(cart, id);
    assert !SomeAtZero(d) by {
      forall j | 0 <= j < |d| ensures d[j].quantity >= 1 {
      }
    }
  }

  /** On a well-formed cart, a line with quantity one disappears and the other
      lines keep their order. */
  lemma UserRemovedDropsLast(cart: seq<CartItem>, id: string, k: nat)
    requires WellFormed(cart) && k < |cart| && cart[k].Id() == id && cart[k].quantity == 1
    ensures UserRemoved(cart, id) == cart[..k] + cart[k + 1..]
  {
    DecrementedAt(cart, id, k);
    var d := Decremented(cart, id);
    var x := cart[k].(quantity := 0);
    assert d[k].quantity == 0;
    assert SomeAtZero(d);
    assert d == cart[..k] + [x] + cart[k + 1..];
    SliceLacks(cart, id, 0, k);
    SliceLacks(cart, id, k + 1, |cart|);
    assert cart[0..k] == cart[..k] && cart[k + 1..|cart|] == cart[k + 1..];
    WithoutSplice(cart[..k], x, cart[k + 1..], id);
  }

  lemma SliceLacks(cart: seq<CartItem>, id: string, lo: nat, hi: nat)
    requires lo <= hi <= |cart|
    requires forall i :: lo <= i < hi ==> cart[i].Id() != id
    ensures !Holds(cart[lo..hi], id)
  {
    forall i | 0 <= i < hi - lo ensures cart[lo..hi][i].Id() != id {
      assert cart[lo..hi][i] == cart[lo + i];
    }
  }

  lemma WithoutSplice(pre: seq<CartItem>, x: CartItem, post: seq<CartItem>, id: string)
    requires !Holds(pre, id) && !Holds(post, id) && x.Id() == id
    ensures Without(pre + [x] + post, id) == pre + post
  {
    assert Without([x], id) == [] by {
      assert [x][1..] == [];
    }
    calc {
      Without(pre + [x] + post, id);
      { WithoutAppend(pre + [x], post, id); }
      Without(pre + [x], id) + Without(post, id);
      { WithoutAppend(pre, [x], id); }
      Without(pre, id) + Without(post, id);
      { WithoutAbsent(pre, id); WithoutAbsent(post, id); }
      pre + post;
    }
  }

  /** Removing an id that no line carries changes nothing, even when some line is at zero. */
  lemma UserRemovedAbsent(cart: seq<CartItem>, id: string)
    requires !Holds(cart, id)
    ensures UserRemoved(cart, id) == cart
  {
    DecrementedAbsent(cart, id);
    WithoutAbsent(cart, id);
  }

  lemma UserRemovedKeepsWellFormed(cart: seq<CartItem>, id: string)
    requires WellFormed(cart)
    ensures WellFormed(UserRemoved(cart, id))
  {
    var k := FirstIndex(cart, id);
    if k == |cart| {
      UserRemovedAbsent(cart, id);
    } else if cart[k].quantity >= 2 {
      UserRemovedDecrements(cart, id, k);
    } else {
      UserRemovedDropsLast(cart, id, k);
      var r := cart[..k] + cart[k + 1..];
      forall i | 0 <= i < |r| ensures r[i] == cart[if i < k then i else i + 1] {
      }
    }
  }

  /** Lines with other ids are exactly the same, in the same order, after removal. */
  lemma UserRemovedKeepsOthers(cart: seq<CartItem>, id: string)
    ensures Without(UserRemoved(cart, id), id) == Without(cart, id)
  {
    var d := Decremented(cart, id);
    DecrementedKeepsOthers(cart, id);
    if SomeAtZero(d) {
      WithoutTwice(d, id);
    }
  }

  lemma {:induction false} DecrementedKeepsOthers(cart: seq<CartItem>, id: string)
    ensures Without(Decremented(cart, id), id) == Without(cart, id)
  {
    if |cart| > 0 {
      var d := Decremented(cart, id);
      assert d[1..] == Decremented(cart[1..], id);
      DecrementedKeepsOthers(cart[1..], id);
    }
  }

  /** Adding a product and then removing it restores a well-formed cart, when the
      product was already there or arrived with quantity one. */
  lemma AddThenRemove(cart: seq<CartItem>, payload: CartItem)
    requires WellFormed(cart)
    requires Holds(cart, payload.Id()) || payload.quantity == 1
    ensures UserRemoved(Added(cart, payload), payload.Id()) == cart
  {
    var id := payload.Id();
    var k := FirstIndex(cart, id);
    var a := Added(cart, payload);
    AddedKeepsWellFormed(cart, payload);
    if k < |cart| {
      UserRemovedDecrements(a, id, k);
      assert a[k := a[k].(quantity := a[k].quantity - 1)] == cart;
    } else {
      assert a == cart + [payload];
      UserRemovedDropsLast(a, id, |cart|);
      assert a[..|cart|] + a[|cart| + 1..] == cart;
    }
  }

  // ---------------------------------------------------------------------------
  // removeFromCart of the standalone cart store

  /** Removing an absent id is a no-op. */
  lemma CartRemovedAbsent(cart: seq<CartItem>, id: string)
    requires !Holds(cart, id)
    ensures CartRemoved(cart, id) == cart
  {
    DecrementedAbsent(cart, id);
  }

  /** No line is filtered out unless a line with that id had quantity one: the
      result is then just the decremented cart, of the same length. */
  lemma CartRemovedDropsOnlyAtZero(cart: seq<CartItem>, id: string)
    requires forall j :: 0 <= j < |cart| && cart[j].Id() == id ==> cart[j].quantity != 1
    ensures CartRemoved(cart, id) == Decremented(cart, id)
    ensures |CartRemoved(cart, id)| == |cart|
  {
    var d := Decremented(cart, id);
    assert !MatchAtZero(d, id) by {
      forall j | 0 <= j < |d| && d[j].Id() == id ensures d[j].quantity != 0 {
        assert cart[j].Id() == id;
      }
    }
  }

  /** Lines with other ids are never modified or reordered. */
  lemma CartRemovedKeepsOthers(cart: seq<CartItem>, id: string)
    ensures Without(CartRemoved(cart, id), id) == Without(cart, id)
  {
    var d := Decremented(cart, id);
    DecrementedKeepsOthers(cart, id);
    if MatchAtZero(d, id) {
      WithoutTwice(d, id);
    }
  }

  /** With no negative quantities to begin with, a negative quantity can appear only
      when a line with the removed id was already at zero. */
  lemma CartRemovedNegativeNeedsZero(cart: seq<CartItem>, id: string)
    requires forall j :: 0 <= j < |cart| ==> cart[j].quantity >= 0
    ensures forall x :: x in CartRemoved(cart, id) && x.quantity < 0 ==>
              exists j :: 0 <= j < |cart| && cart[j].Id() == id && cart[j].quantity == 0
  {
    var d := Decremented(cart, id);
    WithoutMembers(d, id);
    forall x | x in CartRemoved(cart, id) && x.quantity < 0
      ensures exists j :: 0 <= j < |cart| && cart[j].Id() == id && cart[j].quantity == 0
    {
      assert x in d;
      var j :| 0 <= j < |d| && d[j] == x;
      assert cart[j].Id() == id && cart[j].quantity == 0;
    }
  }

  /** Quantities at least one stay at least one under removal. */
  lemma CartRemovedKeepsPositive(cart: seq<CartItem>, id: string)
    requires AllPositive(cart)
    ensures AllPositive(CartRemoved(cart, id))
  {
    var d := Decremented(cart, id);
    var r := CartRemoved(cart, id);
    WithoutMembers(d, id);
    forall i | 0 <= i < |r| ensures r[i].quantity >= 1 {
      assert r[i] in r;
      if !MatchAtZero(d, id) {
        assert r[i] == d[i];
        assert !(d[i].Id() == id && d[i].quantity == 0);
      } else {
        assert r[i] in d;
        var j :| 0 <= j < |d| && d[j] == r[i];
        assert d[j] == cart[j];
      }
    }
  }

  /** When every quantity is at least one the two remove rules coincide (the two add
      rules are one and the same function). */
  lemma RemoveRulesAgree(cart: seq<CartItem>, id: string)
    requires AllPositive(cart)
    ensures UserRemoved(cart, id) == CartRemoved(cart, id)
  {
    var d := Decremented(cart, id);
    if SomeAtZero(d) {
      var j :| 0 <= j < |d| && d[j].quantity == 0;
      assert cart[j].Id() == id;
      assert MatchAtZero(d, id);
    }
  }

  /** Without the invariant the rules differ: a zero-quantity line of another
      product makes the user store drop the removed product altogether. */
  lemma RemoveRulesDifferOnZeroLine(a: Product, b: Product)
    requires a.id != b.id
    ensures UserRemoved([CartItem(a, 0), CartItem(b, 5)], b.id) == [CartItem(a, 0)]
    ensures CartRemoved([CartItem(a, 0), CartItem(b, 5)], b.id) == [CartItem(a, 0), CartItem(b, 4)]
  {
    var cart := [CartItem(a, 0), CartItem(b, 5)];
    var d := Decremented(cart, b.id);
    assert d == [CartItem(a, 0), CartItem(b, 4)];
    assert SomeAtZero(d) by { assert d[0].quantity == 0; }
    assert Without(d, b.id) == [CartItem(a, 0)] by {
      assert d[1..][1..] == [];
    }
    assert !MatchAtZero(d, b.id);
  }
}
