# Storefront client state, in Dafny

This project models the client-side state of a small storefront web application and
proves properties of that model. The application's store combines two Redux slices,
the user/session record and the product catalogue. A third, standalone cart slice is
defined beside them but not wired in. Four pages read and write the store:

- **User/session store** (`UserSlice`). One record holds an id, a username, a cart and
  the order history. An empty id means signed out. `setUser` replaces the record.
  `addToCart`, `removeFromCart` and `clearCart` edit the cart in place. A fulfilled
  `refreshOrders` stores the server's order list reversed.
- **Standalone cart store** (`CartSlice`). A second copy of the add/remove rules over a
  bare cart, with the zero check inside the id match. It serves as a reference version.
- **Product store** (`ProductSlice`). It holds the current page of products, the page
  number, a loading flag and the product being viewed.
- **Pages**:
  - `CartPage` holds the subtotal, the delivery charge and the grand total. Its handlers
    post a change and then reconcile the local cart with the server's cart. It also has
    the placing of an order and the button guards.
  - `HomePage` holds the page fetch, the previous/next pager and the ten-word
    description preview.
  - `ProductPage` keeps a local quantity counter and reconciles it with the server. It
    also holds the 10%-off price and the login prompt.
  - `SignInPage` holds the login form and sorts the server's message into the modal's
    buttons.

The add and remove rules are functions on the cart sequence, in module `CartRules`:

- `Added` finds the first line with the payload's id and raises it by one, or else
  appends the payload.
- `UserRemoved` and `CartRemoved` are the two remove reducers.

The store classes run the source's loops, and each method is proved equal to its
function. Properties are proved as lemmas about those functions and include:

- the cart invariant of unique ids with quantities of at least one;
- add-then-remove restores the cart;
- the two remove rules agree under the invariant;
- subtotal changes under add and remove.

Modelling decisions:

- **Cart walk in `removeFromCart`.** Both reducers walk the cart as it was when the walk
  began, and may reassign the store's cart to a filtered copy part-way. The lines are
  shared objects, so until the first filter each in-place decrement shows in the
  stored cart. After the first filter, later steps only decrement lines the filter
  already dropped, so they cannot change the stored cart (`WithoutIgnoresDecrement`).
  The loop invariant says so: the stored cart is the visited cart, filtered once a
  zero has been seen.
- **The user store's zero check.** It looks at every visited line, whatever its id.
  `UserRemoved` keeps this behaviour. `RemoveRulesDifferOnZeroLine` shows where it parts
  from the cart store's rule. `RemoveRulesAgree` shows that the two coincide once every
  quantity is at least one.
- **Server answers are parameters.** Examples are the server's cart after a post, the
  outcome of a login, and the status of a product fetch.
- **Prices are integers.** `price || 0` is therefore the price itself.
- **The sale price.** `Math.ceil(price - price / 10)` is stated with exact rational
  arithmetic.
- **Letter case.** `toLowerCase` is ASCII lower-casing.

## Model

| member | source | states |
|---|---|---|
| CartRules.FirstIndex | frontend/src/redux/slices/userSlice.ts:71-73 | the position `find` stops at: a line with the id, every earlier line with another id, or the cart's length when none matches |
| CartRules.WithoutMembers | frontend/src/redux/slices/userSlice.ts:86-88 | the filter keeps exactly the lines whose id differs from the payload's |
| CartRules.WithoutAppend | frontend/src/redux/slices/userSlice.ts:86-88 | filtering a concatenation is concatenating the filtered parts, so order is kept |
| CartRules.WithoutAbsent | frontend/src/redux/slices/userSlice.ts:86-88 | filtering out an id no line carries leaves the cart as it is |
| CartRules.WithoutTwice | frontend/src/redux/slices/userSlice.ts:86-88 | filtering the same id twice is filtering it once |
| CartRules.WithoutIgnoresDecrement | frontend/src/redux/slices/userSlice.ts:81-88 | after a filter, decrementing a line of the filtered id in the walked array leaves the filtered cart unchanged |
| CartRules.DecrementedAbsent | frontend/src/redux/slices/userSlice.ts:81-84 | the decrement step changes nothing for an absent id |
| CartRules.DecrementedAt | frontend/src/redux/slices/userSlice.ts:81-84 | with unique ids the decrement step lowers exactly the one matching line by one |
| CartRules.DecrementedKeepsOthers | frontend/src/redux/slices/userSlice.ts:81-84 | the decrement step leaves every other-id line unchanged and in order |
| CartRules.AddedIncrementsFirstMatch | frontend/src/redux/slices/userSlice.ts:70-76 | adding a present id raises the first such line by one, whatever the payload's own quantity; length and all other lines unchanged |
| CartRules.AddedAppendsAbsent | frontend/src/redux/slices/userSlice.ts:77-78 | adding an absent id appends the payload, with its own quantity, after the unchanged cart |
| CartRules.AddedKeepsUniqueIds | frontend/src/redux/slices/userSlice.ts:70-79 | ids stay unique under add |
| CartRules.AddedKeepsWellFormed | frontend/src/redux/slices/userSlice.ts:70-79 | unique ids and quantities of at least one survive an add of a present id or of a payload with quantity at least one |
| CartRules.UserRemovedDecrements | frontend/src/redux/slices/userSlice.ts:80-90 | on a well-formed cart, remove lowers a line of quantity two or more by one in place |
| CartRules.UserRemovedDropsLast | frontend/src/redux/slices/userSlice.ts:80-90 | on a well-formed cart, remove drops a line of quantity one and keeps the other lines in order |
| CartRules.UserRemovedAbsent | frontend/src/redux/slices/userSlice.ts:81-90 | removing an absent id leaves the cart unchanged, even when some line is at zero |
| CartRules.UserRemovedKeepsWellFormed | frontend/src/redux/slices/userSlice.ts:80-91 | remove keeps a well-formed cart well-formed |
| CartRules.UserRemovedKeepsOthers | frontend/src/redux/slices/userSlice.ts:80-91 | the lines of other ids are the same, in the same order, after remove |
| CartRules.AddThenRemove | frontend/src/redux/slices/userSlice.ts:70-91 | add then remove of one payload restores a well-formed cart when the id was present or the payload has quantity one |
| CartRules.CartRemovedAbsent | frontend/src/redux/slices/cartSlice.ts:40-49 | the cart store's remove of an absent id is a no-op |
| CartRules.CartRemovedDropsOnlyAtZero | frontend/src/redux/slices/cartSlice.ts:41-47 | with no matching line at quantity one, nothing is filtered out: the result is the decremented cart, of the same length |
| CartRules.CartRemovedKeepsOthers | frontend/src/redux/slices/cartSlice.ts:39-50 | the cart store's remove never modifies or reorders lines of other ids |
| CartRules.CartRemovedNegativeNeedsZero | frontend/src/redux/slices/cartSlice.ts:41-47 | from non-negative quantities, a negative quantity appears only if a line with the removed id was already at zero |
| CartRules.CartRemovedKeepsPositive | frontend/src/redux/slices/cartSlice.ts:41-47 | quantities of at least one stay at least one under the cart store's remove |
| CartRules.RemoveRulesAgree | frontend/src/redux/slices/cartSlice.ts:39-50 | when every quantity is at least one, the cart store's remove equals the user store's remove (userSlice.ts:80-91); the two adds are one function |
| CartRules.RemoveRulesDifferOnZeroLine | frontend/src/redux/slices/userSlice.ts:85-89 | with another product at zero, the user store drops the removed product entirely while the cart store only decrements it |
| UserSlice.UserStore.constructor | frontend/src/redux/slices/userSlice.ts:43-50 | the store starts with empty id and username, an empty cart and no orders |
| UserSlice.UserStore.SetUser | frontend/src/redux/slices/userSlice.ts:67-69 | the record is replaced wholesale by the payload |
| UserSlice.UserStore.AddToCart | frontend/src/redux/slices/userSlice.ts:70-79 | the cart becomes `Added` of the old cart; id, username and orders unchanged |
| UserSlice.UserStore.RemoveFromCart | frontend/src/redux/slices/userSlice.ts:80-91 | the for-of walk with mid-walk filtering leaves the cart at `UserRemoved` of the old cart; id, username and orders unchanged |
| UserSlice.UserStore.ClearCart | frontend/src/redux/slices/userSlice.ts:92-94 | the cart is emptied; id, username and orders unchanged |
| UserSlice.UserStore.RefreshOrdersFulfilled | frontend/src/redux/slices/userSlice.ts:96-100 | orders become the payload; id, username and cart unchanged |
| UserSlice.Reversed | frontend/src/redux/slices/userSlice.ts:59 | the reversal has the same length and element `i` is the source's element counted from the end |
| UserSlice.ReverseOrders | frontend/src/redux/slices/userSlice.ts:59 | the in-place two-pointer `reverse()` of the server's list yields `Reversed` of it |
| UserSlice.RefreshOrders | frontend/src/redux/slices/userSlice.ts:52-61 | a fulfilled request stores the reversed server list and keeps the cart; a rejected one changes nothing |
| UserSlice.Logout | frontend/src/components/Header.tsx:160-167 | logout's `setUser` with the empty record brings back exactly the initial record |
| UserSlice.ReversedTwoOrders | frontend/src/redux/slices/userSlice.ts:59 | the server list `[o1, o2]` is stored as `[o2, o1]` |
| UserSlice.ReversedTwice | frontend/src/redux/slices/userSlice.ts:59 | reversing twice gives the server's list back |
| CartSlice.CartStore.constructor | frontend/src/redux/slices/cartSlice.ts:20-22 | the cart store starts empty |
| CartSlice.CartStore.AddToCart | frontend/src/redux/slices/cartSlice.ts:28-37 | the cart becomes `Added` of the old cart |
| CartSlice.CartStore.RemoveFromCart | frontend/src/redux/slices/cartSlice.ts:39-50 | the `forEach` walk with the zero check inside the match leaves the cart at `CartRemoved` of the old cart |
| ProductSlice.ProductStore.constructor | frontend/src/redux/slices/productSlice.ts:22-38 | no products, page 1, not loading, an all-empty current product |
| ProductSlice.ProductStore.AddFetchedProductsToState | frontend/src/redux/slices/productSlice.ts:44-49 | the list is replaced by the payload, whatever it was before (so twice is once); other fields unchanged |
| ProductSlice.ProductStore.IncrementPageBy | frontend/src/redux/slices/productSlice.ts:50-52 | the page number goes up by `k`, unbounded; other fields unchanged |
| ProductSlice.ProductStore.DecrementPageBy | frontend/src/redux/slices/productSlice.ts:53-55 | the page number goes down by `k` with no lower bound, so 1 minus 1 is 0; other fields unchanged |
| ProductSlice.ProductStore.SetIsLoading | frontend/src/redux/slices/productSlice.ts:56-58 | only the loading flag changes, to the payload |
| ProductSlice.ProductStore.AddToCurrentProduct | frontend/src/redux/slices/productSlice.ts:59-61 | only the current product changes, to the payload |
| ProductSlice.PageRoundTrip | frontend/src/redux/slices/productSlice.ts:50-55 | forward then back by `k`, or back then forward, restores the page and every other field |
| CartPage.SubtotalAppend | frontend/src/pages/CartPage.tsx:35-37 | the fold's subtotal of a concatenation is the sum of the parts' subtotals |
| CartPage.SubtotalSplit | frontend/src/pages/CartPage.tsx:35-37 | the subtotal is the sum of the line amounts on either side of any line plus that line's amount |
| CartPage.SubtotalUpdate | frontend/src/pages/CartPage.tsx:35-37 | replacing one line moves the subtotal by the difference of the two line amounts |
| CartPage.SingleLineTotal | frontend/src/pages/CartPage.tsx:208 | for one line the grand total (line 228) is price times quantity plus 15, the same as the line's own total |
| CartPage.SubtotalAfterAddPresent | frontend/src/pages/CartPage.tsx:67-70 | a confirmed add of a product in the cart raises the subtotal by its unit price |
| CartPage.SubtotalAfterAddAbsent | frontend/src/pages/CartPage.tsx:67-70 | a confirmed add of a new product raises the subtotal by the appended line's amount |
| CartPage.SubtotalAfterRemove | frontend/src/pages/CartPage.tsx:87-95 | on a well-formed cart a remove lowers the subtotal by the product's unit price |
| CartPage.Render | frontend/src/pages/CartPage.tsx:217-228 | the empty-cart view exactly when the cart is empty (line 98); otherwise subtotal is the stored total, delivery is 15 per line (line 222) and grand total is subtotal plus delivery |
| CartPage.LineQtyCell | frontend/src/pages/CartPage.tsx:175-179 | spinner exactly for the active line while loading; otherwise the line's non-zero quantity, or the label exactly when it is zero |
| CartPage.CartPageState.constructor | frontend/src/pages/CartPage.tsx:23-25 | not loading, no active product, total 0 |
| CartPage.CartPageState.RecalculateTotal | frontend/src/pages/CartPage.tsx:33-43 | the total becomes the subtotal for a non-empty cart and keeps its old value for an empty one |
| CartPage.CartPageState.AddToUserCart | frontend/src/pages/CartPage.tsx:57-74 | the first server line with the product's id goes to `addToCart` and loading clears; with none, or when the post is rejected, the store is unchanged and loading stays set |
| CartPage.CartPageState.RemoveFromUserCart | frontend/src/pages/CartPage.tsx:76-96 | after a successful post either branch leaves the cart at `UserRemoved` for the product's id and loading clears; a rejected post dispatches nothing and leaves loading set |
| CartPage.CartPageState.PlaceOrder | frontend/src/pages/CartPage.tsx:45-55 | after a successful post the cart is cleared and the rest of the record kept; a failed post changes nothing |
| CartPage.ConfirmedAddIncrements | frontend/src/pages/CartPage.tsx:67-70 | a confirmed add of a cart line makes its local quantity old plus one, whatever the server reported |
| CartPage.ClicksKeepWellFormed | frontend/src/pages/CartPage.tsx:57-96 | any sequence of handled plus/minus clicks, with any server answers, keeps a well-formed cart well-formed |
| HomePage.FetchData | frontend/src/pages/HomePage.tsx:52-76 | loading is raised while waiting and lowered at the end; products are replaced only on a 200 response |
| HomePage.NextAtTwelveAndNine | frontend/src/pages/HomePage.tsx:342 | a full page of 12 enables "Next", a page of 9 disables it |
| HomePage.ClickPrevious | frontend/src/pages/HomePage.tsx:324-331 | "Previous" acts exactly when the page is not 1; it then decrements the page and refetches |
| HomePage.ClickNext | frontend/src/pages/HomePage.tsx:342-349 | "Next" acts exactly when at least 12 products are shown; it then increments the page and refetches |
| HomePage.PagerKeepsPagePositive | frontend/src/pages/HomePage.tsx:324-349 | from a page of at least 1, any sequence of guarded clicks keeps the page at least 1 |
| HomePage.Split | frontend/src/pages/HomePage.tsx:306 | `split(" ")` yields one more piece than there are spaces |
| HomePage.TextBeforeSpace | frontend/src/pages/HomePage.tsx:306 | a prefix of the text: all of it with fewer than `n` spaces, else the text up to, not including, the `n`-th space |
| HomePage.PreviewIsTextBeforeSpace | frontend/src/pages/HomePage.tsx:306 | split, slice to `n` and join equals the text before the `n`-th space |
| HomePage.Preview | frontend/src/pages/HomePage.tsx:306-307 | the card shows the text before the tenth space, followed by "..." |
| ProductPage.InitialQty | frontend/src/pages/ProductPage.tsx:28-30 | the first matching cart line's quantity, or 0 when none matches or no product is loaded yet |
| ProductPage.SalePrice | frontend/src/pages/ProductPage.tsx:125 | the least integer not below the price less 10%; it lies between 0 and the price for a non-negative price |
| ProductPage.QtyCell | frontend/src/pages/ProductPage.tsx:179-185 | spinner exactly while loading, else the counter exactly when positive, else "Add to Cart" |
| ProductPage.CartLinkFor | frontend/src/pages/ProductPage.tsx:212-231 | the login prompt replaces "Continue to Cart" exactly when the user id is empty |
| ProductPage.ProductPageState.constructor | frontend/src/pages/ProductPage.tsx:25-30 | on first render the product is empty, so the counter starts at 0 |
| ProductPage.ProductPageState.GetProduct | frontend/src/pages/ProductPage.tsx:33-49 | a successful fetch stores the product, a failed one keeps the old one; loading ends false |
| ProductPage.ProductPageState.AddToUserCart | frontend/src/pages/ProductPage.tsx:51-68 | a matching server line goes to `addToCart`, the counter rises by one and loading clears; otherwise, or when the post is rejected, nothing changes and loading stays set |
| ProductPage.ProductPageState.RemoveFromUserCart | frontend/src/pages/ProductPage.tsx:70-91 | after a successful post, one remove for the product's id on either branch, the counter falls by one on both, loading clears; a rejected post changes nothing and leaves loading set |
| ProductPage.CounterStaysNonNegative | frontend/src/pages/ProductPage.tsx:157 | the minus guard at 0 keeps the counter at 0 or above through any sequence of clicks, posted or rejected |
| ProductPage.SignedOutCounterFrozen | frontend/src/pages/ProductPage.tsx:157-188 | signed out, both buttons are dead and no click sequence moves the counter |
| SignInPage.LowerChar | frontend/src/pages/SignInPage.tsx:72 | upper-case ASCII letters shift by 32, everything else is kept, and no upper-case letter remains |
| SignInPage.Lower | frontend/src/pages/SignInPage.tsx:72 | `toLowerCase` keeps the length and lower-cases each character |
| SignInPage.LowerIdempotent | frontend/src/pages/SignInPage.tsx:72 | lower-casing twice is lower-casing once |
| SignInPage.ContainsMeansOccurs | frontend/src/pages/SignInPage.tsx:72 | `includes` holds exactly when the text occurs at some position |
| SignInPage.ModalFor | frontend/src/pages/SignInPage.tsx:48-102 | a modal exactly for a non-empty message; Register exactly when it contains "not registered" in any case; "Okay" exactly when it contains "logged in", else "Cancel" |
| SignInPage.ModalIgnoresCase | frontend/src/pages/SignInPage.tsx:72-80 | a message and its lower-cased form get the same buttons |
| SignInPage.LoggedInMessage | frontend/src/pages/SignInPage.tsx:80-90 | "Logged in" gets "Okay" and no Register link |
| SignInPage.NotRegisteredMessage | frontend/src/pages/SignInPage.tsx:72-102 | "User not registered" gets the Register link and "Cancel" |
| SignInPage.SignInPageState.constructor | frontend/src/pages/SignInPage.tsx:11-14 | an empty form with no message, not loading |
| SignInPage.SignInPageState.HandleUsername | frontend/src/pages/SignInPage.tsx:16-18 | only the username changes, to the typed text |
| SignInPage.SignInPageState.HandlePassword | frontend/src/pages/SignInPage.tsx:19-21 | only the password changes, to the typed text |
| SignInPage.SignInPageState.LoginFunction | frontend/src/pages/SignInPage.tsx:23-43 | the typed credentials are sent; success sets the message and the user record; a refusal sets only the message; afterwards loading is off and both fields are empty |
| SignInPage.SignInPageState.OkayClicked | frontend/src/pages/SignInPage.tsx:84-87 | "Okay" clears the message and nothing else |
| SignInPage.SignInPageState.CancelClicked | frontend/src/pages/SignInPage.tsx:95-98 | "Cancel" clears the message and loading |
| SignInPage.DismissCloses | frontend/src/pages/SignInPage.tsx:48-102 | either dismiss button closes the modal |

These members model source lines but carry no contract of their own; the lemmas
named beside each characterise them.

- `CartRules.Added` (frontend/src/redux/slices/userSlice.ts:70-79): `AddedIncrementsFirstMatch`, `AddedAppendsAbsent`, `AddedKeepsWellFormed`; the cart store's `addToCart` (cartSlice.ts:28-37) uses the same function.
- `CartRules.Dec`, `CartRules.Decremented` (frontend/src/redux/slices/userSlice.ts:81-84): `DecrementedAbsent`, `DecrementedAt`, `DecrementedKeepsOthers`.
- `CartRules.Without` (frontend/src/redux/slices/userSlice.ts:86-88): `WithoutMembers`, `WithoutAppend`, `WithoutAbsent`, `WithoutTwice`, `WithoutIgnoresDecrement` (its own ensures only bounds the length).
- `CartRules.UserRemoved` (frontend/src/redux/slices/userSlice.ts:80-91): `UserRemovedDecrements`, `UserRemovedDropsLast`, `UserRemovedAbsent`, `UserRemovedKeepsWellFormed`, `UserRemovedKeepsOthers`, `AddThenRemove`.
- `CartRules.CartRemoved` (frontend/src/redux/slices/cartSlice.ts:39-50): the `CartRemoved…` lemmas and `RemoveRulesAgree`.
- `CartPage.LineAmount`, `CartPage.Subtotal` (frontend/src/pages/CartPage.tsx:35-37): `SubtotalAppend`, `SubtotalSplit`, `SubtotalUpdate` and the `SubtotalAfter…` lemmas.
- `CartPage.LineTotal` (frontend/src/pages/CartPage.tsx:208): `SingleLineTotal`.
- `CartPage.DeliveryCharge`, `CartPage.GrandTotal` (frontend/src/pages/CartPage.tsx:222-228): `Render`, `SingleLineTotal`.
- `CartPage.MinusDisabled`, `CartPage.PlusDisabled` (frontend/src/pages/CartPage.tsx:153-182): `ProductPage.CounterStaysNonNegative`, `ProductPage.SignedOutCounterFrozen` (the product page's guards at ProductPage.tsx:157, 188 are the same expressions).
- `HomePage.Accepted` (frontend/src/pages/HomePage.tsx:62): `FetchData`.
- `HomePage.PrevEnabled`, `HomePage.NextEnabled` (frontend/src/pages/HomePage.tsx:324-342): `ClickPrevious`, `ClickNext`, `NextAtTwelveAndNine`, `PagerKeepsPagePositive`.
- `HomePage.Slice`, `HomePage.Join` (frontend/src/pages/HomePage.tsx:306): `PreviewIsTextBeforeSpace`.
- `SignInPage.Contains`, `SignInPage.ShowsRegister` (frontend/src/pages/SignInPage.tsx:72-80): `ContainsMeansOccurs`, `ModalFor`.

## Left out

- HTTP requests are left out. Every server answer is a method parameter: the server's cart, the order list, the login outcome and the product fetch's status and data. The backend's own logic is not modelled.
- Persistence and store wiring are left out: redux-persist, localStorage rehydration and `configureStore` in `frontend/src/redux/store.ts`. Immer drafts are modelled only through the values they produce. The sharing of line objects between the walked array and the stored cart in `removeFromCart` is captured by that method's loop invariant.
- Concurrency is left out: requests resolving out of order, React effect scheduling and re-render timing. Each handler runs as one atomic sequence. The cart page's total effect is a method (`RecalculateTotal`) that the caller invokes.
- Floating point is left out. Prices and totals are integers, so `price || 0` is the price. `toFixed(2)` formatting is not modelled. The sale price is exact rational arithmetic rather than the floating-point division behind `Math.ceil`.
- A product record with no `price` field cannot be represented.
- `toLowerCase` covers ASCII only; full Unicode case mapping is not modelled.
- Routing and navigation (`navigate`, `App.tsx`), JSX layout and the header's scroll offset, theme and media queries are not modelled. The header's one state change, logout, is `UserSlice.Logout`. The order history page (`MyOrders.tsx`) is not part of this model.
- CartPage.CartPageState.RemoveFromUserCart: states how the store ends up, not the count of dispatches. The "exactly one dispatch" follows from the early `return` and is not a separate postcondition.
- ProductPage.ProductPageState.RemoveFromUserCart: with no product loaded, the model does not dispatch. In the source, the payload then has no id, so it matches no line and filters nothing. The resulting store is the same.
- SignInPage.SignInPageState.LoginFunction: a rejection without a response body is modelled as leaving the message unchanged. In the source, reading the missing body throws inside the handler, and the `finally` still runs.
