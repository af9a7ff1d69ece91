/** Shared record shapes of the storefront client: catalogue products, cart lines,
    order lines and the signed-in user's record. */
module Entities {

  datatype Option<T> = None | Some(value: T)

  /** A catalogue record. Prices are whole currency units (the client's floating
      point is not modelled). */
  datatype Product = Product(
    id: string,
    name: string,
    image: string,
    brand: string,
    category: string,
    price: int,
    description: string,
    rating: int,
    numReviews: int,
    countInStock: int)

  /** A product together with the quantity the user wants. */
  datatype CartItem = CartItem(product: Product, quantity: int)
  {
    function Id(): string { product.id }
  }

  /** A cart line frozen at checkout, with the order date. */
  datatype OrderItem = OrderItem(product: Product, quantity: int, date: string)

  /** The session record; an empty `id` means nobody is signed in. */
  datatype UserRecord = UserRecord(
    id: string,
    username: string,
    cart: seq<CartItem>,
    orders: seq<OrderItem>)

  /** The record held before sign-in and written back on logout. */
  const SignedOut: UserRecord := UserRecord("", "", [], [])

  /** The all-empty product the catalogue store starts with. */
  const EmptyProduct: Product := Product("", "", "", "", "", 0, "", 0, 0, 0)
}
