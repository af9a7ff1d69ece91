/** The product catalogue store: the current page of products, the page number,
    a loading flag and the product being viewed. Every reducer overwrites or
    adjusts one field in place. */
module ProductSlice {
  import opened Entities

  class ProductStore {
    var products: seq<Product>
    var pageNo: int
    var isLoading: bool
    var currentProduct: Product

    /** No products, page 1, not loading, an all-empty current product. */
    constructor ()
      ensures products == [] && pageNo == 1 && !isLoading && currentProduct == EmptyProduct
    {
      products := [];
      pageNo := 1;
      isLoading := false;
      currentProduct := EmptyProduct;
    }

    /** `addFetchedProductsToState`: the fetched page replaces the list; nothing is
        merged. Applying it twice with one payload is the same as once. */
    method AddFetchedProductsToState(payload: seq<Product>)
      modifies this
      ensures products == payload
      ensures pageNo == old(pageNo) && isLoading == old(isLoading) && currentProduct == old(currentProduct)
    {
      products := payload;
    }

    /** `incrementPageBy(k)`: no upper bound. */
    method IncrementPageBy(k: int)
      modifies this
      ensures pageNo == old(pageNo) + k
      ensures products == old(products) && isLoading == old(isLoading) && currentProduct == old(currentProduct)
    {
      pageNo := pageNo + k;
    }

    /** `decrementPageBy(k)`: no lower bound, so page 1 minus 1 is page 0. */
    method DecrementPageBy(k: int)
      modifies this
      ensures pageNo == old(pageNo) - k
      ensures products == old(products) && isLoading == old(isLoading) && currentProduct == old(currentProduct)
    {
      pageNo := pageNo - k;
    }

    /** `setIsLoading`. */
    method SetIsLoading(flag: bool)
      modifies this
      ensures isLoading == flag
      ensures products == old(products) && pageNo == old(pageNo) && currentProduct == old(currentProduct)
    {
      isLoading := flag;
    }

    /** `addToCurrentProduct`. */
    method AddToCurrentProduct(product: Product)
      modifies this
      ensures currentProduct == product
      ensures products == old(products) && pageNo == old(pageNo) && isLoading == old(isLoading)
    {
      currentProduct := product;
    }
  }

  /** Moving the page forward by `k` and back by `k`, in either order, returns to
      the page it started on; so the two reducers commute. */
  method PageRoundTrip(store: ProductStore, k: int, forwardFirst: bool)
    modifies store
    ensures store.pageNo == old(store.pageNo)
    ensures store.products == old(store.products) && store.isLoading == old(store.isLoading)
    ensures store.currentProduct == old(store.currentProduct)
  {
    if forwardFirst {
      store.IncrementPageBy(k);
      store.DecrementPageBy(k);
    } else {
      store.DecrementPageBy(k);
      store.IncrementPageBy(k);
    }
  }
}
