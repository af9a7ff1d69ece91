/** The home page: fetching a page of products into the catalogue store, the
    previous/next pager, and the ten-word description preview on each card. */
module HomePage {
  import opened Entities
  import ProductSlice

  /** The server's page size; a shorter page is the last one. */
  const PageSize: nat := 12

  /** How many words of the description a card shows. */
  const PreviewWords: nat := 10

  /** What the product request came back with. */
  datatype FetchResult = TransportError | Response(status: int, data: seq<Product>)

  /** Only a status-200 response is copied into the store. */
  predicate Accepted(result: FetchResult)
  {
    result.Response? && result.status == 200
  }

  /** `fetchData`: raise the loading flag, replace the products on a 200 response
      (any other outcome throws and is logged), and lower the flag in `finally`.
      `loadingWhileWaiting` is the flag as it stood while the request was out. */
  method FetchData(store: ProductSlice.ProductStore, result: FetchResult) returns (loadingWhileWaiting: bool)
    modifies store
    ensures loadingWhileWaiting
    ensures Accepted(result) ==> store.products == result.data
    ensures !Accepted(result) ==> store.products == old(store.products)
    ensures !store.isLoading
    ensures store.pageNo == old(store.pageNo) && store.currentProduct == old(store.currentProduct)
  {
    store.SetIsLoading(true);
    loadingWhileWaiting := store.isLoading;
    var failed := result.TransportError? || result.status != 200;
    if !failed {
      store.AddFetchedProductsToState(result.data);
    }
    store.SetIsLoading(false);
  }

  /** "Previous" is live unless the page is 1. */
  predicate PrevEnabled(pageNo: int)
  {
    pageNo != 1
  }

  /** "Next" is live unless fewer than a full page of products is shown. */
  predicate NextEnabled(shown: nat)
  {
    !(shown < PageSize)
  }

  /** A full page of 12 keeps "Next" live; a page of 9 is the last. */
  lemma NextAtTwelveAndNine()
    ensures NextEnabled(12) && !NextEnabled(9)
  {
  }

  /** A click on "Previous": when live it moves one page back, and because the page
      number changed the fetch effect runs again. */
  method ClickPrevious(store: ProductSlice.ProductStore, result: FetchResult) returns (refetched: bool)
    modifies store
    ensures refetched <==> PrevEnabled(old(store.pageNo))
    ensures refetched <==> store.pageNo != old(store.pageNo)
    ensures refetched ==> store.pageNo == old(store.pageNo) - 1 && !store.isLoading
    ensures refetched ==> store.products == if Accepted(result) then result.data else old(store.products)
    ensures !refetched ==> store.products == old(store.products) && store.isLoading == old(store.isLoading)
    ensures store.currentProduct == old(store.currentProduct)
  {
    refetched := false;
    if PrevEnabled(store.pageNo) {
      store.DecrementPageBy(1);
      var _ := FetchData(store, result);
      refetched := true;
    }
  }

  /** A click on "Next": when live it moves one page on and the fetch runs again. */
  method ClickNext(store: ProductSlice.ProductStore, result: FetchResult) returns (refetched: bool)
    modifies store
    ensures refetched <==> NextEnabled(|old(store.products)|)
    ensures refetched <==> store.pageNo != old(store.pageNo)
    ensures refetched ==> store.pageNo == old(store.pageNo) + 1 && !store.isLoading
    ensures refetched ==> store.products == if Accepted(result) then result.data else old(store.products)
    ensures !refetched ==> store.products == old(store.products) && store.isLoading == old(store.isLoading)
    ensures store.currentProduct == old(store.currentProduct)
  {
    refetched := false;
    if NextEnabled(|store.products|) {
      store.IncrementPageBy(1);
      var _ := FetchData(store, result);
      refetched := true;
    }
  }

  /** One pager click, with the number of products shown when it happened. */
  datatype PagerClick = Previous | Next(shown: nat)

  function PageAfter(pageNo: int, click: PagerClick): int
  {
    match click
    case Previous => if PrevEnabled(pageNo) then pageNo - 1 else pageNo
    case Next(shown) => if NextEnabled(shown) then pageNo + 1 else pageNo
  }

  function PageAfterAll(pageNo: int, clicks: seq<PagerClick>): int
    decreases |clicks|
  {
    if |clicks| == 0 then pageNo else PageAfterAll(PageAfter(pageNo, clicks[0]), clicks[1..])
  }

  /** The reducers do not clamp the page, but the pager's guards do: from any page
      of at least 1, every sequence of clicks stays at 1 or above. */
  lemma {:induction false} PagerKeepsPagePositive(pageNo: int, clicks: seq<PagerClick>)
    requires pageNo >= 1
    ensures PageAfterAll(pageNo, clicks) >= 1
    decreases |clicks|
  {
    if |clicks| > 0 {
      PagerKeepsPagePositive(PageAfter(pageNo, clicks[0]), clicks[1..]);
    }
  }

  // ---------------------------------------------------------------------------
  // The description preview: `description.split(" ").slice(0, 10).join(" ")` then "...".

  /** Number of space characters in `s`. */
  function Spaces(s: string): nat
  {
    if |s| == 0 then 0 else (if s[0] == ' ' then 1 else 0) + Spaces(s[1..])
  }

  /** `s.split(" ")`: the pieces between single spaces, empty pieces included. */
  function Split(s: string): (r: seq<string>)
    ensures |r| == Spaces(s) + 1
  {
    if |s| == 0 then [""]
    else
      var rest := Split(s[1..]);
      if s[0] == ' ' then [""] + rest else [[s[0]] + rest[0]] + rest[1..]
  }

  /** `parts.slice(0, n)`. */
  function Slice(parts: seq<string>, n: nat): seq<string>
  {
    if |parts| <= n then parts else parts[..n]
  }

  /** `parts.join(" ")`. */
  function Join(parts: seq<string>): string
  {
    if |parts| == 0 then ""
    else if |parts| == 1 then parts[0]
    else parts[0] + " " + Join(parts[1..])
  }

  /** The reference meaning: the text of `s` before its `n`-th space, or all of `s`
      when it has fewer than `n` spaces. */
  function TextBeforeSpace(s: string, n: nat): (r: string)
    requires n >= 1
    ensures r <= s
    ensures Spaces(s) < n ==> r == s
    ensures Spaces(s) >= n ==> r + " " <= s && Spaces(r) == n - 1
  {
    if |s| == 0 then ""
    else if s[0] == ' ' then
      (if n == 1 then "" else SpacePrefix(TextBeforeSpace(s[1..], n - 1)); " " + TextBeforeSpace(s[1..], n - 1))
    else
      CharPrefix(s[0], TextBeforeSpace(s[1..], n)); [s[0]] + TextBeforeSpace(s[1..], n)
  }

  lemma SpacePrefix(t: string)
    ensures Spaces(" " + t) == 1 + Spaces(t)
  {
    assert (" " + t)[1..] == t;
  }

  lemma CharPrefix(c: char, t: string)
    ensures Spaces([c] + t) == (if c == ' ' then 1 else 0) + Spaces(t)
  {
    assert ([c] + t)[1..] == t;
  }

  /** The card's preview text. */
  function Preview(description: string): (r: string)
    ensures r == TextBeforeSpace(description, PreviewWords) + "..."
  {
    PreviewIsTextBeforeSpace(description, PreviewWords);
    Join(Slice(Split(description), PreviewWords)) + "..."
  }

  /** Splitting, keeping the first `n` words and joining them again gives the text
      before the `n`-th space. */
  lemma {:induction false} PreviewIsTextBeforeSpace(s: string, n: nat)
    requires n >= 1
    ensures Join(Slice(Split(s), n)) == TextBeforeSpace(s, n)
    decreases |s|
  {
    if |s| > 0 {
      if s[0] == ' ' {
        if n > 1 {
          PreviewIsTextBeforeSpace(s[1..], n - 1);
        }
        PreviewAfterSpace(s, n);
      } else {
        PreviewIsTextBeforeSpace(s[1..], n);
        PreviewAfterChar(s, n);
      }
    }
  }

  lemma PreviewAfterSpace(s: string, n: nat)
    requires n >= 1 && |s| > 0 && s[0] == ' '
    requires n > 1 ==> Join(Slice(Split(s[1..]), n - 1)) == TextBeforeSpace(s[1..], n - 1)
    ensures Join(Slice(Split(s), n)) == TextBeforeSpace(s, n)
  {
    var rest := Split(s[1..]);
    assert Split(s) == [""] + rest;
    if n > 1 {
      SliceCons("", rest, n);
      var t := Slice(rest, n - 1);
      assert |t| >= 1;
      assert ([""] + t)[1..] == t;
      assert Join([""] + t) == " " + Join(t);
    } else {
      assert Slice([""] + rest, 1) == [""];
    }
  }

  lemma PreviewAfterChar(s: string, n: nat)
    requires n >= 1 && |s| > 0 && s[0] != ' '
    requires Join(Slice(Split(s[1..]), n)) == TextBeforeSpace(s[1..], n)
    ensures Join(Slice(Split(s), n)) == TextBeforeSpace(s, n)
  {
    var c := s[0];
    var rest := Split(s[1..]);
    assert Split(s) == [[c] + rest[0]] + rest[1..];
    assert [rest[0]] + rest[1..] == rest;
    SliceCons(rest[0], rest[1..], n);
    SliceCons([c] + rest[0], rest[1..], n);
    var t := Slice(rest, n);
    assert t[0 := [c] + t[0]] == Slice(Split(s), n);
    JoinWidenFirst(t, c);
  }

  lemma SliceCons(x: string, t: seq<string>, n: nat)
    requires n >= 1
    ensures Slice([x] + t, n) == [x] + Slice(t, n - 1)
  {
    if |t| > n - 1 {
      assert ([x] + t)[..n] == [x] + t[..n - 1];
    }
  }

  lemma JoinWidenFirst(parts: seq<string>, c: char)
    requires |parts| >= 1
    ensures Join(parts[0 := [c] + parts[0]]) == [c] + Join(parts)
  {
    var w := parts[0 := [c] + parts[0]];
    if |parts| > 1 {
      assert w[1..] == parts[1..];
    }
  }
}
