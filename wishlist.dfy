/** The customer's wishlist page: loading the list, removing an entry once the
    server confirms, the add-to-cart rule, the product links, and the count
    and empty state the page shows. */
module Wishlist {
  import opened Common

  /** One wishlist entry, with the fields the page's logic reads. */
  datatype WishlistItem = WishlistItem(id: string, productId: string, name: string, slug: string, basePrice: int, inStock: bool)

  /** The number of entries of `items` with id `id`. */
  function CountId(items: seq<WishlistItem>, id: string): (n: nat)
    ensures n <= |items|
    ensures n == 0 <==> forall k :: 0 <= k < |items| ==> items[k].id != id
  {
    if items == [] then 0
    else CountId(items[1..], id) + (if items[0].id == id then 1 else 0)
  }

  /** `prev.filter((item) => item.id !== id)`: every entry without that id, in
      order. */
  function WithoutId(items: seq<WishlistItem>, id: string): (r: seq<WishlistItem>)
    ensures |r| == |items| - CountId(items, id)
    ensures forall x :: x in r <==> x in items && x.id != id
  {
    if items == [] then []
    else if items[0].id == id then WithoutId(items[1..], id)
    else
      assert forall x :: x in items <==> x == items[0] || x in items[1..];
      [items[0]] + WithoutId(items[1..], id)
  }

  /** The filter works entry by entry, so it keeps the order of the rest. */
  lemma {:induction false} WithoutIdConcat(a: seq<WishlistItem>, b: seq<WishlistItem>, id: string)
    ensures WithoutId(a + b, id) == WithoutId(a, id) + WithoutId(b, id)
  {
    if a == [] {
      assert a + b == b;
    } else {
      assert (a + b)[1..] == a[1..] + b;
      WithoutIdConcat(a[1..], b, id);
    }
  }

  /** Removing the same id twice changes nothing the second time. */
  lemma {:induction false} WithoutIdIdempotent(items: seq<WishlistItem>, id: string)
    ensures WithoutId(WithoutId(items, id), id) == WithoutId(items, id)
  {
    if items != [] {
      WithoutIdIdempotent(items[1..], id);
      if items[0].id != id {
        assert ([items[0]] + WithoutId(items[1..], id))[1..] == WithoutId(items[1..], id);
      }
    }
  }

  /** The filter leaves the list as it was exactly when no entry has the id. */
  lemma {:induction false} WithoutIdUnchanged(items: seq<WishlistItem>, id: string)
    ensures WithoutId(items, id) == items <==> CountId(items, id) == 0
  {
    if items != [] {
      WithoutIdUnchanged(items[1..], id);
      if items[0].id != id {
        assert ([items[0]] + WithoutId(items[1..], id))[1..] == WithoutId(items[1..], id);
      }
    }
  }

  /** The cart button is enabled only for an entry in stock. */
  predicate CanAddToCart(item: WishlistItem) {
    item.inStock
  }

  /** The card's cart button: disabled and dimmed for an entry out of stock;
      an enabled one leads to the add-to-cart link (a disabled button fires no
      click). */
  datatype CartButton = CartButton(disabled: bool, dimmed: bool, target: Option<string>)

  function CartButtonFor(item: WishlistItem): (b: CartButton)
    ensures b.disabled <==> !CanAddToCart(item)
    ensures b.dimmed == b.disabled
    ensures b.target.Some? <==> !b.disabled
    ensures b.target.Some? ==> b.target.value == AddToCartUrl(item.slug)
  {
    if item.inStock then CartButton(false, false, Some(AddToCartUrl(item.slug)))
    else CartButton(true, true, None)
  }

  const ProductPrefix: string := "/products/"
  const AddToCartQuery: string := "?action=add-to-cart"

  /** `handleViewProduct`: the product page of a slug. */
  function ProductUrl(slug: string): (url: string)
    ensures |url| == |ProductPrefix| + |slug|
    ensures url[..|ProductPrefix|] == ProductPrefix && url[|ProductPrefix|..] == slug
  {
    ProductPrefix + slug
  }

  /** `handleAddToCart`: the product page, asked to add the product to the
      cart. */
  function AddToCartUrl(slug: string): (url: string)
    ensures |url| == |ProductUrl(slug)| + |AddToCartQuery|
    ensures url[..|ProductUrl(slug)|] == ProductUrl(slug)
    ensures url[|ProductUrl(slug)|..] == AddToCartQuery
  {
    ProductUrl(slug) + AddToCartQuery
  }

  /** The slug a product link was made from. */
  function SlugOf(url: string): (slug: Option<string>)
    ensures slug.Some? <==> ProductPrefix <= url
    ensures slug.Some? ==> ProductUrl(slug.value) == url
  {
    if ProductPrefix <= url then Some(url[|ProductPrefix|..]) else None
  }

  /** Each kind of link determines its slug: the product link reads back
      its slug, the add-to-cart link reads back the slug with the query, and
      two links of the same kind are equal only for equal slugs. */
  lemma {:induction false} LinksDetermineSlug(slug: string, slug': string)
    ensures SlugOf(ProductUrl(slug)) == Some(slug)
    ensures SlugOf(AddToCartUrl(slug)) == Some(slug + AddToCartQuery)
    ensures ProductUrl(slug) == ProductUrl(slug') ==> slug == slug'
    ensures AddToCartUrl(slug) == AddToCartUrl(slug') ==> slug == slug'
  {
    var u := ProductUrl(slug);
    assert ProductPrefix <= u;
    var v := AddToCartUrl(slug);
    assert v == ProductPrefix + (slug + AddToCartQuery);
    assert v[..|ProductPrefix|] == ProductPrefix;
    if AddToCartUrl(slug) == AddToCartUrl(slug') {
      assert |slug| == |slug'|;
      assert ProductUrl(slug) == v[..|ProductUrl(slug)|] == ProductUrl(slug');
    }
  }

  /** Across the two kinds, slugs are not determined: a slug that ends in the
      query has a product link equal to another slug's add-to-cart link. */
  lemma LinkKindsCollide(slug: string)
    ensures ProductUrl(slug + AddToCartQuery) == AddToCartUrl(slug)
  {
    assert ProductPrefix + (slug + AddToCartQuery) == (ProductPrefix + slug) + AddToCartQuery;
  }

  /** What `removeFromWishlist` returned; an empty `error` stands for a
      missing one. */
  datatype RemoveResult = RemoveResult(success: bool, error: string)

  datatype Toast = ToastSuccess(message: string) | ToastError(message: string)

  /** The toast a removal shows. */
  function RemoveToast(result: RemoveResult): (t: Toast)
    ensures t.ToastSuccess? <==> result.success
    ensures result.success ==> t.message == "Removed from wishlist"
    ensures !result.success ==> t.message == if result.error != "" then result.error else "Failed to remove from wishlist"
    ensures t.message != ""
  {
    if result.success then ToastSuccess("Removed from wishlist")
    else ToastError(if result.error != "" then result.error else "Failed to remove from wishlist")
  }

  /** What the page shows. */
  datatype View = Spinner | EmptyState | Grid(count: nat)

  class WishlistPage {
    /** The `wishlistItems` state. */
    var items: seq<WishlistItem>
    /** The `isLoading` state. */
    var isLoading: bool

    /** The first render: no entries, and the spinner is up. */
    constructor ()
      ensures items == [] && isLoading
    {
      items := [];
      isLoading := true;
    }

    /** The page: a spinner while loading, else the empty state for no
        entries, else the grid beneath a header showing the entry count. */
    function CurrentView(): (v: View)
      reads this
      ensures v == Spinner <==> isLoading
      ensures v == EmptyState <==> !isLoading && items == []
      ensures v.Grid? ==> v.count == |items| > 0
    {
      if isLoading then Spinner
      else if |items| == 0 then EmptyState
      else Grid(|items|)
    }

    /** The start of `fetchWishlist`. */
    method BeginFetch()
      modifies this`isLoading
      ensures isLoading
    {
      isLoading := true;
    }

    /** The end of `fetchWishlist`: the fetched list replaces the entries, a
        failed fetch (`None`) keeps them, and loading stops either way. */
    method FinishFetch(response: Option<seq<WishlistItem>>) returns (toast: Option<Toast>)
      modifies this
      ensures !isLoading
      ensures response.Some? ==> items == response.value && toast == None
      ensures response.None? ==> items == old(items) && toast == Some(ToastError("Failed to load wishlist"))
    {
      if response.Some? {
        items := response.value;
        toast := None;
      } else {
        toast := Some(ToastError("Failed to load wishlist"));
      }
      isLoading := false;
    }

    /** `handleRemoveFromWishlist`, once the server answered: the entry leaves
        the list only when the server confirmed the removal. */
    method RemoveFromWishlist(id: string, result: RemoveResult) returns (toast: Toast)
      modifies this`items
      ensures result.success ==> items == WithoutId(old(items), id)
      ensures !result.success ==> items == old(items)
      ensures toast == RemoveToast(result)
    {
      if result.success {
        items := WithoutId(items, id);
      }
      toast := RemoveToast(result);
    }
  }

  /** A confirmed removal of an entry that was listed takes the count down by
      at least one and leaves no entry with that id. */
  lemma RemovalShrinksList(items: seq<WishlistItem>, k: nat)
    requires k < |items|
    ensures |WithoutId(items, items[k].id)| < |items|
    ensures forall x :: x in WithoutId(items, items[k].id) ==> x.id != items[k].id
  {
  }
}
