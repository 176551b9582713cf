/**
 * The shop page script, frontend/tienda.js: the search and price sort over
 * the loaded products, the image fallback, the out-of-stock flag on each card
 * and the checks the admin's edit form makes before sending `PUT /:id`.
 */
module Tienda {
  import opened Wrappers
  import opened Strings
  import opened Seqs
  import opened Sorting
  import opened ProductRoutes
  import opened CartRoutes

  /** A product as the page receives it, every field optional. */
  datatype ShopItem = ShopItem(
    id: ProductId,
    name: Option<string>,
    price: Option<int>,
    stock: Option<int>,
    image: Option<string>)

  /** The search box text as `renderFiltered` prepares it: lower-cased, then trimmed. */
  function SearchText(input: Option<string>): string {
    Trim(ToLower(OrEmpty(input)))
  }

  predicate NameMatches(p: ShopItem, q: string) {
    Contains(ToLower(OrEmpty(p.name)), q)
  }

  /** `(p.price || 0)`. */
  function PriceKey(p: ShopItem): int {
    p.price.GetOr(0)
  }

  function NegatedPriceKey(p: ShopItem): int {
    -PriceKey(p)
  }

  /** The products whose name contains the search text, in loading order. */
  function Matching(all: seq<ShopItem>, search: Option<string>): (r: seq<ShopItem>)
    ensures forall k :: 0 <= k < |r| ==> r[k] in all && NameMatches(r[k], SearchText(search))
    ensures forall k :: 0 <= k < |all| && NameMatches(all[k], SearchText(search)) ==> all[k] in r
    ensures Subsequence(r, all)
  {
    var q := SearchText(search);
    Filter(all, p => NameMatches(p, q))
  }

  /** A blank search keeps every product. */
  lemma BlankSearchKeepsAll(all: seq<ShopItem>, search: Option<string>)
    requires AllSpace(OrEmpty(search))
    ensures Matching(all, search) == all
  {
    assert SearchText(search) == "";
    var q := SearchText(search);
    forall k | 0 <= k < |all|
      ensures NameMatches(all[k], q)
    {
      assert [] <= ToLower(OrEmpty(all[k].name));
    }
    FilterAll(all, p => NameMatches(p, q));
  }

  /** `renderFiltered`: the matching products, sorted in place by price when
      "priceAsc" or "priceDesc" is selected and otherwise in loading order. */
  method RenderFiltered(all: seq<ShopItem>, search: Option<string>, sort: string) returns (shown: seq<ShopItem>)
    ensures multiset(shown) == multiset(Matching(all, search))
    ensures sort == "priceAsc" ==> SortedBy(shown, PriceKey)
    ensures sort == "priceDesc" ==> forall i, j :: 0 <= i < j < |shown| ==> PriceKey(shown[i]) >= PriceKey(shown[j])
    ensures sort != "priceAsc" && sort != "priceDesc" ==> shown == Matching(all, search)
  {
    var filtered := Matching(all, search);
    var a := new ShopItem[|filtered|](i requires 0 <= i < |filtered| => filtered[i]);
    assert a[..] == filtered;
    if sort == "priceAsc" {
      SortBy(a, PriceKey);
    }
    if sort == "priceDesc" {
      SortBy(a, NegatedPriceKey);
      assert SortedBy(a[..], NegatedPriceKey);
    }
    shown := a[..];
  }

  const Fallback: string := "https://via.placeholder.com/400x300"

  /** `safeImage`: the trimmed url, or the placeholder for a missing or blank one. */
  function SafeImage(url: Option<string>): (r: string)
    ensures r != [] && !IsSpace(r[0]) && !IsSpace(r[|r| - 1])
    ensures url.None? || AllSpace(url.value) ==> r == Fallback
    ensures url.Some? && !AllSpace(url.value) ==> r == Trim(url.value)
  {
    if url.None? || url.value == "" then Fallback
    else
      var trimmed := Trim(url.value);
      if trimmed == "" then Fallback else trimmed
  }

  lemma SafeImageIdempotent(url: Option<string>)
    ensures SafeImage(Some(SafeImage(url))) == SafeImage(url)
  {
    TrimUnchanged(SafeImage(url));
  }

  /** `Number(p.stock ?? 0) <= 0`: both buy buttons are disabled. */
  predicate OutOfStock(p: ShopItem) {
    p.stock.GetOr(0) <= 0
  }

  /** A card whose buy buttons are enabled shows a product the cart accepts
      once: adding one unit to a cart without it stays within stock. */
  lemma BuyableCanBeAdded(items: seq<Entry>, p: ShopItem)
    requires !OutOfStock(p)
    requires FindIndex(items, p.id) < 0
    ensures AddToItems(items, p.id, 1, p.stock.GetOr(0)).Success?
  {
  }

  datatype EditError = EmptyName | BadPrice | BadStock

  /** `submitEditForm`: the texts of the form's inputs, checked in order; on
      success, the body sent to `PUT /:id`. The price is typed in dollars and
      sent as cents. */
  function SubmitEditForm(name: string, price: string, stock: string, image: string, description: string)
    : (r: Result<ProductPatch, EditError>)
    ensures Trim(name) == "" ==> r == Failure(EmptyName)
    ensures r == Failure(BadPrice) <==> Trim(name) != "" && CentsOf(price).None?
    ensures r == Failure(BadStock) <==>
      Trim(name) != "" && CentsOf(price).Some? && StringToNumber(stock).None?
    ensures r.Success? ==>
      && r.value.name == Some(Trim(name)) && Trim(name) != ""
      && r.value.price == CentsOf(price) && r.value.price.Some? && r.value.price.value >= 0
      && r.value.stock == StringToNumber(stock) && r.value.stock.Some? && r.value.stock.value >= 0
      && r.value.image == Some(Trim(image)) && r.value.description == Some(Trim(description))
  {
    var n := Trim(name);
    var p := CentsOf(price);
    var s := StringToNumber(stock);
    if n == "" then Failure(EmptyName)
    else if p.None? || p.value < 0 then Failure(BadPrice)
    else if s.None? || s.value < 0 then Failure(BadStock)
    else Success(ProductPatch(Some(n), p, s, Some(Trim(image)), Some(Trim(description))))
  }

  /** A price typed with two decimals, such as "19.99", is sent as that many cents. */
  lemma SubmitEditFormDecimalPrice(name: string, w: string, f: string, stock: string, image: string, description: string)
    requires Trim(name) != "" && AllDigits(w) && AllDigits(f) && |f| == 2
    requires StringToNumber(stock).Some?
    ensures SubmitEditForm(name, w + "." + f, stock, image, description).Success?
    ensures SubmitEditForm(name, w + "." + f, stock, image, description).value.price
            == Some(DigitsValue(w) * 100 + DigitsValue(f))
  {
    CentsOfDecimal(w, f);
  }
}
