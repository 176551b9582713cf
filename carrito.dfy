/**
 * The cart page script, frontend/carrito.js: `loadCart` adds up price times
 * quantity over the items of the cart the server returns (each with its
 * product filled in) and writes the sum into both the subtotal and the total.
 */
module Carrito {
  import opened Wrappers
  import opened ProductRoutes
  import opened CartRoutes
  import opened CheckoutRoutes

  /** The product fields the total reads, as the page receives them. */
  datatype CartProduct = CartProduct(price: Option<int>)

  /** An item as the page receives it: the product is null when it no longer exists. */
  datatype CartItem = CartItem(product: Option<CartProduct>, quantity: Option<int>)

  /** What one item adds: nothing without a product; a missing price or quantity counts as 0. */
  function ItemSubtotal(item: CartItem): int {
    if item.product.None? then 0 else item.product.value.price.GetOr(0) * item.quantity.GetOr(0)
  }

  /** The sum of the item subtotals, first to last. */
  function CartTotal(items: seq<CartItem>): int {
    if items == [] then 0 else CartTotal(items[..|items| - 1]) + ItemSubtotal(items[|items| - 1])
  }

  /** The two price displays. */
  datatype Totals = Totals(subtotal: int, total: int)

  /** The accumulation loop of `loadCart` and the `updateTotals` call after it. */
  method LoadCart(items: seq<CartItem>) returns (shown: Totals)
    ensures shown.subtotal == shown.total
    ensures shown.total == CartTotal(items)
    ensures items == [] ==> shown.total == 0
  {
    if |items| == 0 {
      return Totals(0, 0);
    }
    var total := 0;
    var i := 0;
    while i < |items|
      invariant 0 <= i <= |items|
      invariant total == CartTotal(items[..i])
    {
      var item := items[i];
      if item.product.Some? {
        var price := item.product.value.price.GetOr(0);
        var qty := item.quantity.GetOr(0);
        total := total + price * qty;
      }
      assert items[..i + 1][..i] == items[..i];
      i := i + 1;
    }
    assert items[..i] == items;
    shown := Totals(total, total);
  }

  /** The items `GET /` sends for a cart whose every product exists. */
  function Populated(lines: seq<Entry>, products: map<ProductId, Product>): (r: seq<CartItem>)
    requires Resolved(lines, products)
    ensures |r| == |lines|
    ensures forall k :: 0 <= k < |lines| ==>
      r[k] == CartItem(Some(CartProduct(Some(products[lines[k].product].price))), Some(lines[k].quantity))
  {
    seq(|lines|, k requires 0 <= k < |lines| =>
      CartItem(Some(CartProduct(Some(products[lines[k].product].price))), Some(lines[k].quantity)))
  }

  /** The total the page shows for a cleaned-up cart is the total checkout charges. */
  lemma {:induction false} PageTotalIsCheckoutTotal(lines: seq<Entry>, products: map<ProductId, Product>)
    requires Resolved(lines, products)
    ensures CartTotal(Populated(lines, products)) == LinesTotal(lines, products)
  {
    if lines != [] {
      var init := lines[..|lines| - 1];
      assert Populated(lines, products)[..|lines| - 1] == Populated(init, products);
      PageTotalIsCheckoutTotal(init, products);
    }
  }
}
