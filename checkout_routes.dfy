/**
 * `POST /` of backend/routes/checkoutRoutes.js: prune the caller's cart,
 * validate every line against the stock before changing anything, total the
 * price times quantity, decrement each product's stock, empty the cart.
 */
module CheckoutRoutes {
  import opened Wrappers
  import opened AuthMiddleware
  import opened ProductRoutes
  import opened CartRoutes

  datatype CheckoutError = EmptyCart | InsufficientStock(productName: string) {
    function Status(): nat { 400 }
  }

  /** Every line's product is in the catalog (true of a pruned cart). */
  predicate Resolved(lines: seq<Entry>, products: map<ProductId, Product>) {
    forall k :: 0 <= k < |lines| ==> lines[k].product in products
  }

  /** Σ price × quantity over the lines, taken from first to last. */
  function LinesTotal(lines: seq<Entry>, products: map<ProductId, Product>): int
    requires Resolved(lines, products)
  {
    if lines == [] then 0
    else
      var last := lines[|lines| - 1];
      LinesTotal(lines[..|lines| - 1], products) + products[last.product].price * last.quantity
  }

  /** The index of the first line whose product has less stock than its quantity. */
  function FirstShort(lines: seq<Entry>, products: map<ProductId, Product>): (r: Option<nat>)
    requires Resolved(lines, products)
    ensures r.None? <==> forall k :: 0 <= k < |lines| ==> products[lines[k].product].stock >= lines[k].quantity
    ensures r.Some? ==> r.value < |lines| && products[lines[r.value].product].stock < lines[r.value].quantity
    ensures r.Some? ==> forall k :: 0 <= k < r.value ==> products[lines[k].product].stock >= lines[k].quantity
  {
    if lines == [] then None
    else if products[lines[0].product].stock < lines[0].quantity then Some(0)
    else
      match FirstShort(lines[1..], products)
      case None => None
      case Some(k) => Some(k + 1)
  }

  /** `$inc: { stock: -quantity }` on the line's product. */
  function DecrementOne(products: map<ProductId, Product>, line: Entry): (r: map<ProductId, Product>)
    ensures r.Keys == products.Keys
  {
    if line.product in products then
      products[line.product := products[line.product].(stock := products[line.product].stock - line.quantity)]
    else products
  }

  /** The catalog after the decrement pass over `lines`, applied first to last. */
  function Decremented(products: map<ProductId, Product>, lines: seq<Entry>): (r: map<ProductId, Product>)
    ensures r.Keys == products.Keys
  {
    if lines == [] then products
    else DecrementOne(Decremented(products, lines[..|lines| - 1]), lines[|lines| - 1])
  }

  /** The quantity of the last line, for a product whose only line it may be. */
  lemma QuantityOfSnoc(lines: seq<Entry>, id: ProductId)
    requires lines != [] && UniqueProducts(lines)
    ensures var init, last := lines[..|lines| - 1], lines[|lines| - 1];
      QuantityOf(lines, id) == QuantityOf(init, id) + (if last.product == id then last.quantity else 0)
  {
    var init, last := lines[..|lines| - 1], lines[|lines| - 1];
    var i, j := FindIndex(lines, id), FindIndex(init, id);
    if last.product == id {
      assert j == -1;
      assert i == |lines| - 1;
    } else {
      assert i >= 0 ==> i < |init| && init[i].product == id;
      assert j >= 0 ==> lines[j].product == id;
    }
  }

  /** With one line per product, the decrement pass lowers each product's stock
      by exactly its cart quantity and changes nothing else. */
  lemma {:induction false} DecrementedExact(products: map<ProductId, Product>, lines: seq<Entry>)
    requires UniqueProducts(lines)
    ensures Decremented(products, lines).Keys == products.Keys
    ensures forall id :: id in products ==>
      Decremented(products, lines)[id] == products[id].(stock := products[id].stock - QuantityOf(lines, id))
  {
    if lines != [] {
      var init := lines[..|lines| - 1];
      assert UniqueProducts(init);
      DecrementedExact(products, init);
      forall id | id in products
        ensures Decremented(products, lines)[id] == products[id].(stock := products[id].stock - QuantityOf(lines, id))
      {
        QuantityOfSnoc(lines, id);
      }
    }
  }

  /** When validation passed, no product of a well-formed cart ends with negative stock. */
  lemma CheckoutStockNonNegative(products: map<ProductId, Product>, lines: seq<Entry>)
    requires UniqueProducts(lines) && Resolved(lines, products)
    requires FirstShort(lines, products).None?
    ensures forall id :: id in products && products[id].stock >= 0 ==> Decremented(products, lines)[id].stock >= 0
  {
    DecrementedExact(products, lines);
    forall id | id in products && products[id].stock >= 0
      ensures Decremented(products, lines)[id].stock >= 0
    {
      var i := FindIndex(lines, id);
      if i >= 0 {
        assert products[lines[i].product].stock >= lines[i].quantity;
      }
    }
  }

  /** For a cart as the cart routes keep it, a checkout that passes validation
      lowers each product's stock by exactly its quantity in the pruned cart and
      leaves no initially non-negative stock below zero. */
  lemma CheckoutOfStoredCart(items: seq<Entry>, products: map<ProductId, Product>)
    requires WellFormed(items)
    requires FirstShort(Pruned(items, products), products).None?
    ensures var lines := Pruned(items, products);
      forall id :: id in products ==>
        && Decremented(products, lines)[id].stock == products[id].stock - QuantityOf(lines, id)
        && (products[id].stock >= 0 ==> Decremented(products, lines)[id].stock >= 0)
  {
    var lines := Pruned(items, products);
    PrunedWellFormed(items, products);
    DecrementedExact(products, lines);
    CheckoutStockNonNegative(products, lines);
  }

  /** The validation pass: stops at the first line short of stock, naming its
      product; otherwise accumulates the total. */
  method ValidateLines(lines: seq<Entry>, products: map<ProductId, Product>) returns (r: Result<int, CheckoutError>)
    requires Resolved(lines, products)
    ensures FirstShort(lines, products).Some? ==>
      r == Failure(InsufficientStock(products[lines[FirstShort(lines, products).value].product].name))
    ensures FirstShort(lines, products).None? ==> r == Success(LinesTotal(lines, products))
  {
    var total := 0;
    var i := 0;
    while i < |lines|
      invariant 0 <= i <= |lines|
      invariant forall k :: 0 <= k < i ==> products[lines[k].product].stock >= lines[k].quantity
      invariant total == LinesTotal(lines[..i], products)
    {
      var line := lines[i];
      var product := products[line.product];
      if product.stock < line.quantity {
        return Failure(InsufficientStock(product.name));
      }
      total := total + product.price * line.quantity;
      assert lines[..i + 1][..i] == lines[..i];
      i := i + 1;
    }
    assert lines[..i] == lines;
    r := Success(total);
  }

  /** The decrement pass, one product update per line. */
  method DecrementStock(catalog: Catalog, lines: seq<Entry>)
    modifies catalog`products
    ensures catalog.products == Decremented(old(catalog.products), lines)
  {
    var j := 0;
    while j < |lines|
      invariant 0 <= j <= |lines|
      invariant catalog.products == Decremented(old(catalog.products), lines[..j])
    {
      catalog.products := DecrementOne(catalog.products, lines[j]);
      assert lines[..j + 1][..j] == lines[..j];
      j := j + 1;
    }
    assert lines[..j] == lines;
  }

  /** The checkout handler. The cart and the catalog are the only state it touches. */
  method Checkout(carts: Carts, catalog: Catalog, user: UserId) returns (r: Result<int, CheckoutError>)
    requires carts.Valid() && catalog.Valid()
    modifies carts, catalog`products
    ensures carts.Valid() && catalog.Valid()
    ensures user !in old(carts.carts) ==>
      r == Failure(EmptyCart) && carts.carts == old(carts.carts) && catalog.products == old(catalog.products)
    ensures user in old(carts.carts) ==>
      var lines := Pruned(old(carts.carts)[user], old(catalog.products));
      && Resolved(lines, old(catalog.products))
      && (lines == [] ==>
            r == Failure(EmptyCart) && carts.carts == old(carts.carts)[user := []]
            && catalog.products == old(catalog.products))
      && (lines != [] && FirstShort(lines, old(catalog.products)).Some? ==>
            r == Failure(InsufficientStock(
                   old(catalog.products)[lines[FirstShort(lines, old(catalog.products)).value].product].name))
            && carts.carts == old(carts.carts) && catalog.products == old(catalog.products))
      && (lines != [] && FirstShort(lines, old(catalog.products)).None? ==>
            r == Success(LinesTotal(lines, old(catalog.products)))
            && catalog.products == Decremented(old(catalog.products), lines)
            && carts.carts == old(carts.carts)[user := []])
  {
    if user !in carts.carts {
      return Failure(EmptyCart);
    }
    var products := catalog.products;
    var lines := Pruned(carts.carts[user], products);
    if |lines| == 0 {
      carts.carts := carts.carts[user := []];
      return Failure(EmptyCart);
    }
    r := ValidateLines(lines, products);
    if r.Failure? {
      return;
    }
    DecrementStock(catalog, lines);
    carts.carts := carts.carts[user := []];
  }
}
