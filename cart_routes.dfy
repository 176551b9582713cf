/**
 * The per-user carts of backend/routes/cartRoutes.js. A cart is a list of
 * (product id, quantity) entries checked against the catalog's stock. Every
 * handler runs behind `protect`, so it receives the caller's user id.
 */
module CartRoutes {
  import opened Wrappers
  import opened Seqs
  import opened AuthMiddleware
  import opened ProductRoutes

  datatype Entry = Entry(product: ProductId, quantity: int)

  datatype CartError =
    | MissingProductId
    | UnknownProduct
    | OutOfStock
    | StockExceeded(available: int)
    | CartNotFound
    | ItemNotInCart
    | InvalidDelta
  {
    function Status(): nat {
      match this
      case UnknownProduct => 404
      case CartNotFound => 404
      case ItemNotInCart => 404
      case _ => 400
    }
  }

  /** No product appears in two entries. */
  predicate UniqueProducts(items: seq<Entry>) {
    forall i, j :: 0 <= i < j < |items| ==> items[i].product != items[j].product
  }

  /** The invariant every stored cart keeps: unique products, positive quantities. */
  predicate WellFormed(items: seq<Entry>) {
    UniqueProducts(items) && forall i :: 0 <= i < |items| ==> items[i].quantity > 0
  }

  /** `items.findIndex(item => item.product === p)`. */
  function FindIndex(items: seq<Entry>, p: ProductId): (i: int)
    ensures -1 <= i < |items|
    ensures i >= 0 ==> items[i].product == p && forall k :: 0 <= k < i ==> items[k].product != p
    ensures i == -1 <==> forall k :: 0 <= k < |items| ==> items[k].product != p
  {
    if items == [] then -1
    else if items[0].product == p then 0
    else
      var k := FindIndex(items[1..], p);
      if k < 0 then -1 else k + 1
  }

  /** The quantity of `p` in the cart: that of its first entry, 0 when it has none. */
  function QuantityOf(items: seq<Entry>, p: ProductId): int {
    var i := FindIndex(items, p);
    if i >= 0 then items[i].quantity else 0
  }

  /** `findIndex` looks only at the product ids, position by position. */
  lemma FindIndexSameProducts(a: seq<Entry>, b: seq<Entry>, q: ProductId)
    requires |a| == |b| && forall k :: 0 <= k < |a| ==> a[k].product == b[k].product
    ensures FindIndex(a, q) == FindIndex(b, q)
  {
    var i, j := FindIndex(a, q), FindIndex(b, q);
    assert i >= 0 ==> b[i].product == q;
    assert j >= 0 ==> a[j].product == q;
  }

  /** In a well-formed cart a product has a positive quantity exactly when it has an entry. */
  lemma QuantityOfPositive(items: seq<Entry>, p: ProductId)
    requires WellFormed(items)
    ensures QuantityOf(items, p) > 0 <==> exists k :: 0 <= k < |items| && items[k].product == p
    ensures QuantityOf(items, p) >= 0
  {
  }

  /** The cart a user has, or the empty one `new Cart(...)` starts with. */
  function CartOf(carts: map<UserId, seq<Entry>>, user: UserId): seq<Entry> {
    if user in carts then carts[user] else []
  }

  /** Keeps the entries whose product still exists (`items.filter(it => it.product)`
      after population). */
  function Pruned(items: seq<Entry>, products: map<ProductId, Product>): (r: seq<Entry>)
    ensures forall k :: 0 <= k < |r| ==> r[k].product in products
    ensures forall k :: 0 <= k < |items| && items[k].product in products ==> items[k] in r
    ensures Subsequence(r, items)
  {
    Filter(items, (e: Entry) => e.product in products)
  }

  /** The entries of any product other than `p` (`items.filter(i => i.product !== p)`). */
  function Without(items: seq<Entry>, p: ProductId): (r: seq<Entry>)
    ensures forall k :: 0 <= k < |r| ==> r[k].product != p
    ensures forall k :: 0 <= k < |items| && items[k].product != p ==> items[k] in r
    ensures Subsequence(r, items)
  {
    Filter(items, (e: Entry) => e.product != p)
  }

  /** Filtering entries out keeps a cart well formed. */
  lemma {:induction false} FilterWellFormed(items: seq<Entry>, keep: Entry -> bool)
    requires WellFormed(items)
    ensures WellFormed(Filter(items, keep))
  {
    if items != [] {
      var tail := items[1..];
      UniqueTail(items);
      assert forall k :: 0 <= k < |tail| ==> tail[k] == items[k + 1];
      FilterWellFormed(tail, keep);
      var rest := Filter(tail, keep);
      forall k | 0 <= k < |rest| ensures rest[k].product != items[0].product {
        var j :| 0 <= j < |tail| && tail[j] == rest[k];
      }
      if keep(items[0]) {
        ConsWellFormed(items[0], rest);
      }
    }
  }

  /** An entry of a new product in front of a well-formed cart keeps it well formed. */
  lemma ConsWellFormed(head: Entry, rest: seq<Entry>)
    requires WellFormed(rest) && head.quantity > 0
    requires forall k :: 0 <= k < |rest| ==> rest[k].product != head.product
    ensures WellFormed([head] + rest)
  {
    assert forall k :: 1 <= k < |rest| + 1 ==> ([head] + rest)[k] == rest[k - 1];
  }

  lemma PrunedWellFormed(items: seq<Entry>, products: map<ProductId, Product>)
    requires WellFormed(items)
    ensures WellFormed(Pruned(items, products))
  {
    FilterWellFormed(items, (e: Entry) => e.product in products);
  }

  /** Pruning that drops nothing gives the cart back unchanged. */
  lemma PrunedSameLength(items: seq<Entry>, products: map<ProductId, Product>)
    requires |Pruned(items, products)| == |items|
    ensures Pruned(items, products) == items
  {
    FilterAll(items, (e: Entry) => e.product in products);
  }

  /** Pruning twice prunes nothing more. */
  lemma PrunedIdempotent(items: seq<Entry>, products: map<ProductId, Product>)
    ensures Pruned(Pruned(items, products), products) == Pruned(items, products)
  {
    var r := Pruned(items, products);
    FilterAll(r, (e: Entry) => e.product in products);
  }

  /** Removing the entry at the index `findIndex` gives (`splice(index, 1)`) is
      the same as filtering out its product, in a cart with unique products. */
  lemma {:induction false} SpliceIsWithout(items: seq<Entry>, p: ProductId)
    requires UniqueProducts(items)
    requires FindIndex(items, p) >= 0
    ensures var i := FindIndex(items, p); items[..i] + items[i + 1..] == Without(items, p)
  {
    var i := FindIndex(items, p);
    var rest := items[1..];
    UniqueTail(items);
    WithoutCons(items, p);
    if i == 0 {
      WithoutAbsent(rest, p);
      assert items[..i] + items[i + 1..] == rest;
    } else {
      SpliceIsWithout(rest, p);
      SpliceCons(items, i);
    }
  }

  /** Splicing out a later position keeps the head in front of the spliced tail. */
  lemma SpliceCons<T>(s: seq<T>, i: int)
    requires 0 < i < |s|
    ensures s[..i] + s[i + 1..] == [s[0]] + (s[1..][..i - 1] + s[1..][i..])
  {
    assert s[..i] == [s[0]] + s[1..][..i - 1];
    assert s[i + 1..] == s[1..][i..];
  }

  /** The tail of a cart with unique products has unique products, none of them the head's. */
  lemma UniqueTail(items: seq<Entry>)
    requires UniqueProducts(items) && items != []
    ensures UniqueProducts(items[1..])
    ensures forall k :: 0 <= k < |items[1..]| ==> items[1..][k].product != items[0].product
  {
    forall a, b | 0 <= a < b < |items[1..]|
      ensures items[1..][a].product != items[1..][b].product
    {
      assert items[1..][a] == items[a + 1] && items[1..][b] == items[b + 1];
    }
    forall k | 0 <= k < |items[1..]|
      ensures items[1..][k].product != items[0].product
    {
      assert items[1..][k] == items[k + 1];
    }
  }

  /** Filtering out a product the cart does not hold keeps the whole cart. */
  lemma WithoutAbsent(items: seq<Entry>, p: ProductId)
    requires forall k :: 0 <= k < |items| ==> items[k].product != p
    ensures Without(items, p) == items
  {
    FilterAll(items, (e: Entry) => e.product != p);
  }

  /** One step of `Without` and of `FindIndex` at the head of the cart. */
  lemma WithoutCons(items: seq<Entry>, p: ProductId)
    requires items != []
    ensures items[0].product == p ==> Without(items, p) == Without(items[1..], p) && FindIndex(items, p) == 0
    ensures items[0].product != p ==>
      Without(items, p) == [items[0]] + Without(items[1..], p)
      && (FindIndex(items, p) >= 0 ==> FindIndex(items[1..], p) == FindIndex(items, p) - 1)
  {
  }

  /** The add quantity of `POST /`: the requested value when it is a positive
      number, otherwise 1. `None` stands for a missing or non-numeric value. */
  function AddQuantity(quantity: Option<int>): (q: int)
    ensures q >= 1
  {
    if quantity.Some? && quantity.value > 0 then quantity.value else 1
  }

  /** Adds `add` units of `p` to a cart against `stock`: merged into the existing
      entry, or appended as a new one; rejected when the result would exceed the stock. */
  function AddToItems(items: seq<Entry>, p: ProductId, add: int, stock: int): (r: Result<seq<Entry>, CartError>)
    ensures r.Success? <==> QuantityOf(items, p) + add <= stock
    ensures r.Failure? ==> r.error == StockExceeded(stock)
    ensures r.Success? ==> QuantityOf(r.value, p) == QuantityOf(items, p) + add <= stock
    ensures r.Success? ==> forall q :: q != p ==> QuantityOf(r.value, q) == QuantityOf(items, q)
    ensures r.Success? ==> |items| <= |r.value| <= |items| + 1
    ensures r.Success? ==> forall k :: 0 <= k < |items| && items[k].product != p ==> r.value[k] == items[k]
    ensures r.Success? && WellFormed(items) && add > 0 ==> WellFormed(r.value)
  {
    var i := FindIndex(items, p);
    if i > -1 then
      var next := items[i].quantity + add;
      if next > stock then Failure(StockExceeded(stock))
      else
        MergedLookup(items, i, next);
        Success(items[i := items[i].(quantity := next)])
    else if add > stock then Failure(StockExceeded(stock))
    else
      AppendedLookup(items, p, add);
      Success(items + [Entry(p, add)])
  }

  /** Changing the quantity of one entry moves no product. */
  lemma MergedLookup(items: seq<Entry>, i: nat, next: int)
    requires i < |items|
    ensures var r := items[i := items[i].(quantity := next)];
      && (forall q :: FindIndex(r, q) == FindIndex(items, q))
      && (WellFormed(items) && next > 0 ==> WellFormed(r))
  {
    var r := items[i := items[i].(quantity := next)];
    forall q ensures FindIndex(r, q) == FindIndex(items, q) {
      FindIndexSameProducts(items, r, q);
    }
  }

  /** Appending an entry of a product the cart lacks finds it last and moves no other product. */
  lemma AppendedLookup(items: seq<Entry>, p: ProductId, add: int)
    requires FindIndex(items, p) < 0
    ensures var r := items + [Entry(p, add)];
      && FindIndex(r, p) == |items|
      && (forall q :: q != p ==> FindIndex(r, q) == FindIndex(items, q))
      && (WellFormed(items) && add > 0 ==> WellFormed(r))
  {
    var r := items + [Entry(p, add)];
    assert forall k :: 0 <= k < |items| ==> r[k] == items[k];
    assert r[|items|] == Entry(p, add);
    forall q | q != p ensures FindIndex(r, q) == FindIndex(items, q) {
      AppendedOther(items, Entry(p, add), q);
    }
    if WellFormed(items) && add > 0 {
      forall i, j | 0 <= i < j < |r| ensures r[i].product != r[j].product {
        if j == |items| {
          assert r[i] == items[i];
        } else {
          assert r[i] == items[i] && r[j] == items[j];
        }
      }
    }
  }

  /** Appending an entry of another product leaves the index of `q` where it was. */
  lemma AppendedOther(items: seq<Entry>, e: Entry, q: ProductId)
    requires e.product != q
    ensures FindIndex(items + [e], q) == FindIndex(items, q)
  {
    var r := items + [e];
    assert forall k :: 0 <= k < |items| ==> r[k] == items[k];
    assert r[|items|] == e;
  }

  /** A ±1 step on the entry of `p`: the quantity changes by `delta` and,
      when it reaches 0 or less, the product's entries are filtered out. */
  function ApplyDelta(items: seq<Entry>, p: ProductId, delta: int): (r: seq<Entry>)
    requires FindIndex(items, p) >= 0
    ensures QuantityOf(items, p) + delta > 0 ==> QuantityOf(r, p) == QuantityOf(items, p) + delta
    ensures QuantityOf(items, p) + delta <= 0 ==> forall k :: 0 <= k < |r| ==> r[k].product != p
    ensures forall q :: q != p ==> QuantityOf(r, q) == QuantityOf(items, q)
    ensures WellFormed(items) ==> WellFormed(r)
  {
    var i := FindIndex(items, p);
    var next := items[i].quantity + delta;
    if next <= 0 then
      assert WellFormed(items) ==> WellFormed(Without(items, p)) by {
        if WellFormed(items) { FilterWellFormed(items, (e: Entry) => e.product != p); }
      }
      assert forall q :: q != p ==> QuantityOf(Without(items, p), q) == QuantityOf(items, q) by {
        forall q | q != p ensures QuantityOf(Without(items, p), q) == QuantityOf(items, q) {
          WithoutKeepsOthers(items, p, q);
        }
      }
      Without(items, p)
    else
      var r := items[i := items[i].(quantity := next)];
      MergedLookup(items, i, next);
      r
  }

  /** Filtering out `p` keeps the quantity of every other product. */
  lemma {:induction false} WithoutKeepsOthers(items: seq<Entry>, p: ProductId, q: ProductId)
    requires q != p
    ensures QuantityOf(Without(items, p), q) == QuantityOf(items, q)
  {
    if items != [] {
      var rest := items[1..];
      WithoutCons(items, p);
      WithoutKeepsOthers(rest, p, q);
      QuantityOfCons(items[0], rest, q);
      assert items == [items[0]] + rest;
      if items[0].product != p {
        QuantityOfCons(items[0], Without(rest, p), q);
      }
    }
  }

  /** The quantity of `q` in a cart with `e` in front. */
  lemma QuantityOfCons(e: Entry, rest: seq<Entry>, q: ProductId)
    ensures QuantityOf([e] + rest, q) == if e.product == q then e.quantity else QuantityOf(rest, q)
  {
    assert ([e] + rest)[1..] == rest;
  }

  /** Every stored cart is well formed. */
  predicate AllWellFormed(carts: map<UserId, seq<Entry>>) {
    forall u :: u in carts ==> WellFormed(carts[u])
  }

  /** Storing a well-formed cart keeps every cart well formed. */
  lemma StoreWellFormed(carts: map<UserId, seq<Entry>>, user: UserId, items: seq<Entry>)
    requires AllWellFormed(carts) && WellFormed(items)
    ensures AllWellFormed(carts[user := items])
  {
  }

  /** All carts, by owner. */
  class Carts {
    var carts: map<UserId, seq<Entry>>

    ghost predicate Valid()
      reads this
    {
      AllWellFormed(carts)
    }

    constructor ()
      ensures Valid() && carts == map[]
    {
      carts := map[];
    }
  }

  /** `cleanupOrphanItems`: drops the entries whose product no longer exists
      and saves the cart; `None` when the user has no cart. */
  method CleanupOrphanItems(carts: Carts, catalog: Catalog, user: UserId)
    returns (r: Option<seq<Entry>>)
    requires carts.Valid()
    modifies carts
    ensures carts.Valid()
    ensures user !in old(carts.carts) ==> r.None? && carts.carts == old(carts.carts)
    ensures user in old(carts.carts) ==>
      && r == Some(Pruned(old(carts.carts)[user], catalog.products))
      && carts.carts == old(carts.carts)[user := r.value]
  {
    if user !in carts.carts {
      return None;
    }
    var before := carts.carts[user];
    var items := Pruned(before, catalog.products);
    PrunedWellFormed(before, catalog.products);
    if |items| != |before| {
      carts.carts := carts.carts[user := items];
    } else {
      PrunedSameLength(before, catalog.products);
    }
    r := Some(items);
  }

  /** `GET /`: the caller's cart, created empty when absent, otherwise pruned. */
  method GetCart(carts: Carts, catalog: Catalog, user: UserId) returns (items: seq<Entry>)
    requires carts.Valid()
    modifies carts
    ensures carts.Valid()
    ensures items == (if user in old(carts.carts) then Pruned(old(carts.carts)[user], catalog.products) else [])
    ensures carts.carts == old(carts.carts)[user := items]
  {
    if user !in carts.carts {
      carts.carts := carts.carts[user := []];
      return [];
    }
    var cleaned := CleanupOrphanItems(carts, catalog, user);
    items := cleaned.value;
  }

  /** `POST /`: adds a product to the caller's cart. Only a successful add saves. */
  method AddItem(carts: Carts, catalog: Catalog, user: UserId, productId: Option<ProductId>, quantity: Option<int>)
    returns (r: Result<seq<Entry>, CartError>)
    requires carts.Valid()
    modifies carts
    ensures carts.Valid()
    ensures r == (
      if productId.None? then Failure(MissingProductId)
      else if productId.value !in catalog.products then Failure(UnknownProduct)
      else if catalog.products[productId.value].stock <= 0 then Failure(OutOfStock)
      else AddToItems(CartOf(old(carts.carts), user), productId.value, AddQuantity(quantity),
                      catalog.products[productId.value].stock))
    ensures carts.carts == if r.Success? then old(carts.carts)[user := r.value] else old(carts.carts)
  {
    if productId.None? {
      return Failure(MissingProductId);
    }
    var pid := productId.value;
    var add := AddQuantity(quantity);
    if pid !in catalog.products {
      return Failure(UnknownProduct);
    }
    var product := catalog.products[pid];
    if product.stock <= 0 {
      return Failure(OutOfStock);
    }
    var items := CartOf(carts.carts, user);
    ghost var before := items;
    var index := FindIndex(items, pid);
    if index > -1 {
      var next := items[index].quantity + add;
      if next > product.stock {
        return Failure(StockExceeded(product.stock));
      }
      items := items[index := items[index].(quantity := next)];
    } else {
      if add > product.stock {
        return Failure(StockExceeded(product.stock));
      }
      items := items + [Entry(pid, add)];
    }
    assert AddToItems(before, pid, add, product.stock) == Success(items);
    carts.carts := carts.carts[user := items];
    r := Success(items);
  }

  /** `DELETE /:productId`: removes the product's entry from the caller's cart. */
  method RemoveItem(carts: Carts, user: UserId, p: ProductId) returns (r: Result<seq<Entry>, CartError>)
    requires carts.Valid()
    modifies carts
    ensures carts.Valid()
    ensures user !in old(carts.carts) ==> r == Failure(CartNotFound)
    ensures user in old(carts.carts) && FindIndex(old(carts.carts)[user], p) < 0 ==> r == Failure(ItemNotInCart)
    ensures user in old(carts.carts) && FindIndex(old(carts.carts)[user], p) >= 0 ==>
      r == Success(Without(old(carts.carts)[user], p))
    ensures carts.carts == if r.Success? then old(carts.carts)[user := r.value] else old(carts.carts)
  {
    if user !in carts.carts {
      return Failure(CartNotFound);
    }
    var items := carts.carts[user];
    var index := FindIndex(items, p);
    if index == -1 {
      return Failure(ItemNotInCart);
    }
    SpliceIsWithout(items, p);
    FilterWellFormed(items, (e: Entry) => e.product != p);
    items := items[..index] + items[index + 1..];
    carts.carts := carts.carts[user := items];
    r := Success(items);
  }

  /** The outcome of `PUT /:productId` on the caller's cart `items`: the checks
      in the handler's order (entry present; on +1 the product exists and has
      stock for one more), then the ±1 step and the prune of orphaned entries. */
  function QuantityChange(items: seq<Entry>, products: map<ProductId, Product>, p: ProductId, delta: int)
    : (r: Result<seq<Entry>, CartError>)
    requires delta == 1 || delta == -1
    ensures FindIndex(items, p) < 0 ==> r == Failure(ItemNotInCart)
    ensures FindIndex(items, p) >= 0 && delta == 1 && p !in products ==> r == Failure(UnknownProduct)
    ensures FindIndex(items, p) >= 0 && delta == 1 && p in products
            && QuantityOf(items, p) + 1 > products[p].stock ==>
      r == Failure(StockExceeded(products[p].stock))
    ensures r.Success? <==>
      FindIndex(items, p) >= 0 && (delta == -1 || (p in products && QuantityOf(items, p) + 1 <= products[p].stock))
    ensures r.Success? ==> r.value == Pruned(ApplyDelta(items, p, delta), products)
    ensures r.Success? && WellFormed(items) ==> WellFormed(r.value)
  {
    var index := FindIndex(items, p);
    if index < 0 then Failure(ItemNotInCart)
    else if delta == 1 && p !in products then Failure(UnknownProduct)
    else if delta == 1 && items[index].quantity + 1 > products[p].stock then Failure(StockExceeded(products[p].stock))
    else
      var stepped := ApplyDelta(items, p, delta);
      assert WellFormed(items) ==> WellFormed(Pruned(stepped, products)) by {
        if WellFormed(items) {
          PrunedWellFormed(stepped, products);
        }
      }
      Success(Pruned(stepped, products))
  }

  /** `PUT /:productId` with `delta` ±1: runs the checks, steps the quantity,
      saves, then prunes orphaned entries as the cleanup does. */
  method ChangeQuantity(carts: Carts, catalog: Catalog, user: UserId, p: ProductId, delta: int)
    returns (r: Result<seq<Entry>, CartError>)
    requires carts.Valid()
    modifies carts
    ensures carts.Valid()
    ensures delta != 1 && delta != -1 ==> r == Failure(InvalidDelta)
    ensures (delta == 1 || delta == -1) && user !in old(carts.carts) ==> r == Failure(CartNotFound)
    ensures (delta == 1 || delta == -1) && user in old(carts.carts) ==>
      r == QuantityChange(old(carts.carts)[user], catalog.products, p, delta)
    ensures carts.carts == if r.Success? then old(carts.carts)[user := r.value] else old(carts.carts)
  {
    if delta != 1 && delta != -1 {
      return Failure(InvalidDelta);
    }
    if user !in carts.carts {
      return Failure(CartNotFound);
    }
    var before := carts.carts;
    var items := before[user];
    assert WellFormed(items);
    r := QuantityChange(items, catalog.products, p, delta);
    if r.Success? {
      var stepped := ApplyDelta(items, p, delta);
      assert WellFormed(stepped);
      StoreWellFormed(before, user, stepped);
      carts.carts := before[user := stepped];
      var cleaned := CleanupOrphanItems(carts, catalog, user);
      r := Success(cleaned.value);
      UpdateTwice(before, user, stepped, cleaned.value);
    }
  }

  /** A second store under the same key overrides the first. */
  lemma UpdateTwice<K, V>(m: map<K, V>, k: K, first: V, second: V)
    ensures m[k := first][k := second] == m[k := second]
  {
  }
}
