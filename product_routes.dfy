/**
 * The product catalog of backend/routes/productRoutes.js. Products are stored
 * by id; ids are handed out in increasing order (as document ids grow with
 * creation time), so "sorted by id, descending" lists the newest first.
 * Create, update and delete sit behind `protect` and `admin`.
 */
module ProductRoutes {
  import opened Wrappers
  import opened AuthMiddleware

  type ProductId = nat

  /** A catalog item; prices are in cents. */
  datatype Product = Product(name: string, price: int, stock: int, image: Option<string>, description: Option<string>)

  /** The body of `PUT /:id`: each field is either absent (`undefined`) or a new value. */
  datatype ProductPatch = ProductPatch(
    name: Option<string>, price: Option<int>, stock: Option<int>,
    image: Option<string>, description: Option<string>)

  datatype ProductError = Gate(gate: GateError) | ProductNotFound {
    function Status(): nat {
      match this
      case Gate(g) => g.Status()
      case ProductNotFound => 404
    }
  }

  /** The product collection. */
  class Catalog {
    var products: map<ProductId, Product>
    var nextId: ProductId

    /** Every stored id was handed out before `nextId`. */
    ghost predicate Valid()
      reads this
    {
      forall id :: id in products ==> id < nextId
    }

    constructor ()
      ensures Valid() && products == map[] && nextId == 0
    {
      products := map[];
      nextId := 0;
    }
  }

  /** The ids below `bound` that are in `ids`, from the largest down. */
  function IdsDescending(ids: set<ProductId>, bound: ProductId): (r: seq<ProductId>)
    ensures forall i, j :: 0 <= i < j < |r| ==> r[i] > r[j]
    ensures forall k :: 0 <= k < |r| ==> r[k] in ids && r[k] < bound
  {
    if bound == 0 then []
    else
      var rest := IdsDescending(ids, bound - 1);
      if bound - 1 !in ids then rest
      else
        var r := [bound - 1] + rest;
        assert forall k :: 1 <= k < |r| ==> r[k] == rest[k - 1];
        r
  }

  /** Every id of `ids` below `bound` is listed. */
  lemma {:induction false} IdsDescendingComplete(ids: set<ProductId>, bound: ProductId, id: ProductId)
    requires id in ids && id < bound
    ensures id in IdsDescending(ids, bound)
  {
    var rest := IdsDescending(ids, bound - 1);
    if id < bound - 1 {
      IdsDescendingComplete(ids, bound - 1, id);
      if bound - 1 in ids {
        assert IdsDescending(ids, bound) == [bound - 1] + rest;
      }
    } else {
      assert IdsDescending(ids, bound)[0] == id;
    }
  }

  /** `GET /`: every product, sorted by id, descending. */
  function ListProducts(products: map<ProductId, Product>, nextId: ProductId): (r: seq<(ProductId, Product)>)
    requires forall id :: id in products ==> id < nextId
    ensures forall i, j :: 0 <= i < j < |r| ==> r[i].0 > r[j].0
    ensures forall i :: 0 <= i < |r| ==> r[i].0 in products && r[i].1 == products[r[i].0]
    ensures forall id :: id in products ==> exists i :: 0 <= i < |r| && r[i].0 == id
  {
    var ids := IdsDescending(products.Keys, nextId);
    var r := seq(|ids|, i requires 0 <= i < |ids| => (ids[i], products[ids[i]]));
    forall id | id in products
      ensures exists i :: 0 <= i < |r| && r[i].0 == id
    {
      IdsDescendingComplete(products.Keys, nextId, id);
      var i :| 0 <= i < |ids| && ids[i] == id;
      assert r[i].0 == id;
    }
    r
  }

  /** A product created last is listed first. */
  lemma NewestListedFirst(products: map<ProductId, Product>, nextId: ProductId, p: Product)
    requires forall id :: id in products ==> id < nextId
    ensures ListProducts(products[nextId := p], nextId + 1)[0] == (nextId, p)
  {
    var r := ListProducts(products[nextId := p], nextId + 1);
    var i :| 0 <= i < |r| && r[i].0 == nextId;
  }

  /** `GET /:id`: the product, or 404. */
  function GetProduct(products: map<ProductId, Product>, id: ProductId): (r: Result<Product, ProductError>)
    ensures r.Success? <==> id in products
    ensures r.Success? ==> r.value == products[id]
    ensures r.Failure? ==> r.error.Status() == 404
  {
    if id in products then Success(products[id]) else Failure(ProductNotFound)
  }

  /** `POST /`: an admin stores a new product under a fresh id. */
  method CreateProduct(catalog: Catalog, header: Option<string>, verify: Verifier, p: Product)
    returns (r: Result<(ProductId, Product), ProductError>)
    requires catalog.Valid()
    modifies catalog
    ensures catalog.Valid()
    ensures AdminAccess(header, verify).Failure? ==>
      r == Failure(Gate(AdminAccess(header, verify).error)) && unchanged(catalog)
    ensures AdminAccess(header, verify).Success? ==>
      && old(catalog.nextId) !in old(catalog.products)
      && r == Success((old(catalog.nextId), p))
      && catalog.products == old(catalog.products)[old(catalog.nextId) := p]
      && catalog.nextId == old(catalog.nextId) + 1
  {
    var access := AdminAccess(header, verify);
    if access.Failure? {
      return Failure(Gate(access.error));
    }
    var id := catalog.nextId;
    catalog.products := catalog.products[id := p];
    catalog.nextId := id + 1;
    r := Success((id, p));
  }

  /** `PUT /:id`: an admin overwrites exactly the fields present in the body.
      The new stock is stored as given, negative or not. */
  method UpdateProduct(catalog: Catalog, header: Option<string>, verify: Verifier, id: ProductId, patch: ProductPatch)
    returns (r: Result<Product, ProductError>)
    requires catalog.Valid()
    modifies catalog`products
    ensures catalog.Valid()
    ensures AdminAccess(header, verify).Failure? ==>
      r == Failure(Gate(AdminAccess(header, verify).error)) && catalog.products == old(catalog.products)
    ensures AdminAccess(header, verify).Success? && id !in old(catalog.products) ==>
      r == Failure(ProductNotFound) && catalog.products == old(catalog.products)
    ensures AdminAccess(header, verify).Success? && id in old(catalog.products) ==>
      var before := old(catalog.products)[id];
      && r.Success?
      && catalog.products == old(catalog.products)[id := r.value]
      && r.value.name == patch.name.GetOr(before.name)
      && r.value.price == patch.price.GetOr(before.price)
      && r.value.stock == patch.stock.GetOr(before.stock)
      && r.value.image == (if patch.image.Some? then patch.image else before.image)
      && r.value.description == (if patch.description.Some? then patch.description else before.description)
  {
    var access := AdminAccess(header, verify);
    if access.Failure? {
      return Failure(Gate(access.error));
    }
    if id !in catalog.products {
      return Failure(ProductNotFound);
    }
    var p := catalog.products[id];
    if patch.name.Some? { p := p.(name := patch.name.value); }
    if patch.price.Some? { p := p.(price := patch.price.value); }
    if patch.stock.Some? { p := p.(stock := patch.stock.value); }
    if patch.image.Some? { p := p.(image := patch.image); }
    if patch.description.Some? { p := p.(description := patch.description); }
    catalog.products := catalog.products[id := p];
    r := Success(p);
  }

  /** `DELETE /:id`: an admin removes exactly that product. */
  method DeleteProduct(catalog: Catalog, header: Option<string>, verify: Verifier, id: ProductId)
    returns (r: Result<(), ProductError>)
    requires catalog.Valid()
    modifies catalog`products
    ensures catalog.Valid()
    ensures AdminAccess(header, verify).Failure? ==>
      r == Failure(Gate(AdminAccess(header, verify).error)) && catalog.products == old(catalog.products)
    ensures AdminAccess(header, verify).Success? && id !in old(catalog.products) ==>
      r == Failure(ProductNotFound) && catalog.products == old(catalog.products)
    ensures AdminAccess(header, verify).Success? && id in old(catalog.products) ==>
      r == Success(()) && catalog.products == old(catalog.products) - {id}
  {
    var access := AdminAccess(header, verify);
    if access.Failure? {
      return Failure(Gate(access.error));
    }
    if id !in catalog.products {
      return Failure(ProductNotFound);
    }
    catalog.products := catalog.products - {id};
    r := Success(());
  }
}
