/**
 * ProductServiceImpl over its repository: the products table as a map from id to row, with
 * create, get, update, soft-delete and search.
 */
module Catalog {
  import opened Common
  import opened Entities
  import opened ProductSpecifications

  /** ProductRequest: the four fields a client supplies. */
  datatype ProductRequest = ProductRequest(name: string, description: string, price: int, quantity: int)

  /** ProductResponse, without the audit timestamps. */
  datatype ProductResponse = ProductResponse(id: int, name: string, description: string, price: int,
                                             quantity: int, available: bool)

  /** ProductServiceImpl.mapToResponse(product). */
  function ToResponse(id: int, p: ProductData): (r: ProductResponse)
    ensures r.available == p.IsAvailable()
    ensures r.id == id && r.name == p.name && r.description == p.description
    ensures r.price == p.price && r.quantity == p.quantity
  {
    ProductResponse(id, p.name, p.description, p.price, p.quantity, p.IsAvailable())
  }

  /**
   * productRepository.findById(id): the entity's @Where(deleted = false) hides soft-deleted rows,
   * so an absent and a deleted product are both "not found".
   */
  function FindLive(products: map<int, ProductData>, id: int): (r: Result<ProductData>)
    ensures r.Ok? <==> id in products && !products[id].deleted
    ensures r.Ok? ==> r.value == products[id]
    ensures r.Err? ==> r.error == NotFound("Product", "id", id)
  {
    if id in products && !products[id].deleted then Ok(products[id]) else Err(NotFound("Product", "id", id))
  }

  /** ProductServiceImpl.buildProduct(request): the request's four fields, not deleted. */
  function BuildProduct(request: ProductRequest): (p: ProductData)
    ensures p.name == request.name && p.description == request.description
    ensures p.price == request.price && p.quantity == request.quantity && !p.deleted
  {
    ProductData(request.name, request.description, request.price, request.quantity, false)
  }

  /** The products table and the service operations over it. */
  class ProductStore {
    var products: map<int, ProductData>
    /** The id the next inserted product receives. */
    var nextId: int
    /** The ids passed to saveProduct, in call order. */
    ghost var saved: seq<int>

    ghost predicate Valid()
      reads this
    {
      forall id :: id in products ==> id < nextId
    }

    constructor ()
      ensures Valid() && products == map[] && saved == []
    {
      products, nextId, saved := map[], 1, [];
    }

    /** ProductServiceImpl.getProduct(id). */
    function GetProduct(id: int): (r: Result<ProductData>)
      reads this
      ensures r.Ok? <==> id in products && !products[id].deleted
      ensures r.Ok? ==> r.value == products[id]
      ensures r.Err? ==> r.error == NotFound("Product", "id", id)
    {
      FindLive(products, id)
    }

    /** ProductServiceImpl.getProductById(id): getProduct, mapped to a response. */
    function GetProductById(id: int): (r: Result<ProductResponse>)
      reads this
      ensures r.Ok? <==> id in products && !products[id].deleted
      ensures r.Ok? ==> r.value == ToResponse(id, products[id])
      ensures r.Err? ==> r.error == NotFound("Product", "id", id)
    {
      match GetProduct(id)
      case Ok(p) => Ok(ToResponse(id, p))
      case Err(e) => Err(e)
    }

    /** ProductServiceImpl.saveProduct(product): write the entity back to its row. */
    method SaveProduct(product: Product)
      requires Valid() && product.id < nextId
      modifies this
      ensures Valid() && nextId == old(nextId)
      ensures products == old(products)[product.id := product.Data()]
      ensures saved == old(saved) + [product.id]
    {
      products := products[product.id := product.Data()];
      saved := saved + [product.id];
    }

    /** Undo every change of the enclosing transaction (the effect of @Transactional on failure). */
    method Rollback(snapshot: map<int, ProductData>, ghost savedBefore: seq<int>)
      requires forall id :: id in snapshot ==> id < nextId
      modifies this
      ensures Valid() && nextId == old(nextId)
      ensures products == snapshot && saved == savedBefore
    {
      products := snapshot;
      saved := savedBefore;
    }

    /** ProductServiceImpl.createProduct(request): insert the built product under a new id. */
    method CreateProduct(request: ProductRequest) returns (response: ProductResponse)
      requires Valid()
      modifies this
      ensures Valid() && old(nextId) !in old(products)
      ensures products == old(products)[old(nextId) := BuildProduct(request)]
      ensures response == ToResponse(old(nextId), BuildProduct(request))
      ensures saved == old(saved) + [old(nextId)]
    {
      var product := new Product.Load(nextId, BuildProduct(request));
      nextId := nextId + 1;
      SaveProduct(product);
      response := ToResponse(product.id, product.Data());
    }

    /**
     * ProductServiceImpl.updateProduct(id, request): getProduct, then overwrite name, description,
     * price and quantity, then save; the deleted flag is kept.
     */
    method UpdateProduct(id: int, request: ProductRequest) returns (r: Result<ProductResponse>)
      requires Valid()
      modifies this
      ensures Valid()
      ensures r.Ok? <==> old(GetProduct(id)).Ok?
      ensures r.Ok? ==>
        var updated := old(products)[id].(name := request.name, description := request.description,
                                          price := request.price, quantity := request.quantity);
        && products == old(products)[id := updated]
        && r.value == ToResponse(id, updated)
        && saved == old(saved) + [id]
      ensures r.Err? ==>
        && r.error == NotFound("Product", "id", id)
        && products == old(products) && saved == old(saved)
      ensures nextId == old(nextId)
    {
      var found := GetProduct(id);
      if found.Err? {
        return Err(found.error);
      }
      var product := new Product.Load(id, found.value);
      product.name := request.name;
      product.description := request.description;
      product.price := request.price;
      product.quantity := request.quantity;
      SaveProduct(product);
      r := Ok(ToResponse(id, product.Data()));
    }

    /** ProductServiceImpl.deleteProduct(id): getProduct, then the soft delete of @SQLDelete. */
    method DeleteProduct(id: int) returns (r: Outcome)
      requires Valid()
      modifies this
      ensures Valid()
      ensures r.Pass? <==> old(GetProduct(id)).Ok?
      ensures r.Pass? ==> products == old(products)[id := old(products)[id].(deleted := true)]
      ensures r.Fail? ==> r.error == NotFound("Product", "id", id) && products == old(products)
      ensures GetProduct(id).Err? && saved == old(saved) && nextId == old(nextId)
    {
      var found := GetProduct(id);
      if found.Err? {
        return Fail(found.error);
      }
      products := products[id := found.value.(deleted := true)];
      r := Pass;
    }

    /** ProductServiceImpl.searchProducts(name, minPrice, maxPrice, available), without paging. */
    function SearchProducts(name: Option<string>, minPrice: Option<int>, maxPrice: Option<int>,
                            available: Option<bool>): (r: map<int, ProductResponse>)
      reads this
      ensures r.Keys <= products.Keys
      ensures forall id :: id in r ==> r[id] == ToResponse(id, products[id])
    {
      map id | id in products && Matches(name, minPrice, maxPrice, available, products[id])
        :: ToResponse(id, products[id])
    }
  }

  /** A search returns exactly the products that satisfy every filter, and never a deleted one. */
  lemma SearchIsConjunction(s: ProductStore, name: Option<string>, minPrice: Option<int>,
                            maxPrice: Option<int>, available: Option<bool>, id: int)
    ensures id in s.SearchProducts(name, minPrice, maxPrice, available) <==>
      id in s.products && !s.products[id].deleted
      && NameContains(name, s.products[id]) && MinPrice(minPrice, s.products[id])
      && MaxPrice(maxPrice, s.products[id]) && Available(available, s.products[id])
  {
  }

  /** Searching for available products returns only responses that say so. */
  lemma SearchAvailableOnlyAvailable(s: ProductStore, name: Option<string>, minPrice: Option<int>,
                                     maxPrice: Option<int>, id: int)
    requires id in s.SearchProducts(name, minPrice, maxPrice, Some(true))
    ensures s.SearchProducts(name, minPrice, maxPrice, Some(true))[id].available
  {
    AvailableTrueMeansIsAvailable(s.products[id]);
  }

  /** Without filters the search returns every product that getProduct finds. */
  lemma SearchWithoutFilters(s: ProductStore, id: int)
    ensures id in s.SearchProducts(None, None, None, None) <==> s.GetProduct(id).Ok?
  {
  }

  /** After a successful delete, getProduct and getProductById fail for that id. */
  lemma DeletedIsNotFound(products: map<int, ProductData>, id: int)
    requires id in products
    ensures FindLive(products[id := products[id].(deleted := true)], id) == Err(NotFound("Product", "id", id))
  {
  }
}
