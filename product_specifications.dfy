/**
 * The search filters of ProductSpecifications, as predicates over a product row. A filter whose
 * argument is null (None) imposes no constraint; the filters are combined by AND.
 */
module ProductSpecifications {
  import opened Common
  import opened Text
  import opened Entities

  /** nameContains(name): the lower-case name contains the lower-case query. */
  predicate NameContains(name: Option<string>, p: ProductData) {
    name.None? || Contains(Lower(p.name), Lower(name.value))
  }

  /** minPrice(minPrice): an inclusive lower bound on the price. */
  predicate MinPrice(minPrice: Option<int>, p: ProductData) {
    minPrice.None? || p.price >= minPrice.value
  }

  /** maxPrice(maxPrice): an inclusive upper bound on the price. */
  predicate MaxPrice(maxPrice: Option<int>, p: ProductData) {
    maxPrice.None? || p.price <= maxPrice.value
  }

  /** available(available): only `true` constrains, to products with quantity > 0. */
  predicate Available(available: Option<bool>, p: ProductData) {
    available.None? || !available.value || p.quantity > 0
  }

  /** notDeleted(): the product is not soft-deleted. */
  predicate NotDeleted(p: ProductData) {
    !p.deleted
  }

  /** The specification searchProducts builds: where(notDeleted).and(name).and(min).and(max).and(available). */
  predicate Matches(name: Option<string>, minPrice: Option<int>, maxPrice: Option<int>, available: Option<bool>,
                    p: ProductData)
  {
    NotDeleted(p) && NameContains(name, p) && MinPrice(minPrice, p) && MaxPrice(maxPrice, p) && Available(available, p)
  }

  /** With every argument null, a product matches iff it is not deleted. */
  lemma NoFilterMatchesLiveProducts(p: ProductData)
    ensures Matches(None, None, None, None, p) <==> !p.deleted
  {
  }

  /** `available = false` filters nothing: it does not select unavailable products. */
  lemma AvailableFalseIsNoConstraint(p: ProductData)
    ensures Available(Some(false), p) && Available(None, p)
  {
  }

  /** Together with notDeleted, `available = true` selects exactly the products that are available. */
  lemma AvailableTrueMeansIsAvailable(p: ProductData)
    ensures NotDeleted(p) && Available(Some(true), p) <==> p.IsAvailable()
  {
  }

  /** The name filter ignores the case of both the query and the product name. */
  lemma NameContainsIgnoresCase(q1: string, q2: string, p: ProductData, p2: ProductData)
    requires EqualsIgnoreCase(q1, q2) && EqualsIgnoreCase(p.name, p2.name)
    ensures NameContains(Some(q1), p) <==> NameContains(Some(q2), p2)
  {
  }

  /** The empty query is contained in every name. */
  lemma EmptyNameMatchesAll(p: ProductData)
    ensures NameContains(Some(""), p)
  {
    assert OccursAt(Lower(p.name), Lower(""), 0);
  }

  /** A product whose name is the query, in any case, passes the name filter. */
  lemma NameMatchesItself(q: string, p: ProductData)
    requires EqualsIgnoreCase(q, p.name)
    ensures NameContains(Some(q), p)
  {
    assert Lower(p.name)[0..|Lower(q)|] == Lower(q);
    assert OccursAt(Lower(p.name), Lower(q), 0);
  }

  /** The price bounds are inclusive: a product priced exactly at a bound passes both. */
  lemma PriceBoundsInclusive(p: ProductData)
    ensures MinPrice(Some(p.price), p) && MaxPrice(Some(p.price), p)
    ensures forall b :: MinPrice(Some(b), p) <==> b <= p.price
    ensures forall b :: MaxPrice(Some(b), p) <==> p.price <= b
  {
  }
}
