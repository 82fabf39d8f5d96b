/**
 * The product records of the admin console and the selection made by
 * AdminPanel.renderProducts (admin.js:220-235): which products the grid
 * shows for the current value of the category filter.
 */
module ProductView {
  import opened Wrappers
  import opened Sequences
  import opened Category

  /**
   * A product as the backend returns it. `category` may be null or absent
   * in the JSON, hence an Option. The price is shown with two decimals,
   * which this model does not render.
   */
  datatype Product = Product(
    id: string,
    name: string,
    category: Option<string>,
    price: real,
    image: string,
    quickReview: Option<string>,
    status: string)

  /** `normalizeCategory(p.category) === selected` */
  predicate InCategory(p: Product, selected: string)
  {
    NormalizeCategory(p.category) == selected
  }

  /** A filter value is applied only when it is truthy: present and not "". */
  predicate FilterActive(filterValue: Option<string>)
  {
    filterValue.Some? && filterValue.value != ""
  }

  /**
   * The products renderProducts shows. `filterValue` is None when the page
   * has no `product-category-filter` element, otherwise the element's value.
   */
  function VisibleProducts(products: seq<Product>, filterValue: Option<string>): (shown: seq<Product>)
    ensures |shown| <= |products|
    ensures FilterActive(filterValue) ==>
              forall i :: 0 <= i < |shown| ==> NormalizeCategory(shown[i].category) == NormalizeCategory(filterValue)
  {
    if FilterActive(filterValue) then
      var selected := NormalizeCategory(filterValue);
      Filter(products, p => InCategory(p, selected))
    else products
  }

  /** Without an active filter the grid shows every product, in order. */
  lemma UnfilteredShowsAll(products: seq<Product>, filterValue: Option<string>)
    requires !FilterActive(filterValue)
    ensures VisibleProducts(products, filterValue) == products
  {
  }

  /**
   * With an active filter the grid shows exactly the products whose
   * normalised category equals the normalised filter value: an
   * order-preserving subsequence that keeps every copy of a matching
   * product and no copy of any other.
   */
  lemma FilteredShowsMatching(products: seq<Product>, value: string, p: Product)
    requires value != ""
    ensures IsSubsequence(VisibleProducts(products, Some(value)), products)
    ensures multiset(VisibleProducts(products, Some(value)))[p] ==
            if NormalizeCategory(p.category) == NormalizeCategory(Some(value))
            then multiset(products)[p] else 0
    ensures p in VisibleProducts(products, Some(value)) <==>
            p in products && NormalizeCategory(p.category) == NormalizeCategory(Some(value))
  {
    var selected := NormalizeCategory(Some(value));
    FilterIsSubsequence(products, p => InCategory(p, selected));
    FilterCounts(products, p => InCategory(p, selected), p);
    FilterMembership(products, p => InCategory(p, selected), p);
  }

  /** Two filter values with the same normalised form show the same products. */
  lemma SameNormalFormSameView(products: seq<Product>, v1: string, v2: string)
    requires v1 != "" && v2 != ""
    requires NormalizeCategory(Some(v1)) == NormalizeCategory(Some(v2))
    ensures VisibleProducts(products, Some(v1)) == VisibleProducts(products, Some(v2))
  {
  }

  /**
   * Filtering by a normalised value shows the same products as filtering by
   * the label it came from (the filter value is itself normalised).
   */
  lemma NormalizedFilterSameView(products: seq<Product>, value: string)
    requires value != ""
    ensures NormalizeCategory(Some(value)) != ""
    ensures VisibleProducts(products, Some(NormalizeCategory(Some(value)))) ==
            VisibleProducts(products, Some(value))
  {
    NormalizeIdempotent(Some(value));
  }

  /** Re-rendering with the view's own output and filter changes nothing. */
  lemma RenderIdempotent(products: seq<Product>, filterValue: Option<string>)
    ensures VisibleProducts(VisibleProducts(products, filterValue), filterValue) ==
            VisibleProducts(products, filterValue)
  {
    if FilterActive(filterValue) {
      var selected := NormalizeCategory(filterValue);
      var shown := Filter(products, p => InCategory(p, selected));
      FilterKeepsAll(shown, p => InCategory(p, selected));
    }
  }

  /**
   * The catalogue scenario: a product labelled "Gift Card" and one labelled
   * "gift-card" are both shown under the filter "Gift Card", and under
   * "gift-card" too.
   */
  lemma GiftCardScenario(a: Product, b: Product)
    requires a.category == Some("Gift Card") && b.category == Some("gift-card")
    ensures VisibleProducts([a, b], Some("Gift Card")) == [a, b]
    ensures VisibleProducts([a, b], Some("gift-card")) == [a, b]
  {
    GiftCardExample();
    var ab := [a, b];
    assert NormalizeCategory(ab[0].category) == "gift-card";
    assert NormalizeCategory(ab[1].category) == "gift-card";
    FilterKeepsAll(ab, p => InCategory(p, "gift-card"));
  }
}
