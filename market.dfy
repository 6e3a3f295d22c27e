/** market/models.py: products, stock records (ProductAvailability), the
    category filter, the discount queries and the rating of a product. */
module MarketModels {
  import opened Wrappers
  import opened Queries
  import opened CoreModels

  type ProductId = nat
  type StockId = nat

  /** A product; `discount` and `category` are nullable. */
  datatype Product = Product(
    name: string,
    discount: Option<int>,
    currentPrice: int,
    realPrice: int,
    category: Option<CategoryId>)

  /** ProductAvailability: `amount` units of a (nullable) product in a shop. */
  datatype StockRecord = StockRecord(product: Option<ProductId>, amount: int, shop: ShopId)

  /** The parent of a nullable category reference (`category__parent`). */
  function ParentOf(categories: seq<Category>, c: Option<CategoryId>): Option<CategoryId>
  {
    if c.Some? && c.value < |categories| then categories[c.value].parent else None
  }

  /** The three disjuncts of `category_filter`: the product's category is `c`,
      its parent is `c`, or its grandparent is `c`. */
  predicate WithinTwoLevels(categories: seq<Category>, p: Product, c: CategoryId)
  {
    || p.category == Some(c)
    || ParentOf(categories, p.category) == Some(c)
    || ParentOf(categories, ParentOf(categories, p.category)) == Some(c)
  }

  /** ProductManager.category_filter. */
  function CategoryFilter(products: seq<Product>, categories: seq<Category>, c: CategoryId): (r: seq<ProductId>)
    ensures forall i: nat :: i in r <==> i < |products| && WithinTwoLevels(categories, products[i], c)
  {
    Where(|products|, (i: nat) => i < |products| && WithinTwoLevels(categories, products[i], c))
  }

  /** In a chain of distinct categories `g3 -> g2 -> g1 -> c`, a product of
      `g2` is found by the filter on `c`, and a product of `g3` (three levels
      down) is not. */
  lemma CategoryFilterStopsAtGrandchildren(
    products: seq<Product>, categories: seq<Category>, c: CategoryId,
    g1: CategoryId, g2: CategoryId, g3: CategoryId, i: ProductId, j: ProductId)
    requires c < |categories| && g1 < |categories| && g2 < |categories| && g3 < |categories|
    requires c != g1 && c != g2 && c != g3 && g1 != g2 && g1 != g3 && g2 != g3
    requires categories[g1].parent == Some(c)
    requires categories[g2].parent == Some(g1)
    requires categories[g3].parent == Some(g2)
    requires i < |products| && products[i].category == Some(g2)
    requires j < |products| && products[j].category == Some(g3)
    ensures i in CategoryFilter(products, categories, c)
    ensures j !in CategoryFilter(products, categories, c)
  {
  }

  /** ProductManager.discounts: the products whose discount is not null. */
  function Discounts(products: seq<Product>): (r: seq<ProductId>)
    ensures forall i: nat :: i in r <==> i < |products| && products[i].discount.Some?
  {
    Where(|products|, (i: nat) => i < |products| && products[i].discount.Some?)
  }

  /** What `remove_discounts` does to one product. */
  function WithoutDiscount(p: Product): Product
  {
    p.(discount := None, currentPrice := p.realPrice)
  }

  /** The product table after `remove_discounts(ids)`. */
  function WithoutDiscounts(products: seq<Product>, ids: set<ProductId>): (r: seq<Product>)
    ensures |r| == |products|
    ensures forall i :: 0 <= i < |products| && i !in ids ==> r[i] == products[i]
    ensures forall i :: 0 <= i < |products| && i in ids ==> r[i].discount == None && r[i].currentPrice == r[i].realPrice
  {
    seq(|products|, i requires 0 <= i < |products| =>
      if i in ids then WithoutDiscount(products[i]) else products[i])
  }

  /** What `set_discounts` does to one product: the discount field is set;
      the new current price is `price(real_price, discount)`, the floating
      point expression `real_price - real_price * (discount / 100)` stored in
      an integer column, which this model leaves as a parameter. */
  function WithDiscount(p: Product, discount: int, price: (int, int) -> int): Product
  {
    p.(discount := Some(discount), currentPrice := price(p.realPrice, discount))
  }

  /** The product table after `set_discounts(ids, discount)`. */
  function WithDiscounts(products: seq<Product>, ids: set<ProductId>, discount: int, price: (int, int) -> int): (r: seq<Product>)
    ensures |r| == |products|
    ensures forall i :: 0 <= i < |products| && i !in ids ==> r[i] == products[i]
    ensures forall i :: 0 <= i < |products| && i in ids ==> r[i].discount == Some(discount)
  {
    seq(|products|, i requires 0 <= i < |products| =>
      if i in ids then WithDiscount(products[i], discount, price) else products[i])
  }

  /** Removing discounts: each listed product loses its discount and is back
      at its real price, every other product is untouched, a second removal
      changes nothing, and no listed product is among the discounts. */
  lemma RemoveDiscountsSpec(products: seq<Product>, ids: set<ProductId>)
    ensures |WithoutDiscounts(products, ids)| == |products|
    ensures forall i :: 0 <= i < |products| && i in ids ==>
      var q := WithoutDiscounts(products, ids)[i];
      q.discount == None && q.currentPrice == products[i].realPrice && q.realPrice == products[i].realPrice
      && q.name == products[i].name && q.category == products[i].category
    ensures forall i :: 0 <= i < |products| && i !in ids ==> WithoutDiscounts(products, ids)[i] == products[i]
    ensures WithoutDiscounts(WithoutDiscounts(products, ids), ids) == WithoutDiscounts(products, ids)
    ensures forall i: nat :: i in ids ==> i !in Discounts(WithoutDiscounts(products, ids))
  {
  }

  /** Setting discounts: each listed product gets the discount field and the
      computed price while its real price is kept, every other product is
      untouched, and every listed product is then among the discounts. */
  lemma SetDiscountsSpec(products: seq<Product>, ids: set<ProductId>, discount: int, price: (int, int) -> int)
    ensures |WithDiscounts(products, ids, discount, price)| == |products|
    ensures forall i :: 0 <= i < |products| && i in ids ==>
      var q := WithDiscounts(products, ids, discount, price)[i];
      q.discount == Some(discount) && q.realPrice == products[i].realPrice
      && q.currentPrice == price(products[i].realPrice, discount)
    ensures forall i :: 0 <= i < |products| && i !in ids ==> WithDiscounts(products, ids, discount, price)[i] == products[i]
    ensures forall i: nat :: i in ids && i < |products| ==> i in Discounts(WithDiscounts(products, ids, discount, price))
  {
  }

  /** A review's star rating must lie in 1..5 (its two column validators). */
  predicate ValidStars(stars: int)
  {
    1 <= stars <= 5
  }

  function SumOf(s: seq<int>): int
  {
    if s == [] then 0 else SumOf(s[..|s| - 1]) + s[|s| - 1]
  }

  /** `Product.rating`: 0 without reviews; otherwise the mean of the stars,
      kept here as the exact pair (sum, count) because the source formats the
      floating point quotient as a two-decimal string. */
  datatype Rating = NoReviews | Mean(points: int, reviews: nat)

  function RatingOf(stars: seq<int>): (r: Rating)
    ensures r == NoReviews <==> |stars| == 0
    ensures r.Mean? ==> r.reviews == |stars| && r.points == SumOf(stars)
  {
    if |stars| == 0 then NoReviews else Mean(SumOf(stars), |stars|)
  }

  /** With valid reviews the mean lies in 1..5: count <= sum <= 5 * count. */
  lemma {:induction false} MeanWithinStars(stars: seq<int>)
    requires forall k :: 0 <= k < |stars| ==> ValidStars(stars[k])
    ensures |stars| <= SumOf(stars) <= 5 * |stars|
  {
    if stars != [] {
      MeanWithinStars(stars[..|stars| - 1]);
    }
  }
}
