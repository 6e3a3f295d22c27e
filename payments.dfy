/** payments/models.py, the pure part: credit cards, carts as lists of
    lines, the recomputed cart total, the balance and availability checks,
    transactions, orders, the choice of an assignee and the order queries. */
module PaymentsModels {
  import opened Wrappers
  import opened Constants
  import opened Queries
  import opened CoreModels
  import opened MarketModels
  import opened AuthModels
  import opened Permissions

  type CartId = nat
  type TransactionId = nat
  type OrderId = nat

  /** CreditCard: only the integer balance takes part in the workflow. */
  datatype Card = Card(balance: int)

  /** CartItem (a ProductUnit): a product and a quantity. */
  datatype CartItem = CartItem(product: ProductId, amount: int)

  /** Cart: a nullable owner and its M2M `cart_items`, in insertion order. */
  datatype Cart = Cart(owner: Option<UserId>, lines: seq<CartItem>)

  /** Transaction: the snapshot cart and the chosen stock record. */
  datatype Transaction = Transaction(cart: CartId, availability: StockId)

  /** Order: its transaction, its status and its nullable assignee. */
  datatype Order = Order(transaction: TransactionId, status: OrderStatus, assignee: Option<UserId>)

  /** The exceptions the workflow raises, by meaning. */
  datatype Failure =
    | ProductDoesNotExist
    | CartDoesNotExist
    | MultipleCartsReturned
    | NoCreditCard
    | NotEnoughMoney
    | NotAvailable
    | OrderDoesNotExist
    | Forbidden
    | NegativeBalance
    | CardRejected

  /** `product.current_price` (0 for a key outside the table, which a
      well-formed store never holds). */
  function Price(products: seq<Product>, p: ProductId): int
  {
    if p < |products| then products[p].currentPrice else 0
  }

  /** `Cart.total_sum`: the sum of amount * current price over the lines. */
  function Total(lines: seq<CartItem>, products: seq<Product>): int
  {
    if lines == [] then 0
    else Total(lines[..|lines| - 1], products) + lines[|lines| - 1].amount * Price(products, lines[|lines| - 1].product)
  }

  /** With non-negative amounts and prices the total is non-negative. */
  lemma {:induction false} TotalNonNegative(lines: seq<CartItem>, products: seq<Product>)
    requires forall i :: 0 <= i < |lines| ==> lines[i].amount >= 0 && Price(products, lines[i].product) >= 0
    ensures Total(lines, products) >= 0
  {
    if lines != [] {
      var init := lines[..|lines| - 1];
      assert forall i :: 0 <= i < |init| ==> init[i] == lines[i];
      TotalNonNegative(init, products);
      var last := lines[|lines| - 1];
      assert last.amount * Price(products, last.product) >= 0;
    }
  }

  /** The total of two runs of lines is the sum of their totals. */
  lemma {:induction false} TotalConcat(a: seq<CartItem>, b: seq<CartItem>, products: seq<Product>)
    ensures Total(a + b, products) == Total(a, products) + Total(b, products)
  {
    if b == [] {
      assert a + b == a;
    } else {
      var ab := a + b;
      assert ab[..|ab| - 1] == a + b[..|b| - 1];
      assert ab[|ab| - 1] == b[|b| - 1];
      TotalConcat(a, b[..|b| - 1], products);
    }
  }

  /** The total of one line. */
  lemma TotalSingle(x: CartItem, products: seq<Product>)
    ensures Total([x], products) == x.amount * Price(products, x.product)
  {
    assert [x][..0] == [];
  }

  /** Replacing one line changes the total by exactly the difference of the
      two lines' subtotals. */
  lemma TotalUpdate(lines: seq<CartItem>, k: nat, x: CartItem, products: seq<Product>)
    requires k < |lines|
    ensures Total(lines[k := x], products) ==
      Total(lines, products) - lines[k].amount * Price(products, lines[k].product) + x.amount * Price(products, x.product)
  {
    assert lines == lines[..k] + [lines[k]] + lines[k + 1..];
    assert lines[k := x] == lines[..k] + [x] + lines[k + 1..];
    TotalConcat(lines[..k] + [lines[k]], lines[k + 1..], products);
    TotalConcat(lines[..k], [lines[k]], products);
    TotalConcat(lines[..k] + [x], lines[k + 1..], products);
    TotalConcat(lines[..k], [x], products);
    TotalSingle(lines[k], products);
    TotalSingle(x, products);
  }

  /** The summed quantity of product `p` over the lines. */
  function QuantityOf(lines: seq<CartItem>, p: ProductId): int
  {
    if lines == [] then 0
    else QuantityOf(lines[..|lines| - 1], p) + (if lines[|lines| - 1].product == p then lines[|lines| - 1].amount else 0)
  }

  /** The total is recomputed from current prices on every read: changing
      one product's price moves the total of any cart, a snapshot included, by
      the quantity of that product times the price difference. */
  lemma {:induction false} TotalPriceChange(lines: seq<CartItem>, products: seq<Product>, p: ProductId, price: int)
    requires p < |products|
    ensures Total(lines, products[p := products[p].(currentPrice := price)]) ==
      Total(lines, products) + QuantityOf(lines, p) * (price - products[p].currentPrice)
  {
    if lines != [] {
      TotalPriceChange(lines[..|lines| - 1], products, p, price);
    }
  }

  /** No two lines of a cart hold the same product. */
  predicate UniqueLines(lines: seq<CartItem>)
  {
    forall i, j :: 0 <= i < j < |lines| ==> lines[i].product != lines[j].product
  }

  /** `cart_items.filter(product=p).first()`: the first line holding `p`. */
  function FindLine(lines: seq<CartItem>, p: ProductId): (r: Option<nat>)
    ensures r.Some? ==> r.value < |lines| && lines[r.value].product == p
                        && forall j :: 0 <= j < r.value ==> lines[j].product != p
    ensures r.None? ==> forall j :: 0 <= j < |lines| ==> lines[j].product != p
  {
    if lines == [] then None
    else if lines[0].product == p then Some(0)
    else
      var rest := FindLine(lines[1..], p);
      assert forall j :: 1 <= j < |lines| ==> lines[j] == lines[1..][j - 1];
      if rest.Some? then Some(rest.value + 1) else None
  }

  /** The amount recorded for product `p`: the first line's, if any. */
  function AmountOf(lines: seq<CartItem>, p: ProductId): Option<int>
  {
    var k := FindLine(lines, p);
    if k.Some? then Some(lines[k.value].amount) else None
  }

  /** CartManager.add_product on the lines: overwrite the amount of the line
      already holding the product, otherwise append a new line. */
  function Upsert(lines: seq<CartItem>, p: ProductId, amount: int): (r: seq<CartItem>)
    ensures CartItem(p, amount) in r
    ensures forall y :: y in r ==> y in lines || y == CartItem(p, amount)
    ensures forall i :: 0 <= i < |lines| && lines[i].product != p ==> lines[i] in r
  {
    var k := FindLine(lines, p);
    if k.Some? then
      var r := lines[k.value := CartItem(p, amount)];
      assert r[k.value] == CartItem(p, amount);
      assert forall i :: 0 <= i < |lines| && i != k.value ==> r[i] == lines[i];
      r
    else
      var r := lines + [CartItem(p, amount)];
      assert r[|lines|] == CartItem(p, amount);
      assert forall i :: 0 <= i < |lines| ==> r[i] == lines[i];
      r
  }

  /** CartManager.remove_product on the lines: drop the first line holding
      the product; with none, `remove(None)` leaves the lines as they are. */
  function RemoveLine(lines: seq<CartItem>, p: ProductId): (r: seq<CartItem>)
    ensures forall y :: y in r ==> y in lines
    ensures forall i :: 0 <= i < |lines| && lines[i].product != p ==> lines[i] in r
    ensures |r| == if exists i :: 0 <= i < |lines| && lines[i].product == p then |lines| - 1 else |lines|
  {
    var k := FindLine(lines, p);
    if k.Some? then lines[..k.value] + lines[k.value + 1..] else lines
  }

  /** `cart_items.add(item)` of an item already present is a no-op. */
  function AddItem(lines: seq<CartItem>, x: CartItem): (r: seq<CartItem>)
    ensures forall y :: y in r <==> y in lines || y == x
    ensures |r| == if x in lines then |lines| else |lines| + 1
  {
    if x in lines then lines else lines + [x]
  }

  /** The position of the first occurrence of `x`. */
  function IndexOf(lines: seq<CartItem>, x: CartItem): (k: nat)
    requires x in lines
    ensures k < |lines| && lines[k] == x && x !in lines[..k]
  {
    if lines[0] == x then 0
    else
      assert lines == [lines[0]] + lines[1..];
      var k := IndexOf(lines[1..], x) + 1;
      assert lines[..k] == [lines[0]] + lines[1..][..k - 1];
      k
  }

  /** `cart_items.remove(item)`: drop the first occurrence of the item, and
      nothing when it is absent. */
  function RemoveItem(lines: seq<CartItem>, x: CartItem): (r: seq<CartItem>)
    ensures multiset(r) == multiset(lines) - multiset{x}
    ensures x !in lines ==> r == lines
    ensures x in lines ==> r == lines[..IndexOf(lines, x)] + lines[IndexOf(lines, x) + 1..]
  {
    if lines == [] then []
    else if lines[0] == x then
      RemoveAtHead(lines, x);
      lines[1..]
    else
      var rest := RemoveItem(lines[1..], x);
      RemoveAfterHead(lines, x, rest);
      [lines[0]] + rest
  }

  /** Removing an item that is not at the head keeps the head and removes
      the item from the tail. */
  lemma RemoveAfterHead(lines: seq<CartItem>, x: CartItem, rest: seq<CartItem>)
    requires |lines| > 0 && lines[0] != x
    requires multiset(rest) == multiset(lines[1..]) - multiset{x}
    requires x !in lines[1..] ==> rest == lines[1..]
    requires x in lines[1..] ==> rest == lines[1..][..IndexOf(lines[1..], x)] + lines[1..][IndexOf(lines[1..], x) + 1..]
    ensures multiset([lines[0]] + rest) == multiset(lines) - multiset{x}
    ensures x !in lines ==> [lines[0]] + rest == lines
    ensures x in lines ==> [lines[0]] + rest == lines[..IndexOf(lines, x)] + lines[IndexOf(lines, x) + 1..]
  {
    InTail(lines, x);
    RemoveAfterHeadCount(lines, x, rest);
    if x in lines {
      RemoveAfterHeadAt(lines, x, rest);
    }
  }

  lemma InTail(lines: seq<CartItem>, x: CartItem)
    requires |lines| > 0 && lines[0] != x
    ensures x in lines <==> x in lines[1..]
  {
    assert lines == [lines[0]] + lines[1..];
  }

  lemma RemoveAtHead(lines: seq<CartItem>, x: CartItem)
    requires |lines| > 0 && lines[0] == x
    ensures multiset(lines[1..]) == multiset(lines) - multiset{x}
    ensures lines[1..] == lines[..IndexOf(lines, x)] + lines[IndexOf(lines, x) + 1..]
  {
    assert lines == [x] + lines[1..];
    assert lines[..0] == [];
  }

  lemma RemoveAfterHeadCount(lines: seq<CartItem>, x: CartItem, rest: seq<CartItem>)
    requires |lines| > 0 && lines[0] != x
    requires multiset(rest) == multiset(lines[1..]) - multiset{x}
    requires x !in lines[1..] ==> rest == lines[1..]
    ensures multiset([lines[0]] + rest) == multiset(lines) - multiset{x}
    ensures x !in lines ==> [lines[0]] + rest == lines
  {
    assert lines == [lines[0]] + lines[1..];
  }

  lemma RemoveAfterHeadAt(lines: seq<CartItem>, x: CartItem, rest: seq<CartItem>)
    requires |lines| > 0 && lines[0] != x && x in lines[1..]
    requires rest == lines[1..][..IndexOf(lines[1..], x)] + lines[1..][IndexOf(lines[1..], x) + 1..]
    ensures [lines[0]] + rest == lines[..IndexOf(lines, x)] + lines[IndexOf(lines, x) + 1..]
  {
    var k := IndexOf(lines[1..], x);
    assert IndexOf(lines, x) == k + 1;
    var lhs := [lines[0]] + rest;
    var rhs := lines[..k + 1] + lines[k + 2..];
    assert |lhs| == |rhs|;
    forall i | 0 <= i < |lhs|
      ensures lhs[i] == rhs[i]
    {
      if i == 0 {
      } else if i <= k {
        assert lhs[i] == rest[i - 1] == lines[1..][i - 1];
      } else {
        assert lhs[i] == rest[i - 1] == lines[1..][i];
      }
    }
  }

  /** Where the first line holding `q` is in a concatenation. */
  lemma {:induction false} FindLineConcat(a: seq<CartItem>, b: seq<CartItem>, q: ProductId)
    ensures FindLine(a + b, q) ==
      if FindLine(a, q).Some? then FindLine(a, q)
      else if FindLine(b, q).Some? then Some(|a| + FindLine(b, q).value)
      else None
  {
    if a == [] {
      assert a + b == b;
    } else {
      assert (a + b)[0] == a[0];
      assert (a + b)[1..] == a[1..] + b;
      FindLineConcat(a[1..], b, q);
    }
  }

  /** A leading line that is not `q` shifts the first line holding `q`. */
  lemma FindLineCons(x: CartItem, b: seq<CartItem>, q: ProductId)
    requires x.product != q
    ensures FindLine([x] + b, q) == if FindLine(b, q).Some? then Some(1 + FindLine(b, q).value) else None
  {
    FindLineConcat([x], b, q);
  }

  /** Replacing a line that does not hold `q` by another that does not
      leaves the first line holding `q` where it was. */
  lemma {:induction false} FindLineReplaceOther(lines: seq<CartItem>, i: nat, x: CartItem, q: ProductId)
    requires i < |lines| && lines[i].product != q && x.product != q
    ensures FindLine(lines[i := x], q) == FindLine(lines, q)
  {
    var r := lines[i := x];
    if i == 0 {
      assert r[1..] == lines[1..];
    } else if lines[0].product != q {
      assert r[1..] == lines[1..][i - 1 := x];
      FindLineReplaceOther(lines[1..], i - 1, x, q);
    }
  }

  /** Replacing the first line holding a product by another line for it
      keeps that line first. */
  lemma FindLineReplaceFirst(lines: seq<CartItem>, i: nat, x: CartItem)
    requires FindLine(lines, x.product) == Some(i)
    ensures FindLine(lines[i := x], x.product) == Some(i)
  {
    var front, back := lines[..i], lines[i + 1..];
    assert lines[i := x] == front + ([x] + back);
    FindLineConcat(front, [x] + back, x.product);
    assert FindLine(front, x.product) == None;
    assert ([x] + back)[0] == x;
  }

  /** Adding a product: afterwards the product has exactly the given amount
      and every other product keeps its amount. */
  lemma UpsertAmounts(lines: seq<CartItem>, p: ProductId, amount: int, q: ProductId)
    ensures AmountOf(Upsert(lines, p, amount), p) == Some(amount)
    ensures q != p ==> AmountOf(Upsert(lines, p, amount), q) == AmountOf(lines, q)
  {
    var x := CartItem(p, amount);
    var k := FindLine(lines, p);
    if k.Some? {
      FindLineReplaceFirst(lines, k.value, x);
      if q != p {
        FindLineReplaceOther(lines, k.value, x, q);
      }
    } else {
      FindLineConcat(lines, [x], p);
      assert FindLine([x], p) == Some(0);
      if q != p {
        FindLineConcat(lines, [x], q);
        assert FindLine([x], q) == None;
      }
    }
  }

  /** Adding a product keeps each product on at most one line, leaves the
      other lines where they were, and adds a line only for a new product. */
  lemma UpsertKeepsLines(lines: seq<CartItem>, p: ProductId, amount: int)
    requires UniqueLines(lines)
    ensures UniqueLines(Upsert(lines, p, amount))
    ensures |Upsert(lines, p, amount)| == |lines| + (if AmountOf(lines, p).Some? then 0 else 1)
    ensures forall j :: 0 <= j < |lines| && lines[j].product != p ==> Upsert(lines, p, amount)[j] == lines[j]
  {
  }

  /** Adding the same product with the same amount twice is adding it once. */
  lemma UpsertIdempotent(lines: seq<CartItem>, p: ProductId, amount: int)
    ensures Upsert(Upsert(lines, p, amount), p, amount) == Upsert(lines, p, amount)
  {
    var r := Upsert(lines, p, amount);
    UpsertAmounts(lines, p, amount, p);
    var k := FindLine(r, p);
    assert r[k.value] == CartItem(p, amount);
  }

  /** Adding a product changes the total by the new subtotal minus the old
      one (zero for a product not in the cart). */
  lemma UpsertTotal(lines: seq<CartItem>, p: ProductId, amount: int, products: seq<Product>)
    ensures Total(Upsert(lines, p, amount), products) ==
      Total(lines, products) - Given(AmountOf(lines, p), 0) * Price(products, p) + amount * Price(products, p)
  {
    var k := FindLine(lines, p);
    if k.Some? {
      TotalUpdate(lines, k.value, CartItem(p, amount), products);
    } else {
      TotalConcat(lines, [CartItem(p, amount)], products);
      TotalSingle(CartItem(p, amount), products);
    }
  }

  /** Dropping a line that does not hold `q` keeps the amount recorded
      for `q`. */
  lemma DropOtherLine(lines: seq<CartItem>, i: nat, q: ProductId)
    requires i < |lines| && lines[i].product != q
    ensures AmountOf(lines[..i] + lines[i + 1..], q) == AmountOf(lines, q)
  {
    var front, back := lines[..i], lines[i + 1..];
    assert lines == front + ([lines[i]] + back);
    FindLineConcat(front, [lines[i]] + back, q);
    FindLineConcat(front, back, q);
    FindLineCons(lines[i], back, q);
    var w := FindLine(back, q);
    if FindLine(front, q).None? && w.Some? {
      assert (front + back)[|front| + w.value] == back[w.value] == lines[|front| + 1 + w.value];
    }
  }

  /** Dropping the only line holding `p` leaves no line holding it. */
  lemma DropFirstLine(lines: seq<CartItem>, i: nat, p: ProductId)
    requires UniqueLines(lines) && FindLine(lines, p) == Some(i)
    ensures FindLine(lines[..i] + lines[i + 1..], p) == None
  {
  }

  /** Removing a product: afterwards the product is no longer in the cart
      and every other product keeps its amount. */
  lemma RemoveLineAmounts(lines: seq<CartItem>, p: ProductId, q: ProductId)
    requires UniqueLines(lines)
    ensures AmountOf(RemoveLine(lines, p), p) == None
    ensures q != p ==> AmountOf(RemoveLine(lines, p), q) == AmountOf(lines, q)
  {
    var k := FindLine(lines, p);
    if k.Some? {
      DropFirstLine(lines, k.value, p);
      if q != p {
        DropOtherLine(lines, k.value, q);
      }
    }
  }

  /** Removing a product keeps each product on at most one line and drops
      one line exactly when the product was there. */
  lemma RemoveLineKeepsLines(lines: seq<CartItem>, p: ProductId)
    requires UniqueLines(lines)
    ensures UniqueLines(RemoveLine(lines, p))
    ensures |RemoveLine(lines, p)| == |lines| - (if AmountOf(lines, p).Some? then 1 else 0)
  {
  }

  /** Removing a product lowers the total by the removed line's subtotal. */
  lemma RemoveLineTotal(lines: seq<CartItem>, p: ProductId, products: seq<Product>)
    ensures Total(RemoveLine(lines, p), products) ==
      Total(lines, products) - Given(AmountOf(lines, p), 0) * Price(products, p)
  {
    var k := FindLine(lines, p);
    if k.Some? {
      var i := k.value;
      var front, back := lines[..i], lines[i + 1..];
      assert lines == front + [lines[i]] + back;
      TotalConcat(front + [lines[i]], back, products);
      TotalConcat(front, [lines[i]], products);
      TotalConcat(front, back, products);
      TotalSingle(lines[i], products);
    }
  }

  /** The snapshot loop of checkout: adding each line of a cart whose
      lines are distinct to an empty cart reproduces those lines. */
  lemma {:induction false} SnapshotCopies(lines: seq<CartItem>, n: nat)
    requires n <= |lines| && UniqueLines(lines)
    ensures Snapshot(lines, n) == lines[..n]
  {
    if n > 0 {
      SnapshotCopies(lines, n - 1);
      var init := lines[..n - 1];
      assert forall j :: 0 <= j < |init| ==> init[j] == lines[j];
      assert lines[n - 1] !in init;
      assert lines[..n] == lines[..n - 1] + [lines[n - 1]];
    }
  }

  /** The lines of the snapshot after its first `n` additions. */
  function Snapshot(lines: seq<CartItem>, n: nat): (r: seq<CartItem>)
    requires n <= |lines|
    ensures forall y :: y in r <==> y in lines[..n]
  {
    if n == 0 then []
    else
      assert lines[..n] == lines[..n - 1] + [lines[n - 1]];
      AddItem(Snapshot(lines, n - 1), lines[n - 1])
  }

  /** The carts owned by `u`, in key order. */
  function CartsOf(carts: seq<Cart>, u: UserId): (r: seq<CartId>)
    ensures forall c: nat :: c in r <==> c < |carts| && carts[c].owner == Some(u)
  {
    Where(|carts|, (c: nat) => c < |carts| && carts[c].owner == Some(u))
  }

  /** `Cart.objects.get(user=u)`: the one cart owned by `u`; raises
      DoesNotExist without one and MultipleObjectsReturned with several. */
  function Personal(carts: seq<Cart>, u: UserId): (r: Result<CartId, Failure>)
    ensures r.Ok? ==> r.value < |carts| && carts[r.value].owner == Some(u)
    ensures r.Err? ==> r.error == CartDoesNotExist || r.error == MultipleCartsReturned
  {
    var owned := CartsOf(carts, u);
    if |owned| == 0 then Err(CartDoesNotExist)
    else if |owned| > 1 then Err(MultipleCartsReturned)
    else
      assert owned[0] in owned;
      Ok(owned[0])
  }

  /** A user owns two or more carts exactly when two distinct carts name
      them as owner. */
  lemma SeveralCarts(carts: seq<Cart>, u: UserId)
    ensures |CartsOf(carts, u)| > 1 <==>
      exists c, d :: 0 <= c < d < |carts| && carts[c].owner == Some(u) && carts[d].owner == Some(u)
  {
    var owned := CartsOf(carts, u);
    if |owned| > 1 {
      assert owned[0] in owned && owned[1] in owned;
      assert owned[0] < owned[1];
    }
    if exists c, d :: 0 <= c < d < |carts| && carts[c].owner == Some(u) && carts[d].owner == Some(u) {
      var c, d :| 0 <= c < d < |carts| && carts[c].owner == Some(u) && carts[d].owner == Some(u);
      assert c in owned && d in owned;
    }
  }

  /** The personal cart is found iff `u` owns exactly one cart: no cart
      raises DoesNotExist, two or more raise MultipleObjectsReturned. */
  lemma PersonalSpec(carts: seq<Cart>, u: UserId)
    ensures Personal(carts, u).Ok? ==>
      forall c :: 0 <= c < |carts| && c != Personal(carts, u).value ==> carts[c].owner != Some(u)
    ensures Personal(carts, u) == Err(CartDoesNotExist) <==>
      forall c :: 0 <= c < |carts| ==> carts[c].owner != Some(u)
    ensures Personal(carts, u) == Err(MultipleCartsReturned) <==>
      exists c, d :: 0 <= c < d < |carts| && carts[c].owner == Some(u) && carts[d].owner == Some(u)
  {
    var owned := CartsOf(carts, u);
    SeveralCarts(carts, u);
    if |owned| == 1 {
      assert owned == [owned[0]];
      assert forall c: nat :: c < |carts| && carts[c].owner == Some(u) ==> c in owned;
    }
  }

  /** `Cart.check_balance` for a card balance and a cart total. */
  function BalanceStatus(balance: int, total: int): (r: BalanceCheck)
    ensures r == MoneyEnough <==> balance >= total
  {
    if balance >= total then MoneyEnough else DontEnoughMoney
  }

  /** The cards after `withdraw_money` takes `total` from `u`'s card. */
  function Withdrawn(cards: map<UserId, Card>, u: UserId, total: int): (r: map<UserId, Card>)
    requires u in cards
    ensures r.Keys == cards.Keys && r[u].balance == cards[u].balance - total
    ensures forall v :: v in cards && v != u ==> r[v] == cards[v]
  {
    cards[u := Card(cards[u].balance - total)]
  }

  /** The answer of `check_availability`: AVAILABLE with a stock record's
      key, or DONT_AVAILABLE. */
  datatype Availability = Available(record: StockId) | DontAvailable

  /** Stock record `k` is in a shop of the given (nullable) city:
      `filter(shop__city=city)`, where a null city matches shops without one. */
  predicate InCity(shops: seq<Shop>, stock: seq<StockRecord>, city: Option<CityId>, k: nat)
  {
    k < |stock| && stock[k].shop < |shops| && shops[stock[k].shop].city == city
  }

  /** Some record of the city holds the line's product in at least the
      line's amount, in any of the city's shops. */
  predicate Covered(shops: seq<Shop>, stock: seq<StockRecord>, city: Option<CityId>, x: CartItem)
  {
    exists k :: 0 <= k < |stock| && InCity(shops, stock, city, k)
                && stock[k].product == Some(x.product) && stock[k].amount >= x.amount
  }

  predicate AllCovered(shops: seq<Shop>, stock: seq<StockRecord>, city: Option<CityId>, lines: seq<CartItem>)
  {
    forall i :: 0 <= i < |lines| ==> Covered(shops, stock, city, lines[i])
  }

  /** The first order of `Order.objects.filter(transaction=t)`, and the key
      of every order of a transaction. */
  function OrdersOf(orders: seq<Order>, t: TransactionId): (r: seq<OrderId>)
    ensures forall k: nat :: k in r <==> k < |orders| && orders[k].transaction == t
  {
    Where(|orders|, (k: nat) => k < |orders| && orders[k].transaction == t)
  }

  /** When order `k` belongs to transaction `k` for every `k`, each
      transaction has exactly one order. */
  lemma ExactlyOneOrder(orders: seq<Order>, t: TransactionId)
    requires forall k :: 0 <= k < |orders| ==> orders[k].transaction == k
    requires t < |orders|
    ensures OrdersOf(orders, t) == [t]
  {
    WhereOne(|orders|, (k: nat) => k < |orders| && orders[k].transaction == t, t);
  }

  /** The nullable assignee of every order, in key order. */
  function Assignees(orders: seq<Order>): (r: seq<Option<UserId>>)
    ensures |r| == |orders| && forall k :: 0 <= k < |orders| ==> r[k] == orders[k].assignee
  {
    seq(|orders|, (k: int) requires 0 <= k < |orders| => orders[k].assignee)
  }

  /** `directors().first()`: the first director in `Meta.ordering`, that
      is by username, then first and last name, since every director has the
      same role. */
  function FirstDirector(users: seq<User>): (a: Option<UserId>)
    ensures a.Some? ==> a.value < |users| && users[a.value].role == Some(Director)
    ensures a.Some? ==> forall u :: 0 <= u < |users| && users[u].role == Some(Director) ==> OrderingLe(users[a.value], users[u])
    ensures a.None? <==> forall u :: 0 <= u < |users| ==> users[u].role != Some(Director)
  {
    var directors := UsersWithRole(users, Director);
    if |directors| > 0 then
      assert forall i :: 0 <= i < |directors| ==> directors[i] in directors;
      var m := FirstByOrdering(users, directors);
      assert forall u :: 0 <= u < |users| && users[u].role == Some(Director) ==>
        exists i :: 0 <= i < |directors| && directors[i] == u;
      Some(m)
    else
      assert forall u :: 0 <= u < |users| && users[u].role == Some(Director) ==> u in directors;
      None
  }

  /** The Order receiver's choice: `count_orders().first()` if any user
      exists, else `directors().first()`, else nobody. */
  function AssigneeFor(users: seq<User>, orders: seq<Order>): (a: Option<UserId>)
    ensures a.Some? ==> a.value < |users|
  {
    var least := LeastLoaded(Loads(|users|, Assignees(orders)));
    if least.Some? then least else FirstDirector(users)
  }

  /** An order is assigned iff some user exists, the director fallback never
      applies, and the assignee has a count of assigned orders (over all
      statuses and roles) no greater than any other user's. */
  lemma AssigneeIsLeastLoaded(users: seq<User>, orders: seq<Order>)
    ensures AssigneeFor(users, orders).Some? <==> |users| > 0
    ensures AssigneeFor(users, orders) == LeastLoaded(Loads(|users|, Assignees(orders)))
    ensures AssigneeFor(users, orders).Some? ==> (AssigneeFor(users, orders).value < |users| &&
      forall v :: 0 <= v < |users| ==>
        OrderCount(Assignees(orders), AssigneeFor(users, orders).value) <= OrderCount(Assignees(orders), v))
  {
    LeastLoadedIsMinimal(Loads(|users|, Assignees(orders)));
  }

  /** The Order receiver before `save_assignee`: the new order is created
      unassigned, so choosing on the table before or after it is the same. */
  lemma ChoiceIgnoresNewOrder(users: seq<User>, orders: seq<Order>, t: TransactionId)
    ensures AssigneeFor(users, orders + [Order(t, NotAssigned, None)]) == AssigneeFor(users, orders)
  {
    var o := orders + [Order(t, NotAssigned, None)];
    assert Assignees(o) == Assignees(orders) + [None];
    UnassignedAddsNothing(Assignees(orders), |users|);
  }

  /** `save_assignee`: the assignee and the PENDING status, together. */
  function AssignedTo(o: Order, a: Option<UserId>): (r: Order)
    ensures a.Some? ==> r.assignee == a && r.status == Pending && r.transaction == o.transaction
    ensures a.None? ==> r == o
  {
    if a.Some? then o.(assignee := a, status := Pending) else o
  }

  /** The stock table after `availability.amount -= 1` on record `s`. */
  function Decremented(stock: seq<StockRecord>, s: StockId): (r: seq<StockRecord>)
    ensures |r| == |stock|
    ensures s < |stock| ==> (r[s].amount == stock[s].amount - 1
                             && r[s].product == stock[s].product && r[s].shop == stock[s].shop)
    ensures forall j :: 0 <= j < |stock| && j != s ==> r[j] == stock[j]
  {
    if s < |stock| then stock[s := stock[s].(amount := stock[s].amount - 1)] else stock
  }

  /** OrderManager.user_orders: the orders whose transaction's cart is
      owned by `u`. */
  function UserOrders(carts: seq<Cart>, transactions: seq<Transaction>, orders: seq<Order>, u: UserId): (r: seq<OrderId>)
    ensures forall k: nat :: k in r <==> (k < |orders| && orders[k].transaction < |transactions|
      && transactions[orders[k].transaction].cart < |carts|
      && carts[transactions[orders[k].transaction].cart].owner == Some(u))
  {
    Where(|orders|, (k: nat) => k < |orders| && orders[k].transaction < |transactions|
      && transactions[orders[k].transaction].cart < |carts|
      && carts[transactions[orders[k].transaction].cart].owner == Some(u))
  }

  /** Checkout gives every transaction an ownerless snapshot cart, so
      `user_orders` finds none of the orders checkout creates. */
  lemma UserOrdersMissesCheckouts(carts: seq<Cart>, transactions: seq<Transaction>, orders: seq<Order>, u: UserId)
    requires forall t :: 0 <= t < |transactions| && transactions[t].cart < |carts| ==>
      carts[transactions[t].cart].owner == None
    ensures UserOrders(carts, transactions, orders, u) == []
  {
  }

  /** OrderManager.assignee_orders. */
  function AssigneeOrders(orders: seq<Order>, a: UserId): (r: seq<OrderId>)
    ensures forall k: nat :: k in r <==> k < |orders| && orders[k].assignee == Some(a)
  {
    Where(|orders|, (k: nat) => k < |orders| && orders[k].assignee == Some(a))
  }

  /** OrderView.managers_orders: only a manager may list, and then sees the
      orders assigned to them. */
  function ManagersOrders(requester: Requester, me: UserId, orders: seq<Order>): (r: Result<seq<OrderId>, Failure>)
    ensures r.Ok? <==> requester.isAuthenticated && requester.role == Some(Manager)
    ensures r.Ok? ==> forall k: nat :: k in r.value <==> k < |orders| && orders[k].assignee == Some(me)
    ensures r.Err? ==> r.error == Forbidden
  {
    if ManagerPermission(requester) then Ok(AssigneeOrders(orders, me)) else Err(Forbidden)
  }
  /** CreditCardView.create as written. CreditCard.balance's MinValueValidator(0)
      makes the serializer's balance field refuse a negative value before
      `validate_balance` runs, and any invalid submission by a user who
      already has a card is added to that card. So a negative balance is
      refused only for a user without a card. */
  function TopUpAsWritten(cards: map<UserId, Card>, u: UserId, balance: int): (r: Result<map<UserId, Card>, Failure>)
    ensures r.Err? <==> u !in cards && balance < 0
    ensures r.Err? ==> r.error == CardRejected
    ensures r.Ok? ==> r.value.Keys == cards.Keys + {u}
    ensures r.Ok? ==> r.value[u].balance == (if u in cards then cards[u].balance else 0) + balance
    ensures r.Ok? ==> forall v :: v in cards && v != u ==> r.value[v] == cards[v]
  {
    if u in cards then Ok(cards[u := Card(cards[u].balance + balance)])
    else if balance < 0 then Err(CardRejected)
    else Ok(cards[u := Card(balance)])
  }

  /** A user whose card holds 100 submits a balance of -500: the card is
      left at -400, below the column's own minimum of 0. */
  lemma NegativeTopUpOverdraws()
    ensures TopUpAsWritten(map[0 := Card(100)], 0, -500) == Ok(map[0 := Card(-400)])
  {
    assert map[0 := Card(100)][0 := Card(-400)] == map[0 := Card(-400)];
  }

  /** CreditCardView.create as intended: a negative balance is refused with
      nothing changed; a user without a card gets one holding the balance;
      a user with a card has the balance added to it. Non-negative balances
      stay non-negative. */
  function TopUp(cards: map<UserId, Card>, u: UserId, balance: int): (r: Result<map<UserId, Card>, Failure>)
    ensures r.Err? <==> balance < 0
    ensures r.Err? ==> r.error == NegativeBalance
    ensures r.Ok? ==> r.value.Keys == cards.Keys + {u}
    ensures r.Ok? ==> r.value[u].balance == (if u in cards then cards[u].balance else 0) + balance
    ensures r.Ok? ==> forall v :: v in cards && v != u ==> r.value[v] == cards[v]
    ensures r.Ok? && (forall v :: v in cards ==> cards[v].balance >= 0) ==>
      forall v :: v in r.value ==> r.value[v].balance >= 0
  {
    if balance < 0 then Err(NegativeBalance)
    else if u in cards then Ok(cards[u := Card(cards[u].balance + balance)])
    else Ok(cards[u := Card(balance)])
  }
}
