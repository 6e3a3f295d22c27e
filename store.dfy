/** The database and every operation of the workflow that changes it: the
    cart endpoints, checkout, the Transaction and Order signal receivers, the
    order status actions, the card top-up, user creation, the discount
    updates, the partial updates of the core serializers and the details
    change. Tables are sequences whose positions are the primary keys;
    CreditCard and Profile are one-to-one with User and so are maps keyed by
    the user. The signals are explicit calls made where the source saves. */
module Workflow {
  import opened Wrappers
  import opened Constants
  import opened Queries
  import opened CoreModels
  import opened CoreSerializers
  import opened MarketModels
  import opened AuthModels
  import opened AuthSerializers
  import opened PaymentsModels

  /** The exceptions of user creation and of the details change. */
  datatype UserError = EmailNotSet | UsernameTaken | NotSuperuser | ProfileDoesNotExist | Invalid(reason: ValidationError)

  /** The database refusing an update: a foreign key to a missing row. */
  datatype UpdateError = ForeignKeyViolation

  /** The keys `create_superuser` may receive in `**extra_fields`. */
  datatype SuperuserFields = SuperuserFields(isSuperuser: Option<bool>, isStaff: Option<bool>, role: Option<Role>)

  /** Lines name products among the first `productCount` keys and hold
      each product at most once. */
  predicate LinesWellFormed(lines: seq<CartItem>, productCount: nat)
  {
    UniqueLines(lines) && forall i :: 0 <= i < |lines| ==> lines[i].product < productCount
  }

  /** A cart's owner, if any, is among the first `userCount` users. */
  predicate CartWellFormed(cart: Cart, userCount: nat, productCount: nat)
  {
    (cart.owner.Some? ==> cart.owner.value < userCount) && LinesWellFormed(cart.lines, productCount)
  }

  /** The lines stay well formed when an existing product is added. */
  lemma UpsertWellFormed(lines: seq<CartItem>, p: ProductId, amount: int, productCount: nat)
    requires LinesWellFormed(lines, productCount) && p < productCount
    ensures LinesWellFormed(Upsert(lines, p, amount), productCount)
  {
  }

  /** The lines stay well formed when a product is removed. */
  lemma RemoveLineWellFormed(lines: seq<CartItem>, p: ProductId, productCount: nat)
    requires LinesWellFormed(lines, productCount)
    ensures LinesWellFormed(RemoveLine(lines, p), productCount)
  {
  }

  /** `n` orders, order `k` belonging to transaction `k`, with assignees
      among the first `userCount` users. */
  predicate OrderRows(orders: seq<Order>, n: nat, userCount: nat)
  {
    |orders| == n &&
    forall k :: 0 <= k < |orders| ==>
      orders[k].transaction == k && (orders[k].assignee.Some? ==> orders[k].assignee.value < userCount)
  }

  /** Appending the unassigned order of the next transaction keeps the rows
      well formed. */
  lemma OrderRowsAppend(orders: seq<Order>, t: TransactionId, userCount: nat)
    requires OrderRows(orders, t, userCount)
    ensures OrderRows(orders + [Order(t, NotAssigned, None)], t + 1, userCount)
  {
  }

  /** Updating the element just appended is appending the updated one. */
  lemma AppendThenUpdate<T>(s: seq<T>, x: T, y: T)
    ensures (s + [x])[|s| := y] == s + [y]
  {
  }

  class Store {
    var cities: seq<City>
    var shops: seq<Shop>
    var categories: seq<Category>
    var brands: seq<Brand>
    var products: seq<Product>
    var stock: seq<StockRecord>
    var users: seq<User>
    var profiles: map<UserId, Profile>
    var cards: map<UserId, Card>
    var carts: seq<Cart>
    var transactions: seq<Transaction>
    var orders: seq<Order>

    /** A database with every table empty. */
    constructor()
      ensures Valid()
      ensures cities == [] && shops == [] && categories == [] && brands == [] && products == [] && stock == []
      ensures users == [] && profiles == map[] && cards == map[] && carts == [] && transactions == [] && orders == []
    {
      cities, shops, categories, brands, products, stock := [], [], [], [], [], [];
      users, profiles, cards, carts, transactions, orders := [], map[], map[], [], [], [];
    }

    /** Shops are in existing cities (or none). */
    ghost predicate ShopsWellFormed()
      reads this`cities, this`shops
    {
      forall s :: 0 <= s < |shops| && shops[s].city.Some? ==> shops[s].city.value < |cities|
    }

    /** Parents of categories exist. */
    ghost predicate CategoriesWellFormed()
      reads this`categories
    {
      forall g :: 0 <= g < |categories| && categories[g].parent.Some? ==> categories[g].parent.value < |categories|
    }

    /** Product categories are among the first `categoryCount` keys. */
    ghost predicate ProductsWellFormed(categoryCount: nat)
      reads this`products
    {
      forall p :: 0 <= p < |products| && products[p].category.Some? ==> products[p].category.value < categoryCount
    }

    /** Stock records are in existing shops and name products among the
        first `productCount` keys. */
    ghost predicate StockWellFormed(productCount: nat)
      reads this`shops, this`stock
    {
      forall k :: 0 <= k < |stock| ==>
        stock[k].shop < |shops| && (stock[k].product.Some? ==> stock[k].product.value < productCount)
    }

    ghost predicate CatalogueWellFormed()
      reads this`cities, this`shops, this`categories, this`products, this`stock
    {
      ShopsWellFormed() && CategoriesWellFormed() && ProductsWellFormed(|categories|) && StockWellFormed(|products|)
    }

    /** Users' cities exist; cards and profiles belong to existing users. */
    ghost predicate UsersWellFormed()
      reads this`users, this`cities, this`profiles, this`cards
    {
      && (forall u :: 0 <= u < |users| && users[u].curCity.Some? ==> users[u].curCity.value < |cities|)
      && (forall u :: u in profiles ==> u < |users|)
      && (forall u :: u in cards ==> u < |users|)
    }

    /** Cart owners exist and every cart's lines are well formed. */
    ghost predicate CartsWellFormed(productCount: nat)
      reads this`carts, this`users
    {
      forall c :: 0 <= c < |carts| ==> CartWellFormed(carts[c], |users|, productCount)
    }

    /** Every transaction has an ownerless snapshot cart and an existing
        stock record. */
    ghost predicate TransactionsWellFormed()
      reads this`carts, this`stock, this`transactions
    {
      forall t :: 0 <= t < |transactions| ==>
        transactions[t].cart < |carts| && carts[transactions[t].cart].owner == None
        && transactions[t].availability < |stock|
    }

    /** The first `n` transactions have one order each, order `k` belonging
        to transaction `k`, and assignees exist. */
    ghost predicate OrdersWellFormed(n: nat)
      reads this`orders, this`users
    {
      OrderRows(orders, n, |users|)
    }

    ghost predicate TablesWellFormed()
      reads this`cities, this`shops, this`categories, this`products, this`stock, this`users, this`profiles,
        this`cards, this`carts, this`transactions
    {
      CatalogueWellFormed() && UsersWellFormed() && CartsWellFormed(|products|) && TransactionsWellFormed()
    }

    ghost predicate WellFormed()
      reads this
    {
      TablesWellFormed() && OrdersWellFormed(|transactions|)
    }

    /** In a well-formed store each transaction has exactly one order: the
        one its creation made. */
    lemma OneOrderPerTransaction(t: TransactionId)
      requires WellFormed() && t < |transactions|
      ensures OrdersOf(orders, t) == [t]
      ensures orders[t].transaction == t
    {
      ExactlyOneOrder(orders, t);
    }

    /** The column validator of CreditCard.balance. */
    ghost predicate BalancesNonNegative()
      reads this`cards
    {
      forall u :: u in cards ==> cards[u].balance >= 0
    }

    ghost predicate Valid()
      reads this
    {
      WellFormed() && BalancesNonNegative()
    }

    /** The first stock record of the city is `k`, and every line of the
        cart is covered in that city. */
    ghost predicate FirstAvailable(city: Option<CityId>, lines: seq<CartItem>, k: StockId)
      reads this`shops, this`stock
    {
      InCity(shops, stock, city, k) && (forall j :: 0 <= j < k ==> !InCity(shops, stock, city, j))
      && AllCovered(shops, stock, city, lines)
    }

    /** Cart.total_sum: the loop over the lines. */
    method TotalSum(c: CartId) returns (sum: int)
      requires c < |carts|
      ensures sum == Total(carts[c].lines, products)
    {
      var lines := carts[c].lines;
      sum := 0;
      var i := 0;
      while i < |lines|
        invariant 0 <= i <= |lines|
        invariant sum == Total(lines[..i], products)
      {
        assert lines[..i + 1][..i] == lines[..i];
        sum := sum + lines[i].amount * Price(products, lines[i].product);
        i := i + 1;
      }
      assert lines[..|lines|] == lines;
    }

    /** Cart.check_balance, for a cart whose owner has a card. */
    method CheckBalance(c: CartId) returns (r: BalanceCheck)
      requires c < |carts| && carts[c].owner.Some? && carts[c].owner.value in cards
      ensures r == MoneyEnough <==> cards[carts[c].owner.value].balance >= Total(carts[c].lines, products)
    {
      var card := cards[carts[c].owner.value];
      var total := TotalSum(c);
      if card.balance >= total {
        r := MoneyEnough;
      } else {
        r := DontEnoughMoney;
      }
    }

    /** Cart.withdraw_money: the owner's balance drops by the recomputed
        total, with no floor. */
    method WithdrawMoney(c: CartId)
      requires WellFormed()
      requires c < |carts| && carts[c].owner.Some? && carts[c].owner.value in cards
      modifies this`cards
      ensures WellFormed()
      ensures cards == Withdrawn(old(cards), carts[c].owner.value, Total(carts[c].lines, products))
    {
      var u := carts[c].owner.value;
      var total := TotalSum(c);
      cards := cards[u := Card(cards[u].balance - total)];
    }

    /** Cart.empty_cart: every line of the cart is removed, one by one. */
    method EmptyCart(c: CartId)
      requires WellFormed() && c < |carts| && carts[c].owner.Some?
      modifies this`carts
      ensures WellFormed()
      ensures carts == old(carts)[c := old(carts)[c].(lines := [])]
    {
      var all := carts[c].lines;
      var i := 0;
      while i < |all|
        invariant 0 <= i <= |all|
        invariant carts == old(carts)[c := old(carts)[c].(lines := all[i..])]
      {
        assert all[i..][0] == all[i] && all[i..][1..] == all[i + 1..];
        carts := carts[c := carts[c].(lines := RemoveItem(carts[c].lines, all[i]))];
        i := i + 1;
      }
    }

    /** The `product_items` query of Cart.check_availability for one line:
        the city's records holding the product in at least the line's
        amount; it is empty exactly when the line is not covered. */
    method MatchingRecords(city: Option<CityId>, item: CartItem) returns (productItems: seq<nat>)
      ensures |productItems| == 0 <==> !Covered(shops, stock, city, item)
    {
      var shopTable, stockTable := shops, stock;
      var matches := (k: nat) => InCity(shopTable, stockTable, city, k)
        && stockTable[k].product == Some(item.product) && stockTable[k].amount >= item.amount;
      productItems := Where(|stockTable|, matches);
      if |productItems| == 0 {
        forall k | 0 <= k < |stock| && InCity(shops, stock, city, k) && stock[k].product == Some(item.product)
          ensures stock[k].amount < item.amount
        {
          assert !matches(k);
        }
      } else {
        assert productItems[0] in productItems;
        assert matches(productItems[0]);
      }
    }

    /** The inner loop of Cart.check_availability: `has_products` stays
        true exactly when every line has a matching record. */
    method HasProducts(city: Option<CityId>, items: seq<CartItem>) returns (hasProducts: bool)
      ensures hasProducts <==> AllCovered(shops, stock, city, items)
    {
      hasProducts := true;
      var i := 0;
      while i < |items|
        invariant 0 <= i <= |items|
        invariant hasProducts <==> forall j :: 0 <= j < i ==> Covered(shops, stock, city, items[j])
      {
        var productItems := MatchingRecords(city, items[i]);
        if |productItems| == 0 {
          hasProducts := false;
        }
        i := i + 1;
      }
    }

    /** Cart.check_availability: for each stock record of the owner's city,
        every line must be matched by some record of that whole city with the
        same product and at least the line's amount; the answer names the
        record the outer loop is at, so the city's first one (taken here in key
        order; the source's query leaves the order to the database). */
    method CheckAvailability(c: CartId) returns (r: Availability)
      requires c < |carts| && carts[c].owner.Some? && carts[c].owner.value < |users|
      ensures r.Available? <==>
        (exists k :: 0 <= k < |stock| && InCity(shops, stock, users[carts[c].owner.value].curCity, k))
        && AllCovered(shops, stock, users[carts[c].owner.value].curCity, carts[c].lines)
      ensures r.Available? ==> FirstAvailable(users[carts[c].owner.value].curCity, carts[c].lines, r.record)
    {
      var city := users[carts[c].owner.value].curCity;
      var items := carts[c].lines;
      var shopTable, stockTable := shops, stock;
      var inCity := (k: nat) => InCity(shopTable, stockTable, city, k);
      var available := Where(|stockTable|, inCity);
      var a := 0;
      while a < |available|
        invariant 0 <= a <= |available|
        invariant a > 0 ==> !AllCovered(shops, stock, city, items)
      {
        var hasProducts := HasProducts(city, items);
        if hasProducts {
          assert available[0] in available;
          assert inCity(available[0]);
          forall j | 0 <= j < available[0]
            ensures !InCity(shops, stock, city, j)
          {
            assert !inCity(j);
          }
          return Available(available[0]);
        }
        a := a + 1;
      }
      if |available| == 0 {
        forall k | 0 <= k < |stock|
          ensures !InCity(shops, stock, city, k)
        {
          assert !inCity(k);
        }
      }
      return DontAvailable;
    }

    /** CartManager.add_product: the product must exist and the user must own
        exactly one cart; then the line holding the product gets the new
        amount, or a new line is appended. */
    method AddProduct(u: UserId, p: ProductId, amount: int) returns (r: Result<CartId, Failure>)
      requires WellFormed()
      modifies this`carts
      ensures WellFormed()
      ensures r == (if p < |products| then Personal(old(carts), u) else Err(ProductDoesNotExist))
      ensures r.Err? ==> carts == old(carts)
      ensures r.Ok? ==> carts == old(carts)[r.value := old(carts)[r.value].(lines := Upsert(old(carts)[r.value].lines, p, amount))]
    {
      if p >= |products| {
        return Err(ProductDoesNotExist);
      }
      r := Personal(carts, u);
      if r.Err? {
        return;
      }
      var c := r.value;
      var lines := carts[c].lines;
      var k := FindLine(lines, p);
      UpsertWellFormed(lines, p, amount, |products|);
      var updated: seq<CartItem>;
      if k.Some? {
        updated := lines[k.value := CartItem(p, amount)];
      } else {
        updated := lines + [CartItem(p, amount)];
      }
      assert updated == Upsert(lines, p, amount);
      carts := carts[c := carts[c].(lines := updated)];
    }

    /** CartView.post: `add_product` with the submitted amount, 1 when none
        is submitted. */
    method PostCartItem(u: UserId, p: ProductId, amount: Option<int>) returns (r: Result<CartId, Failure>)
      requires WellFormed()
      modifies this`carts
      ensures WellFormed()
      ensures r == (if p < |products| then Personal(old(carts), u) else Err(ProductDoesNotExist))
      ensures r.Err? ==> carts == old(carts)
      ensures r.Ok? ==> carts == old(carts)[r.value := old(carts)[r.value].(lines :=
        Upsert(old(carts)[r.value].lines, p, Given(amount, 1)))]
    {
      r := AddProduct(u, p, Given(amount, 1));
    }

    /** CartManager.remove_product: the product must exist and the user must
        own exactly one cart; then the line holding the product is removed
        (none is removed when the cart does not hold it). */
    method RemoveProduct(u: UserId, p: ProductId) returns (r: Result<CartId, Failure>)
      requires WellFormed()
      modifies this`carts
      ensures WellFormed()
      ensures r == (if p < |products| then Personal(old(carts), u) else Err(ProductDoesNotExist))
      ensures r.Err? ==> carts == old(carts)
      ensures r.Ok? ==> carts == old(carts)[r.value := old(carts)[r.value].(lines := RemoveLine(old(carts)[r.value].lines, p))]
    {
      if p >= |products| {
        return Err(ProductDoesNotExist);
      }
      r := Personal(carts, u);
      if r.Err? {
        return;
      }
      var c := r.value;
      var lines := carts[c].lines;
      var k := FindLine(lines, p);
      RemoveLineWellFormed(lines, p, |products|);
      if k.Some? {
        carts := carts[c := carts[c].(lines := lines[..k.value] + lines[k.value + 1..])];
      }
    }

    /** CartView.get: the lines of the user's one cart and their total at
        the current prices. */
    method GetCart(u: UserId) returns (r: Result<seq<CartItem>, Failure>, total: int)
      ensures Personal(carts, u).Err? ==> r == Err(Personal(carts, u).error)
      ensures Personal(carts, u).Ok? ==> r == Ok(carts[Personal(carts, u).value].lines)
      ensures r.Ok? ==> total == Total(r.value, products)
    {
      var c := Personal(carts, u);
      if c.Err? {
        return Err(c.error), 0;
      }
      total := TotalSum(c.value);
      r := Ok(carts[c.value].lines);
    }

    /** `Transaction.objects.create`: the row is appended and saved, which
        runs the Transaction receiver. */
    method CreateTransaction(cart: CartId, availability: StockId) returns (t: TransactionId)
      requires WellFormed()
      requires cart < |carts| && carts[cart].owner == None && availability < |stock|
      modifies this`transactions, this`orders, this`stock
      ensures WellFormed()
      ensures t == old(|transactions|) && transactions == old(transactions) + [Transaction(cart, availability)]
      ensures orders == old(orders) + [AssignedTo(Order(t, NotAssigned, None), AssigneeFor(users, old(orders)))]
      ensures stock == old(stock)
    {
      t := |transactions|;
      transactions := transactions + [Transaction(cart, availability)];
      TransactionSaved(t, true);
    }

    /** The Transaction receiver: a created transaction gets its order; a
        later save of a transaction creates none. */
    method TransactionSaved(t: TransactionId, created: bool)
      requires TablesWellFormed() && t < |transactions|
      requires created ==> t == |transactions| - 1 && OrdersWellFormed(t)
      requires !created ==> OrdersWellFormed(|transactions|)
      modifies this`orders, this`stock
      ensures WellFormed()
      ensures created ==> orders == old(orders) + [AssignedTo(Order(t, NotAssigned, None), AssigneeFor(users, old(orders)))]
      ensures !created ==> orders == old(orders)
      ensures stock == old(stock)
    {
      if created {
        CreateOrder(t);
      }
    }

    /** `Order.objects.create(transaction=t)`: a NOT_ASSIGNED order with no
        assignee is appended and saved as created. */
    method CreateOrder(t: TransactionId)
      requires TablesWellFormed() && t == |transactions| - 1 && OrdersWellFormed(t)
      modifies this`orders, this`stock
      ensures WellFormed()
      ensures orders == old(orders) + [AssignedTo(Order(t, NotAssigned, None), AssigneeFor(users, old(orders)))]
      ensures stock == old(stock)
    {
      OrderRowsAppend(orders, t, |users|);
      ghost var before := orders;
      var o := Order(t, NotAssigned, None);
      orders := orders + [o];
      OrderSaved(t, true);
      ChoiceIgnoresNewOrder(users, before, t);
      AppendThenUpdate(before, o, AssignedTo(o, AssigneeFor(users, before)));
    }

    /** A save of order `k`: the Order receivers run in their registration
        order, the assignment one (acting only on creation) and then the
        completion check, which sees the status as the assignment left it. */
    method OrderSaved(k: OrderId, created: bool)
      requires WellFormed() && k < |orders|
      requires created ==> orders[k].status == NotAssigned && orders[k].assignee == None
      modifies this`orders, this`stock
      decreases if created then 3 else 0
      ensures WellFormed()
      ensures created ==> orders == old(orders)[k := AssignedTo(old(orders)[k], AssigneeFor(users, old(orders)))]
      ensures created ==> stock == old(stock)
      ensures !created ==> orders == old(orders)
      ensures !created ==> (stock ==
        if orders[k].status == Done then Decremented(old(stock), transactions[orders[k].transaction].availability)
        else old(stock))
    {
      if created {
        AssignOnCreate(k);
      }
      CompletionCheck(k);
    }

    /** The Order receiver `set_assignee`, on creation: the user with the
        fewest assigned orders, else the first director, else nobody. */
    method AssignOnCreate(k: OrderId)
      requires WellFormed() && k < |orders| && orders[k].status == NotAssigned && orders[k].assignee == None
      modifies this`orders, this`stock
      decreases 2
      ensures WellFormed()
      ensures orders == old(orders)[k := AssignedTo(old(orders)[k], AssigneeFor(users, old(orders)))]
      ensures stock == old(stock)
    {
      var a := AssigneeFor(users, orders);
      AssigneeIsLeastLoaded(users, orders);
      if a.Some? {
        SaveAssignee(k, a.value);
      }
    }

    /** `save_assignee`: the assignee and the PENDING status are set together
        and the order is saved again, not as created. */
    method SaveAssignee(k: OrderId, a: UserId)
      requires WellFormed() && k < |orders| && a < |users|
      modifies this`orders, this`stock
      decreases 1
      ensures WellFormed()
      ensures orders == old(orders)[k := AssignedTo(old(orders)[k], Some(a))]
      ensures stock == old(stock)
    {
      orders := orders[k := orders[k].(assignee := Some(a), status := Pending)];
      OrderSaved(k, false);
    }

    /** The Order receiver `completion_check`: a DONE order takes one unit
        off its transaction's stock record, whatever the cart held, with no
        floor. */
    method CompletionCheck(k: OrderId)
      requires WellFormed() && k < |orders|
      modifies this`stock
      ensures WellFormed()
      ensures stock == (if orders[k].status == Done then Decremented(old(stock), transactions[orders[k].transaction].availability)
                        else old(stock))
    {
      if orders[k].status == Done {
        var s := transactions[orders[k].transaction].availability;
        stock := stock[s := stock[s].(amount := stock[s].amount - 1)];
      }
    }

    /** OrderView.user_cancel: from any status the order becomes CANCELED
        with no assignee, and is saved. */
    method Cancel(k: OrderId) returns (r: Result<OrderId, Failure>)
      requires WellFormed()
      modifies this`orders, this`stock
      ensures WellFormed()
      ensures r.Err? <==> k >= old(|orders|)
      ensures r.Err? ==> r.error == OrderDoesNotExist && orders == old(orders)
      ensures r.Ok? ==> r.value == k && orders == old(orders)[k := old(orders)[k].(status := Canceled, assignee := None)]
      ensures stock == old(stock)
    {
      if k >= |orders| {
        return Err(OrderDoesNotExist);
      }
      orders := orders[k := orders[k].(status := Canceled, assignee := None)];
      OrderSaved(k, false);
      r := Ok(k);
    }

    /** OrderView.complete_order: from any status the order becomes DONE and
        is saved, so its stock record loses one unit, on every call. */
    method Complete(k: OrderId) returns (r: Result<OrderId, Failure>)
      requires WellFormed()
      modifies this`orders, this`stock
      ensures WellFormed()
      ensures r.Err? <==> k >= old(|orders|)
      ensures r.Err? ==> r.error == OrderDoesNotExist && orders == old(orders) && stock == old(stock)
      ensures r.Ok? ==> r.value == k && orders == old(orders)[k := old(orders)[k].(status := Done)]
      ensures r.Ok? ==> stock == Decremented(old(stock), transactions[k].availability)
    {
      if k >= |orders| {
        return Err(OrderDoesNotExist);
      }
      orders := orders[k := orders[k].(status := Done)];
      OrderSaved(k, false);
      r := Ok(k);
    }

    /** The snapshot step of TransactionView.create: an ownerless cart is
        created and each line of cart `c` is added to it in turn. */
    method CopyCart(c: CartId) returns (newCart: CartId)
      requires WellFormed() && c < |carts|
      modifies this`carts
      ensures WellFormed()
      ensures newCart == old(|carts|) && carts == old(carts) + [Cart(None, old(carts)[c].lines)]
    {
      var items := carts[c].lines;
      newCart := |carts|;
      carts := carts + [Cart(None, [])];
      var i := 0;
      while i < |items|
        invariant 0 <= i <= |items|
        invariant carts == old(carts) + [Cart(None, Snapshot(items, i))]
      {
        carts := carts[newCart := carts[newCart].(lines := AddItem(carts[newCart].lines, items[i]))];
        i := i + 1;
      }
      SnapshotCopies(items, |items|);
      assert items[..|items|] == items;
    }

    /** The first check of TransactionView.create that fails, in the order
        the view makes them: the personal cart, the card, the balance, the
        availability; none when all pass. */
    ghost function CheckoutRefusal(u: UserId): (f: Option<Failure>)
      requires u < |users|
      reads this`carts, this`cards, this`products, this`users, this`shops, this`stock
      ensures f.None? ==> (Personal(carts, u).Ok? && u in cards
                           && cards[u].balance >= Total(carts[Personal(carts, u).value].lines, products))
      ensures f.Some? ==> f.value in {CartDoesNotExist, MultipleCartsReturned, NoCreditCard, NotEnoughMoney, NotAvailable}
    {
      var c := Personal(carts, u);
      if c.Err? then Some(c.error)
      else if u !in cards then Some(NoCreditCard)
      else if cards[u].balance < Total(carts[c.value].lines, products) then Some(NotEnoughMoney)
      else if !((exists k :: 0 <= k < |stock| && InCity(shops, stock, users[u].curCity, k))
                && AllCovered(shops, stock, users[u].curCity, carts[c.value].lines)) then Some(NotAvailable)
      else None
    }

    /** The checks of TransactionView.create, which change nothing: the
        personal cart, the card, the balance and the availability, in that
        order. When all pass, the answer is the cart and the stock record
        the transaction will name. */
    method CheckoutChecks(u: UserId) returns (r: Result<(CartId, StockId), Failure>)
      requires u < |users|
      ensures r.Err? <==> CheckoutRefusal(u).Some?
      ensures r.Err? ==> r.error == CheckoutRefusal(u).value
      ensures r.Ok? ==> Personal(carts, u) == Ok(r.value.0) && u in cards
      ensures r.Ok? ==> cards[u].balance >= Total(carts[r.value.0].lines, products)
      ensures r.Ok? ==> FirstAvailable(users[u].curCity, carts[r.value.0].lines, r.value.1)
    {
      var personal := Personal(carts, u);
      if personal.Err? {
        return Err(personal.error);
      }
      var c := personal.value;
      if u !in cards {
        return Err(NoCreditCard);
      }
      var hasBalance := CheckBalance(c);
      if hasBalance == DontEnoughMoney {
        return Err(NotEnoughMoney);
      }
      var isAvailable := CheckAvailability(c);
      if isAvailable.DontAvailable? {
        return Err(NotAvailable);
      }
      r := Ok((c, isAvailable.record));
    }

    /** TransactionView.create. Every check comes before any change; a
        refused checkout changes nothing. Otherwise a new ownerless cart gets
        the lines one by one, the transaction is created on it with the
        city's lowest-keyed stock record (which creates and assigns the order), the
        card pays the total and the user's cart is emptied. */
    method Checkout(u: UserId) returns (r: Result<TransactionId, Failure>)
      requires Valid() && u < |users|
      modifies this`carts, this`cards, this`transactions, this`orders, this`stock
      ensures Valid()
      ensures stock == old(stock)
      ensures r.Err? <==> old(CheckoutRefusal(u)).Some?
      ensures r.Err? ==> r.error == old(CheckoutRefusal(u)).value
      ensures r.Err? ==> carts == old(carts) && cards == old(cards)
                         && transactions == old(transactions) && orders == old(orders)
      ensures r.Ok? ==> u in cards && cards[u].balance >= 0
      ensures r.Ok? ==> (var c := old(Personal(carts, u)).value;
        && r.value == old(|transactions|)
        && carts == (old(carts) + [Cart(None, old(carts)[c].lines)])[c := old(carts)[c].(lines := [])]
        && cards == Withdrawn(old(cards), u, Total(old(carts)[c].lines, products))
        && |transactions| == r.value + 1
        && transactions == old(transactions) + [Transaction(old(|carts|), transactions[r.value].availability)]
        && FirstAvailable(users[u].curCity, old(carts)[c].lines, transactions[r.value].availability)
        && orders == old(orders) + [AssignedTo(Order(r.value, NotAssigned, None), AssigneeFor(users, old(orders)))])
    {
      var checked := CheckoutChecks(u);
      if checked.Err? {
        return Err(checked.error);
      }
      var t := Fulfil(u, checked.value.0, checked.value.1);
      r := Ok(t);
    }

    /** The steps of TransactionView.create after its checks: the snapshot
        cart, the transaction (with its order), the payment and the emptying
        of the cart. A passing balance check keeps the card non-negative. */
    method Fulfil(u: UserId, c: CartId, record: StockId) returns (t: TransactionId)
      requires Valid() && u < |users| && c < |carts| && carts[c].owner == Some(u) && u in cards
      requires cards[u].balance >= Total(carts[c].lines, products)
      requires FirstAvailable(users[u].curCity, carts[c].lines, record)
      modifies this`carts, this`cards, this`transactions, this`orders, this`stock
      ensures Valid()
      ensures stock == old(stock)
      ensures t == old(|transactions|)
      ensures carts == (old(carts) + [Cart(None, old(carts)[c].lines)])[c := old(carts)[c].(lines := [])]
      ensures cards == Withdrawn(old(cards), u, Total(old(carts)[c].lines, products))
      ensures u in cards && cards[u].balance >= 0
      ensures |transactions| == t + 1
      ensures transactions == old(transactions) + [Transaction(old(|carts|), record)]
      ensures FirstAvailable(users[u].curCity, old(carts)[c].lines, transactions[t].availability)
      ensures orders == old(orders) + [AssignedTo(Order(t, NotAssigned, None), AssigneeFor(users, old(orders)))]
    {
      var newCart := CopyCart(c);
      t := CreateTransaction(newCart, record);
      WithdrawMoney(c);
      EmptyCart(c);
    }

    /** CreditCardView.create, with the non-negative balance the serializer
        intends: a negative balance is refused; otherwise a user without a
        card gets one holding the balance and a user with a card has the
        balance added to it. */
    method CreateCard(u: UserId, balance: int) returns (r: Result<UserId, Failure>)
      requires Valid() && u < |users|
      modifies this`cards
      ensures Valid()
      ensures TopUp(old(cards), u, balance).Err? ==> r == Err(NegativeBalance) && cards == old(cards)
      ensures TopUp(old(cards), u, balance).Ok? ==> r == Ok(u) && cards == TopUp(old(cards), u, balance).value
    {
      if balance < 0 {
        return Err(NegativeBalance);
      }
      if u in cards {
        cards := cards[u := Card(cards[u].balance + balance)];
      } else {
        cards := cards[u := Card(balance)];
      }
      r := Ok(u);
    }

    /** UserManager._create_user: an empty email raises before anything is
        saved, a username already in use is refused by its unique column,
        and the new user's city is the first city, if there is one. */
    method CreateUserWith(username: string, email: string, firstName: string, lastName: string,
                          role: Option<Role>, isSuperuser: bool, isStaff: bool) returns (r: Result<UserId, UserError>)
      requires WellFormed()
      modifies this`users
      ensures WellFormed()
      ensures email == "" ==> r == Err(EmailNotSet)
      ensures email != "" && (exists v :: 0 <= v < old(|users|) && old(users)[v].username == username) ==>
        r == Err(UsernameTaken)
      ensures email != "" && !(exists v :: 0 <= v < old(|users|) && old(users)[v].username == username) ==> r.Ok?
      ensures r.Err? ==> users == old(users)
      ensures r.Ok? ==> r.value == old(|users|)
      ensures r.Ok? ==> (users == old(users) +
        [User(username, email, firstName, lastName, role, if |cities| > 0 then Some(0) else None, isSuperuser, isStaff)])
    {
      if email == "" {
        return Err(EmailNotSet);
      }
      var city: Option<CityId> := if |cities| > 0 then Some(0) else None;
      if exists v :: 0 <= v < |users| && users[v].username == username {
        return Err(UsernameTaken);
      }
      r := Ok(|users|);
      users := users + [User(username, email, firstName, lastName, role, city, isSuperuser, isStaff)];
    }

    /** UserManager.create_user: a customer who is neither staff nor
        superuser. */
    method CreateUser(username: string, email: string, firstName: string, lastName: string)
      returns (r: Result<UserId, UserError>)
      requires WellFormed()
      modifies this`users
      ensures WellFormed()
      ensures email == "" ==> r == Err(EmailNotSet)
      ensures email != "" && (exists v :: 0 <= v < old(|users|) && old(users)[v].username == username) ==>
        r == Err(UsernameTaken)
      ensures email != "" && !(exists v :: 0 <= v < old(|users|) && old(users)[v].username == username) ==> r.Ok?
      ensures r.Err? ==> users == old(users)
      ensures r.Ok? ==> r.value == old(|users|)
      ensures r.Ok? ==> (users == old(users) +
        [User(username, email, firstName, lastName, Some(Customer), if |cities| > 0 then Some(0) else None, false, false)])
    {
      r := CreateUserWith(username, email, firstName, lastName, Some(Customer), false, false);
    }

    /** UserManager.create_superuser: `is_superuser` and `is_staff` default
        to true and the role to ADMIN; an explicit `is_superuser` other than
        true raises before anything else. */
    method CreateSuperuser(username: string, email: string, extra: SuperuserFields)
      returns (r: Result<UserId, UserError>)
      requires WellFormed()
      modifies this`users
      ensures WellFormed()
      ensures extra.isSuperuser == Some(false) ==> r == Err(NotSuperuser)
      ensures extra.isSuperuser != Some(false) && email == "" ==> r == Err(EmailNotSet)
      ensures (extra.isSuperuser != Some(false) && email != ""
               && exists v :: 0 <= v < old(|users|) && old(users)[v].username == username) ==> r == Err(UsernameTaken)
      ensures (extra.isSuperuser != Some(false) && email != ""
               && !(exists v :: 0 <= v < old(|users|) && old(users)[v].username == username)) ==> r.Ok?
      ensures r.Err? ==> users == old(users)
      ensures r.Ok? ==> r.value == old(|users|)
      ensures r.Ok? ==> (users == old(users) +
        [User(username, email, "", "", Some(Given(extra.role, Admin)), if |cities| > 0 then Some(0) else None,
              true, Given(extra.isStaff, true))])
    {
      var isSuperuser := Given(extra.isSuperuser, true);
      var isStaff := Given(extra.isStaff, true);
      var role := Given(extra.role, Admin);
      if !isSuperuser {
        return Err(NotSuperuser);
      }
      r := CreateUserWith(username, email, "", "", Some(role), isSuperuser, isStaff);
    }

    /** ProductManager.remove_discounts: the products of
        `filter(id__in=ids)`, visited in key order, lose their discount and
        go back to their real price. */
    method RemoveDiscounts(ids: set<ProductId>)
      requires WellFormed()
      modifies this`products
      ensures WellFormed()
      ensures products == WithoutDiscounts(old(products), ids)
    {
      var k := 0;
      while k < |products|
        invariant 0 <= k <= |products| == |old(products)|
        invariant forall i :: 0 <= i < |products| ==>
          products[i] == if i < k && i in ids then WithoutDiscount(old(products)[i]) else old(products)[i]
      {
        if k in ids {
          products := products[k := products[k].(discount := None, currentPrice := products[k].realPrice)];
        }
        k := k + 1;
      }
    }

    /** ProductManager.set_discounts: the products of `filter(id__in=ids)`,
        visited in key order, get the discount and the discounted price;
        `price` stands for the floating point computation of that price. */
    method SetDiscounts(ids: set<ProductId>, discount: int, price: (int, int) -> int)
      requires WellFormed()
      modifies this`products
      ensures WellFormed()
      ensures products == WithDiscounts(old(products), ids, discount, price)
    {
      var k := 0;
      while k < |products|
        invariant 0 <= k <= |products| == |old(products)|
        invariant forall i :: 0 <= i < |products| ==>
          products[i] == if i < k && i in ids then WithDiscount(old(products)[i], discount, price) else old(products)[i]
      {
        if k in ids {
          var discountPrice := price(products[k].realPrice, discount);
          products := products[k := products[k].(currentPrice := discountPrice, discount := Some(discount))];
        }
        k := k + 1;
      }
    }

    /** CitySerializer.update on city `k`. */
    method UpdateCity(k: CityId, d: CityData)
      requires WellFormed() && k < |cities|
      modifies this`cities
      ensures WellFormed()
      ensures cities == old(cities)[k := UpdatedCity(old(cities)[k], d)]
    {
      cities := cities[k := cities[k].(name := Given(d.name, cities[k].name))];
    }

    /** CategorySerializer.update on category `k`; the save is refused when
        the given parent does not exist. */
    method UpdateCategory(k: CategoryId, d: CategoryData) returns (r: Result<CategoryId, UpdateError>)
      requires WellFormed() && k < |categories|
      modifies this`categories
      ensures WellFormed()
      ensures r.Err? <==> d.parentId.Some? && d.parentId.value.Some? && d.parentId.value.value >= old(|categories|)
      ensures r.Err? ==> categories == old(categories)
      ensures r.Ok? ==> r.value == k && categories == old(categories)[k := UpdatedCategory(old(categories)[k], d)]
    {
      var name := Given(d.name, categories[k].name);
      var parent := Given(d.parentId, categories[k].parent);
      if parent.Some? && parent.value >= |categories| {
        return Err(ForeignKeyViolation);
      }
      categories := categories[k := categories[k].(name := name, parent := parent)];
      r := Ok(k);
    }

    /** BrandSerializer.update on brand `k`. */
    method UpdateBrand(k: BrandId, d: BrandData)
      requires WellFormed() && k < |brands|
      modifies this`brands
      ensures WellFormed()
      ensures brands == old(brands)[k := UpdatedBrand(old(brands)[k], d)]
    {
      var b := brands[k];
      brands := brands[k := b.(name := Given(d.name, b.name), detail := Given(d.detail, b.detail),
                               image := Given(d.image, b.image))];
    }

    /** The first failure of the details change: the fields are validated
        in declared order, `cur_city` then `phone`, and a phone can only be
        stored in an existing profile. */
    ghost function DetailsRefusal(u: UserId, phone: Option<string>, curCity: Option<int>): (f: Option<UserError>)
      reads this`cities, this`profiles
      ensures f.None? <==> (curCity.Some? ==> 0 <= curCity.value < |cities|)
                           && (phone.Some? ==> PhoneField(phone.value).Ok? && u in profiles)
    {
      if curCity.Some? && ValidateCurCity(curCity.value, |cities|).Err? then Some(Invalid(NoCity))
      else if phone.Some? && PhoneField(phone.value).Err? then Some(Invalid(PhoneField(phone.value).error))
      else if phone.Some? && u !in profiles then Some(ProfileDoesNotExist)
      else None
    }

    /** ChangeDetailsSerializer validated with `partial=True`, then
        `change_details`: a given phone (never blank once valid) goes into
        the profile and a given city becomes the user's; nothing changes
        when a check fails. */
    method ChangeDetails(u: UserId, phone: Option<string>, curCity: Option<int>) returns (r: Result<UserId, UserError>)
      requires WellFormed() && u < |users|
      modifies this`users, this`profiles
      ensures WellFormed()
      ensures r.Err? <==> old(DetailsRefusal(u, phone, curCity)).Some?
      ensures r.Err? ==> r.error == old(DetailsRefusal(u, phone, curCity)).value
      ensures r.Err? ==> users == old(users) && profiles == old(profiles)
      ensures r.Ok? ==> r.value == u
      ensures r.Ok? ==> profiles == if phone.Some? then old(profiles)[u := old(profiles)[u].(phone := phone)] else old(profiles)
      ensures r.Ok? ==> users == if curCity.Some? then old(users)[u := old(users)[u].(curCity := Some(curCity.value as nat))]
                                 else old(users)
    {
      var city: Option<CityId> := None;
      if curCity.Some? {
        var valid := ValidateCurCity(curCity.value, |cities|);
        if valid.Err? {
          return Err(Invalid(valid.error));
        }
        city := Some(valid.value);
      }
      if phone.Some? {
        var valid := PhoneField(phone.value);
        if valid.Err? {
          return Err(Invalid(valid.error));
        }
        if u !in profiles {
          return Err(ProfileDoesNotExist);
        }
        profiles := profiles[u := profiles[u].(phone := Some(valid.value))];
      }
      if city.Some? {
        users := users[u := users[u].(curCity := city)];
      }
      r := Ok(u);
    }
  }
}
