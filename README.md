# Marketplace checkout and fulfilment, modelled in Dafny

This project models the core of a Django marketplace. The centre is the
checkout-and-fulfilment workflow of the `payments` app:

- A user's cart is a list of lines, one per product. Adding a product
  overwrites its line's amount or appends a line; removing drops the line.
- The cart total is recomputed from the current product prices on every read.
- Checkout (`TransactionView.create`) runs its checks in order: the personal
  cart, the credit card, the balance, then the city-wide availability. Only
  when all pass does it snapshot the cart into a new ownerless cart, create
  the Transaction, withdraw the money and empty the cart.
- The `post_save` receivers are explicit calls. A created Transaction creates
  its Order in `NOT_ASSIGNED`. A created Order is given to the user with the
  fewest assigned orders, over all users, and becomes `PENDING`. Every save of
  a `DONE` order takes one unit off the transaction's stock record, with no
  floor.
- Cancel and complete change the status from any prior status.

Around it sit the smaller rules:

- the three role permissions;
- the serializer validators: name special characters, first name all
  letters, password length and repeat, the phone pattern written out atom by
  atom, and the existing city;
- the "keep the old value unless given" partial updates of cities,
  categories and brands, and the details change;
- user and superuser creation defaults;
- the role queries and the ranking of users by load;
- the three-level category filter, the discount queries and updates, and the
  rating.

The database is the class `Workflow.Store`. Each table is a `seq` field
whose positions are the primary keys, so creating a row appends it. Cards and
profiles are one-to-one with users and are `map`s keyed by the user. Methods
that change tables are proved against pure functions of the old state. The
properties of those functions are lemmas in the per-app modules:

- `Wrappers`, `Constants` and `Queries`: shared values and queryset `filter`;
- `Permissions` (common/permissions.py);
- `CoreModels` and `CoreSerializers` (core);
- `MarketModels` (market/models.py);
- `AuthModels` and `AuthSerializers` (auth_);
- `PaymentsModels` (the pure part of payments);
- `Workflow` (every state change).

A well-formed store (`Workflow.Store.WellFormed`) has:

- foreign keys that point to existing rows;
- cart lines holding each product at most once;
- snapshot carts with no owner;
- order `k` belonging to transaction `k`.

Every state-changing method preserves it. Checkout also preserves
non-negative card balances.

Two behaviours of the code are stated as they are:

- `user_orders` finds no order created by checkout, because those orders hang
  on the ownerless snapshot cart.
- The formatted phone "+7 (701) 123-45-67" matches `validate_phone`, but it is
  longer than the field's `max_length=16`, so the details form refuses it.

## Model

| member | source | states |
|---|---|---|
| Permissions.AtMostOnePermission | market_place/common/permissions.py:9-24 | For any one user at most one of Admin, Director and Manager permission grants; an unauthenticated user is granted none |
| Permissions.PermissionFollowsRole | market_place/common/permissions.py:9-24 | For an authenticated user each permission grants iff the role is that permission's role; a customer or a null role gets none; any other role gets exactly one |
| CoreSerializers.HasSpecialCharacter | market_place/core/serializers.py:28-29 | True iff some character of the value is one of "!#$%^&*()-+?_=,<>/" |
| CoreSerializers.ValidateName | market_place/core/serializers.py:27-31 | Accepts iff no character of the name is special, and then returns the name unchanged |
| CoreSerializers.ValidateNameIdempotent | market_place/core/serializers.py:58-62 | The same rule as the brand validator: an accepted name is accepted again unchanged, and a name with a special character anywhere is refused |
| CoreSerializers.UpdatedCity | market_place/core/serializers.py:16-19 | The city name is replaced only when given; with no name the city is unchanged |
| CoreSerializers.UpdatedCategory | market_place/core/serializers.py:37-41 | Name and parent each take the given value, or keep the old one when absent |
| CoreSerializers.UpdatedBrand | market_place/core/serializers.py:68-73 | Name, detail and image each take the given value, or keep the old one when absent |
| CoreSerializers.UpdatesIdempotent | market_place/core/serializers.py:16-73 | Applying a partial update twice equals applying it once, and an update giving no key changes nothing |
| MarketModels.CategoryFilter | market_place/market/models.py:75-78 | A product is listed iff its category is c, its category's parent is c, or its grandparent is c |
| MarketModels.CategoryFilterStopsAtGrandchildren | market_place/market/models.py:75-78 | In a chain g3 -> g2 -> g1 -> c of distinct categories, a product of g2 is found and a product of g3 is not |
| MarketModels.Discounts | market_place/market/models.py:94-95 | Lists exactly the products whose discount is not null |
| MarketModels.WithoutDiscounts | market_place/market/models.py:88-92 | The table keeps its size, unlisted products are untouched, listed ones have no discount and their real price as current price; `RemoveDiscountsSpec` states the rest |
| MarketModels.WithDiscounts | market_place/market/models.py:80-86 | The table keeps its size, unlisted products are untouched, listed ones carry the discount; `SetDiscountsSpec` states the rest |
| MarketModels.RemoveDiscountsSpec | market_place/market/models.py:88-95 | Listed products lose their discount and return to their real price, other fields kept; unlisted products are unchanged; a second removal changes nothing; no listed id is among the discounts afterwards |
| MarketModels.SetDiscountsSpec | market_place/market/models.py:80-86 | Listed products get the discount and the computed price with their real price kept; unlisted products are unchanged; every listed product is then among the discounts |
| MarketModels.RatingOf | market_place/market/models.py:125-132 | The rating is "no reviews" (0) iff there is no review, otherwise the star sum over the review count |
| MarketModels.MeanWithinStars | market_place/market/models.py:63-64 | With every review in 1..5, count <= sum <= 5 * count, so the mean lies in 1..5 |
| AuthModels.User.DisplayName | market_place/auth_/models.py:57-58 | The string is the first name, one space, then the last name |
| AuthModels.UsersWithRole | market_place/auth_/models.py:35-39 | Lists exactly the users whose role is the given one: `managers()` for MANAGER, `directors()` for DIRECTOR |
| AuthModels.FirstByOrdering | market_place/auth_/models.py:55 | The first of a non-empty set of users in `Meta.ordering` (username, then first name, then last name, within one role): it is one of them and comes no later than each of them |
| AuthModels.Loads | market_place/auth_/models.py:41-42 | One count per user: the number of orders assigned to that user, whatever their status |
| AuthModels.UnassignedAddsNothing | market_place/auth_/models.py:42 | An order without an assignee changes no user's count |
| AuthModels.InsertByLoad | market_place/auth_/models.py:42 | Inserting a user into a ranking keeps only the inserted user and the old members, adds one entry, and stays sorted by count without repeats |
| AuthModels.Rank | market_place/auth_/models.py:41-42 | The ranking of the first n users holds exactly those users once each, sorted non-decreasingly by count |
| AuthModels.CountOrders | market_place/auth_/models.py:41-42 | `count_orders()` is a permutation of all users, sorted non-decreasingly by assigned-order count |
| AuthModels.LeastLoaded | market_place/auth_/models.py:41-42 | `count_orders().first()` exists iff some user exists and is then a user; its minimality is `LeastLoadedIsMinimal` |
| AuthModels.LeastLoadedIsMinimal | market_place/auth_/models.py:41-42 | `count_orders().first()` exists iff some user exists, and its count is at most every user's |
| AuthSerializers.FullName | market_place/auth_/serializers.py:20-21 | The full name is first name, space, last name, the same as `User.__str__` |
| AuthSerializers.GetRoles | market_place/auth_/serializers.py:33-35 | A null role raises; a name found is the name of some pair listing the role; which pair is `GetRolesFindsLastPair` |
| AuthSerializers.GetRolesFindsLastPair | market_place/auth_/serializers.py:33-35 | A code finds a display name iff some pair lists it, and the name found is that of the last such pair; a null role raises |
| AuthSerializers.IsAlpha | market_place/auth_/serializers.py:46 | True iff the string is non-empty and every character is a letter |
| AuthSerializers.ValidateFirstName | market_place/auth_/serializers.py:45-48 | Accepts iff non-empty and all letters, then returns the value unchanged; otherwise raises NOT_ALL_LETTERS |
| AuthSerializers.ValidatePasswordChange | market_place/auth_/serializers.py:63-68 | Returns the attrs unchanged iff the new password has at least 8 characters and equals its repeat; the length error takes precedence over the mismatch error |
| AuthSerializers.ValidatePhone | market_place/auth_/serializers.py:80-83 | An empty value passes; any other value passes iff the pattern matches at some position (unanchored search); an accepted value is returned unchanged |
| AuthSerializers.PhoneRequired | market_place/auth_/serializers.py:81 | Twelve atoms of the phone pattern must consume a character |
| AuthSerializers.AcceptedPhoneShape | market_place/auth_/serializers.py:80-83 | An accepted non-empty phone has at least 12 characters and a '+' with at least 11 characters after it |
| AuthSerializers.PlainPhoneAccepted | market_place/auth_/serializers.py:81 | "+77011234567" passes |
| AuthSerializers.FormattedPhoneAccepted | market_place/auth_/serializers.py:81 | "+7 (701) 123-45-67" passes |
| AuthSerializers.PhoneWithoutPlusRefused | market_place/auth_/serializers.py:81 | "87011234567" is refused because the pattern starts with a literal '+' |
| AuthSerializers.PhoneField | market_place/auth_/serializers.py:78-83 | The phone field accepts iff the value is non-blank, at most 16 characters long and contains a match of the pattern; a blank value is refused as blank |
| AuthSerializers.PhoneFieldLimits | market_place/auth_/serializers.py:78 | The formatted phone is refused as too long by the field, while the plain phone passes it |
| AuthSerializers.ValidateCurCity | market_place/auth_/serializers.py:85-88 | Accepts iff the value is the key of an existing city, returning it unchanged; otherwise raises NO_CITY |
| PaymentsModels.TotalNonNegative | market_place/payments/models.py:65-73 | With non-negative amounts and current prices the cart total is non-negative; `Total` itself is specified by this lemma and the three below |
| PaymentsModels.TotalConcat | market_place/payments/models.py:65-73 | The total of two runs of lines is the sum of their totals |
| PaymentsModels.TotalUpdate | market_place/payments/models.py:65-73 | Replacing one line changes the total by the new line's subtotal minus the old one's |
| PaymentsModels.TotalPriceChange | market_place/payments/models.py:65-73 | The total is recomputed from current prices: a new price for one product moves the total by its quantity times the price difference |
| PaymentsModels.FindLine | market_place/payments/models.py:36 | `filter(product=p).first()` gives the first line holding p, or none when no line holds it |
| PaymentsModels.FindLineConcat | market_place/payments/models.py:36 | The first line holding q in a concatenation is the first in the front part, or else the first in the back part shifted by the front's length |
| PaymentsModels.RemoveItem | market_place/payments/models.py:89-90 | `remove(item)` drops exactly one copy of the item (as multisets) and nothing when it is absent; when present, the lines become those before its first occurrence followed by those after it |
| PaymentsModels.Upsert | market_place/payments/models.py:36-43 | After `add_product` the line (p, amount) is present, every other line is kept, and no line but that one is new; `UpsertAmounts`, `UpsertKeepsLines`, `UpsertIdempotent` and `UpsertTotal` state the rest |
| PaymentsModels.UpsertAmounts | market_place/payments/models.py:36-43 | After `add_product` the product has exactly the given amount and every other product keeps its amount |
| PaymentsModels.UpsertKeepsLines | market_place/payments/models.py:36-43 | `add_product` keeps one line per product, leaves every other line unchanged in place, and adds a line iff the product was absent |
| PaymentsModels.UpsertIdempotent | market_place/payments/models.py:36-43 | Adding the same product with the same amount twice equals adding it once |
| PaymentsModels.UpsertTotal | market_place/payments/models.py:36-43 | Adding changes the total by the new subtotal minus the old one (zero for a new product) |
| PaymentsModels.RemoveLine | market_place/payments/models.py:49-51 | `remove_product` keeps only lines that were there, keeps every line of another product, and removes one line iff some line holds the product; `RemoveLineAmounts`, `RemoveLineKeepsLines` and `RemoveLineTotal` state the rest |
| PaymentsModels.RemoveLineAmounts | market_place/payments/models.py:49-51 | After `remove_product` the product is absent and every other product keeps its amount |
| PaymentsModels.RemoveLineKeepsLines | market_place/payments/models.py:49-51 | Removing keeps one line per product and drops a line iff the product was there |
| PaymentsModels.RemoveLineTotal | market_place/payments/models.py:49-51 | Removing lowers the total by the removed line's subtotal |
| PaymentsModels.AddItem | market_place/payments/views.py:94 | `cart_items.add(item)` makes the item a member, adds nothing else, and grows the lines by one iff the item was not yet there |
| PaymentsModels.Snapshot | market_place/payments/views.py:91-94 | After its first n additions the snapshot holds exactly the first n lines of the cart, as a set; `SnapshotCopies` shows it equals them in order when the lines are distinct |
| PaymentsModels.SnapshotCopies | market_place/payments/views.py:91-94 | Adding each line of a cart with distinct lines to an empty cart, in order, reproduces those lines |
| PaymentsModels.CartsOf | market_place/payments/models.py:30 | Lists exactly the carts owned by the user |
| PaymentsModels.Personal | market_place/payments/models.py:29-30 | A found cart is owned by the user; a failure is DoesNotExist or MultipleObjectsReturned |
| PaymentsModels.SeveralCarts | market_place/payments/models.py:29-30 | The user owns more than one cart iff two distinct carts name them as owner |
| PaymentsModels.PersonalSpec | market_place/payments/models.py:29-30 | The found cart is the user's only one; DoesNotExist iff no cart is theirs; MultipleObjectsReturned iff two are |
| PaymentsModels.BalanceStatus | market_place/payments/models.py:75-80 | MONEY_ENOUGH iff balance >= total, else DONT_ENOUGH_MONEY |
| PaymentsModels.Withdrawn | market_place/payments/models.py:82-86 | The user's balance drops by exactly the total, with no floor; every other card is unchanged and no card is added or removed |
| PaymentsModels.OrdersOf | market_place/payments/signals.py:13 | Lists exactly the orders of a transaction |
| PaymentsModels.ExactlyOneOrder | market_place/payments/signals.py:10-13 | When order k belongs to transaction k for every k, each transaction has exactly one order |
| PaymentsModels.FirstDirector | market_place/payments/signals.py:26 | `directors().first()` is absent iff no user is a director; otherwise it is a director that comes no later in `Meta.ordering` (auth_/models.py:55) than any director |
| PaymentsModels.AssigneeFor | market_place/payments/signals.py:22-30 | The receiver's choice is a user of the table, or none; `AssigneeIsLeastLoaded` says which |
| PaymentsModels.AssigneeIsLeastLoaded | market_place/payments/signals.py:25-30 | An order gets an assignee iff some user exists; the director fallback never applies; the assignee's count is at most every user's |
| PaymentsModels.ChoiceIgnoresNewOrder | market_place/payments/signals.py:24-28 | The new unassigned order does not change the choice of assignee |
| PaymentsModels.AssignedTo | market_place/payments/signals.py:16-19 | With an assignee, the order gets that assignee and PENDING together; with none, it is unchanged |
| PaymentsModels.Decremented | market_place/payments/signals.py:36-37 | The linked record's amount drops by exactly 1, with no floor; its product, its shop and every other record are unchanged |
| PaymentsModels.UserOrders | market_place/payments/models.py:126-127 | Lists exactly the orders whose transaction's cart is owned by the user |
| PaymentsModels.UserOrdersMissesCheckouts | market_place/payments/models.py:126-127 | When every transaction's cart has no owner, as checkout makes it, `user_orders` is empty |
| PaymentsModels.AssigneeOrders | market_place/payments/models.py:129-130 | Lists exactly the orders assigned to the user |
| PaymentsModels.ManagersOrders | market_place/payments/views.py:115-121 | Only an authenticated manager may list; the list is exactly the orders assigned to them |
| PaymentsModels.TopUpAsWritten | market_place/payments/views.py:22-38 | As written: the view fails only for a user without a card submitting a negative balance; otherwise the user's card is created with the balance or has it added, unchecked, and every other card is unchanged |
| PaymentsModels.NegativeTopUpOverdraws | market_place/payments/views.py:30-35 | As written, a top-up of -500 on a card holding 100 leaves it at -400 |
| PaymentsModels.TopUp | market_place/payments/serializers.py:15-18 | A negative balance is refused; otherwise the card is created with the balance or has it added, other cards are unchanged, and non-negative balances stay non-negative |
| Workflow.Store.OneOrderPerTransaction | market_place/payments/signals.py:10-13 | In a well-formed store each transaction has exactly one order, the one its creation made |
| Workflow.Store.TotalSum | market_place/payments/models.py:65-73 | The loop's sum is amount times current price summed over the cart's lines |
| Workflow.Store.CheckBalance | market_place/payments/models.py:75-80 | MONEY_ENOUGH iff the owner's balance is at least the recomputed total |
| Workflow.Store.WithdrawMoney | market_place/payments/models.py:82-86 | The owner's card is debited by exactly the cart total; nothing else changes |
| Workflow.Store.EmptyCart | market_place/payments/models.py:88-91 | The loop leaves the cart with no lines and every other cart unchanged |
| Workflow.Store.MatchingRecords | market_place/payments/models.py:100-101 | The city's matching records are empty iff no record of the city holds the line's product in at least its amount |
| Workflow.Store.HasProducts | market_place/payments/models.py:98-102 | The flag stays true iff every line is covered somewhere in the city |
| Workflow.Store.CheckAvailability | market_place/payments/models.py:93-105 | AVAILABLE iff the city has a stock record and every line is covered in the city; the record named is the city's lowest-keyed one |
| Workflow.Store.AddProduct | market_place/payments/models.py:32-43 | An unknown product raises first, then the personal-cart lookup errors; nothing changes on error; on success only the user's cart changes, by the upsert of the line |
| Workflow.Store.PostCartItem | market_place/payments/views.py:57 | `add_product` with the submitted amount, or 1 when none is submitted |
| Workflow.Store.RemoveProduct | market_place/payments/models.py:45-51 | An unknown product raises, then the personal-cart lookup errors; nothing changes on error; on success only the product's line is dropped from the user's cart |
| Workflow.Store.GetCart | market_place/payments/views.py:44-51 | The lines of the user's one cart and their recomputed total, or the lookup error |
| Workflow.Store.CreateTransaction | market_place/payments/views.py:95-98 | The transaction is appended and its creation appends exactly one order, NOT_ASSIGNED and then assigned by the receiver; stock is unchanged |
| Workflow.Store.TransactionSaved | market_place/payments/signals.py:10-13 | A created transaction gets one order; a later save of a transaction creates none |
| Workflow.Store.CreateOrder | market_place/payments/models.py:136 | The new order starts NOT_ASSIGNED with no assignee and leaves its receivers with the chosen assignee applied |
| Workflow.Store.OrderSaved | market_place/payments/signals.py:22-37 | On creation, the assignment receiver applies and then the completion check runs; on a later save, the stock record is decremented iff the status is DONE |
| Workflow.Store.AssignOnCreate | market_place/payments/signals.py:22-30 | The created order is assigned the least-loaded user, or left unassigned with no user |
| Workflow.Store.SaveAssignee | market_place/payments/signals.py:16-19 | The assignee and PENDING are set together; the re-save decrements nothing |
| Workflow.Store.CompletionCheck | market_place/payments/signals.py:33-37 | A DONE order takes one unit off its transaction's stock record; any other status leaves stock unchanged |
| Workflow.Store.Cancel | market_place/payments/views.py:125-131 | From any status the order becomes CANCELED with no assignee; an unknown id raises and changes nothing; stock is unchanged |
| Workflow.Store.Complete | market_place/payments/views.py:135-140 | From any status the order becomes DONE and its stock record loses one unit on every call; an unknown id raises and changes nothing |
| Workflow.Store.CopyCart | market_place/payments/views.py:91-94 | The new ownerless cart holds exactly the user's lines; all other carts are unchanged |
| Workflow.Store.CheckoutRefusal | market_place/payments/views.py:82-90 | No refusal means a personal cart, a card, and a balance covering the total; a refusal is one of the view's five checkout errors; `CheckoutChecks` and `Checkout` are proved against it |
| Workflow.Store.CheckoutChecks | market_place/payments/views.py:82-90 | The first failing check is reported, in the order cart, card, balance, availability; on success it names the personal cart and the city's lowest-keyed stock record |
| Workflow.Store.Checkout | market_place/payments/views.py:79-107 | A refused checkout changes nothing and names its first failing check. Otherwise it appends the snapshot cart and empties the user's cart, debits exactly the total, appends one transaction naming the snapshot and the city's lowest-keyed stock record, and appends one assigned order. The paying card is non-negative afterwards, and all balances stay non-negative |
| Workflow.Store.Fulfil | market_place/payments/views.py:91-100 | After passing checks: the snapshot, one transaction with its order, the debit of the total leaving the paying card non-negative, and the emptied cart |
| Workflow.Store.CreateCard | market_place/payments/views.py:22-38 | The corrected top-up: the card table becomes the one `TopUp` gives, and a refusal changes nothing |
| Workflow.Store.CreateUserWith | market_place/auth_/models.py:14-22 | An empty email raises before anything; a taken username is refused; otherwise the creation succeeds and exactly one user is appended, with the first city or none |
| Workflow.Store.CreateUser | market_place/auth_/models.py:24-25 | The same, with the CUSTOMER role and neither staff nor superuser flags: it succeeds iff the email is set and the username is free |
| Workflow.Store.CreateSuperuser | market_place/auth_/models.py:27-33 | `is_superuser` explicitly false raises first; otherwise it succeeds iff the email is set and the username is free, as a superuser, staff by default and role ADMIN by default |
| Workflow.Store.RemoveDiscounts | market_place/market/models.py:88-92 | The product table becomes `WithoutDiscounts` of the old one |
| Workflow.Store.SetDiscounts | market_place/market/models.py:80-86 | The product table becomes `WithDiscounts` of the old one |
| Workflow.Store.UpdateCity | market_place/core/serializers.py:16-19 | Only city k changes, to its partial update |
| Workflow.Store.UpdateCategory | market_place/core/serializers.py:37-41 | The save fails iff the given parent does not exist; otherwise only category k changes, to its partial update |
| Workflow.Store.UpdateBrand | market_place/core/serializers.py:68-73 | Only brand k changes, to its partial update |
| Workflow.Store.DetailsRefusal | market_place/auth_/serializers.py:76-98 | No refusal iff a given city exists, a given phone passes the field and its validator, and the user has a profile when a phone is given; `ChangeDetails` is proved against it |
| Workflow.Store.ChangeDetails | market_place/auth_/serializers.py:76-98 | The city is validated, then the phone, then the profile looked up; the first failure is reported and nothing changes. Otherwise a given phone goes into the profile and a given city becomes the user's, and nothing else changes |

## Left out

- HTTP plumbing, request parsing, response bodies, status codes and logging: only the typed outcome of each operation is modelled.
- Concurrency: the source takes no locks, and the model runs each operation as one sequential step on one store.
- Floating point: `set_discounts` takes its price computation `real_price - real_price * (discount / 100)` as a parameter; the rating keeps the exact (sum, count) pair instead of the two-decimal string; the card's `numbers` float is not modelled.
- The clock and randomness: the card's `valid_thru`, the transaction's `date_created` and the card number and code defaults are not modelled.
- Password hashing, `set_password`, `ChangePasswordSerializer.change_password` and the password branch of the details view belong to Django's auth library and are not modelled. JWT login and logout are also not modelled.
- `normalize_email`: the email is stored as given.
- Whitespace trimming by DRF character fields: values are taken as submitted.
- AuthSerializers.IsAlpha: `str.isalpha` is modelled with letters from the Latin and the Russian Cyrillic alphabets only, not all of Unicode; `AuthSerializers.ValidateFirstName` inherits this through `IsAlpha`.
- Workflow.Store.CheckAvailability: `filter(shop__city=city)` has no `order_by`, and stock records declare no `Meta.ordering`, so the source names whichever record of the city the database returns first. The model names the lowest key instead (`FirstAvailable`). `Workflow.Store.CheckoutChecks`, `Workflow.Store.Checkout` and `Workflow.Store.Fulfil` inherit this choice, and so does the record a later `Workflow.Store.Complete` decrements.
- AuthSerializers.ValidatePhone: `\d` matches the ASCII digits 0-9 only; Python 3's `re` on a `str` pattern also matches every other Unicode decimal digit (Arabic-Indic, Devanagari and so on), so a phone written in such digits passes the source and is refused by the model.
- AuthSerializers.PhoneField: the same ASCII-only `\d` as `ValidatePhone`.
- PaymentsModels.FirstDirector: the database's text collation is modelled as code-point order, and directors equal in username, first and last name (which the unique username rules out) are taken in key order.
- `count_orders()` orders by the count alone, so the order among users of equal count is the database's; the model keeps them in key order (`AuthModels.CountOrders`). Only the count of the chosen user is promised.
- Primary keys are the positions 0, 1, … of the tables, while Django's keys start at 1. So the truthiness of a key, such as `if self.validated_data.get('cur_city')` on 0, is not modelled; a given city is applied whenever it passes validation.
- The two receivers share the name `set_assignee`. With weak receiver references the rebinding can drop the Transaction receiver. The model makes the intended chain of calls explicit instead.
- The snapshot cart shares the `CartItem` rows of the user's cart. The model copies the line values, and its total is recomputed from current prices like any cart's.
- `Cart.total_sum` writes the sum back to an in-memory attribute and saves the cart; Carts have no receivers, so the model keeps only the returned sum.
- The checkout's `TransactionSerializer.is_valid()` always holds on the rows the view has just created, so its false branch is not modelled.
- `set_discounts` and `remove_discounts` visit the filtered products in database order; the model visits them in key order, and the outcome does not depend on the order.
- The view of the details change raises a `Response` object inside its `except` block, which is a TypeError; the model reports the validation failure itself.
- Workflow.Store.ChangeDetails: reports the first failing field, while the serializer collects the errors of every field into one exception.
- Workflow.Store.CheckBalance: requires the owner's card, because the view reaches `check_balance` only after fetching the card; the `if card:` fallthrough is not modelled.
- Workflow.Store.WithdrawMoney: requires the owner's card, for the same reason.
- Workflow.Store.CreateCard: models the corrected top-up listed under Findings; the top-up as written is `PaymentsModels.TopUpAsWritten`.
- Deletions and their `on_delete` cascades are not part of the core and are not modelled.

## Findings

| source | as written | input that shows it | evidently intended | confidence | as-written member | corrected member |
|---|---|---|---|---|---|---|
| market_place/payments/views.py:30-35 | When the serializer is invalid and the user already has a card, the submitted balance is added to it unchecked. A negative balance makes the serializer invalid, so it reaches this path. | A user whose card holds 100 submits balance -500: the card ends at -400, below the column's minimum of 0 | A negative balance is refused, as `validate_balance` (market_place/payments/serializers.py:15-18) intends, and balances stay non-negative | not executed | PaymentsModels.NegativeTopUpOverdraws | PaymentsModels.TopUp |
