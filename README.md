# Flower shop: inventory, orders and cart

A model of the flower shop's back office and shop window. It covers:

- **The inventory and order engine** (`app/crud.py`). This is the table of flower batches, the orders and the users. The operations are:
  - creating a batch, selling from it, restocking it and deleting it;
  - the retention sweep;
  - placing an order, which checks every line against stock, takes the flowers out and snapshots the prices;
  - creating, updating and deleting users;
  - the read queries.
- **The request rules** (`app/main.py`):
  - the admin gate;
  - the customer-only ordering rule;
  - the rule that only an admin or the owner may read an order;
  - the 404, 400 and 403 answers built from the engine's results;
  - the details handed to the new-order notification;
  - the check for a duplicate user name;
  - the three-hour window of the new-flowers broadcast.
- **The browser cart** (`app/static/main.js`):
  - adding to the cart, clamping a quantity and removing an entry;
  - the digit-only sanitiser, the `change` validation and the ± buttons;
  - the order request built from the cart.

Modules, one file each:

| module | file | what it holds |
|---|---|---|
| `Wrappers` | `wrappers.dfy` | `Option`, `Result` and map lookup |
| `Text` | `text.dfy` | the digit filter, JavaScript's `parseInt`, and writing an integer in decimal |
| `Keys` | `keys.dfy` | the next free row id, and ids in ascending order |
| `Records` | `records.dfy` | the rows (`Batch`, `Order`, `OrderItem`, `User`) and the request bodies |
| `Stock` | `stock.dfy` | sale, restock and the sweep on batches |
| `Orders` | `orders.dfy` | the line-by-line order placement, and an independent line-wise description of its outcome |
| `Queries` | `queries.dfy` | OFFSET/LIMIT, key order, newest-first order and the filters |
| `Users` | `users.dfy` | the field-by-field user update |
| `Shop` | `shop.dfy` | class `FlowerShop`, holding the three tables and the transactions that change them |
| `Api` | `api.dfy` | the handlers of `app/main.py` |
| `Cart` | `cart.dfy` | class `ShoppingCart` and the input handlers |

Conventions:

- **Time** is whole seconds. Every operation receives the one clock reading `now` it uses.
- **Password hashing** is a function parameter `hash`.
- **The caller** is the already authenticated `User`.
- **Row ids** follow SQLite's rule for an `INTEGER PRIMARY KEY` column: one more than the largest id in use, or 1 in an empty table. As a consequence, ids can be handed out again after a deletion.
- **Rows read without `ORDER BY`** come back in key order.

Behaviour of the code worth noting:

- Nothing in the code rejects a negative amount, so quantities are plain integers. `Stock.NegativeSaleOnSoldBatch` shows what a negative sale does to a sold batch.
- An available batch may hold 0 flowers. This happens when a batch is created with 0, or restocked by 0.
- The retention sweep returns nothing.
- When an order is refused for short stock, the session is rolled back before the message is written. The rollback expires the loaded batch, so the message shows the stock stored in the database, not the reduced stock the failing line was checked against. Two lines of 3 on a batch of 5 are refused with "В наличии: 5, запрошено: 3" (`Orders.RefusalShowsStoredStock`).
- Deleting a user keeps that user's orders and sets their customer to null. This is the ORM's default for a relationship without a delete cascade.
- The response schema of an order declares the customer id as an integer, so an order whose customer was deleted cannot be sent back. Reading it alone, or reading a page of orders that contains it, ends in a 500 "Internal Server Error" (`Api.DeletedCustomerBreaksOrderList`).

## Model

| member | source | states |
|---|---|---|
| Keys.NextKey | app/models.py:8 | the id a new row receives is not in use and exceeds every id in use; it is 1 in an empty table and otherwise one more than the largest id |
| Keys.Ascending | app/static/main.js:208 | the ids are listed in strictly increasing order, each exactly once |
| Stock.Decrement | app/crud.py:100-103 | taking flowers out lowers the quantity by exactly the amount and touches no listing field; the batch becomes sold at `now` exactly when it reaches 0, and otherwise keeps its status and sale time |
| Stock.Restock | app/crud.py:145-149 | the quantity grows by the amount and the batch is available afterwards; a sold batch loses its sale time, and an available batch keeps its sale time |
| Stock.RestockUndoesDecrement | app/crud.py:124-152 | restocking what a sale took out restores an available batch exactly |
| Stock.NewBatch | app/crud.py:111-122 | the row `create_flower_batch` inserts; `Stock.NewBatchConsistent` and `Shop.FlowerShop.CreateFlowerBatch` state that it is available, unsold, holds the requested quantity and was created at `now` |
| Stock.NewBatchConsistent | app/crud.py:111-122 | a new batch is available, has no sale time and satisfies the status invariant |
| Stock.DecrementKeepsConsistent | app/crud.py:126-130 | a non-negative sale that passed the stock check keeps the status invariant and a non-negative quantity |
| Stock.RestockKeepsConsistent | app/crud.py:142-152 | restocking keeps the status invariant |
| Stock.NegativeSaleOnSoldBatch | app/crud.py:126-130 | a sale of -3 passes the stock check on an empty sold batch and leaves 3 flowers in a batch still marked sold, which breaks the invariant |
| Stock.Expired | app/crud.py:157-167 | the sweep's deletion condition, sold a week or more ago or available and created three weeks or more ago; `Stock.Sweep` states that exactly the batches meeting it are deleted |
| Stock.Sweep | app/crud.py:154-169 | exactly the expired batches are gone (sold a week or more ago, or available and created three weeks or more ago); every other batch is kept unchanged |
| Stock.SweepIdempotent | app/crud.py:154-169 | a second sweep at the same time deletes nothing |
| Stock.SweepMonotone | app/crud.py:154-169 | a later sweep deletes at least what an earlier one deletes |
| Stock.SweepKeepsUndatedSold | app/crud.py:157-160 | a sold batch without a sale time is never swept |
| Orders.Place | app/crud.py:84-103 | the line-by-line loop of `create_order`; its outcome is stated by `Orders.PlaceSucceedsIff`, `Orders.PlaceFailsAtFirstFailure`, `Orders.PlaceItems` and `Orders.PlaceStock` |
| Orders.Message | app/crud.py:88-92 | the two refusal texts of `create_order`; `Orders.PlaceFailsAtFirstFailure` and `Orders.RefusalShowsStoredStock` state which id, name and figures they carry |
| Orders.PlaceSucceedsIff | app/crud.py:84-92 | an order is placed if and only if every line names an existing batch that still holds, after the earlier lines took theirs, at least the requested amount |
| Orders.PlaceFailsAtFirstFailure | app/crud.py:84-92 | a failed order reports the error of the first failing line: the missing id, or the batch's name, its stock as stored before the order (the message is written after the rollback re-reads the row) and the requested amount |
| Orders.RefusalShowsStoredStock | app/crud.py:89-92 | two lines of 3 on a batch of 5 are refused at the second line, and the message shows the stored 5 |
| Orders.PlaceKeepsKeys | app/crud.py:84-104 | placing an order neither adds nor removes batches |
| Orders.PlaceItems | app/crud.py:94-99 | one item per line, in request order, with the line's batch id and quantity and the batch's price |
| Orders.PlaceStock | app/crud.py:100-103 | each batch ends reduced by exactly the total requested from it, with its listing fields unchanged; batches not named by any line are untouched |
| Orders.PlaceMarksEmptiedSold | app/crud.py:101-103 | every named batch that ends at 0 is sold at `now` |
| Orders.RequestedNonNegative | app/crud.py:84-100 | with non-negative lines, the total requested from any batch is non-negative |
| Orders.PlaceKeepsStatusUnlessEmptied | app/crud.py:100-103 | with non-negative lines, a batch that does not end at 0 keeps its status and sale time |
| Orders.PlaceNonNegativeAt | app/crud.py:89-100 | a named batch never ends below 0, whatever the requested amounts, because every line is checked against the stock it sees |
| Orders.PlaceKeepsStockNonNegative | app/crud.py:84-104 | placing an order keeps every quantity non-negative |
| Orders.PlaceKeepsConsistent | app/crud.py:84-104 | with non-negative lines, placing an order keeps the status invariant on every batch |
| Queries.Window | app/crud.py:9-10 | OFFSET/LIMIT as SQLite evaluates them: the page starts at the clamped offset, holds at most `limit` rows, and holds all the rest when the limit is negative |
| Queries.WindowWithin | app/crud.py:9-10 | a page holds only rows of the result; without an offset or a limit it is the whole result |
| Queries.WindowsTile | app/crud.py:70-71 | reading `n` rows and then `p` more is the same as reading `n + p` rows |
| Queries.Listing | app/crud.py:9-10 | a table read without ORDER BY lists each row once, in key order |
| Queries.ListingBatches | app/crud.py:9-10 | the batch listing holds every batch, each under its own id, with ids strictly increasing |
| Queries.FlowerPage | app/crud.py:9-10 | `get_flowers` returns the page of the batches in id order that starts at the clamped offset: row `i` is the batch of rank offset + `i`, there are `PageSize` rows (at most `limit` when it is non-negative), ids increase, and without an offset or a limit every batch is there |
| Queries.WindowOfListing | app/crud.py:9-10 | row `i` of a page of a table read in key order is the row of rank offset + `i`, and the page has `PageSize` rows |
| Queries.UserPage | app/crud.py:18-19 | `get_users` returns the page of the users in key order that starts at the clamped offset: row `i` is the user of rank offset + `i`, there are `PageSize` rows (at most `limit` when it is non-negative), and without an offset or a limit every user is there |
| Queries.Filter | app/crud.py:73-74 | the filter keeps exactly the rows satisfying the condition, each as often as it occurs |
| Queries.InsertKeepsOrder | app/crud.py:71 | inserting an order into a newest-first list keeps it newest first |
| Queries.NewestFirst | app/crud.py:71 | the orders are sorted newest first and form a permutation of the input |
| Queries.AllOrders | app/crud.py:70-71 | `get_orders` returns the page of the newest-first listing that starts at the clamped offset: row `i` is the order of rank offset + `i`, and there are `PageSize` rows, so at most `limit` when it is non-negative; without an offset or a limit it returns all orders |
| Queries.CustomerOrders | app/crud.py:73-74 | `get_orders_by_customer` returns exactly the customer's orders, newest first, each as often as stored |
| Queries.FindOrder | app/crud.py:67-68 | an order with the id is found if and only if one is stored |
| Queries.FindByUsername | app/crud.py:15-16 | a user with the name is found if and only if one is stored; what is found is a stored row with that name |
| Queries.RecentKeys | app/main.py:294-295 | the ids of the batches created at or after the bound, strictly increasing, each once, as many as there are such batches |
| Queries.CreatedSince | app/main.py:294-295 | exactly the batches created at or after the bound, each once, so the list is as long as there are such batches |
| Users.UpdateData | app/crud.py:43 | the dictionary of sent fields names each field at most once |
| Users.PasswordSent | app/crud.py:44 | a password is present if and only if the dictionary has a password entry |
| Users.Updated | app/crud.py:38-56 | sent fields take the sent values and unsent fields keep theirs; a non-empty password is replaced by its hash; the id and role never change |
| Users.SetAttr | app/crud.py:50-52 | one `setattr` of a sent field; `Users.AssignUpdateData` states that applying them in turn yields `Users.Updated` |
| Users.NewUser | app/crud.py:24-32 | the row `create_user` builds, with the password hashed; `Shop.FlowerShop.CreateUser` states where it is stored |
| Users.AssignAllAppend | app/crud.py:50-52 | assigning two lists of entries in turn is assigning their concatenation |
| Users.PasswordSentOfUpdate | app/crud.py:43-44 | the password in the dictionary is the one the request sent |
| Users.AssignUpdateData | app/crud.py:43-52 | assigning the entries one by one, with the password skipped and already hashed, yields exactly `Updated` |
| Shop.AddUserFindable | app/crud.py:15-36 | adding a user under a free name keeps names unique, and looking the name up afterwards finds exactly that user |
| Shop.Orphan | app/models.py:36 | after a customer is deleted, no order still names them, and only the customer field of their orders changes |
| Shop.ApplyUpdate | app/crud.py:43-52 | the setattr loop of `update_user` produces exactly `Users.Updated` |
| Shop.FlowerShop.constructor | app/models.py:5-62 | the shop starts with empty tables |
| Shop.FlowerShop.CreateFlowerBatch | app/crud.py:111-122 | the new batch is available, has no sale time, is stored under a fresh id and changes nothing else |
| Shop.FlowerShop.SellFlowers | app/crud.py:124-133 | an unknown id gives None and changes nothing; an under-stocked batch comes back unchanged; otherwise the batch is decremented and only that batch changes |
| Shop.FlowerShop.AddQuantity | app/crud.py:142-152 | an unknown id gives None and changes nothing; otherwise only that batch is restocked |
| Shop.FlowerShop.DeleteFlower | app/crud.py:135-140 | removes only the named batch and returns it; an unknown id returns None and changes nothing |
| Shop.FlowerShop.DeleteOldFlowers | app/crud.py:154-169 | the two deletions together leave exactly `Stock.Sweep` of the table |
| Shop.FlowerShop.CreateOrder | app/crud.py:76-109 | a failed placement returns its error, with the stored stock, and leaves batches and orders as they were; a successful one commits the decremented batches and appends the new order, with a fresh id, the customer, `now`, status new, the comment and the placed items |
| Shop.FlowerShop.CreateUser | app/crud.py:21-36 | a name another user already has makes the commit fail: nothing is created and nothing changes; otherwise the new user is stored under a fresh id with the password hashed, user names stay unique, and looking the name up finds the new user |
| Shop.FlowerShop.UpdateUser | app/crud.py:38-56 | an unknown id changes nothing; a rename to another user's name fails the commit and changes nothing; otherwise the user becomes `Users.Updated` |
| Shop.FlowerShop.DeleteUser | app/crud.py:58-63 | removes only the named user and returns it, leaving that user's orders without a customer; an unknown id changes nothing |
| Api.AdminGate | app/main.py:47-50 | a caller passes if and only if their role is "admin"; everyone else gets 403 "Not enough permissions" |
| Api.Found | app/main.py:100-102 | a missing row becomes a 404 with the given detail, and a present row is returned as it is |
| Api.ReadOrder | app/main.py:260-274 | a missing order gives 404; anyone other than an admin or the order's customer gets 403; an admin reading an order whose customer was deleted gets 500; otherwise the order is returned |
| Api.ReadOwnOrder | app/main.py:260-274 | with distinct order ids, a customer can read each of their own orders, and an admin every order that still has its customer; an order without one gives the admin a 500 |
| Api.ReadOrders | app/main.py:250-258 | admins only (403 otherwise); the page of the newest-first order listing at the clamped offset, with `PageSize` rows (at most `limit` when it is non-negative), or a 500 exactly when that page holds an order without a customer |
| Api.DeletedCustomerBreaksOrderList | app/main.py:250-258 | once a customer who placed an order is deleted, an admin listing all orders gets a 500 |
| Api.ReadUsers | app/main.py:165-168 | admins only (403 otherwise); the page of the users in key order at the clamped offset, with at most `limit` rows when it is non-negative |
| Api.ReadMyOrders | app/main.py:201-205 | only a customer passes; they get exactly their own orders, newest first |
| Api.ReusedIdSeesNoOrders | app/main.py:201-205 | a new customer who receives a deleted customer's id sees none of that customer's orders |
| Api.Detail | app/main.py:227-233 | an item's detail carries the batch's name and description, or the fallback name and an empty description when the batch is gone |
| Api.ItemDetails | app/main.py:225-233 | one detail per order item, in item order |
| Api.PlacedDetailsNamed | app/main.py:225-233 | after a successful order, every item's batch exists, so no detail uses the fallback name |
| Api.CreateOrderEndpoint | app/main.py:207-248 | a non-customer gets 403 before anything changes; an order error becomes a 400 with its message, which shows the stored stock, and changes nothing; a placed order is returned and its notice carries the customer's name, user name, address, the comment and the batch names |
| Api.ReadFlower | app/main.py:98-103 | the stored batch, or a 404 "Flower not found" |
| Api.CreateFlowerEndpoint | app/main.py:67-91 | admins only; otherwise a new batch is stored under a fresh id |
| Api.SellEndpoint | app/main.py:105-110 | admins only; 404 only for a missing batch; an under-stocked sale returns the unchanged batch as a success |
| Api.AddEndpoint | app/main.py:112-117 | admins only; 404 for a missing batch; otherwise the restocked batch |
| Api.DeleteFlowerEndpoint | app/main.py:119-124 | admins only; 404 for a missing batch; otherwise only that batch is removed |
| Api.CleanupEndpoint | app/main.py:126-129 | admins only; runs the sweep and reports success |
| Api.CreateUserEndpoint | app/main.py:133-163 | admins only; a taken name gives 400 and creates nothing; otherwise a customer is created, with the address and notes defaulting to "" |
| Api.ReadUser | app/main.py:170-175 | admins only; the stored user, or a 404 "User not found" |
| Api.UpdateUserEndpoint | app/main.py:177-182 | admins only; 404 for a missing user; a rename onto another user's name is a 500 and changes nothing; otherwise the updated user |
| Api.DeleteUserEndpoint | app/main.py:184-189 | admins only; 404 for a missing user; otherwise only that user is removed and their orders lose their customer |
| Api.NotifyNewFlowers | app/main.py:285-302 | a caller who is not an admin gets 403 and nothing is broadcast; for an admin, a broadcast is scheduled if and only if some batch was created in the last three hours; it covers exactly those batches, each once, and the message gives their number, which is the number of such batches |
| Text.KeepDigits | app/static/main.js:347 | the sanitised text holds only digits and is no longer than the input |
| Text.KeepDigitsCount | app/static/main.js:347 | the sanitised text keeps every digit of the input as often as it occurs, and drops every other character |
| Text.KeepDigitsAppend | app/static/main.js:347 | sanitising works piece by piece, so the kept digits stay in their input order |
| Text.KeepDigitsIdempotent | app/static/main.js:347 | sanitising twice is sanitising once |
| Text.ShowInt | app/static/main.js:339 | an integer is written as a non-empty string: digits for a non-negative number, a minus sign and digits for a negative one; `Text.ParseShowInt` reads it back |
| Text.ParseInt | app/static/main.js:351 | JavaScript's `parseInt` in base 10; `Text.ParseIntOfDigits` and `Text.ParseShowInt` state what it reads |
| Text.ShowNat | app/static/main.js:339 | a natural number is written as a non-empty run of digits without leading zeros, and the digits denote that number |
| Text.ParseIntOfDigits | app/static/main.js:351 | `parseInt` of a digit string is NaN exactly when the string is empty, and otherwise the number the digits denote |
| Text.ParseShowInt | app/static/main.js:339 | `parseInt` reads back every integer written in decimal |
| Cart.Clamp | app/static/main.js:299 | the stored quantity is at least 1, at most the stock when the stock is at least 1, and an in-range quantity is kept |
| Cart.ClampIdempotent | app/static/main.js:299 | clamping twice is clamping once |
| Cart.Payload | app/static/main.js:207-211 | the order request built from the cart; `Cart.PayloadLines` states its lines |
| Cart.PayloadLines | app/static/main.js:207-211 | the order request has exactly one line per cart key, in increasing key order, with that key and its cart quantity, and carries the comment |
| Cart.PayloadMatchesNav | app/static/main.js:55-56 | the request has as many lines as the navigation bar counts entries, with no id twice |
| Cart.MinOf | app/static/main.js:362 | a readable non-zero `min` is used; otherwise the minimum is 1 |
| Cart.ChangeValue | app/static/main.js:361-370 | the `change` rewrite of a quantity field; `Cart.ChangeValueBounds` and `Cart.ChangeValueIdempotent` state what it leaves |
| Cart.ChangeValueBounds | app/static/main.js:361-370 | after `change` the field always reads as a number: exactly `min` for an unreadable value or one below `min`, exactly `max` for one above a readable `max`; with consistent bounds that number lies between `min` and `max`, and a value already in range is kept as typed |
| Cart.ChangeValueIdempotent | app/static/main.js:361-370 | with consistent bounds, a second `change` leaves the field as it is |
| Cart.StepValue | app/static/main.js:333-341 | a ± button; `Cart.StepValueMoves` states how it moves the field |
| Cart.StepValueMoves | app/static/main.js:333-341 | a ± button moves the field by exactly its step when the result is at least `min`, and otherwise leaves it alone |
| Cart.ShoppingCart.constructor | app/static/main.js:12-14 | with nothing in storage, the cart is empty |
| Cart.ShoppingCart.AddToCart | app/static/main.js:313-323 | adds the chosen amount to what the cart holds for the batch; a sum above the stock leaves the cart unchanged; no other entry changes |
| Cart.ShoppingCart.UpdateQuantity | app/static/main.js:295-304 | does nothing for an id not in the cart; otherwise stores the clamped quantity and changes nothing else |
| Cart.ShoppingCart.Remove | app/static/main.js:326-331 | deletes only that id |
| Cart.ShoppingCart.OnInput | app/static/main.js:344-357 | the field keeps only its digits; on the cart page, a non-empty result updates the cart with the number it denotes |
| Cart.ShoppingCart.OnChange | app/static/main.js:359-380 | the field is rewritten by the `change` rule; on the cart page, the cart is always updated with a number, never NaN |

## Left out

- **Persistence machinery.** Sessions, `commit`, `refresh`, the engine and the settings are left out. Each operation is one transaction: it commits all of its changes, or on an error none of them.
- **Concurrency.** Requests are handled one after another.
- **Authentication.** JWT decoding, the login endpoint and password verification are left out, because they are foreign calls. The caller is given as the resolved `User`, and hashing is the opaque parameter `hash`.
- **File uploads.** The image and photo files are file I/O. The stored path is an input.
- **Telegram.** Sending the notifications, the subscriber table and the bot are network I/O. The model stops at the notice and at the list of batches to broadcast.
- **Prices.** Prices are copied, never computed. The unused order total and the cart's price totals are floating-point display values.
- **Browser plumbing.** DOM rendering, `fetch`, `localStorage` and page routing are UI glue.
- **Clock reads.** The sweep reads the clock twice, and placing an order reads it once per emptied batch. The model uses one `now` for each call.
- **Order-item row ids and other tables.** Order items carry no row id of their own. The subscriber table is not part of this model.
- **Ties in the newest-first order.** The SQL leaves the order of orders with the same creation time unspecified. The model keeps them in insertion order.
- **Browser sanitising.** The browser also sanitises the value of a number field, turning text that is not a number into "". That sanitising is not modelled: a field value is the text itself.
- **Large numbers in JavaScript.** Precision above 2^53, and decimal output of magnitudes of 10^21 or more (which JavaScript writes in exponent form), are outside the model.
- Cart.ShoppingCart.AddToCart: the chosen amount and the stock are integers. A field that `parseInt` cannot read, which would put NaN into the cart, is not modelled.
- Cart.ShoppingCart.constructor: the cart read from storage at page load is not modelled. The model starts from an empty cart.
- Shop.FlowerShop.CreateUser: a failed commit is modelled as a refusal that changes nothing. The source raises the database error instead, and the request ends with a server error.
- Shop.FlowerShop.UpdateUser: a failed commit is modelled as a refusal that changes nothing. After that failure the source leaves the session dirty, and the request ends with a server error.
