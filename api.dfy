/**
 * The request handlers of `app/main.py`: who may call what, how the results of the database
 * operations become HTTP answers, and what the new-order notification carries. The caller is the
 * user the bearer token resolved to; resolving it is not part of this model.
 */
module Api {
  import opened Wrappers
  import opened Records
  import opened Stock
  import opened Orders
  import opened Users
  import Queries
  import Keys
  import Text
  import Shop

  /** An `HTTPException`: the status code and the detail text sent back. */
  datatype HttpError = HttpError(status: int, detail: string)

  const NOT_ENOUGH_PERMISSIONS: string := "Not enough permissions"
  const FLOWER_NOT_FOUND: string := "Flower not found"
  const USER_NOT_FOUND: string := "User not found"
  const UNKNOWN_FLOWER: string := "Неизвестный цветок"

  /** `get_current_admin_user`: only the role "admin" passes; every other role is refused with 403. */
  function AdminGate(caller: User): (r: Result<User, HttpError>)
    ensures r.Success? <==> caller.role == ADMIN
    ensures r.Success? ==> r.value == caller
    ensures r.Failure? ==> r.error == HttpError(403, NOT_ENOUGH_PERMISSIONS)
  {
    if caller.role != ADMIN then Failure(HttpError(403, NOT_ENOUGH_PERMISSIONS)) else Success(caller)
  }

  /** The None-to-404 mapping the handlers apply to a row that may be missing. */
  function Found<T>(row: Option<T>, detail: string): (r: Result<T, HttpError>)
    ensures r.Success? <==> row.Some?
    ensures r.Success? ==> r.value == row.value
    ensures r.Failure? ==> r.error == HttpError(404, detail)
  {
    match row
    case Some(v) => Success(v)
    case None => Failure(HttpError(404, detail))
  }

  /** An error the handler does not catch: the server answers it with a plain 500. */
  const INTERNAL_ERROR: HttpError := HttpError(500, "Internal Server Error")

  /**
   * The response schema of an order declares `customer_id` as an integer, so an order whose
   * customer was deleted (the column is then null) fails response validation with a 500.
   */
  predicate HasCustomer(o: Order) {
    o.customerId.Some?
  }

  /**
   * `read_order`: 404 for a missing order, then 403 unless the caller is an admin or the order's
   * customer; an order without a customer cannot be sent back and ends in a 500.
   */
  function ReadOrder(orders: seq<Order>, orderId: int, caller: User): (r: Result<Order, HttpError>)
    ensures r.Success? <==>
      Queries.FindOrder(orders, orderId).Some?
      && (caller.role == ADMIN || Queries.FindOrder(orders, orderId).value.customerId == Some(caller.id))
      && HasCustomer(Queries.FindOrder(orders, orderId).value)
    ensures r.Success? ==> r.value in orders && r.value.id == orderId
    ensures r.Success? && caller.role != ADMIN ==> r.value.customerId == Some(caller.id)
    ensures (forall o :: o in orders ==> o.id != orderId) ==> r == Failure(HttpError(404, "Order not found"))
    ensures (Queries.FindOrder(orders, orderId).Some? && caller.role != ADMIN
             && Queries.FindOrder(orders, orderId).value.customerId != Some(caller.id)) ==>
      r == Failure(HttpError(403, "Not allowed to view this order"))
    ensures (Queries.FindOrder(orders, orderId).Some? && caller.role == ADMIN
             && !HasCustomer(Queries.FindOrder(orders, orderId).value)) ==>
      r == Failure(INTERNAL_ERROR)
  {
    match Queries.FindOrder(orders, orderId)
    case None => Failure(HttpError(404, "Order not found"))
    case Some(o) =>
      if caller.role != ADMIN && o.customerId != Some(caller.id) then Failure(HttpError(403, "Not allowed to view this order"))
      else if !HasCustomer(o) then Failure(INTERNAL_ERROR)
      else Success(o)
  }

  /**
   * When order ids are distinct, a customer can read each of their own orders, and an admin every
   * order that still has its customer; an order whose customer was deleted gives the admin a 500.
   */
  lemma ReadOwnOrder(orders: seq<Order>, o: Order, caller: User)
    requires Queries.DistinctOrderIds(orders) && o in orders
    requires caller.role == ADMIN || o.customerId == Some(caller.id)
    ensures HasCustomer(o) ==> ReadOrder(orders, o.id, caller) == Success(o)
    ensures !HasCustomer(o) ==> ReadOrder(orders, o.id, caller) == Failure(INTERNAL_ERROR)
  {
    var found := Queries.FindOrder(orders, o.id);
    var i :| 0 <= i < |orders| && orders[i] == o;
    assert found.Some?;
    var j :| 0 <= j < |orders| && orders[j] == found.value;
    assert i == j;
  }

  /**
   * `read_orders`: admins only; one page of all orders, newest first. A page holding an order whose
   * customer was deleted fails response validation with a 500.
   */
  function ReadOrders(orders: seq<Order>, caller: User, skip: int, limit: int): (r: Result<seq<Order>, HttpError>)
    ensures caller.role != ADMIN ==> r == Failure(HttpError(403, NOT_ENOUGH_PERMISSIONS))
    ensures caller.role == ADMIN ==>
      (r.Success? <==> forall o :: o in Queries.AllOrders(orders, skip, limit) ==> HasCustomer(o))
    ensures caller.role == ADMIN && r.Failure? ==> r.error == INTERNAL_ERROR
    ensures r.Success? ==> limit >= 0 ==> |r.value| <= limit
    ensures r.Success? ==> |r.value| == Queries.PageSize(|orders|, skip, limit)
    ensures r.Success? ==> forall i :: 0 <= i < |r.value| ==>
      r.value[i] == Queries.NewestFirst(orders)[Queries.Offset(skip, |orders|) + i]
    ensures r.Success? ==> Queries.NewestFirstOrder(r.value) && forall o :: o in r.value ==> o in orders
  {
    match AdminGate(caller)
    case Failure(e) => Failure(e)
    case Success(_) =>
      var page := Queries.AllOrders(orders, skip, limit);
      if forall o :: o in page ==> HasCustomer(o) then Success(page) else Failure(INTERNAL_ERROR)
  }

  /**
   * Once a customer with orders is deleted, an admin can no longer list all orders: the full
   * listing holds an order without a customer and ends in a 500.
   */
  lemma DeletedCustomerBreaksOrderList(orders: seq<Order>, id: int, caller: User)
    requires caller.role == ADMIN
    requires exists o :: o in orders && o.customerId == Some(id)
    ensures ReadOrders(Shop.Orphan(orders, id), caller, 0, -1) == Failure(INTERNAL_ERROR)
  {
    var after := Shop.Orphan(orders, id);
    var o :| o in orders && o.customerId == Some(id);
    var i :| 0 <= i < |orders| && orders[i] == o;
    var orphan := after[i];
    assert !HasCustomer(orphan);
    var page := Queries.AllOrders(after, 0, -1);
    assert orphan in multiset(after);
    assert orphan in multiset(page);
  }

  /** `read_users`: admins only; one page of the users. */
  function ReadUsers(users: map<int, User>, caller: User, skip: int, limit: int): (r: Result<seq<User>, HttpError>)
    ensures r.Success? <==> caller.role == ADMIN
    ensures r.Failure? ==> r.error == HttpError(403, NOT_ENOUGH_PERMISSIONS)
    ensures r.Success? ==> limit >= 0 ==> |r.value| <= limit
    ensures r.Success? ==> |r.value| == Queries.PageSize(|users|, skip, limit)
    ensures r.Success? ==> forall i :: 0 <= i < |r.value| ==>
      r.value[i] == users[Queries.KeyAt(users, Queries.Offset(skip, |users|) + i)]
  {
    match AdminGate(caller)
    case Failure(e) => Failure(e)
    case Success(_) => Success(Queries.UserPage(users, skip, limit))
  }

  /** `read_my_orders`: 403 for anyone but a customer; a customer gets exactly their orders, newest first. */
  function ReadMyOrders(orders: seq<Order>, caller: User): (r: Result<seq<Order>, HttpError>)
    ensures r.Success? <==> caller.role == CUSTOMER
    ensures r.Failure? ==> r.error == HttpError(403, "Admins cannot have order history.")
    ensures r.Success? ==>
      && Queries.NewestFirstOrder(r.value)
      && (forall o :: o in r.value <==> o in orders && o.customerId == Some(caller.id))
      && multiset(r.value) <= multiset(orders)
  {
    if caller.role != CUSTOMER then Failure(HttpError(403, "Admins cannot have order history."))
    else
      var mine := Queries.CustomerOrders(orders, caller.id);
      assert forall o :: multiset(mine)[o] <= multiset(orders)[o];
      Success(mine)
  }

  /**
   * Ids are handed out again after a deletion (the next id is one past the largest in use), but a
   * new user who receives a deleted customer's id sees none of that customer's orders.
   */
  lemma ReusedIdSeesNoOrders(orders: seq<Order>, id: int, caller: User)
    requires caller.id == id && caller.role == CUSTOMER
    ensures ReadMyOrders(Shop.Orphan(orders, id), caller) == Success([])
  {
    var mine := ReadMyOrders(Shop.Orphan(orders, id), caller).value;
    assert forall o :: o !in mine;
  }

  /** One entry of `items_details`: the item's batch and quantity with the batch's current name and description. */
  datatype ItemDetail = ItemDetail(batchId: int, quantity: int, name: string, description: Option<string>)

  /** The entry for one item, with the fallback name and an empty description when the batch is gone. */
  function Detail(batches: map<int, Batch>, item: OrderItem): (d: ItemDetail)
    ensures d.batchId == item.batchId && d.quantity == item.quantity
    ensures item.batchId in batches ==>
      d.name == batches[item.batchId].name && d.description == batches[item.batchId].description
    ensures item.batchId !in batches ==> d.name == UNKNOWN_FLOWER && d.description == Some("")
  {
    match Lookup(batches, item.batchId)
    case Some(b) => ItemDetail(item.batchId, item.quantity, b.name, b.description)
    case None => ItemDetail(item.batchId, item.quantity, UNKNOWN_FLOWER, Some(""))
  }

  /** The loop of `create_order_endpoint` that builds `items_details`: one entry per item, in item order. */
  method ItemDetails(batches: map<int, Batch>, items: seq<OrderItem>) returns (details: seq<ItemDetail>)
    ensures |details| == |items|
    ensures forall i :: 0 <= i < |items| ==> details[i] == Detail(batches, items[i])
  {
    details := [];
    var i := 0;
    while i < |items|
      invariant 0 <= i <= |items|
      invariant |details| == i
      invariant forall j :: 0 <= j < i ==> details[j] == Detail(batches, items[j])
    {
      var item := items[i];
      var name, description;
      if item.batchId in batches {
        name, description := batches[item.batchId].name, batches[item.batchId].description;
      } else {
        name, description := UNKNOWN_FLOWER, Some("");
      }
      details := details + [ItemDetail(item.batchId, item.quantity, name, description)];
      i := i + 1;
    }
  }

  /**
   * After a successful placement every item names a batch of the new table, so the details of a
   * newly placed order always carry the batch's own name, never the fallback.
   */
  lemma PlacedDetailsNamed(m: map<int, Batch>, lines: seq<OrderLine>, now: Time)
    requires Place(m, m, lines, now).Placed?
    ensures var p := Place(m, m, lines, now);
      forall item :: item in p.items ==>
        item.batchId in p.batches && Detail(p.batches, item).name == p.batches[item.batchId].name
  {
    PlaceItems(m, m, lines, now);
    PlaceKeepsKeys(m, m, lines, now);
  }

  /** What the new-order notification is given (`order_details`). */
  datatype OrderNotice = OrderNotice(
    orderId: int,
    customerName: Option<string>,
    customerUsername: string,
    customerAddress: Option<string>,
    comment: Option<string>,
    items: seq<ItemDetail>)

  /**
   * `create_order_endpoint`: 403 for anyone but a customer before the order is attempted; an error
   * of the order becomes a 400 with its message; a placed order is returned and a notice about it
   * is scheduled.
   */
  method CreateOrderEndpoint(shop: Shop.FlowerShop, caller: User, req: OrderCreate, now: Time)
    returns (r: Result<Order, HttpError>, notice: Option<OrderNotice>)
    requires shop.Valid()
    modifies shop
    ensures shop.Valid()
    ensures caller.role != CUSTOMER ==>
      && r == Failure(HttpError(403, "Only customers can create orders."))
      && notice == None
      && shop.batches == old(shop.batches) && shop.orders == old(shop.orders) && shop.users == old(shop.users)
    ensures caller.role == CUSTOMER && Place(old(shop.batches), old(shop.batches), req.lines, now).Failed? ==>
      && r == Failure(HttpError(400, Message(Place(old(shop.batches), old(shop.batches), req.lines, now).error)))
      && notice == None
      && shop.batches == old(shop.batches) && shop.orders == old(shop.orders) && shop.users == old(shop.users)
    ensures caller.role == CUSTOMER && Place(old(shop.batches), old(shop.batches), req.lines, now).Placed? ==>
      && r.Success?
      && r.value.customerId == Some(caller.id) && r.value.comment == req.comment
      && r.value.items == Place(old(shop.batches), old(shop.batches), req.lines, now).items
      && shop.batches == Place(old(shop.batches), old(shop.batches), req.lines, now).batches
      && shop.orders == old(shop.orders) + [r.value]
      && shop.users == old(shop.users)
      && notice.Some?
      && notice.value.orderId == r.value.id
      && notice.value.customerName == caller.contactName
      && notice.value.customerUsername == caller.username
      && notice.value.customerAddress == caller.address
      && notice.value.comment == req.comment
      && |notice.value.items| == |r.value.items|
      && (forall i :: 0 <= i < |r.value.items| ==>
            && r.value.items[i].batchId in shop.batches
            && notice.value.items[i] == Detail(shop.batches, r.value.items[i])
            && notice.value.items[i].name == shop.batches[r.value.items[i].batchId].name)
  {
    notice := None;
    if caller.role != CUSTOMER {
      r := Failure(HttpError(403, "Only customers can create orders."));
      return;
    }
    ghost var placed := Place(shop.batches, shop.batches, req.lines, now);
    var result := shop.CreateOrder(caller.id, req, now);
    if result.Failure? {
      r := Failure(HttpError(400, Message(result.error)));
      return;
    }
    var order := result.value;
    PlacedDetailsNamed(old(shop.batches), req.lines, now);
    assert forall i :: 0 <= i < |order.items| ==> order.items[i] in placed.items;
    var details := ItemDetails(shop.batches, order.items);
    notice := Some(OrderNotice(order.id, caller.contactName, caller.username, caller.address, order.comment, details));
    r := Success(order);
  }

  /** `read_flower`: the batch, or 404. */
  function ReadFlower(batches: map<int, Batch>, id: int): (r: Result<Batch, HttpError>)
    ensures r.Success? <==> id in batches
    ensures r.Success? ==> r.value == batches[id]
    ensures r.Failure? ==> r.error == HttpError(404, FLOWER_NOT_FOUND)
  {
    Found(Lookup(batches, id), FLOWER_NOT_FOUND)
  }

  /** `create_flower`: admins only; the batch is created from the form fields. */
  method CreateFlowerEndpoint(shop: Shop.FlowerShop, caller: User, req: BatchCreate, now: Time)
    returns (r: Result<Batch, HttpError>)
    requires shop.Valid()
    modifies shop
    ensures shop.Valid()
    ensures caller.role != ADMIN ==>
      r == Failure(HttpError(403, NOT_ENOUGH_PERMISSIONS)) && shop.batches == old(shop.batches)
    ensures caller.role == ADMIN ==>
      && r.Success? && r.value.id !in old(shop.batches)
      && r.value == NewBatch(r.value.id, req, now)
      && shop.batches == old(shop.batches)[r.value.id := r.value]
    ensures shop.orders == old(shop.orders) && shop.users == old(shop.users)
  {
    var gate := AdminGate(caller);
    if gate.Failure? {
      return Failure(gate.error);
    }
    var b := shop.CreateFlowerBatch(req, now);
    r := Success(b);
  }

  /**
   * `sell_flower`: admins only. 404 only when the batch is missing: a batch with too little stock
   * comes back unchanged as a success.
   */
  method SellEndpoint(shop: Shop.FlowerShop, caller: User, id: int, amount: int, now: Time)
    returns (r: Result<Batch, HttpError>)
    requires shop.Valid()
    modifies shop
    ensures shop.Valid()
    ensures shop.orders == old(shop.orders) && shop.users == old(shop.users)
    ensures caller.role != ADMIN ==>
      r == Failure(HttpError(403, NOT_ENOUGH_PERMISSIONS)) && shop.batches == old(shop.batches)
    ensures caller.role == ADMIN && id !in old(shop.batches) ==>
      r == Failure(HttpError(404, "Flower not found or not enough quantity")) && shop.batches == old(shop.batches)
    ensures caller.role == ADMIN && id in old(shop.batches) && old(shop.batches)[id].quantity < amount ==>
      r == Success(old(shop.batches)[id]) && shop.batches == old(shop.batches)
    ensures caller.role == ADMIN && id in old(shop.batches) && old(shop.batches)[id].quantity >= amount ==>
      && r == Success(Decrement(old(shop.batches)[id], amount, now))
      && shop.batches == old(shop.batches)[id := r.value]
  {
    var gate := AdminGate(caller);
    if gate.Failure? {
      return Failure(gate.error);
    }
    var sold := shop.SellFlowers(id, amount, now);
    r := Found(sold, "Flower not found or not enough quantity");
  }

  /** `add_flower_quantity`: admins only; 404 for a missing batch. */
  method AddEndpoint(shop: Shop.FlowerShop, caller: User, id: int, amount: int)
    returns (r: Result<Batch, HttpError>)
    requires shop.Valid()
    modifies shop
    ensures shop.Valid()
    ensures shop.orders == old(shop.orders) && shop.users == old(shop.users)
    ensures caller.role != ADMIN ==>
      r == Failure(HttpError(403, NOT_ENOUGH_PERMISSIONS)) && shop.batches == old(shop.batches)
    ensures caller.role == ADMIN && id !in old(shop.batches) ==>
      r == Failure(HttpError(404, FLOWER_NOT_FOUND)) && shop.batches == old(shop.batches)
    ensures caller.role == ADMIN && id in old(shop.batches) ==>
      && r == Success(Restock(old(shop.batches)[id], amount))
      && shop.batches == old(shop.batches)[id := r.value]
  {
    var gate := AdminGate(caller);
    if gate.Failure? {
      return Failure(gate.error);
    }
    var added := shop.AddQuantity(id, amount);
    r := Found(added, FLOWER_NOT_FOUND);
  }

  /** `delete_flower`: admins only; 404 for a missing batch. */
  method DeleteFlowerEndpoint(shop: Shop.FlowerShop, caller: User, id: int)
    returns (r: Result<Batch, HttpError>)
    requires shop.Valid()
    modifies shop
    ensures shop.Valid()
    ensures shop.orders == old(shop.orders) && shop.users == old(shop.users)
    ensures caller.role != ADMIN ==>
      r == Failure(HttpError(403, NOT_ENOUGH_PERMISSIONS)) && shop.batches == old(shop.batches)
    ensures caller.role == ADMIN ==>
      && r == Found(Lookup(old(shop.batches), id), FLOWER_NOT_FOUND)
      && shop.batches == old(shop.batches) - {id}
  {
    var gate := AdminGate(caller);
    if gate.Failure? {
      return Failure(gate.error);
    }
    var deleted := shop.DeleteFlower(id);
    r := Found(deleted, FLOWER_NOT_FOUND);
  }

  /** `cleanup_old_flowers`: admins only; runs the retention sweep. */
  method CleanupEndpoint(shop: Shop.FlowerShop, caller: User, now: Time) returns (r: Result<string, HttpError>)
    requires shop.Valid()
    modifies shop
    ensures shop.Valid()
    ensures shop.orders == old(shop.orders) && shop.users == old(shop.users)
    ensures caller.role != ADMIN ==>
      r == Failure(HttpError(403, NOT_ENOUGH_PERMISSIONS)) && shop.batches == old(shop.batches)
    ensures caller.role == ADMIN ==>
      r == Success("Cleanup successful") && shop.batches == Sweep(old(shop.batches), now)
  {
    var gate := AdminGate(caller);
    if gate.Failure? {
      return Failure(gate.error);
    }
    shop.DeleteOldFlowers(now);
    r := Success("Cleanup successful");
  }

  /**
   * `create_user_endpoint`: admins only; 400 when the name is taken, creating nothing; otherwise a
   * customer (the default role) with the given fields, address and notes defaulting to "".
   */
  method CreateUserEndpoint(shop: Shop.FlowerShop, caller: User, username: string, password: string,
                            contactName: string, address: string, adminNotes: string,
                            photoUrl: Option<string>, hash: string -> string)
    returns (r: Result<User, HttpError>)
    requires shop.Valid()
    modifies shop
    ensures shop.Valid()
    ensures shop.batches == old(shop.batches) && shop.orders == old(shop.orders)
    ensures caller.role != ADMIN ==>
      r == Failure(HttpError(403, NOT_ENOUGH_PERMISSIONS)) && shop.users == old(shop.users)
    ensures caller.role == ADMIN && Queries.FindByUsername(old(shop.users), username).Some? ==>
      r == Failure(HttpError(400, "Username already registered")) && shop.users == old(shop.users)
    ensures caller.role == ADMIN && Queries.FindByUsername(old(shop.users), username).None? ==>
      && r.Success? && r.value.id !in old(shop.users)
      && r.value == NewUser(r.value.id, UserCreate(username, password, CUSTOMER, Some(contactName), Some(address), Some(adminNotes)), photoUrl, hash)
      && shop.users == old(shop.users)[r.value.id := r.value]
  {
    var gate := AdminGate(caller);
    if gate.Failure? {
      return Failure(gate.error);
    }
    if Queries.FindByUsername(shop.users, username).Some? {
      return Failure(HttpError(400, "Username already registered"));
    }
    var created := shop.CreateUser(UserCreate(username, password, CUSTOMER, Some(contactName), Some(address), Some(adminNotes)), photoUrl, hash);
    r := Success(created.value);
  }

  /** `read_user`: admins only; 404 for a missing user. */
  function ReadUser(users: map<int, User>, caller: User, id: int): (r: Result<User, HttpError>)
    ensures caller.role != ADMIN ==> r == Failure(HttpError(403, NOT_ENOUGH_PERMISSIONS))
    ensures caller.role == ADMIN ==> (r.Success? <==> id in users)
    ensures caller.role == ADMIN && id in users ==> r == Success(users[id])
    ensures caller.role == ADMIN && id !in users ==> r == Failure(HttpError(404, USER_NOT_FOUND))
  {
    match AdminGate(caller)
    case Failure(e) => Failure(e)
    case Success(_) => Found(Lookup(users, id), USER_NOT_FOUND)
  }

  /**
   * `update_user_endpoint`: admins only; 404 for a missing user. A rename onto another user's name
   * makes the commit fail, which the server answers with a 500.
   */
  method UpdateUserEndpoint(shop: Shop.FlowerShop, caller: User, id: int, upd: UserUpdate, hash: string -> string)
    returns (r: Result<User, HttpError>)
    requires shop.Valid()
    modifies shop
    ensures shop.Valid()
    ensures shop.batches == old(shop.batches) && shop.orders == old(shop.orders)
    ensures caller.role != ADMIN ==>
      r == Failure(HttpError(403, NOT_ENOUGH_PERMISSIONS)) && shop.users == old(shop.users)
    ensures caller.role == ADMIN && id !in old(shop.users) ==>
      r == Failure(HttpError(404, USER_NOT_FOUND)) && shop.users == old(shop.users)
    ensures caller.role == ADMIN && id in old(shop.users) && NameTakenByOther(old(shop.users), id, upd.username) ==>
      r == Failure(INTERNAL_ERROR) && shop.users == old(shop.users)
    ensures caller.role == ADMIN && id in old(shop.users) && !NameTakenByOther(old(shop.users), id, upd.username) ==>
      && r == Success(Updated(old(shop.users)[id], upd, hash))
      && shop.users == old(shop.users)[id := r.value]
  {
    var gate := AdminGate(caller);
    if gate.Failure? {
      return Failure(gate.error);
    }
    var result := shop.UpdateUser(id, upd, hash);
    match result
    case UserNotFound => r := Failure(HttpError(404, USER_NOT_FOUND));
    case NameConflict => r := Failure(INTERNAL_ERROR);
    case UserUpdated(u) => r := Success(u);
  }

  /** `delete_user_endpoint`: admins only; 404 for a missing user; the user's orders lose their customer. */
  method DeleteUserEndpoint(shop: Shop.FlowerShop, caller: User, id: int) returns (r: Result<User, HttpError>)
    requires shop.Valid()
    modifies shop
    ensures shop.Valid()
    ensures shop.batches == old(shop.batches)
    ensures caller.role != ADMIN ==>
      r == Failure(HttpError(403, NOT_ENOUGH_PERMISSIONS)) && shop.users == old(shop.users) && shop.orders == old(shop.orders)
    ensures caller.role == ADMIN ==>
      && r == Found(Lookup(old(shop.users), id), USER_NOT_FOUND)
      && shop.users == old(shop.users) - {id}
      && shop.orders == (if r.Success? then Shop.Orphan(old(shop.orders), id) else old(shop.orders))
  {
    var gate := AdminGate(caller);
    if gate.Failure? {
      return Failure(gate.error);
    }
    var deleted := shop.DeleteUser(id);
    r := Found(deleted, USER_NOT_FOUND);
  }

  /** The answer of `notify_new_flowers`: its message and, when there is one, the list to broadcast. */
  datatype Notification = Notification(message: string, broadcast: Option<seq<Batch>>)

  /**
   * `notify_new_flowers`: admins only, refused before any batch is read; then the batches created in
   * the last three hours; with none, no broadcast is scheduled; otherwise all of them are broadcast
   * and the message gives their number.
   */
  function NotifyNewFlowers(batches: map<int, Batch>, caller: User, now: Time): (r: Result<Notification, HttpError>)
    ensures r.Success? <==> caller.role == ADMIN
    ensures r.Failure? ==> r.error == HttpError(403, NOT_ENOUGH_PERMISSIONS)
    ensures r.Success? ==>
      (r.value.broadcast.Some? <==> exists k :: k in batches && batches[k].createdAt >= now - 3 * HOUR)
    ensures r.Success? && r.value.broadcast.Some? ==>
      && (forall b :: b in r.value.broadcast.value <==> b in batches.Values && b.createdAt >= now - 3 * HOUR)
      && |r.value.broadcast.value| == |Queries.RecentIds(batches, now - 3 * HOUR)|
      && r.value.message == "Рассылка о " + Text.ShowInt(|Queries.RecentIds(batches, now - 3 * HOUR)|)
                            + " новых партиях запущена!"
    ensures r.Success? && r.value.broadcast.None? ==> r.value.message == "Новых цветов за последние 3 часа не найдено."
  {
    match AdminGate(caller)
    case Failure(e) => Failure(e)
    case Success(_) =>
      var recent := Queries.CreatedSince(batches, now - 3 * HOUR);
      if recent == [] then
        Success(Notification("Новых цветов за последние 3 часа не найдено.", None))
      else
        assert recent[0] in recent;
        Success(Notification("Рассылка о " + Text.ShowInt(|recent|) + " новых партиях запущена!", Some(recent)))
  }
}
