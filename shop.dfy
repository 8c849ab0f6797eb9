/**
 * The database as `app/crud.py` changes it: the tables of batches, orders and users, and the
 * operations that write them. Each operation is one transaction: it either commits all of its
 * changes or, on an error, leaves every table as it was. `now` stands for the server clock read
 * during the call; `hash` for the password hashing function.
 */
module Shop {
  import opened Wrappers
  import opened Records
  import opened Stock
  import opened Orders
  import opened Users
  import Keys
  import Queries

  function OrderIds(orders: seq<Order>): set<int> {
    set o | o in orders :: o.id
  }

  /**
   * The orders after their customer `id` is deleted: the relationship from users to orders has no
   * delete cascade, so the ORM sets the customer of each of those orders to null and keeps them.
   */
  function Orphan(orders: seq<Order>, id: int): (r: seq<Order>)
    ensures |r| == |orders|
    ensures forall i :: 0 <= i < |r| ==> r[i].(customerId := orders[i].customerId) == orders[i]
    ensures forall i :: 0 <= i < |r| ==> orders[i].customerId != Some(id) ==> r[i] == orders[i]
    ensures forall o :: o in r ==> o.customerId != Some(id)
  {
    seq(|orders|, i requires 0 <= i < |orders| =>
      if orders[i].customerId == Some(id) then orders[i].(customerId := None) else orders[i])
  }

  /**
   * Adding a user whose name is free keeps names unique, and looking the name up afterwards finds
   * that very user.
   */
  lemma AddUserFindable(users: map<int, User>, u: User)
    requires UniqueUsernames(users) && Queries.FindByUsername(users, u.username).None?
    ensures UniqueUsernames(users[u.id := u])
    ensures Queries.FindByUsername(users[u.id := u], u.username) == Some(u)
  {
    var after := users[u.id := u];
    NameFree(users, u.username);
    AddFreeName(users, u);
    assert after[u.id].username == u.username;
    var r := Queries.FindByUsername(after, u.username);
    OnlyUserNamed(after, u.id, r.value);
  }

  /** Storing a user under its own id keeps every row stored under its own id. */
  lemma AddUserKeyed(users: map<int, User>, u: User, after: map<int, User>)
    requires forall k :: k in users ==> users[k].id == k
    requires after == users[u.id := u]
    ensures forall k :: k in after ==> after[k].id == k
  {
  }

  /** With unique names, a row holding the name of user `id` is that user's row. */
  lemma OnlyUserNamed(users: map<int, User>, id: int, v: User)
    requires UniqueUsernames(users) && id in users
    requires (exists j :: j in users && users[j] == v) && v.username == users[id].username
    ensures v == users[id]
  {
    var j :| j in users && users[j] == v;
  }

  /** A name the lookup does not find is on no row. */
  lemma NameFree(users: map<int, User>, username: string)
    requires Queries.FindByUsername(users, username).None?
    ensures forall k :: k in users ==> users[k].username != username
  {
  }

  /** Adding a user under a name no row has keeps names unique. */
  lemma AddFreeName(users: map<int, User>, u: User)
    requires UniqueUsernames(users)
    requires forall k :: k in users ==> users[k].username != u.username
    ensures UniqueUsernames(users[u.id := u])
  {
  }

  /**
   * The field assignments of `update_user` on one user: a sent, non-empty password is hashed and
   * stored first; then every other sent field is assigned in the order the request lists them.
   */
  method ApplyUpdate(user: User, upd: UserUpdate, hash: string -> string) returns (u: User)
    ensures u == Updated(user, upd, hash)
  {
    var data := UpdateData(upd);
    u := user;
    var password := PasswordSent(data);
    PasswordSentOfUpdate(upd);
    if password.Some? && password.value.Some? && password.value.value != "" {
      u := u.(hashedPassword := hash(password.value.value));
    }
    ghost var hashed := u;
    var i := 0;
    while i < |data|
      invariant 0 <= i <= |data|
      invariant u == AssignAll(hashed, data[..i])
    {
      assert data[..i + 1][..i] == data[..i];
      if data[i].key != Password {
        u := SetAttr(u, data[i]);
      }
      i := i + 1;
    }
    assert data[..i] == data;
    AssignUpdateData(user, upd, hash);
  }

  class FlowerShop {
    var batches: map<int, Batch>
    var orders: seq<Order>
    var users: map<int, User>

    /** Every row is stored under its own id, user names are unique and order ids are distinct. */
    ghost predicate Valid()
      reads this
    {
      && (forall k :: k in batches ==> batches[k].id == k)
      && (forall k :: k in users ==> users[k].id == k)
      && UniqueUsernames(users)
      && Queries.DistinctOrderIds(orders)
    }

    constructor ()
      ensures Valid()
      ensures batches == map[] && orders == [] && users == map[]
    {
      batches := map[];
      orders := [];
      users := map[];
    }

    /** `create_flower_batch`: a new row under a fresh id, available and without a sale time. */
    method CreateFlowerBatch(req: BatchCreate, now: Time) returns (b: Batch)
      requires Valid()
      modifies this`batches
      ensures Valid()
      ensures b.id !in old(batches) && b == NewBatch(Keys.NextKey(old(batches).Keys), req, now)
      ensures b.status == Available && b.soldAt == None && b.quantity == req.quantity && b.createdAt == now
      ensures batches == old(batches)[b.id := b]
    {
      b := NewBatch(Keys.NextKey(batches.Keys), req, now);
      batches := batches[b.id := b];
    }

    /**
     * `sell_flowers`: an unknown id gives nothing; a batch with less than `amount` is returned as it
     * is; otherwise `amount` is taken out and the batch is marked sold at `now` exactly when it is
     * left at 0.
     */
    method SellFlowers(id: int, amount: int, now: Time) returns (r: Option<Batch>)
      requires Valid()
      modifies this`batches
      ensures Valid()
      ensures id !in old(batches) ==> r == None && batches == old(batches)
      ensures id in old(batches) && old(batches)[id].quantity < amount ==>
        r == Some(old(batches)[id]) && batches == old(batches)
      ensures id in old(batches) && old(batches)[id].quantity >= amount ==>
        && r == Some(Decrement(old(batches)[id], amount, now))
        && batches == old(batches)[id := r.value]
    {
      if id !in batches {
        return None;
      }
      var b := batches[id];
      if b.quantity >= amount {
        b := Decrement(b, amount, now);
        batches := batches[id := b];
      }
      r := Some(b);
    }

    /** `add_quantity`: an unknown id gives nothing; otherwise the stock grows and a sold batch is available again. */
    method AddQuantity(id: int, amount: int) returns (r: Option<Batch>)
      requires Valid()
      modifies this`batches
      ensures Valid()
      ensures id !in old(batches) ==> r == None && batches == old(batches)
      ensures id in old(batches) ==>
        && r == Some(Restock(old(batches)[id], amount))
        && batches == old(batches)[id := r.value]
    {
      if id !in batches {
        return None;
      }
      var b := Restock(batches[id], amount);
      batches := batches[id := b];
      r := Some(b);
    }

    /** `delete_flower`: removes the named batch only, and returns it; an unknown id changes nothing. */
    method DeleteFlower(id: int) returns (r: Option<Batch>)
      requires Valid()
      modifies this`batches
      ensures Valid()
      ensures r == Lookup(old(batches), id)
      ensures batches == old(batches) - {id}
    {
      r := Lookup(batches, id);
      if r.Some? {
        batches := batches - {id};
      }
    }

    /**
     * `delete_old_flowers`: first the sold batches sold a week or more ago are deleted, then the
     * available batches created three weeks or more ago.
     */
    method DeleteOldFlowers(now: Time)
      requires Valid()
      modifies this`batches
      ensures Valid()
      ensures batches == Sweep(old(batches), now)
    {
      batches := map k | k in batches && !SoldExpired(batches[k], now) :: batches[k];
      batches := map k | k in batches && !AvailableExpired(batches[k], now) :: batches[k];
    }

    /**
     * `create_order`: the lines are handled in request order against a working copy of the batches;
     * the first missing batch or short stock abandons the copy and returns the error, whose stock
     * is the stored one; otherwise the copy and the new order are committed together.
     */
    method CreateOrder(customerId: int, req: OrderCreate, now: Time) returns (r: Result<Order, OrderError>)
      requires Valid()
      modifies this`batches, this`orders
      ensures Valid()
      ensures Place(old(batches), old(batches), req.lines, now).Failed? ==>
        && r == Failure(Place(old(batches), old(batches), req.lines, now).error)
        && batches == old(batches) && orders == old(orders)
      ensures Place(old(batches), old(batches), req.lines, now).Placed? ==>
        && r == Success(Order(Keys.NextKey(OrderIds(old(orders))), Some(customerId), now, New, req.comment,
                              Place(old(batches), old(batches), req.lines, now).items))
        && batches == Place(old(batches), old(batches), req.lines, now).batches
        && orders == old(orders) + [r.value]
    {
      var work := batches;
      var items: seq<OrderItem> := [];
      var i := 0;
      while i < |req.lines|
        invariant 0 <= i <= |req.lines|
        invariant work.Keys == batches.Keys
        invariant Place(batches, batches, req.lines, now) == Prepend(items, Place(batches, work, req.lines[i..], now))
        invariant forall k :: k in work ==> work[k].id == k
      {
        var line := req.lines[i];
        assert req.lines[i..][0] == line && req.lines[i..][1..] == req.lines[i + 1..];
        if line.batchId !in work {
          r := Failure(BatchNotFound(line.batchId));
          return;
        }
        var b := work[line.batchId];
        if b.quantity < line.quantity {
          // the rollback discards `work`; the message reads the stored row again
          r := Failure(NotEnough(batches[line.batchId].name, batches[line.batchId].quantity, line.quantity));
          return;
        }
        items := items + [OrderItem(line.batchId, line.quantity, b.price)];
        work := work[line.batchId := Decrement(b, line.quantity, now)];
        i := i + 1;
      }
      assert req.lines[i..] == [] && items + [] == items;
      var order := Order(Keys.NextKey(OrderIds(orders)), Some(customerId), now, New, req.comment, items);
      assert forall j :: 0 <= j < |orders| ==> orders[j].id in OrderIds(orders);
      batches := work;
      orders := orders + [order];
      r := Success(order);
    }

    /**
     * `create_user`: a new row under a fresh id. The name is not checked first: when another user
     * already has it, the unique constraint makes the commit fail and nothing changes.
     */
    method CreateUser(req: UserCreate, photoUrl: Option<string>, hash: string -> string) returns (r: Option<User>)
      requires Valid()
      modifies this`users
      ensures Valid()
      ensures Queries.FindByUsername(old(users), req.username).Some? ==> r == None && users == old(users)
      ensures Queries.FindByUsername(old(users), req.username).None? ==>
        && r.Some? && r.value.id !in old(users)
        && r.value == NewUser(Keys.NextKey(old(users).Keys), req, photoUrl, hash)
        && users == old(users)[r.value.id := r.value]
      ensures r.Some? ==> Queries.FindByUsername(users, req.username) == Some(r.value)
    {
      var u := NewUser(Keys.NextKey(users.Keys), req, photoUrl, hash);
      if Queries.FindByUsername(users, u.username).Some? {
        return None;
      }
      var before := users;
      AddUserFindable(before, u);
      AddUserKeyed(before, u, before[u.id := u]);
      users := before[u.id := u];
      r := Some(u);
    }

    /**
     * `update_user`: the sent fields are assigned as `ApplyUpdate` does; the commit fails, changing
     * nothing, when the new name is another user's.
     */
    method UpdateUser(id: int, upd: UserUpdate, hash: string -> string) returns (r: UpdateResult)
      requires Valid()
      modifies this`users
      ensures Valid()
      ensures id !in old(users) ==> r == UserNotFound && users == old(users)
      ensures id in old(users) && NameTakenByOther(old(users), id, upd.username) ==>
        r == NameConflict && users == old(users)
      ensures id in old(users) && !NameTakenByOther(old(users), id, upd.username) ==>
        && r == UserUpdated(Updated(old(users)[id], upd, hash))
        && users == old(users)[id := r.user]
    {
      if id !in users {
        return UserNotFound;
      }
      var u := ApplyUpdate(users[id], upd, hash);
      if NameTakenByOther(users, id, u.username) {
        return NameConflict;
      }
      RenameKeepsUnique(users, id, u);
      users := users[id := u];
      r := UserUpdated(u);
    }

    /**
     * `delete_user`: removes the named user only, and returns it, and the user's orders are kept
     * without a customer; an unknown id changes nothing.
     */
    method DeleteUser(id: int) returns (r: Option<User>)
      requires Valid()
      modifies this`users, this`orders
      ensures Valid()
      ensures r == Lookup(old(users), id)
      ensures users == old(users) - {id}
      ensures orders == if r.Some? then Orphan(old(orders), id) else old(orders)
    {
      r := Lookup(users, id);
      if r.Some? {
        users := users - {id};
        orders := Orphan(orders, id);
      }
    }
  }
}
