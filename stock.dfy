/**
 * The inventory rules of `app/crud.py` on single batches and on the whole table of batches:
 * creating a batch, taking flowers out of it (a manual sale or an order line), putting flowers
 * back, and the retention sweep.
 */
module Stock {
  import opened Wrappers
  import opened Records

  /** The row `create_flower_batch` inserts: the column defaults give status available and no sale time. */
  function NewBatch(id: int, req: BatchCreate, now: Time): Batch {
    Batch(id, req.name, req.description, req.price, req.quantity, req.imageUrl, Available, now, None)
  }

  /** The fields no stock operation ever touches. */
  predicate SameListing(a: Batch, b: Batch) {
    a.id == b.id && a.name == b.name && a.description == b.description && a.price == b.price
    && a.imageUrl == b.imageUrl && a.createdAt == b.createdAt
  }

  /**
   * Taking `amount` flowers out of a batch whose stock check already passed: the quantity drops
   * by `amount`, and when it reaches exactly 0 the batch is marked sold at `now`.
   */
  function Decrement(b: Batch, amount: int, now: Time): (r: Batch)
    ensures SameListing(r, b)
    ensures r.quantity == b.quantity - amount
    ensures r.quantity == 0 ==> r.status == Sold && r.soldAt == Some(now)
    ensures r.quantity != 0 ==> r.status == b.status && r.soldAt == b.soldAt
  {
    var q := b.quantity - amount;
    if q == 0 then b.(quantity := q, status := Sold, soldAt := Some(now)) else b.(quantity := q)
  }

  /** Putting `amount` flowers back: a sold batch becomes available again and loses its sale time. */
  function Restock(b: Batch, amount: int): (r: Batch)
    ensures SameListing(r, b)
    ensures r.quantity == b.quantity + amount
    ensures r.status == Available
    ensures b.status == Sold ==> r.soldAt == None
    ensures b.status == Available ==> r.soldAt == b.soldAt
  {
    var b' := b.(quantity := b.quantity + amount);
    if b.status.Sold? then b'.(status := Available, soldAt := None) else b'
  }

  /** Restocking what a sale took out restores an available batch exactly, whether or not the sale emptied it. */
  lemma RestockUndoesDecrement(b: Batch, amount: int, now: Time)
    requires b.status == Available && b.soldAt == None
    ensures Restock(Decrement(b, amount, now), amount) == b
  {
  }

  /**
   * How status and sale time agree on every batch the code writes: a sold batch is empty and has a
   * sale time, an available one has none. An available batch may be empty (a batch created with
   * quantity 0, or restocked by 0).
   */
  predicate Consistent(b: Batch) {
    && (b.status == Sold ==> b.quantity == 0 && b.soldAt.Some?)
    && (b.status == Available ==> b.soldAt == None)
  }

  lemma NewBatchConsistent(id: int, req: BatchCreate, now: Time)
    ensures Consistent(NewBatch(id, req, now))
    ensures NewBatch(id, req, now).status == Available
  {
  }

  /** A sale of a non-negative amount that passed the stock check keeps a batch consistent and non-negative. */
  lemma DecrementKeepsConsistent(b: Batch, amount: int, now: Time)
    requires Consistent(b) && 0 <= amount <= b.quantity
    ensures Consistent(Decrement(b, amount, now))
    ensures Decrement(b, amount, now).quantity >= 0
  {
  }

  /** Restocking keeps a batch consistent whatever the amount. */
  lemma RestockKeepsConsistent(b: Batch, amount: int)
    requires Consistent(b)
    ensures Consistent(Restock(b, amount))
  {
  }

  /**
   * The stock check compares `quantity >= amount` and nothing checks the sign of the amount: a
   * negative sale passes the check on a sold batch, puts stock back and leaves it marked sold.
   */
  lemma NegativeSaleOnSoldBatch(b: Batch, now: Time)
    requires b.status == Sold && b.quantity == 0
    ensures b.quantity >= -3
    ensures Decrement(b, -3, now).quantity == 3 && Decrement(b, -3, now).status == Sold
    ensures !Consistent(Decrement(b, -3, now))
  {
  }

  /** A sold batch is swept a week after its sale; an available one three weeks after its creation. */
  predicate SoldExpired(b: Batch, now: Time) {
    b.status == Sold && b.soldAt.Some? && b.soldAt.value <= now - WEEK
  }

  predicate AvailableExpired(b: Batch, now: Time) {
    b.status == Available && b.createdAt <= now - 3 * WEEK
  }

  predicate Expired(b: Batch, now: Time) {
    SoldExpired(b, now) || AvailableExpired(b, now)
  }

  /** The table after `delete_old_flowers` at time `now`. */
  function Sweep(m: map<int, Batch>, now: Time): (r: map<int, Batch>)
    ensures forall k :: k in r <==> k in m && !Expired(m[k], now)
    ensures forall k :: k in r ==> r[k] == m[k]
  {
    map k | k in m && !Expired(m[k], now) :: m[k]
  }

  /** A second sweep at the same time deletes nothing. */
  lemma SweepIdempotent(m: map<int, Batch>, now: Time)
    ensures Sweep(Sweep(m, now), now) == Sweep(m, now)
  {
  }

  /** A later sweep deletes at least what an earlier one deletes. */
  lemma SweepMonotone(m: map<int, Batch>, earlier: Time, later: Time)
    requires earlier <= later
    ensures Sweep(m, later).Keys <= Sweep(m, earlier).Keys
  {
  }

  /** A sold batch without a sale time never matches the sold filter (SQL `NULL <= t` is not true) and is kept. */
  lemma SweepKeepsUndatedSold(m: map<int, Batch>, k: int, now: Time)
    requires k in m && m[k].status == Sold && m[k].soldAt == None
    ensures k in Sweep(m, now) && Sweep(m, now)[k] == m[k]
  {
  }
}
