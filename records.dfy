/**
 * The records the shop keeps: flower batches, users, orders and their items, as the database
 * rows hold them, and the request bodies the operations receive.
 */
module Records {
  import opened Wrappers

  /** A timestamp: whole seconds on the server's UTC clock. */
  type Time = int

  const HOUR: int := 3600
  const WEEK: int := 7 * 24 * HOUR

  /** The two values the `status` column of a batch ever takes. */
  datatype Status = Available | Sold

  /**
   * A row of `flower_batches`. The price is a floating-point column that the model only copies,
   * never computes with. Nothing in the schema stops `quantity` from being negative.
   */
  datatype Batch = Batch(
    id: int,
    name: string,
    description: Option<string>,
    price: real,
    quantity: int,
    imageUrl: string,
    status: Status,
    createdAt: Time,
    soldAt: Option<Time>)

  /** The fields an administrator gives for a new batch. */
  datatype BatchCreate = BatchCreate(
    name: string,
    description: Option<string>,
    price: real,
    quantity: int,
    imageUrl: string)

  /** One requested line of an order: a batch id and how many flowers of it. */
  datatype OrderLine = OrderLine(batchId: int, quantity: int)

  /** The body of an order request: an optional comment and the lines, in the customer's order. */
  datatype OrderCreate = OrderCreate(comment: Option<string>, lines: seq<OrderLine>)

  /** A row of `order_items`: the price is a snapshot taken when the order was placed. */
  datatype OrderItem = OrderItem(batchId: int, quantity: int, priceAtOrder: real)

  datatype OrderStatus = New | Completed | Cancelled

  /**
   * A row of `orders` together with its items, in the order they were added. The customer is
   * None once the customer's user row has been deleted.
   */
  datatype Order = Order(
    id: int,
    customerId: Option<int>,
    createdAt: Time,
    status: OrderStatus,
    comment: Option<string>,
    items: seq<OrderItem>)

  /** A row of `users`. The role is free text; the code compares it with "admin" and "customer". */
  datatype User = User(
    id: int,
    username: string,
    hashedPassword: string,
    role: string,
    contactName: Option<string>,
    address: Option<string>,
    photoUrl: Option<string>,
    adminNotes: Option<string>)

  const ADMIN: string := "admin"
  const CUSTOMER: string := "customer"

  /** The fields given when a user is created; the password is still in clear text. */
  datatype UserCreate = UserCreate(
    username: string,
    password: string,
    role: string,
    contactName: Option<string>,
    address: Option<string>,
    adminNotes: Option<string>)
}
