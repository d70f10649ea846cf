/** The `orders` and `order_items` tables of the shop, and what each SQL
    statement of the order page does to them or reads from them.  A table is
    a sequence of rows in storage order. */
module Orders {
  import opened Wrappers

  /** A DATETIME column; only the order of two values matters here. */
  type Timestamp = int

  /** A row of `orders`.  The shipping and payment columns and the DECIMAL
      `total_amount` (which the driver hands over as text) are carried along
      unchanged and never computed with.  `updated_at` may be NULL. */
  datatype Order = Order(
    id: int,
    userId: int,
    fullName: string,
    email: string,
    phone: string,
    address: string,
    city: string,
    zipCode: string,
    paymentMethod: string,
    totalAmount: string,
    status: string,
    createdAt: Timestamp,
    updatedAt: Option<Timestamp>)

  /** A row of `order_items`; `price` and `total` are DECIMAL text. */
  datatype OrderItem = OrderItem(orderId: int, productName: string, price: string, quantity: int, total: string)

  /** The columns the order list selects: every column of `orders` but `user_id`. */
  datatype OrderSummary = OrderSummary(
    id: int,
    fullName: string,
    email: string,
    phone: string,
    address: string,
    city: string,
    zipCode: string,
    paymentMethod: string,
    totalAmount: string,
    status: string,
    createdAt: Timestamp,
    updatedAt: Option<Timestamp>)

  /** The columns the item query selects: every column of `order_items` but `order_id`. */
  datatype ItemLine = ItemLine(productName: string, price: string, quantity: int, total: string)

  const Pending: string := "pending"
  const Processing: string := "processing"
  const Shipped: string := "shipped"
  const Delivered: string := "delivered"
  const Cancelled: string := "cancelled"

  /** The statuses a status update accepts. */
  const ValidStatuses: seq<string> := [Pending, Processing, Shipped, Delivered, Cancelled]

  predicate IsValidStatus(s: string) {
    s in ValidStatuses
  }

  // ---------------------------------------------------------------------
  // UPDATE orders SET order_status = ?, updated_at = NOW() WHERE ...
  // ---------------------------------------------------------------------

  /** A WHERE clause `id = ? AND user_id = ?`, with an optional
      `AND order_status = ?`. */
  datatype Where = Where(id: int, userId: int, status: Option<string>)

  predicate Matches(o: Order, w: Where) {
    o.id == w.id && o.userId == w.userId && (w.status.Some? ==> o.status == w.status.value)
  }

  /** The SET clause applied to one row. */
  function Touched(o: Order, status: string, now: Timestamp): Order {
    o.(status := status, updatedAt := Some(now))
  }

  /** An UPDATE: every row the WHERE clause selects gets the SET clause, and
      every other row is kept as it was, in place. */
  function UpdateRows(table: seq<Order>, w: Where, status: string, now: Timestamp): (r: seq<Order>)
    ensures |r| == |table|
    ensures forall i :: 0 <= i < |table| && Matches(table[i], w) ==> r[i] == Touched(table[i], status, now)
    ensures forall i :: 0 <= i < |table| && !Matches(table[i], w) ==> r[i] == table[i]
  {
    if table == [] then []
    else
      var head := if Matches(table[0], w) then Touched(table[0], status, now) else table[0];
      [head] + UpdateRows(table[1..], w, status, now)
  }

  /** The status update statement: only the caller's row with the given id
      changes, whatever its current status; a row with that id owned by
      someone else is left alone. */
  function SetStatusTable(table: seq<Order>, orderId: int, userId: int, status: string, now: Timestamp): (r: seq<Order>)
    ensures |r| == |table|
    ensures forall i :: 0 <= i < |table| && table[i].id == orderId && table[i].userId == userId ==>
      r[i] == table[i].(status := status, updatedAt := Some(now))
    ensures forall i :: 0 <= i < |table| && (table[i].id != orderId || table[i].userId != userId) ==>
      r[i] == table[i]
  {
    UpdateRows(table, Where(orderId, userId, None), status, now)
  }

  /** The cancel statement: only the caller's row with the given id that is
      still pending becomes cancelled; every other row, the caller's
      non-pending orders included, is left alone. */
  function CancelTable(table: seq<Order>, orderId: int, userId: int, now: Timestamp): (r: seq<Order>)
    ensures |r| == |table|
    ensures forall i :: 0 <= i < |table| && table[i].id == orderId && table[i].userId == userId && table[i].status == Pending ==>
      r[i] == table[i].(status := Cancelled, updatedAt := Some(now))
    ensures forall i :: 0 <= i < |table| && (table[i].id != orderId || table[i].userId != userId || table[i].status != Pending) ==>
      r[i] == table[i]
  {
    UpdateRows(table, Where(orderId, userId, Some(Pending)), Cancelled, now)
  }

  /** Cancelling twice leaves the table as cancelling once does, whatever
      the clock says the second time: a cancelled row is no longer pending. */
  lemma CancelIdempotent(table: seq<Order>, orderId: int, userId: int, now1: Timestamp, now2: Timestamp)
    ensures CancelTable(CancelTable(table, orderId, userId, now1), orderId, userId, now2)
         == CancelTable(table, orderId, userId, now1)
  {
  }

  /** After a cancel, none of the caller's rows with that id is pending. */
  lemma CancelLeavesNothingPending(table: seq<Order>, orderId: int, userId: int, now: Timestamp, i: int)
    requires 0 <= i < |table| && table[i].id == orderId && table[i].userId == userId
    ensures CancelTable(table, orderId, userId, now)[i].status != Pending
  {
  }

  // ---------------------------------------------------------------------
  // SELECT ... FROM orders WHERE user_id = ? ORDER BY created_at DESC
  // ---------------------------------------------------------------------

  /** `WHERE user_id = ?`: the owner's rows, in storage order. */
  function OwnedBy(table: seq<Order>, userId: int): (r: seq<Order>)
    ensures |r| <= |table|
    ensures forall o :: o in r <==> o in table && o.userId == userId
  {
    if table == [] then []
    else (if table[0].userId == userId then [table[0]] else []) + OwnedBy(table[1..], userId)
  }

  /** The filter keeps every one of the owner's rows as often as the table
      holds it, and no row of anyone else. */
  lemma {:induction false} OwnedByCount(table: seq<Order>, userId: int, o: Order)
    ensures multiset(OwnedBy(table, userId))[o] == if o.userId == userId then multiset(table)[o] else 0
  {
    if table != [] {
      OwnedByCount(table[1..], userId, o);
      assert table == [table[0]] + table[1..];
    }
  }

  function Summary(o: Order): OrderSummary {
    OrderSummary(o.id, o.fullName, o.email, o.phone, o.address, o.city, o.zipCode,
                 o.paymentMethod, o.totalAmount, o.status, o.createdAt, o.updatedAt)
  }

  /** The selected columns of each row. */
  function Summaries(s: seq<Order>): seq<OrderSummary> {
    seq(|s|, i requires 0 <= i < |s| => Summary(s[i]))
  }

  /** `ORDER BY created_at DESC`: newest first. */
  predicate NewestFirst(s: seq<OrderSummary>) {
    forall i, j :: 0 <= i < j < |s| ==> s[i].createdAt >= s[j].createdAt
  }

  /** Puts `x` before the first row that is not newer than it. */
  function InsertNewestFirst(x: OrderSummary, s: seq<OrderSummary>): (r: seq<OrderSummary>)
    requires NewestFirst(s)
    ensures NewestFirst(r)
    ensures multiset(r) == multiset(s) + multiset{x}
    ensures forall y :: y in r ==> y == x || y in s
  {
    if s == [] || s[0].createdAt <= x.createdAt then [x] + s
    else
      var rest := InsertNewestFirst(x, s[1..]);
      assert s == [s[0]] + s[1..];
      assert forall k :: 0 <= k < |rest| ==> s[0].createdAt >= rest[k].createdAt by {
        forall k | 0 <= k < |rest| ensures s[0].createdAt >= rest[k].createdAt {
          assert rest[k] in rest;
        }
      }
      [s[0]] + rest
  }

  /** A stable sort, newest first.  SQL leaves the order among equal
      `created_at` values open; this model keeps storage order there. */
  function SortNewestFirst(s: seq<OrderSummary>): (r: seq<OrderSummary>)
    ensures NewestFirst(r)
    ensures multiset(r) == multiset(s)
  {
    if s == [] then []
    else
      assert s == [s[0]] + s[1..];
      InsertNewestFirst(s[0], SortNewestFirst(s[1..]))
  }

  lemma SummariesMembership(s: seq<Order>, x: OrderSummary)
    ensures x in Summaries(s) <==> exists o :: o in s && Summary(o) == x
  {
    if x in Summaries(s) {
      var i :| 0 <= i < |s| && Summaries(s)[i] == x;
      assert s[i] in s && Summary(s[i]) == x;
    }
    if exists o :: o in s && Summary(o) == x {
      var o :| o in s && Summary(o) == x;
      var i :| 0 <= i < |s| && s[i] == o;
      assert Summaries(s)[i] == x;
    }
  }

  /** The order list: exactly the owner's rows (by multiplicity), projected
      to the selected columns, newest first.  Nothing of another user's
      appears in it. */
  function ListQuery(table: seq<Order>, userId: int): (r: seq<OrderSummary>)
    ensures NewestFirst(r)
    ensures multiset(r) == multiset(Summaries(OwnedBy(table, userId)))
    ensures forall x :: x in r <==> exists o :: o in table && o.userId == userId && Summary(o) == x
  {
    var owned := OwnedBy(table, userId);
    var r := SortNewestFirst(Summaries(owned));
    assert forall x :: x in r <==> x in Summaries(owned) by {
      forall x ensures x in r <==> x in Summaries(owned) {
        assert x in r <==> x in multiset(r);
      }
    }
    assert forall x :: x in Summaries(owned) <==> exists o :: o in owned && Summary(o) == x by {
      forall x ensures x in Summaries(owned) <==> exists o :: o in owned && Summary(o) == x {
        SummariesMembership(owned, x);
      }
    }
    r
  }

  // ---------------------------------------------------------------------
  // SELECT * FROM orders WHERE id = ? AND user_id = ?   (first row)
  // SELECT product_name, price, quantity, total FROM order_items WHERE order_id = ?
  // ---------------------------------------------------------------------

  /** The detail lookup: the first row with that id that the caller owns,
      and none when the caller owns no such row. */
  function FindOwned(table: seq<Order>, orderId: int, userId: int): (r: Option<Order>)
    ensures r.Some? ==> r.value in table && r.value.id == orderId && r.value.userId == userId
    ensures r.None? <==> forall o :: o in table ==> o.id != orderId || o.userId != userId
  {
    if table == [] then None
    else if table[0].id == orderId && table[0].userId == userId then Some(table[0])
    else FindOwned(table[1..], orderId, userId)
  }

  /** With ids unique, as the primary key makes them, the lookup finds the
      caller's order with that id. */
  lemma FindOwnedUnique(table: seq<Order>, o: Order)
    requires forall i, j :: 0 <= i < j < |table| ==> table[i].id != table[j].id
    requires o in table
    ensures FindOwned(table, o.id, o.userId) == Some(o)
  {
  }

  function Line(it: OrderItem): ItemLine {
    ItemLine(it.productName, it.price, it.quantity, it.total)
  }

  /** The item query: the selected columns of every item of that order, in
      storage order, and nothing from any other order. */
  function ItemsOf(items: seq<OrderItem>, orderId: int): (r: seq<ItemLine>)
    ensures |r| <= |items|
    ensures forall x :: x in r <==> exists it :: it in items && it.orderId == orderId && Line(it) == x
  {
    if items == [] then []
    else
      var rest := ItemsOf(items[1..], orderId);
      assert forall it :: it in items <==> it == items[0] || it in items[1..] by {
        assert items == [items[0]] + items[1..];
      }
      (if items[0].orderId == orderId then [Line(items[0])] else []) + rest
  }

  /** The item query drops no line: each item of the order appears as often
      as the table holds it.  (Within one order the selected columns tell
      items apart, so counting lines counts items.) */
  lemma {:induction false} ItemsOfCount(items: seq<OrderItem>, orderId: int)
    ensures forall it: OrderItem :: it.orderId == orderId ==> multiset(ItemsOf(items, orderId))[Line(it)] == multiset(items)[it]
  {
    if items != [] {
      ItemsOfCount(items[1..], orderId);
      assert items == [items[0]] + items[1..];
      forall it: OrderItem | it.orderId == orderId
        ensures multiset(ItemsOf(items, orderId))[Line(it)] == multiset(items)[it]
      {
        if items[0].orderId == orderId {
          assert Line(items[0]) == Line(it) <==> items[0] == it;
        }
      }
    }
  }
}
