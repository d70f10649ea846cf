/** One request to the "My Orders" page.  The page runs four steps in a fixed
    order: an optional status update, an optional cancel, the list of the
    caller's orders, and an optional detail view with its items.  The caller's
    id comes from the authentication layer; the request's parameters, PHP's
    `is_numeric` and `(int)` cast, and what the database reports for each
    UPDATE (whether `execute` succeeded, and `NOW()`) are inputs. */
module OrderPage {
  import opened Wrappers
  import opened Orders

  /** The superglobals the page reads: the request method, `$_POST` and `$_GET`. */
  datatype Request = Request(requestMethod: string, post: map<string, string>, get: map<string, string>)

  /** PHP built-ins with loose semantics, left abstract: `is_numeric` on a
      string and the `(int)` cast of a string. */
  datatype Php = Php(isNumeric: string -> bool, toInt: string -> int)

  /** What the database reports for one UPDATE: whether `execute` returned
      true, and the value of `NOW()` while it ran. */
  datatype Execution = Execution(executed: bool, now: Timestamp)

  const StatusUpdated: string := "Order status updated successfully."
  const StatusUpdateFailed: string := "Failed to update order status."
  const OrderCancelled: string := "Order cancelled successfully."
  const CancelFailed: string := "Unable to cancel order. Order may have already been processed."

  /** `(int)$params[name]`: a missing parameter reads as null, which casts to 0. */
  function IntParam(php: Php, params: map<string, string>, name: string): int {
    if name in params then php.toInt(params[name]) else 0
  }

  /** `$_SERVER['REQUEST_METHOD'] === 'POST' && isset($_POST['update_status'])`. */
  predicate StatusUpdateRequested(req: Request) {
    req.requestMethod == "POST" && "update_status" in req.post
  }

  /** `$_POST['new_status']`, null when absent. */
  function NewStatus(req: Request): Option<string> {
    if "new_status" in req.post then Some(req.post["new_status"]) else None
  }

  /** A status update request whose new status is one of the five accepted. */
  predicate StatusUpdateAccepted(req: Request) {
    StatusUpdateRequested(req) && NewStatus(req).Some? && IsValidStatus(NewStatus(req).value)
  }

  /** `isset($_GET[name]) && is_numeric($_GET[name])`. */
  predicate NumericParam(req: Request, php: Php, name: string) {
    name in req.get && php.isNumeric(req.get[name])
  }

  /** The orders table after the status-update step.  Only a request with an
      accepted status whose statement executed writes anything, and then
      every one of the caller's rows with the posted id, which now carries the
      posted status and `NOW()`; no other column and no other row changes. */
  function TableAfterStatusUpdate(table: seq<Order>, req: Request, userId: int, php: Php, run: Execution): (r: seq<Order>)
    ensures |r| == |table|
    ensures !(StatusUpdateAccepted(req) && run.executed) ==> r == table
    ensures forall i :: 0 <= i < |table| ==>
      r[i] == if && StatusUpdateAccepted(req) && run.executed
                 && table[i].id == IntParam(php, req.post, "order_id") && table[i].userId == userId
              then table[i].(status := NewStatus(req).value, updatedAt := Some(run.now))
              else table[i]
  {
    if StatusUpdateAccepted(req) && run.executed then
      SetStatusTable(table, IntParam(php, req.post, "order_id"), userId, NewStatus(req).value, run.now)
    else table
  }

  /** The orders table after the cancel step.  Only a numeric `cancel`
      parameter whose statement executed writes anything, and then every
      pending row of the caller's with that id, which becomes cancelled with
      `NOW()`; no other column and no other row changes. */
  function TableAfterCancel(table: seq<Order>, req: Request, userId: int, php: Php, run: Execution): (r: seq<Order>)
    ensures |r| == |table|
    ensures !(NumericParam(req, php, "cancel") && run.executed) ==> r == table
    ensures forall i :: 0 <= i < |table| ==>
      r[i] == if && NumericParam(req, php, "cancel") && run.executed
                 && table[i].id == IntParam(php, req.get, "cancel") && table[i].userId == userId
                 && table[i].status == Pending
              then table[i].(status := Cancelled, updatedAt := Some(run.now))
              else table[i]
  {
    if NumericParam(req, php, "cancel") && run.executed then
      CancelTable(table, IntParam(php, req.get, "cancel"), userId, run.now)
    else table
  }

  /** `$statusMessage` after the status-update step. */
  function MessageAfterStatusUpdate(message: string, req: Request, run: Execution): (m: string)
    ensures !StatusUpdateAccepted(req) ==> m == message
    ensures StatusUpdateAccepted(req) ==> m in {StatusUpdated, StatusUpdateFailed} && (m == StatusUpdated <==> run.executed)
  {
    if !StatusUpdateAccepted(req) then message
    else if run.executed then StatusUpdated
    else StatusUpdateFailed
  }

  /** `$statusMessage` after the cancel step: chosen by whether the statement
      executed, never by how many rows it changed. */
  function MessageAfterCancel(message: string, req: Request, php: Php, run: Execution): (m: string)
    ensures !NumericParam(req, php, "cancel") ==> m == message
    ensures NumericParam(req, php, "cancel") ==> m in {OrderCancelled, CancelFailed} && (m == OrderCancelled <==> run.executed)
  {
    if !NumericParam(req, php, "cancel") then message
    else if run.executed then OrderCancelled
    else CancelFailed
  }

  /** The table a whole request leaves behind: the same rows in the same
      places, where only the status and `updated_at` of the caller's own rows
      may differ. */
  function TableAfterRequest(table: seq<Order>, req: Request, userId: int, php: Php, update: Execution, cancel: Execution): (r: seq<Order>)
    ensures |r| == |table|
    ensures forall i :: 0 <= i < |table| ==> r[i] == table[i].(status := r[i].status, updatedAt := r[i].updatedAt)
    ensures forall i :: 0 <= i < |table| && table[i].userId != userId ==> r[i] == table[i]
  {
    TableAfterCancel(TableAfterStatusUpdate(table, req, userId, php, update), req, userId, php, cancel)
  }

  /** `$selectedOrder`: the caller's order with the `view` id, when `view`
      is numeric. */
  function SelectedOrder(table: seq<Order>, req: Request, userId: int, php: Php): (r: Option<Order>)
    ensures r.Some? ==> && NumericParam(req, php, "view")
                        && r.value in table
                        && r.value.id == IntParam(php, req.get, "view")
                        && r.value.userId == userId
    ensures NumericParam(req, php, "view") && r.None? ==>
      forall o :: o in table ==> o.id != IntParam(php, req.get, "view") || o.userId != userId
  {
    if NumericParam(req, php, "view") then FindOwned(table, IntParam(php, req.get, "view"), userId)
    else None
  }

  /** `$orderItems`: loaded only when an order was selected, and then every
      line of that order, each as often as the item table holds it, and
      nothing else. */
  function SelectedItems(table: seq<Order>, items: seq<OrderItem>, req: Request, userId: int, php: Php): (r: seq<ItemLine>)
    ensures r != [] ==> SelectedOrder(table, req, userId, php).Some?
    ensures forall x :: x in r ==>
      exists it :: it in items && it.orderId == SelectedOrder(table, req, userId, php).value.id && Line(it) == x
    ensures SelectedOrder(table, req, userId, php).Some? ==>
      forall it: OrderItem :: it.orderId == SelectedOrder(table, req, userId, php).value.id ==> multiset(r)[Line(it)] == multiset(items)[it]
  {
    if SelectedOrder(table, req, userId, php).Some? then
      ItemsOfCount(items, IntParam(php, req.get, "view"));
      ItemsOf(items, IntParam(php, req.get, "view"))
    else []
  }

  /** Every row a request changes is one of the caller's, keeps its id and
      owner, ends in one of the accepted statuses, and carries the `NOW()` of
      one of the two statements. */
  lemma RequestTouchesOnlyCallersRows(table: seq<Order>, req: Request, userId: int, php: Php, update: Execution, cancel: Execution)
    ensures var r := TableAfterRequest(table, req, userId, php, update, cancel);
      forall i :: 0 <= i < |table| && r[i] != table[i] ==>
        && table[i].userId == userId && r[i].userId == userId && r[i].id == table[i].id
        && IsValidStatus(r[i].status)
        && (r[i].updatedAt == Some(update.now) || r[i].updatedAt == Some(cancel.now))
  {
  }

  /** An invalid status is a silent no-op: the table is untouched and the
      message stays as it was (empty, at that point of the page). */
  lemma InvalidStatusIsIgnored(table: seq<Order>, message: string, req: Request, userId: int, php: Php, run: Execution)
    requires StatusUpdateRequested(req) && (NewStatus(req).None? || !IsValidStatus(NewStatus(req).value))
    ensures TableAfterStatusUpdate(table, req, userId, php, run) == table
    ensures MessageAfterStatusUpdate(message, req, run) == message
  {
  }

  /** A cancel that matches no pending order of the caller's still reports
      success whenever its statement executed, and leaves the table as it was. */
  lemma CancelReportsExecutionNotRows(table: seq<Order>, req: Request, userId: int, php: Php, run: Execution, message: string)
    requires NumericParam(req, php, "cancel") && run.executed
    requires forall o :: o in table ==> o.id != IntParam(php, req.get, "cancel") || o.userId != userId || o.status != Pending
    ensures TableAfterCancel(table, req, userId, php, run) == table
    ensures MessageAfterCancel(message, req, php, run) == OrderCancelled
  {
  }

  /** An order this request cancels is listed, on the same page, as
      cancelled with the cancel's `NOW()`. */
  lemma ListShowsOwnCancel(table: seq<Order>, req: Request, userId: int, php: Php, update: Execution, cancel: Execution, i: int)
    requires NumericParam(req, php, "cancel") && cancel.executed
    requires 0 <= i < |table|
    requires var mid := TableAfterStatusUpdate(table, req, userId, php, update);
      mid[i].id == IntParam(php, req.get, "cancel") && mid[i].userId == userId && mid[i].status == Pending
    ensures var mid := TableAfterStatusUpdate(table, req, userId, php, update);
      var shown := Summary(mid[i].(status := Cancelled, updatedAt := Some(cancel.now)));
      shown in ListQuery(TableAfterRequest(table, req, userId, php, update, cancel), userId) && shown.status == Cancelled
  {
  }

  /** The persistent tables. */
  class OrderStore {
    var orders: seq<Order>
    var items: seq<OrderItem>

    constructor (orders: seq<Order>, items: seq<OrderItem>)
      ensures this.orders == orders && this.items == items
    {
      this.orders := orders;
      this.items := items;
    }

    /** `UPDATE orders SET order_status = ?, updated_at = NOW() WHERE id = ? AND user_id = ?`;
        a statement that fails to execute writes nothing. */
    method UpdateStatus(orderId: int, userId: int, status: string, run: Execution) returns (executed: bool)
      modifies this
      ensures executed == run.executed
      ensures orders == if run.executed then SetStatusTable(old(orders), orderId, userId, status, run.now) else old(orders)
      ensures items == old(items)
    {
      executed := run.executed;
      if executed {
        orders := SetStatusTable(orders, orderId, userId, status, run.now);
      }
    }

    /** `UPDATE orders SET order_status = 'cancelled', updated_at = NOW()
        WHERE id = ? AND user_id = ? AND order_status = 'pending'`. */
    method CancelPending(orderId: int, userId: int, run: Execution) returns (executed: bool)
      modifies this
      ensures executed == run.executed
      ensures orders == if run.executed then CancelTable(old(orders), orderId, userId, run.now) else old(orders)
      ensures items == old(items)
    {
      executed := run.executed;
      if executed {
        orders := CancelTable(orders, orderId, userId, run.now);
      }
    }
  }

  /** The page's script variables, over the store it queries. */
  class PageScript {
    const store: OrderStore
    var statusMessage: string
    var orders: seq<OrderSummary>
    var selectedOrder: Option<Order>
    var orderItems: seq<ItemLine>

    constructor (store: OrderStore)
      ensures this.store == store
      ensures statusMessage == "" && orders == [] && selectedOrder == None && orderItems == []
    {
      this.store := store;
      statusMessage := "";
      orders := [];
      selectedOrder := None;
      orderItems := [];
    }

    /** The status-update step. */
    method HandleStatusUpdate(req: Request, userId: int, php: Php, run: Execution)
      modifies this, store
      ensures store.orders == TableAfterStatusUpdate(old(store.orders), req, userId, php, run)
      ensures statusMessage == MessageAfterStatusUpdate(old(statusMessage), req, run)
      ensures store.items == old(store.items)
      ensures orders == old(orders) && selectedOrder == old(selectedOrder) && orderItems == old(orderItems)
    {
      if req.requestMethod == "POST" && "update_status" in req.post {
        var orderId := IntParam(php, req.post, "order_id");
        var newStatus := NewStatus(req);
        if newStatus.Some? && newStatus.value in ValidStatuses {
          var ok := store.UpdateStatus(orderId, userId, newStatus.value, run);
          if ok {
            statusMessage := StatusUpdated;
          } else {
            statusMessage := StatusUpdateFailed;
          }
        }
      }
    }

    /** The cancel step. */
    method HandleCancel(req: Request, userId: int, php: Php, run: Execution)
      modifies this, store
      ensures store.orders == TableAfterCancel(old(store.orders), req, userId, php, run)
      ensures statusMessage == MessageAfterCancel(old(statusMessage), req, php, run)
      ensures store.items == old(store.items)
      ensures orders == old(orders) && selectedOrder == old(selectedOrder) && orderItems == old(orderItems)
    {
      if "cancel" in req.get && php.isNumeric(req.get["cancel"]) {
        var orderId := IntParam(php, req.get, "cancel");
        var ok := store.CancelPending(orderId, userId, run);
        if ok {
          statusMessage := OrderCancelled;
        } else {
          statusMessage := CancelFailed;
        }
      }
    }

    /** The list step. */
    method FetchOrders(userId: int)
      modifies this
      ensures orders == ListQuery(store.orders, userId)
      ensures statusMessage == old(statusMessage) && selectedOrder == old(selectedOrder) && orderItems == old(orderItems)
    {
      orders := ListQuery(store.orders, userId);
    }

    /** The detail step: a non-numeric `view` leaves both variables as they
        were, and items are loaded only for a selected order. */
    method FetchDetail(req: Request, userId: int, php: Php)
      modifies this
      ensures selectedOrder == if NumericParam(req, php, "view") then SelectedOrder(store.orders, req, userId, php) else old(selectedOrder)
      ensures orderItems == if SelectedOrder(store.orders, req, userId, php).Some? then SelectedItems(store.orders, store.items, req, userId, php) else old(orderItems)
      ensures statusMessage == old(statusMessage) && orders == old(orders)
    {
      if "view" in req.get && php.isNumeric(req.get["view"]) {
        var orderId := IntParam(php, req.get, "view");
        selectedOrder := FindOwned(store.orders, orderId, userId);
        if selectedOrder.Some? {
          orderItems := ItemsOf(store.items, orderId);
        }
      }
    }
  }

  /** The whole page for one request: the four steps in their order, each
      seeing what the steps before it wrote. */
  method ServeOrders(store: OrderStore, req: Request, userId: int, php: Php, update: Execution, cancel: Execution)
    returns (page: PageScript)
    modifies store
    ensures fresh(page) && page.store == store
    ensures store.orders == TableAfterRequest(old(store.orders), req, userId, php, update, cancel)
    ensures store.items == old(store.items)
    ensures page.statusMessage == MessageAfterCancel(MessageAfterStatusUpdate("", req, update), req, php, cancel)
    ensures page.orders == ListQuery(store.orders, userId)
    ensures page.selectedOrder == SelectedOrder(store.orders, req, userId, php)
    ensures page.orderItems == SelectedItems(store.orders, store.items, req, userId, php)
  {
    page := new PageScript(store);
    page.HandleStatusUpdate(req, userId, php, update);
    page.HandleCancel(req, userId, php, cancel);
    page.FetchOrders(userId);
    page.FetchDetail(req, userId, php);
  }

  /** Order 42 of user 7, pending, with one line of two widgets. */
  function ScenarioOrder(): Order {
    Order(42, 7, "Ann Buyer", "ann@example.com", "555-0100", "1 Main St", "Springfield", "12345",
          "cash_on_delivery", "59.98", Pending, 1000, None)
  }

  function ScenarioItem(): OrderItem {
    OrderItem(42, "Widget", "29.99", 2, "59.98")
  }

  function ScenarioPhp(): Php {
    Php(s => s == "42", s => if s == "42" then 42 else 0)
  }

  /** User 7 sees order 42 with its item; user 8 sees neither. */
  method ViewScenario() {
    var store := new OrderStore([ScenarioOrder()], [ScenarioItem()]);
    var none := Execution(false, 0);
    var view := Request("GET", map[], map["view" := "42"]);
    assert NumericParam(view, ScenarioPhp(), "view") && IntParam(ScenarioPhp(), view.get, "view") == 42;
    var page := ServeOrders(store, view, 7, ScenarioPhp(), none, none);
    assert store.orders == [ScenarioOrder()];
    assert page.selectedOrder == Some(ScenarioOrder());
    assert page.orderItems == [Line(ScenarioItem())];
    page := ServeOrders(store, view, 8, ScenarioPhp(), none, none);
    assert page.selectedOrder == None && page.orderItems == [];
  }

  /** User 7 cancels order 42; cancelling it again changes nothing more. */
  method CancelScenario() {
    var store := new OrderStore([ScenarioOrder()], [ScenarioItem()]);
    var none := Execution(false, 0);
    var cancel := Request("GET", map[], map["cancel" := "42"]);
    assert NumericParam(cancel, ScenarioPhp(), "cancel") && IntParam(ScenarioPhp(), cancel.get, "cancel") == 42;
    var page := ServeOrders(store, cancel, 7, ScenarioPhp(), none, Execution(true, 2000));
    assert store.orders == [ScenarioOrder().(status := Cancelled, updatedAt := Some(2000))];
    assert page.statusMessage == OrderCancelled;
    var cancelled := store.orders;
    page := ServeOrders(store, cancel, 7, ScenarioPhp(), none, Execution(true, 3000));
    assert store.orders == cancelled;
  }
}
