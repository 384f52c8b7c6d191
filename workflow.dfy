/**
 * Properties of the whole workflow: a cart becomes a stored order with the
 * cart's items and total; the kitchen's buttons move an order strictly forward
 * through the server; the two ways a status change reaches the kitchen agree.
 */
module Workflow {
  import opened Wrappers
  import opened Seqs
  import opened Records
  import Waiter
  import Kitchen
  import Server

  /** The creation request the server reads from the body the waiter view posts. */
  function Posted(request: Waiter.OrderRequest): Server.CreateRequest {
    Server.CreateRequest(Some(request.items), Some(request.totalAmount), Some(request.notes))
  }

  /** A submitted cart is stored as a pending order with the cart's entries and total. */
  lemma {:induction false} SubmittedCartIsStored(cart: seq<LineItem>, notes: string, id: int, orderNumber: string, dbNow: string)
    requires cart != []
    ensures Waiter.Payload(cart, notes).Some?
    ensures var row := Server.InsertedRow(id, orderNumber, Posted(Waiter.Payload(cart, notes).value), dbNow);
      && row.items == cart
      && row.totalAmount == Waiter.Total(cart)
      && row.notes == notes
      && row.status == "pending"
  {
  }

  /**
   * Add item 1 (price 10.00) to an empty cart, increase it once, submit: the
   * stored order has one line of quantity 2, a total of 20.00 and is pending.
   */
  lemma {:induction false} CartScenario(id: int, orderNumber: string, dbNow: string)
    ensures var menu := [MenuItem(1, "A", 1000, "", "")];
      var added := Waiter.AddItem([], menu, 1);
      var increased := Waiter.IncreaseAt(added, 0);
      && Waiter.Total(added) == 1000
      && Waiter.Total(increased) == 2000
      && Waiter.Payload(increased, "") == Some(Waiter.OrderRequest([LineItem(1, "A", 1000, 2)], 2000, ""))
      && Server.InsertedRow(id, orderNumber, Posted(Waiter.Payload(increased, "").value), dbNow).status == "pending"
      && Server.InsertedRow(id, orderNumber, Posted(Waiter.Payload(increased, "").value), dbNow).totalAmount == 2000
  {
    var menu := [MenuItem(1, "A", 1000, "", "")];
    Waiter.AddNewAppends([], menu, 1, 0);
    var added := Waiter.AddItem([], menu, 1);
    assert added == [LineItem(1, "A", 1000, 1)];
    assert Waiter.Total(added) == 1000 by {
      assert added[..0] == [];
    }
    Waiter.TotalAfterIncrease(added, 0);
    var increased := Waiter.IncreaseAt(added, 0);
    assert increased == [LineItem(1, "A", 1000, 2)];
  }

  /** Requesting the status the kitchen's button offers moves the order exactly one step forward. */
  lemma {:induction false} OfferedRequestAdvances(orders: map<int, Order>, orderId: int, now: string)
    requires orderId in orders && Kitchen.OfferedNext(orders[orderId].status).Some?
    ensures var target := Kitchen.OfferedNext(orders[orderId].status).value;
      var reply := Server.StatusReply(orders, orderId, Some(target), now);
      && reply.Success?
      && reply.value.status == target
      && Rank(Parse(reply.value.status).value) == Rank(Parse(orders[orderId].status).value) + 1
      && Server.StatusStore(orders, orderId, Some(target), now)[orderId] == reply.value
  {
    var target := Kitchen.OfferedNext(orders[orderId].status).value;
    Kitchen.OfferedNextIsSuccessor(orders[orderId].status);
    Server.NoFromStateCheck(orders, orderId, target, now);
  }

  /** Applies `n` requests, each for the status the kitchen's button offers, while one is offered. */
  function PressNext(orders: map<int, Order>, orderId: int, n: nat, now: string): map<int, Order>
    decreases n
  {
    if n == 0 || orderId !in orders || Kitchen.OfferedNext(orders[orderId].status).None? then orders
    else PressNext(Server.StatusStore(orders, orderId, Kitchen.OfferedNext(orders[orderId].status), now), orderId, n - 1, now)
  }

  /**
   * Pressing only the buttons offered for the order's STORED status, an order
   * that starts in a known status advances exactly one rank per press until it
   * is completed, and no other order changes. The kitchen draws its buttons
   * from its local copy, which can be older than the stored order; see
   * StaleButtonAccepted for what a press then does.
   */
  lemma {:induction false} PressNextIsForward(orders: map<int, Order>, orderId: int, n: nat, now: string)
    requires orderId in orders && IsStatusName(orders[orderId].status)
    ensures var after := PressNext(orders, orderId, n, now);
      && orderId in after && IsStatusName(after[orderId].status)
      && Rank(Parse(after[orderId].status).value) ==
         (if Rank(Parse(orders[orderId].status).value) + n <= 4 then Rank(Parse(orders[orderId].status).value) + n else 4)
      && (n >= 4 ==> after[orderId].status == "completed")
      && after.Keys == orders.Keys
      && forall id :: id in orders && id != orderId ==> after[id] == orders[id]
    decreases n
  {
    var status := orders[orderId].status;
    if n > 0 && Kitchen.OfferedNext(status).Some? {
      var next := Server.StatusStore(orders, orderId, Kitchen.OfferedNext(status), now);
      OfferedRequestAdvances(orders, orderId, now);
      Server.NoFromStateCheck(orders, orderId, Kitchen.OfferedNext(status).value, now);
      PressNextIsForward(next, orderId, n - 1, now);
      assert PressNext(orders, orderId, n, now) == PressNext(next, orderId, n - 1, now);
    } else if n > 0 {
      Kitchen.OfferedNextIsSuccessor(status);
      assert status == "completed";
    }
    var after := PressNext(orders, orderId, n, now);
    if n >= 4 {
      assert Parse(after[orderId].status).value == Completed;
    }
  }

  /**
   * The server applies whatever target the button requests, so a button drawn
   * from an out-of-date local copy is accepted too: the stored status becomes
   * the copy's successor, and when the stored status was already two or more
   * ranks past the copy's, the order moves backward (stored "cooking", copy
   * "pending": the button requests "received").
   */
  lemma {:induction false} StaleButtonAccepted(orders: map<int, Order>, orderId: int, localStatus: string, now: string)
    requires orderId in orders && Kitchen.OfferedNext(localStatus).Some?
    ensures var target := Kitchen.OfferedNext(localStatus).value;
      var reply := Server.StatusReply(orders, orderId, Some(target), now);
      && reply.Success?
      && Server.StatusStore(orders, orderId, Some(target), now)[orderId].status == target
      && Rank(Parse(target).value) == Rank(Parse(localStatus).value) + 1
    ensures (IsStatusName(orders[orderId].status) &&
             Rank(Parse(localStatus).value) + 1 < Rank(Parse(orders[orderId].status).value)) ==>
      Rank(Parse(Kitchen.OfferedNext(localStatus).value).value) < Rank(Parse(orders[orderId].status).value)
    ensures orders[orderId].status == "cooking" && localStatus == "pending" ==>
      Server.StatusStore(orders, orderId, Kitchen.OfferedNext(localStatus), now)[orderId].status == "received"
  {
    Kitchen.OfferedNextIsSuccessor(localStatus);
    Server.NoFromStateCheck(orders, orderId, Kitchen.OfferedNext(localStatus).value, now);
  }

  /**
   * The broadcast of a successful status change and the reply to the kitchen's
   * own request carry the same order; applied in either order, or twice, the
   * kitchen's list ends as after one of them.
   */
  lemma {:induction false} BroadcastAndReplyAgree(orders: map<int, Order>, orderId: int, status: Option<string>, now: string, shown: seq<Order>)
    requires forall id :: id in orders ==> orders[id].id == id
    requires Server.StatusReply(orders, orderId, status, now).Success?
    ensures var o := Server.StatusReply(orders, orderId, status, now).value;
      && o.id == orderId
      && Kitchen.ReplaceById(Kitchen.ReplaceById(shown, o.id, o), orderId, o) == Kitchen.ReplaceById(shown, orderId, o)
      && Kitchen.ReplaceById(Kitchen.ReplaceById(shown, orderId, o), o.id, o) == Kitchen.ReplaceById(shown, orderId, o)
  {
    var o := Server.StatusReply(orders, orderId, status, now).value;
    Kitchen.ReplaceIdempotent(shown, o);
  }

  /**
   * A kitchen listing only order A (ready) receives A completed: the board no
   * longer shows A, while the list still holds A with status completed.
   */
  lemma {:induction false} CompletedLeavesBoard(a: Order)
    requires a.status == "ready"
    ensures var done := a.(status := "completed");
      var after := Kitchen.ReplaceById([a], a.id, done);
      && after == [done]
      && Kitchen.Displayed(after, "all") == []
      && after[0].status == "completed"
  {
    var done := a.(status := "completed");
    Kitchen.ReplaceInPlace([a], a.id, done);
    Kitchen.DisplayedIsFilteredView([done], "all");
  }

  /**
   * The server accepts a skip ahead (pending to cooking) and a move back out of
   * completed: the request names only the target, which is all that is checked.
   */
  lemma {:induction false} SkipAndBackwardAccepted(orders: map<int, Order>, orderId: int, now: string)
    requires orderId in orders
    ensures orders[orderId].status == "pending" ==>
      Server.StatusReply(orders, orderId, Some("cooking"), now).Success? &&
      Server.StatusStore(orders, orderId, Some("cooking"), now)[orderId].status == "cooking"
    ensures orders[orderId].status == "completed" ==>
      Server.StatusReply(orders, orderId, Some("pending"), now).Success? &&
      Server.StatusStore(orders, orderId, Some("pending"), now)[orderId].status == "pending"
  {
    Server.NoFromStateCheck(orders, orderId, "cooking", now);
    Server.NoFromStateCheck(orders, orderId, "pending", now);
  }

  /** A broadcast event handed to the kitchen view's `new_order` or `order_updated` handler. */
  function Deliver(local: seq<Order>, e: Server.Event): seq<Order> {
    match e
    case NewOrder(o) => [o] + local
    case OrderUpdated(o) => Kitchen.ReplaceById(local, o.id, o)
  }

  /** The creation broadcast puts the server's pending reply body in front of the kitchen's list. */
  lemma {:induction false} CreationReachesKitchen(local: seq<Order>, id: int, orderNumber: string, request: Server.CreateRequest, isoNow: string)
    ensures var body := Server.CreatedBody(id, orderNumber, request, isoNow);
      var after := Deliver(local, Server.NewOrder(body));
      && |after| == |local| + 1
      && after[0] == body && after[0].status == "pending" && after[0].id == id
      && after[1..] == local
  {
  }

  /**
   * After a successful status update, the broadcast makes the kitchen's first
   * copy of that order equal to the stored row and leaves every other position;
   * a kitchen that does not list the order is left as it was.
   */
  lemma {:induction false} UpdateReachesKitchen(orders: map<int, Order>, orderId: int, status: Option<string>, now: string, local: seq<Order>)
    requires forall id :: id in orders ==> orders[id].id == id
    requires Server.StatusReply(orders, orderId, status, now).Success?
    ensures var after := Deliver(local, Server.OrderUpdated(Server.StatusReply(orders, orderId, status, now).value));
      && |after| == |local|
      && ((forall j :: 0 <= j < |local| ==> local[j].id != orderId) ==> after == local)
      && forall k :: 0 <= k < |local| && local[k].id == orderId && (forall j :: 0 <= j < k ==> local[j].id != orderId) ==>
           && after[k] == Server.StatusStore(orders, orderId, status, now)[orderId]
           && forall j :: 0 <= j < |local| && j != k ==> after[j] == local[j]
  {
    var row := Server.StatusReply(orders, orderId, status, now).value;
    assert row.id == orderId;
    Kitchen.ReplaceInPlace(local, orderId, row);
  }
}
