/**
 * The order server (app.py): the orders table as a map from id to order,
 * order creation with its generated order number, status updates and the
 * open-orders listing, and the events it broadcasts to every display.
 *
 * The clock is passed in: the date as `%Y%m%d` text and the timestamps as text.
 */
module Server {
  import opened Wrappers
  import opened Records

  // --------------------------------------------------------- order numbers

  function DigitChar(d: nat): (c: char)
    requires d < 10
    ensures '0' <= c <= '9'
  {
    ('0' as int + d) as char
  }

  function DigitValue(c: char): nat {
    if '0' <= c <= '9' then c as int - '0' as int else 0
  }

  /** The decimal digits of n, without leading zeros. */
  function Decimal(n: nat): (s: string)
    ensures |s| >= 1
    ensures forall i :: 0 <= i < |s| ==> '0' <= s[i] <= '9'
    ensures n < 10 ==> |s| == 1
    ensures n < 100 ==> |s| <= 2
    ensures n < 1000 ==> |s| <= 3
    ensures n < 10000 ==> |s| <= 4
  {
    if n < 10 then [DigitChar(n)] else Decimal(n / 10) + [DigitChar(n % 10)]
  }

  /** The value of a decimal numeral; leading zeros are allowed. */
  function DecimalValue(s: string): nat {
    if s == [] then 0 else DecimalValue(s[..|s| - 1]) * 10 + DigitValue(s[|s| - 1])
  }

  function Zeros(k: nat): (s: string)
    ensures |s| == k
    ensures forall i :: 0 <= i < k ==> s[i] == '0'
  {
    seq(k, _ => '0')
  }

  /** Python's `f"{n:04d}"`: n in decimal, left-padded with zeros to at least four characters. */
  function Pad4(n: nat): (s: string)
    ensures |s| >= 4
    ensures n < 10000 ==> |s| == 4
    ensures forall i :: 0 <= i < |s| ==> '0' <= s[i] <= '9'
  {
    var digits := Decimal(n);
    Zeros(if |digits| < 4 then 4 - |digits| else 0) + digits
  }

  /** `f"ORD{date}{count + 1:04d}"`, where count is the number of stored orders. */
  function OrderNumber(date: string, count: nat): string {
    "ORD" + date + Pad4(count + 1)
  }

  /** The sequence part of an order number: what follows "ORD" and the eight date digits. */
  function Serial(orderNumber: string): nat {
    if |orderNumber| < 11 then 0 else DecimalValue(orderNumber[11..])
  }

  lemma {:induction false} DecimalRoundTrip(n: nat)
    ensures DecimalValue(Decimal(n)) == n
  {
    var s := Decimal(n);
    if n >= 10 {
      assert s[..|s| - 1] == Decimal(n / 10);
      DecimalRoundTrip(n / 10);
    } else {
      assert s[..0] == [];
    }
  }

  lemma {:induction false} ZerosValue(k: nat)
    ensures DecimalValue(Zeros(k)) == 0
  {
    if k > 0 {
      assert Zeros(k)[..k - 1] == Zeros(k - 1);
      ZerosValue(k - 1);
    }
  }

  lemma {:induction false} LeadingZeros(k: nat, s: string)
    ensures DecimalValue(Zeros(k) + s) == DecimalValue(s)
    decreases |s|
  {
    if s == [] {
      assert Zeros(k) + s == Zeros(k);
      ZerosValue(k);
    } else {
      var t := Zeros(k) + s;
      assert t[..|t| - 1] == Zeros(k) + s[..|s| - 1];
      LeadingZeros(k, s[..|s| - 1]);
    }
  }

  lemma {:induction false} Pad4RoundTrip(n: nat)
    ensures DecimalValue(Pad4(n)) == n
  {
    var digits := Decimal(n);
    LeadingZeros(if |digits| < 4 then 4 - |digits| else 0, digits);
    DecimalRoundTrip(n);
  }

  /** The sequence part of a generated order number is count + 1. */
  lemma {:induction false} SerialOfOrderNumber(date: string, count: nat)
    requires |date| == 8
    ensures Serial(OrderNumber(date, count)) == count + 1
  {
    assert OrderNumber(date, count)[11..] == Pad4(count + 1);
    Pad4RoundTrip(count + 1);
  }

  /** Two generated order numbers are equal only for the same date and the same count. */
  lemma {:induction false} OrderNumberInjective(date1: string, count1: nat, date2: string, count2: nat)
    requires |date1| == 8 && |date2| == 8
    requires OrderNumber(date1, count1) == OrderNumber(date2, count2)
    ensures date1 == date2 && count1 == count2
  {
    SerialOfOrderNumber(date1, count1);
    SerialOfOrderNumber(date2, count2);
    assert date1 == OrderNumber(date1, count1)[3..11];
    assert date2 == OrderNumber(date2, count2)[3..11];
  }

  // --------------------------------------------------------------- records

  /** The JSON body of the creation request; a missing key reads as None. */
  datatype CreateRequest = CreateRequest(items: Option<seq<LineItem>>, totalAmount: Option<int>, notes: Option<string>)

  /** The broadcast events. */
  datatype Event = NewOrder(order: Order) | OrderUpdated(order: Order)

  /** The error replies of update_order_status: 400 "Invalid status" and 404 "Order not found". */
  datatype StatusError = InvalidStatus | OrderNotFound

  /** The row create_order inserts; both timestamps take the database's CURRENT_TIMESTAMP. */
  function InsertedRow(id: int, orderNumber: string, request: CreateRequest, dbNow: string): (row: Order)
    ensures row.status == "pending"
    ensures row.items == request.items.GetOr([]) && row.totalAmount == request.totalAmount.GetOr(0)
    ensures row.notes == request.notes.GetOr("")
  {
    Order(id, orderNumber, request.items.GetOr([]), request.totalAmount.GetOr(0), "pending",
          request.notes.GetOr(""), dbNow, Some(dbNow))
  }

  /** The body create_order returns and broadcasts: the server clock's ISO time, and no updated_at. */
  function CreatedBody(id: int, orderNumber: string, request: CreateRequest, isoNow: string): (body: Order)
    ensures body.status == "pending" && body.updatedAt.None?
  {
    InsertedRow(id, orderNumber, request, isoNow).(updatedAt := None)
  }

  /** The reply of update_order_status: only the target's name is checked, never the current status. */
  function StatusReply(orders: map<int, Order>, orderId: int, status: Option<string>, now: string): Result<Order, StatusError> {
    if status.None? || !IsStatusName(status.value) then Failure(InvalidStatus)
    else if orderId in orders then Success(orders[orderId].(status := status.value, updatedAt := Some(now)))
    else Failure(OrderNotFound)
  }

  /** The table after update_order_status: the row read back is the row written. */
  function StatusStore(orders: map<int, Order>, orderId: int, status: Option<string>, now: string): map<int, Order> {
    match StatusReply(orders, orderId, status, now)
    case Success(row) => orders[orderId := row]
    case Failure(_) => orders
  }

  lemma {:induction false} InvalidStatusRejected(orders: map<int, Order>, orderId: int, status: Option<string>, now: string)
    requires status.None? || !IsStatusName(status.value)
    ensures StatusReply(orders, orderId, status, now) == Failure(InvalidStatus)
    ensures StatusStore(orders, orderId, status, now) == orders
  {
  }

  lemma {:induction false} UnknownOrderNotFound(orders: map<int, Order>, orderId: int, status: string, now: string)
    requires IsStatusName(status) && orderId !in orders
    ensures StatusReply(orders, orderId, Some(status), now) == Failure(OrderNotFound)
    ensures StatusStore(orders, orderId, Some(status), now) == orders
  {
  }

  /**
   * Any of the five names is accepted from any current status (backward, skipping
   * or same-state): exactly that order's status and update time change.
   */
  lemma {:induction false} NoFromStateCheck(orders: map<int, Order>, orderId: int, status: string, now: string)
    requires IsStatusName(status) && orderId in orders
    ensures StatusReply(orders, orderId, Some(status), now).Success?
    ensures var row := StatusReply(orders, orderId, Some(status), now).value;
      && row == orders[orderId].(status := status, updatedAt := Some(now))
      && StatusStore(orders, orderId, Some(status), now) == orders[orderId := row]
      && StatusStore(orders, orderId, Some(status), now).Keys == orders.Keys
      && forall id :: id in orders && id != orderId ==> StatusStore(orders, orderId, Some(status), now)[id] == orders[id]
  {
  }

  /** Order numbers whose sequence part is their order's id are pairwise distinct. */
  lemma {:induction false} NumbersDistinct(orders: map<int, Order>)
    requires forall id :: id in orders ==> Serial(orders[id].orderNumber) == id
    ensures forall a, b :: a in orders && b in orders && a != b ==> orders[a].orderNumber != orders[b].orderNumber
  {
  }

  /** Whether the open-orders listing includes an order. */
  predicate IsOpen(o: Order) {
    o.status != "completed"
  }

  /** The open orders among ids 1..n, in ascending id order. */
  function OpenUpTo(orders: map<int, Order>, n: nat): seq<Order> {
    if n == 0 then []
    else OpenUpTo(orders, n - 1) + (if n in orders && IsOpen(orders[n]) then [orders[n]] else [])
  }

  /** OpenUpTo lists each open order with id at most n exactly once, nothing else, by ascending id. */
  lemma {:induction false} OpenUpToLists(orders: map<int, Order>, n: nat)
    requires forall id :: id in orders ==> orders[id].id == id
    ensures forall i :: 0 <= i < |OpenUpTo(orders, n)| ==>
      var o := OpenUpTo(orders, n)[i]; o.id in orders && orders[o.id] == o && IsOpen(o) && 1 <= o.id <= n
    ensures forall id :: 1 <= id <= n && id in orders && IsOpen(orders[id]) ==> orders[id] in OpenUpTo(orders, n)
    ensures forall i, j :: 0 <= i < j < |OpenUpTo(orders, n)| ==> OpenUpTo(orders, n)[i].id < OpenUpTo(orders, n)[j].id
  {
    if n > 0 {
      OpenUpToLists(orders, n - 1);
      var prev := OpenUpTo(orders, n - 1);
      var r := OpenUpTo(orders, n);
      if n in orders && IsOpen(orders[n]) {
        assert r == prev + [orders[n]];
        assert orders[n].id == n;
      } else {
        assert r == prev;
      }
      forall i | 0 <= i < |r|
        ensures r[i].id in orders && orders[r[i].id] == r[i] && IsOpen(r[i]) && 1 <= r[i].id <= n
      {
        if i < |prev| {
          assert r[i] == prev[i];
          assert prev[i].id in orders && orders[prev[i].id] == prev[i] && IsOpen(prev[i]) && 1 <= prev[i].id <= n - 1;
        } else {
          assert n in orders && IsOpen(orders[n]);
          assert r[i] == orders[n];
        }
      }
      forall id | 1 <= id <= n && id in orders && IsOpen(orders[id])
        ensures orders[id] in r
      {
        if id < n {
          assert orders[id] in prev;
        } else {
          assert r[|r| - 1] == orders[id];
        }
      }
    }
  }

  // ------------------------------------------------------------- the store

  /**
   * Nothing is ever deleted: the ids are exactly 1..lastId, so COUNT(*) is
   * lastId, and each row carries its own id.
   */
  ghost predicate Keyed(orders: map<int, Order>, lastId: nat) {
    && (forall id :: id in orders ==> 1 <= id <= lastId)
    && (forall id :: 1 <= id <= lastId ==> id in orders)
    && |orders| == lastId
    && (forall id :: id in orders ==> orders[id].id == id)
  }

  /**
   * The table invariant: keyed as above, each order number's sequence part is
   * its order's id, so order numbers are unique, and every stored status is one
   * of the five names.
   */
  ghost predicate Numbered(orders: map<int, Order>, lastId: nat) {
    && Keyed(orders, lastId)
    && (forall id :: id in orders ==> Serial(orders[id].orderNumber) == id && IsStatusName(orders[id].status))
  }

  /** Inserting the next id keeps the ids exactly 1..lastId + 1. */
  lemma {:induction false} InsertKeepsKeyed(orders: map<int, Order>, lastId: nat, row: Order)
    requires Keyed(orders, lastId)
    requires row.id == lastId + 1
    ensures lastId + 1 !in orders
    ensures Keyed(orders[lastId + 1 := row], lastId + 1)
  {
    var next := orders[lastId + 1 := row];
    assert |next| == |orders| + 1;
  }

  /** Inserting a well-numbered row under the next id keeps the invariant, and its number is new. */
  lemma {:induction false} InsertKeepsNumbered(orders: map<int, Order>, lastId: nat, row: Order)
    requires Numbered(orders, lastId)
    requires row.id == lastId + 1 && Serial(row.orderNumber) == lastId + 1 && IsStatusName(row.status)
    ensures lastId + 1 !in orders
    ensures Numbered(orders[lastId + 1 := row], lastId + 1)
    ensures forall id :: id in orders ==> orders[id].orderNumber != row.orderNumber
  {
    InsertKeepsKeyed(orders, lastId, row);
    var next := orders[lastId + 1 := row];
    forall id | id in next
      ensures Serial(next[id].orderNumber) == id && IsStatusName(next[id].status)
    {
      if id != lastId + 1 {
        assert next[id] == orders[id];
      }
    }
    forall id | id in orders
      ensures orders[id].orderNumber != row.orderNumber
    {
      assert Serial(orders[id].orderNumber) == id;
    }
  }

  /** A status update keeps the invariant. */
  lemma {:induction false} UpdateKeepsNumbered(orders: map<int, Order>, lastId: nat, orderId: int, status: Option<string>, now: string)
    requires Numbered(orders, lastId)
    ensures Numbered(StatusStore(orders, orderId, status, now), lastId)
  {
    if StatusReply(orders, orderId, status, now).Success? {
      assert orderId in orders;
    }
  }


  class OrderServer {
    /** The orders table, by id. */
    var orders: map<int, Order>
    /** The largest id the table has ever handed out. */
    var lastId: nat
    /** Every event broadcast so far, oldest first. */
    var events: seq<Event>

    ghost predicate Valid()
      reads this
    {
      Numbered(orders, lastId)
    }

    constructor ()
      ensures Valid()
      ensures orders == map[] && lastId == 0 && events == []
    {
      orders := map[];
      lastId := 0;
      events := [];
    }

    /** create_order: stores a pending order under a fresh id and broadcasts the body it returns. */
    method CreateOrder(request: CreateRequest, date: string, isoNow: string, dbNow: string) returns (body: Order)
      requires Valid() && |date| == 8
      modifies this
      ensures Valid()
      ensures body.id == old(lastId) + 1 && body.id !in old(orders) && lastId == body.id
      ensures body.orderNumber == OrderNumber(date, |old(orders)|)
      ensures forall id :: id in old(orders) ==> old(orders)[id].orderNumber != body.orderNumber
      ensures body == CreatedBody(body.id, body.orderNumber, request, isoNow)
      ensures orders == old(orders)[body.id := InsertedRow(body.id, body.orderNumber, request, dbNow)]
      ensures events == old(events) + [NewOrder(body)]
    {
      var count := |orders|;
      var orderNumber := OrderNumber(date, count);
      var orderId := lastId + 1;
      var row := InsertedRow(orderId, orderNumber, request, dbNow);
      SerialOfOrderNumber(date, count);
      InsertKeepsNumbered(orders, lastId, row);
      orders := orders[orderId := row];
      lastId := orderId;
      body := CreatedBody(orderId, orderNumber, request, isoNow);
      events := events + [NewOrder(body)];
    }

    /** update_order_status: on success, one event whose payload is the reply. */
    method UpdateOrderStatus(orderId: int, status: Option<string>, now: string) returns (reply: Result<Order, StatusError>)
      requires Valid()
      modifies this
      ensures Valid()
      ensures reply == StatusReply(old(orders), orderId, status, now)
      ensures orders == StatusStore(old(orders), orderId, status, now)
      ensures lastId == old(lastId)
      ensures events == old(events) + (if reply.Success? then [OrderUpdated(reply.value)] else [])
    {
      UpdateKeepsNumbered(orders, lastId, orderId, status, now);
      if status.None? || !IsStatusName(status.value) {
        return Failure(InvalidStatus);
      }
      if orderId in orders {
        orders := orders[orderId := orders[orderId].(status := status.value, updatedAt := Some(now))];
      }
      if orderId in orders {
        var row := orders[orderId];
        events := events + [OrderUpdated(row)];
        return Success(row);
      }
      return Failure(OrderNotFound);
    }

    /**
     * get_pending_orders: every stored order that is not completed, each once, in
     * creation order (ascending id).
     */
    method GetPendingOrders() returns (list: seq<Order>)
      requires Keyed(orders, lastId)
      ensures list == OpenUpTo(orders, lastId)
      ensures forall i :: 0 <= i < |list| ==>
        list[i].id in orders && orders[list[i].id] == list[i] && IsOpen(list[i])
      ensures forall id :: id in orders && IsOpen(orders[id]) ==> orders[id] in list
      ensures forall i, j :: 0 <= i < j < |list| ==> list[i].id < list[j].id
    {
      list := [];
      var id := 1;
      while id <= lastId
        invariant 1 <= id <= lastId + 1
        invariant list == OpenUpTo(orders, id - 1)
      {
        var row := orders[id];
        if IsOpen(row) {
          list := list + [row];
        }
        id := id + 1;
      }
      OpenUpToLists(orders, lastId);
    }
  }
}
