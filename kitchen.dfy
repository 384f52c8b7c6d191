/**
 * The kitchen view (static/js/kitchen.js): a local list of orders kept current
 * by the server's broadcast events and by the replies to its own status
 * requests, shown through a status filter, with one "next status" button per
 * order.
 */
module Kitchen {
  import opened Wrappers
  import opened Seqs
  import opened Records

  function HasId(id: int): Order -> bool {
    (o: Order) => o.id == id
  }

  function HasStatus(status: string): Order -> bool {
    (o: Order) => o.status == status
  }

  predicate NotCompleted(o: Order) {
    o.status != "completed"
  }

  /** `orders[findIndex(o => o.id === id)] = order`, skipped when the id is absent. */
  function ReplaceById(orders: seq<Order>, id: int, order: Order): seq<Order> {
    match FindIndex(orders, HasId(id))
    case None => orders
    case Some(k) => orders[k := order]
  }

  /** The cards displayOrders renders: the status filter unless it is 'all', then no completed orders. */
  function Displayed(orders: seq<Order>, filter: string): seq<Order> {
    var byFilter := if filter != "all" then Filter(orders, HasStatus(filter)) else orders;
    Filter(byFilter, NotCompleted)
  }

  /** The pending counter of displayOrders, over the whole unfiltered list. */
  function PendingCount(orders: seq<Order>): nat {
    |Filter(orders, HasStatus("pending"))|
  }

  /** getStatusButtons: the target of the one button offered for a status, if any. */
  function OfferedNext(status: string): Option<string> {
    if status == "pending" then Some("received")
    else if status == "received" then Some("cooking")
    else if status == "cooking" then Some("ready")
    else if status == "ready" then Some("completed")
    else None
  }

  /** getStatusBadge: the badge of a known status, the pending badge for anything else. */
  function BadgeStatus(status: string): (b: Status)
    ensures IsStatusName(status) ==> Name(b) == status
    ensures !IsStatusName(status) ==> b == Pending
  {
    Parse(status).GetOr(Pending)
  }

  // ------------------------------------------------------------ list edits

  /** A replace by id touches only the first order with that id, and only when there is one. */
  lemma {:induction false} ReplaceInPlace(orders: seq<Order>, id: int, order: Order)
    ensures |ReplaceById(orders, id, order)| == |orders|
    ensures (forall j :: 0 <= j < |orders| ==> orders[j].id != id) ==> ReplaceById(orders, id, order) == orders
    ensures forall k :: 0 <= k < |orders| && orders[k].id == id && (forall j :: 0 <= j < k ==> orders[j].id != id) ==>
      var r := ReplaceById(orders, id, order);
      r[k] == order && forall j :: 0 <= j < |orders| && j != k ==> r[j] == orders[j]
  {
    forall k | 0 <= k < |orders| && orders[k].id == id && (forall j :: 0 <= j < k ==> orders[j].id != id) {
      FindIndexIsFirst(orders, HasId(id), k);
    }
  }

  /** Applying one order_updated payload twice gives the list that applying it once gives. */
  lemma {:induction false} ReplaceIdempotent(orders: seq<Order>, order: Order)
    ensures ReplaceById(ReplaceById(orders, order.id, order), order.id, order) == ReplaceById(orders, order.id, order)
  {
    match FindIndex(orders, HasId(order.id))
    case None =>
    case Some(k) =>
      FindIndexIsFirst(orders[k := order], HasId(order.id), k);
  }

  /**
   * Two payloads for one order, applied one after the other, leave the list as
   * the second alone would: the last snapshot applied wins, so a late reply to
   * a status request overwrites a newer broadcast about the same order.
   */
  lemma {:induction false} LastPayloadWins(orders: seq<Order>, id: int, first: Order, second: Order)
    requires first.id == id
    ensures ReplaceById(ReplaceById(orders, id, first), id, second) == ReplaceById(orders, id, second)
  {
    match FindIndex(orders, HasId(id))
    case None =>
    case Some(k) =>
      FindIndexIsFirst(orders[k := first], HasId(id), k);
  }

  /**
   * new_order does not look for the id: a second creation event for a listed
   * order leaves two entries with that id, and a later update replaces only
   * the newer one, at the front.
   */
  lemma {:induction false} RepeatedNewOrderShadows(orders: seq<Order>, order: Order, update: Order)
    requires update.id == order.id
    ensures var r := ReplaceById([order] + orders, update.id, update);
      && |r| == |orders| + 1
      && r[0] == update
      && r[1..] == orders
  {
    FindIndexIsFirst([order] + orders, HasId(update.id), 0);
    var r := ReplaceById([order] + orders, update.id, update);
    assert r == ([order] + orders)[0 := update];
  }

  // ------------------------------------------------------------- the board

  /** The board is an order-preserving selection of the list, showing exactly the orders the filters admit. */
  lemma {:induction false} DisplayedIsFilteredView(orders: seq<Order>, filter: string)
    ensures IsSubsequence(Displayed(orders, filter), orders)
    ensures forall i :: 0 <= i < |Displayed(orders, filter)| ==>
      Displayed(orders, filter)[i].status != "completed" &&
      (filter != "all" ==> Displayed(orders, filter)[i].status == filter)
    ensures forall i ::
      (0 <= i < |orders| && orders[i].status != "completed" && (filter == "all" || orders[i].status == filter))
      ==> orders[i] in Displayed(orders, filter)
    ensures forall o :: multiset(Displayed(orders, filter))[o] ==
                (if o.status != "completed" && (filter == "all" || o.status == filter) then multiset(orders)[o] else 0)
  {
    var byFilter := if filter != "all" then Filter(orders, HasStatus(filter)) else orders;
    FilterIsSubsequence(byFilter, NotCompleted);
    FilterCounts(byFilter, NotCompleted);
    if filter != "all" {
      FilterCounts(orders, HasStatus(filter));
      FilterIsSubsequence(orders, HasStatus(filter));
      SubsequenceTransitive(Displayed(orders, filter), byFilter, orders);
      forall i | 0 <= i < |orders| && orders[i].status != "completed" && orders[i].status == filter
        ensures orders[i] in Displayed(orders, filter)
      {
        assert HasStatus(filter)(orders[i]);
        assert orders[i] in byFilter;
        var j :| 0 <= j < |byFilter| && byFilter[j] == orders[i];
        assert NotCompleted(byFilter[j]);
      }
    }
  }

  /** Selecting 'completed' always shows an empty board. */
  lemma {:induction false} CompletedFilterShowsNothing(orders: seq<Order>)
    ensures Displayed(orders, "completed") == []
  {
    var byFilter := Filter(orders, HasStatus("completed"));
    FilterKeepsNone(byFilter, NotCompleted);
  }

  /** The pending badge counts the same orders the 'pending' filter shows, whatever filter is selected. */
  lemma {:induction false} PendingCountMatchesPendingBoard(orders: seq<Order>)
    ensures PendingCount(orders) == |Displayed(orders, "pending")|
    ensures PendingCount(orders) <= |Displayed(orders, "all")|
  {
    FilterAfterFilter(orders, HasStatus("pending"), NotCompleted);
    PendingAmongOpen(orders);
  }

  lemma {:induction false} PendingAmongOpen(orders: seq<Order>)
    ensures |Filter(orders, HasStatus("pending"))| <= |Filter(orders, NotCompleted)|
  {
    if orders != [] {
      PendingAmongOpen(orders[1..]);
    }
  }

  /** A list of open orders, as the pending listing returns, is shown whole on the 'all' board. */
  lemma {:induction false} OpenListShownWhole(orders: seq<Order>)
    requires forall i :: 0 <= i < |orders| ==> orders[i].status != "completed"
    ensures Displayed(orders, "all") == orders
  {
    FilterKeepsAll(orders, NotCompleted);
  }

  // ------------------------------------------------------- the next status

  /** A button is offered exactly for the four non-final statuses, and it leads one step forward. */
  lemma {:induction false} OfferedNextIsSuccessor(status: string)
    ensures OfferedNext(status).None? <==> status == "completed" || !IsStatusName(status)
    ensures OfferedNext(status).Some? ==>
      && IsStatusName(status) && IsStatusName(OfferedNext(status).value)
      && Rank(Parse(OfferedNext(status).value).value) == Rank(Parse(status).value) + 1
  {
  }

  /** Each name in the chain is what the button for the previous one requests. */
  ghost predicate OfferedChain(names: seq<string>) {
    forall i :: 0 <= i < |names| - 1 ==> OfferedNext(names[i]) == Some(names[i + 1])
  }

  lemma {:induction false} ChainRanks(names: seq<string>, i: nat)
    requires OfferedChain(names) && 1 <= i < |names|
    ensures IsStatusName(names[0]) && IsStatusName(names[i])
    ensures Rank(Parse(names[i]).value) == Rank(Parse(names[0]).value) + i
  {
    OfferedNextIsSuccessor(names[i - 1]);
    if i > 1 {
      ChainRanks(names, i - 1);
    }
  }

  /**
   * Following only the offered buttons, statuses strictly advance, so an order
   * passes through at most five statuses.
   */
  lemma {:induction false} OfferedChainAdvances(names: seq<string>)
    requires OfferedChain(names)
    ensures |names| <= 5
    ensures forall i, j :: 0 <= i < j < |names| ==>
      IsStatusName(names[i]) && IsStatusName(names[j]) &&
      Rank(Parse(names[i]).value) < Rank(Parse(names[j]).value)
  {
    if |names| > 1 {
      ChainRanks(names, |names| - 1);
    }
    forall i, j | 0 <= i < j < |names|
      ensures IsStatusName(names[i]) && IsStatusName(names[j])
      ensures Rank(Parse(names[i]).value) < Rank(Parse(names[j]).value)
    {
      ChainRanks(names, j);
      if i > 0 {
        ChainRanks(names, i);
      }
    }
  }

  // ------------------------------------------------------------- the view

  /** The kitchen page's state: its local order list and the selected filter. */
  class KitchenView {
    var orders: seq<Order>
    var currentFilter: string

    constructor ()
      ensures orders == [] && currentFilter == "all"
    {
      orders := [];
      currentFilter := "all";
    }

    /** loadOrders: a fetched list replaces the local one; a failed fetch keeps it. */
    method LoadOrders(fetched: Option<seq<Order>>)
      modifies this
      ensures orders == (if fetched.Some? then fetched.value else old(orders))
      ensures currentFilter == old(currentFilter)
    {
      if fetched.Some? {
        orders := fetched.value;
      }
    }

    /** The 'new_order' handler: the order goes in front, with no check for an id already listed. */
    method OnNewOrder(order: Order)
      modifies this
      ensures orders == [order] + old(orders)
      ensures |orders| == |old(orders)| + 1 && orders[0] == order
      ensures forall i :: 0 <= i < |old(orders)| ==> orders[i + 1] == old(orders)[i]
      ensures currentFilter == old(currentFilter)
    {
      orders := [order] + orders;
    }

    /** The 'order_updated' handler: replaces the listed order with the payload's id; ignores an unknown id. */
    method OnOrderUpdated(order: Order)
      modifies this
      ensures orders == ReplaceById(old(orders), order.id, order)
      ensures currentFilter == old(currentFilter)
    {
      var index := FindIndex(orders, HasId(order.id));
      if index.Some? {
        orders := orders[index.value := order];
      }
    }

    /**
     * The reply handler of updateStatus(orderId, newStatus): the reply replaces the
     * listed order with the requested id; a request or parse that threw changes nothing.
     */
    method OnStatusReply(orderId: int, reply: Option<Order>)
      modifies this
      ensures orders == (if reply.Some? then ReplaceById(old(orders), orderId, reply.value) else old(orders))
      ensures currentFilter == old(currentFilter)
    {
      if reply.None? {
        return;
      }
      var index := FindIndex(orders, HasId(orderId));
      if index.Some? {
        orders := orders[index.value := reply.value];
      }
    }

    /** The filter radio buttons. */
    method SetFilter(value: string)
      modifies this
      ensures currentFilter == value && orders == old(orders)
    {
      currentFilter := value;
    }

    /** What displayOrders renders; reading the board never changes the list. */
    method Board() returns (shown: seq<Order>, pendingCount: nat)
      ensures IsSubsequence(shown, orders)
      ensures forall i :: 0 <= i < |shown| ==>
        shown[i].status != "completed" && (currentFilter != "all" ==> shown[i].status == currentFilter)
      ensures forall i ::
        (0 <= i < |orders| && orders[i].status != "completed" &&
         (currentFilter == "all" || orders[i].status == currentFilter))
        ==> orders[i] in shown
      ensures shown == Displayed(orders, currentFilter)
      ensures forall o :: multiset(shown)[o] ==
                  (if o.status != "completed" && (currentFilter == "all" || o.status == currentFilter) then multiset(orders)[o] else 0)
      ensures pendingCount == PendingCount(orders)
    {
      DisplayedIsFilteredView(orders, currentFilter);
      shown := Displayed(orders, currentFilter);
      pendingCount := PendingCount(orders);
    }
  }
}
