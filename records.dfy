/**
 * The records exchanged by the waiter view, the kitchen view and the order
 * server, and the five order statuses. Money is an integer number of cents.
 */
module Records {
  import opened Wrappers

  /** A row of the menu as the menu endpoint returns it. */
  datatype MenuItem = MenuItem(id: int, name: string, price: int, description: string, category: string)

  /** A cart entry: id, name and price are copied from the menu when the entry is created. */
  datatype LineItem = LineItem(id: int, name: string, price: int, quantity: int)

  /**
   * An order as the server sends it. The status is kept as the raw name because
   * the clients receive it as free JSON text; `updatedAt` is absent from the
   * payload the server returns on creation.
   */
  datatype Order = Order(
    id: int,
    orderNumber: string,
    items: seq<LineItem>,
    totalAmount: int,
    status: string,
    notes: string,
    createdAt: string,
    updatedAt: Option<string>)

  /** The lifecycle, in its intended forward order. */
  datatype Status = Pending | Received | Cooking | Ready | Completed

  function Name(s: Status): string {
    match s
    case Pending => "pending"
    case Received => "received"
    case Cooking => "cooking"
    case Ready => "ready"
    case Completed => "completed"
  }

  /** The names the server accepts as a target status. */
  const StatusNames: seq<string> := ["pending", "received", "cooking", "ready", "completed"]

  predicate IsStatusName(name: string) {
    name in StatusNames
  }

  function Parse(name: string): (r: Option<Status>)
    ensures r.Some? <==> IsStatusName(name)
    ensures r.Some? ==> Name(r.value) == name
  {
    if name == "pending" then Some(Pending)
    else if name == "received" then Some(Received)
    else if name == "cooking" then Some(Cooking)
    else if name == "ready" then Some(Ready)
    else if name == "completed" then Some(Completed)
    else None
  }

  lemma {:induction false} ParseName(s: Status)
    ensures Parse(Name(s)) == Some(s)
    ensures IsStatusName(Name(s))
  {
  }

  /** Position of a status in the forward order. */
  function Rank(s: Status): (r: nat)
    ensures r <= 4
    ensures r == 0 <==> s == Pending
    ensures r == 4 <==> s == Completed
  {
    match s
    case Pending => 0
    case Received => 1
    case Cooking => 2
    case Ready => 3
    case Completed => 4
  }
}
