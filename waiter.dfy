/**
 * The waiter view's cart (static/js/waiter.js): a list of line items merged by
 * menu id, edited by index, summed into a total and turned into an
 * order-creation request on submission.
 *
 * The pure functions below say what each handler does to the cart; the class
 * WaiterView holds the view's module-level state and its handlers change it
 * in place, each proved to agree with its function.
 */
module Waiter {
  import opened Wrappers
  import opened Seqs
  import opened Records

  function MenuHasId(id: int): MenuItem -> bool {
    (m: MenuItem) => m.id == id
  }

  function ItemHasId(id: int): LineItem -> bool {
    (e: LineItem) => e.id == id
  }

  /** One entry per menu id, and no quantity below 1. */
  predicate CartInvariant(cart: seq<LineItem>) {
    && (forall i, j :: 0 <= i < j < |cart| ==> cart[i].id != cart[j].id)
    && (forall i :: 0 <= i < |cart| ==> cart[i].quantity >= 1)
  }

  /** A new entry: the menu item's id, name and price at the time of the call, quantity 1. */
  function Snapshot(m: MenuItem): LineItem {
    LineItem(m.id, m.name, m.price, 1)
  }

  /** addToCart(itemId) */
  function AddItem(cart: seq<LineItem>, menu: seq<MenuItem>, itemId: int): seq<LineItem> {
    match FindIndex(menu, MenuHasId(itemId))
    case None => cart
    case Some(m) =>
      match FindIndex(cart, ItemHasId(itemId))
      case Some(k) => cart[k := cart[k].(quantity := cart[k].quantity + 1)]
      case None => cart + [Snapshot(menu[m])]
  }

  /** increaseQuantity(index); an index with no entry throws before anything is written. */
  function IncreaseAt(cart: seq<LineItem>, index: int): seq<LineItem> {
    if 0 <= index < |cart| then cart[index := cart[index].(quantity := cart[index].quantity + 1)]
    else cart
  }

  /** decreaseQuantity(index) */
  function DecreaseAt(cart: seq<LineItem>, index: int): seq<LineItem> {
    if 0 <= index < |cart| && cart[index].quantity > 1
    then cart[index := cart[index].(quantity := cart[index].quantity - 1)]
    else cart
  }

  /** Where `splice(index, 1)` starts deleting in an array of the given length. */
  function SpliceStart(length: nat, index: int): (k: nat)
    ensures k <= length
    ensures 0 <= index <= length ==> k == index
    ensures index < 0 && length + index >= 0 ==> k == length + index
    ensures length + index < 0 ==> k == 0
    ensures index > length ==> k == length
  {
    if index < 0 then (if length + index < 0 then 0 else length + index)
    else if index > length then length
    else index
  }

  /** removeFromCart(index) */
  function RemoveAt(cart: seq<LineItem>, index: int): seq<LineItem> {
    var k := SpliceStart(|cart|, index);
    if k < |cart| then cart[..k] + cart[k + 1..] else cart
  }

  function Amount(e: LineItem): int {
    e.price * e.quantity
  }

  /** The `reduce` in updateTotal, a left fold starting at 0. */
  function Total(cart: seq<LineItem>): int {
    if cart == [] then 0 else Total(cart[..|cart| - 1]) + Amount(cart[|cart| - 1])
  }

  // ---------------------------------------------------------------- addToCart

  lemma {:induction false} AddUnknownKeepsCart(cart: seq<LineItem>, menu: seq<MenuItem>, itemId: int)
    requires forall j :: 0 <= j < |menu| ==> menu[j].id != itemId
    ensures AddItem(cart, menu, itemId) == cart
  {
  }

  lemma {:induction false} AddExistingIncrements(cart: seq<LineItem>, menu: seq<MenuItem>, itemId: int, k: nat)
    requires exists j :: 0 <= j < |menu| && menu[j].id == itemId
    requires CartInvariant(cart) && k < |cart| && cart[k].id == itemId
    ensures var r := AddItem(cart, menu, itemId);
      && |r| == |cart|
      && r[k] == cart[k].(quantity := cart[k].quantity + 1)
      && forall j :: 0 <= j < |cart| && j != k ==> r[j] == cart[j]
  {
    assert FindIndex(menu, MenuHasId(itemId)).Some?;
    FindIndexIsFirst(cart, ItemHasId(itemId), k);
  }

  lemma {:induction false} AddNewAppends(cart: seq<LineItem>, menu: seq<MenuItem>, itemId: int, m: nat)
    requires m < |menu| && menu[m].id == itemId
    requires forall j :: 0 <= j < m ==> menu[j].id != itemId
    requires forall j :: 0 <= j < |cart| ==> cart[j].id != itemId
    ensures AddItem(cart, menu, itemId) == cart + [LineItem(itemId, menu[m].name, menu[m].price, 1)]
  {
    FindIndexIsFirst(menu, MenuHasId(itemId), m);
  }

  /** Adding the same menu id twice to a cart without it yields one entry of quantity 2. */
  lemma {:induction false} AddTwiceMerges(cart: seq<LineItem>, menu: seq<MenuItem>, itemId: int)
    requires exists j :: 0 <= j < |menu| && menu[j].id == itemId
    requires forall j :: 0 <= j < |cart| ==> cart[j].id != itemId
    ensures var r := AddItem(AddItem(cart, menu, itemId), menu, itemId);
      && |r| == |cart| + 1
      && r[..|cart|] == cart
      && r[|cart|].id == itemId && r[|cart|].quantity == 2
  {
    var m := FindIndex(menu, MenuHasId(itemId));
    assert m.Some?;
    var once := AddItem(cart, menu, itemId);
    assert once == cart + [Snapshot(menu[m.value])];
    FindIndexIsFirst(once, ItemHasId(itemId), |cart|);
  }

  // ------------------------------------------------------------- invariants

  lemma {:induction false} AddPreservesInvariant(cart: seq<LineItem>, menu: seq<MenuItem>, itemId: int)
    requires CartInvariant(cart)
    ensures CartInvariant(AddItem(cart, menu, itemId))
  {
  }

  lemma {:induction false} IncreasePreservesInvariant(cart: seq<LineItem>, index: int)
    requires CartInvariant(cart)
    ensures CartInvariant(IncreaseAt(cart, index))
  {
  }

  lemma {:induction false} DecreasePreservesInvariant(cart: seq<LineItem>, index: int)
    requires CartInvariant(cart)
    ensures CartInvariant(DecreaseAt(cart, index))
  {
  }

  lemma {:induction false} RemovePreservesInvariant(cart: seq<LineItem>, index: int)
    requires CartInvariant(cart)
    ensures CartInvariant(RemoveAt(cart, index))
  {
    var k := SpliceStart(|cart|, index);
    if k < |cart| {
      var r := RemoveAt(cart, index);
      RemoveDeletes(cart, k);
      forall i | 0 <= i < |r|
        ensures r[i] == cart[if i < k then i else i + 1]
      {
      }
    }
  }

  // ------------------------------------------------------ the other mutators

  lemma {:induction false} DecreaseBehaviour(cart: seq<LineItem>, index: nat)
    requires index < |cart|
    ensures cart[index].quantity <= 1 ==> DecreaseAt(cart, index) == cart
    ensures cart[index].quantity > 1 ==>
      var r := DecreaseAt(cart, index);
      |r| == |cart| && r[index].quantity == cart[index].quantity - 1 &&
      r[index] == cart[index].(quantity := cart[index].quantity - 1) &&
      forall j :: 0 <= j < |cart| && j != index ==> r[j] == cart[j]
  {
  }

  /** Removing an existing position deletes exactly that entry and keeps the others in order. */
  lemma {:induction false} RemoveDeletes(cart: seq<LineItem>, index: nat)
    requires index < |cart|
    ensures var r := RemoveAt(cart, index);
      && |r| == |cart| - 1
      && (forall j :: 0 <= j < index ==> r[j] == cart[j])
      && (forall j :: index <= j < |r| ==> r[j] == cart[j + 1])
  {
  }

  /**
   * `splice` with an index past the end deletes nothing; with a negative index
   * beyond the length it starts at 0 and deletes the first entry.
   */
  lemma {:induction false} RemoveOutOfRange(cart: seq<LineItem>, index: int)
    ensures index >= |cart| ==> RemoveAt(cart, index) == cart
    ensures cart != [] && |cart| + index < 0 ==> RemoveAt(cart, index) == cart[1..]
  {
    if cart != [] && |cart| + index < 0 {
      assert SpliceStart(|cart|, index) == 0;
      assert cart[..0] + cart[1..] == cart[1..];
    }
  }

  // ------------------------------------------------------------------ total

  lemma {:induction false} TotalOfEmpty()
    ensures Total([]) == 0
  {
  }

  lemma {:induction false} TotalAppend(a: seq<LineItem>, b: seq<LineItem>)
    ensures Total(a + b) == Total(a) + Total(b)
    decreases |b|
  {
    if b == [] {
      assert a + b == a;
    } else {
      var last := |b| - 1;
      assert (a + b)[..|a + b| - 1] == a + b[..last];
      TotalAppend(a, b[..last]);
    }
  }

  /** Replacing one entry changes the total by the difference of the two amounts. */
  lemma {:induction false} TotalUpdate(cart: seq<LineItem>, k: nat, e: LineItem)
    requires k < |cart|
    ensures Total(cart[k := e]) == Total(cart) - Amount(cart[k]) + Amount(e)
  {
    var r := cart[k := e];
    var last := |cart| - 1;
    if k == last {
      assert r[..last] == cart[..last];
    } else {
      assert r[..last] == cart[..last][k := e];
      TotalUpdate(cart[..last], k, e);
    }
  }

  lemma {:induction false} TotalRemove(cart: seq<LineItem>, k: nat)
    requires k < |cart|
    ensures Total(cart[..k] + cart[k + 1..]) == Total(cart) - Amount(cart[k])
  {
    assert cart == cart[..k] + ([cart[k]] + cart[k + 1..]);
    TotalAppend(cart[..k], [cart[k]] + cart[k + 1..]);
    TotalAppend([cart[k]], cart[k + 1..]);
    TotalAppend(cart[..k], cart[k + 1..]);
    assert [cart[k]][..0] == [];
  }

  lemma {:induction false} AmountStep(e: LineItem)
    ensures Amount(e.(quantity := e.quantity + 1)) == Amount(e) + e.price
    ensures Amount(e.(quantity := e.quantity - 1)) == Amount(e) - e.price
  {
    assert e.price * (e.quantity + 1) == e.price * e.quantity + e.price;
    assert e.price * (e.quantity - 1) == e.price * e.quantity - e.price;
  }

  /** Replacing entry k by one whose amount differs by delta shifts the total by delta. */
  lemma {:induction false} TotalShift(cart: seq<LineItem>, k: nat, e: LineItem, delta: int)
    requires k < |cart| && Amount(e) == Amount(cart[k]) + delta
    ensures Total(cart[k := e]) == Total(cart) + delta
  {
    TotalUpdate(cart, k, e);
  }

  lemma {:induction false} TotalAfterIncrease(cart: seq<LineItem>, index: nat)
    requires index < |cart|
    ensures Total(IncreaseAt(cart, index)) == Total(cart) + cart[index].price
  {
    var e := cart[index];
    AmountStep(e);
    TotalShift(cart, index, e.(quantity := e.quantity + 1), e.price);
  }

  lemma {:induction false} TotalAfterDecrease(cart: seq<LineItem>, index: nat)
    requires index < |cart| && cart[index].quantity > 1
    ensures Total(DecreaseAt(cart, index)) == Total(cart) - cart[index].price
  {
    var e := cart[index];
    AmountStep(e);
    TotalShift(cart, index, e.(quantity := e.quantity - 1), -e.price);
  }

  /** An add raises the total by the listed price of the item, or leaves it when the id is unknown. */
  lemma {:induction false} TotalAfterAdd(cart: seq<LineItem>, menu: seq<MenuItem>, itemId: int)
    ensures Total(AddItem(cart, menu, itemId)) ==
      match FindIndex(menu, MenuHasId(itemId))
      case None => Total(cart)
      case Some(m) =>
        match FindIndex(cart, ItemHasId(itemId))
        case Some(k) => Total(cart) + cart[k].price
        case None => Total(cart) + menu[m].price
  {
    match FindIndex(menu, MenuHasId(itemId))
    case None =>
    case Some(m) =>
      match FindIndex(cart, ItemHasId(itemId))
      case Some(k) =>
        assert AddItem(cart, menu, itemId) == IncreaseAt(cart, k);
        TotalAfterIncrease(cart, k);
      case None =>
        assert AddItem(cart, menu, itemId) == cart + [Snapshot(menu[m])];
        TotalAppend(cart, [Snapshot(menu[m])]);
        assert [Snapshot(menu[m])][..0] == [];
  }

  lemma {:induction false} TotalAfterRemove(cart: seq<LineItem>, index: nat)
    requires index < |cart|
    ensures Total(RemoveAt(cart, index)) == Total(cart) - cart[index].price * cart[index].quantity
  {
    TotalRemove(cart, index);
  }

  /** With non-negative prices no reachable cart has a negative total. */
  lemma {:induction false} TotalNonNegative(cart: seq<LineItem>)
    requires CartInvariant(cart)
    requires forall i :: 0 <= i < |cart| ==> cart[i].price >= 0
    ensures Total(cart) >= 0
  {
    if cart != [] {
      var last := |cart| - 1;
      TotalNonNegative(cart[..last]);
      assert cart[last].price * cart[last].quantity >= 0;
    }
  }

  // ----------------------------------------------------- sequences of actions

  /** The user actions the cart view offers. */
  datatype CartAction = Add(itemId: int) | Increase(index: int) | Decrease(index: int) | Remove(index: int) | Clear

  function Step(cart: seq<LineItem>, menu: seq<MenuItem>, a: CartAction): seq<LineItem> {
    match a
    case Add(id) => AddItem(cart, menu, id)
    case Increase(i) => IncreaseAt(cart, i)
    case Decrease(i) => DecreaseAt(cart, i)
    case Remove(i) => RemoveAt(cart, i)
    case Clear => []
  }

  function Run(cart: seq<LineItem>, menu: seq<MenuItem>, actions: seq<CartAction>): seq<LineItem>
    decreases |actions|
  {
    if actions == [] then cart else Run(Step(cart, menu, actions[0]), menu, actions[1..])
  }

  /** No sequence of cart actions produces two entries for one id or a quantity below 1. */
  lemma {:induction false} RunPreservesInvariant(cart: seq<LineItem>, menu: seq<MenuItem>, actions: seq<CartAction>)
    requires CartInvariant(cart)
    ensures CartInvariant(Run(cart, menu, actions))
    decreases |actions|
  {
    if actions != [] {
      match actions[0] {
        case Add(id) => AddPreservesInvariant(cart, menu, id);
        case Increase(i) => IncreasePreservesInvariant(cart, i);
        case Decrease(i) => DecreasePreservesInvariant(cart, i);
        case Remove(i) => RemovePreservesInvariant(cart, i);
        case Clear =>
      }
      RunPreservesInvariant(Step(cart, menu, actions[0]), menu, actions[1..]);
    }
  }

  // ------------------------------------------------------------ submission

  /** The body posted to the order-creation endpoint. */
  datatype OrderRequest = OrderRequest(items: seq<LineItem>, totalAmount: int, notes: string)

  /**
   * How the submission's request ended. Parsed: the reply was parsed and
   * nothing before `clearCart()` threw. Threw: the request, the parsing, or
   * the code between parsing and `clearCart()` threw. A reply that parses to
   * `null` is a Threw: reading `order_number` from it throws.
   */
  datatype SubmitOutcome = Parsed | Threw

  /** The entry-by-entry copy `cart.map(item => ({id, name, price, quantity}))`. */
  function CopyItems(cart: seq<LineItem>): (r: seq<LineItem>)
    ensures r == cart
  {
    seq(|cart|, i requires 0 <= i < |cart| => LineItem(cart[i].id, cart[i].name, cart[i].price, cart[i].quantity))
  }

  /** The request submitOrder builds; an empty cart builds none. */
  function Payload(cart: seq<LineItem>, notes: string): (r: Option<OrderRequest>)
    ensures r.None? <==> cart == []
    ensures r.Some? ==> r.value.items == cart && r.value.totalAmount == Total(cart) && r.value.notes == notes
  {
    if |cart| == 0 then None else Some(OrderRequest(CopyItems(cart), Total(cart), notes))
  }

  // ------------------------------------------------------------- the view

  /** The waiter page's state: the loaded menu, the cart and the order-notes text box. */
  class WaiterView {
    var menu: seq<MenuItem>
    var cart: seq<LineItem>
    var notes: string

    ghost predicate Valid()
      reads this
    {
      CartInvariant(cart)
    }

    constructor ()
      ensures Valid()
      ensures menu == [] && cart == [] && notes == ""
    {
      menu := [];
      cart := [];
      notes := "";
    }

    /** loadMenu: a fetched menu replaces the old one; a failed fetch keeps it. */
    method LoadMenu(fetched: Option<seq<MenuItem>>)
      modifies this
      ensures menu == (if fetched.Some? then fetched.value else old(menu))
      ensures cart == old(cart) && notes == old(notes)
    {
      if fetched.Some? {
        menu := fetched.value;
      }
    }

    /** The user editing the order-notes text box. */
    method EditNotes(text: string)
      modifies this
      ensures notes == text
      ensures menu == old(menu) && cart == old(cart)
    {
      notes := text;
    }

    method AddToCart(itemId: int)
      requires Valid()
      modifies this
      ensures Valid()
      ensures cart == AddItem(old(cart), menu, itemId)
      ensures menu == old(menu) && notes == old(notes)
    {
      AddPreservesInvariant(cart, menu, itemId);
      var found := FindIndex(menu, MenuHasId(itemId));
      if found.None? {
        return;
      }
      var menuItem := menu[found.value];
      var existing := FindIndex(cart, ItemHasId(itemId));
      if existing.Some? {
        var k := existing.value;
        cart := cart[k := cart[k].(quantity := cart[k].quantity + 1)];
      } else {
        cart := cart + [LineItem(menuItem.id, menuItem.name, menuItem.price, 1)];
      }
    }

    method IncreaseQuantity(index: int)
      requires Valid()
      modifies this
      ensures Valid()
      ensures cart == IncreaseAt(old(cart), index)
      ensures menu == old(menu) && notes == old(notes)
    {
      IncreasePreservesInvariant(cart, index);
      if 0 <= index < |cart| {
        cart := cart[index := cart[index].(quantity := cart[index].quantity + 1)];
      }
    }

    method DecreaseQuantity(index: int)
      requires Valid()
      modifies this
      ensures Valid()
      ensures cart == DecreaseAt(old(cart), index)
      ensures menu == old(menu) && notes == old(notes)
    {
      DecreasePreservesInvariant(cart, index);
      if 0 <= index < |cart| && cart[index].quantity > 1 {
        cart := cart[index := cart[index].(quantity := cart[index].quantity - 1)];
      }
    }

    method RemoveFromCart(index: int)
      requires Valid()
      modifies this
      ensures Valid()
      ensures cart == RemoveAt(old(cart), index)
      ensures menu == old(menu) && notes == old(notes)
    {
      RemovePreservesInvariant(cart, index);
      var start := SpliceStart(|cart|, index);
      if start < |cart| {
        cart := cart[..start] + cart[start + 1..];
      }
    }

    /** clearCart: empties the cart and the order-notes text box. */
    method ClearCart()
      modifies this
      ensures Valid()
      ensures cart == [] && notes == ""
      ensures menu == old(menu)
    {
      cart := [];
      notes := "";
    }

    /**
     * submitOrder: returns the request it sends (none for an empty cart). The cart
     * and notes are cleared only when the reply was parsed and reading it did not
     * throw; otherwise (a failed request, a body that is not JSON, a `null`
     * body) both are kept for a retry.
     */
    method SubmitOrder(outcome: SubmitOutcome) returns (request: Option<OrderRequest>)
      requires Valid()
      modifies this
      ensures Valid()
      ensures request == Payload(old(cart), old(notes))
      ensures request.Some? && outcome.Parsed? ==> cart == [] && notes == ""
      ensures request.None? || outcome.Threw? ==> cart == old(cart) && notes == old(notes)
      ensures menu == old(menu)
    {
      if |cart| == 0 {
        return None;
      }
      var total := Total(cart);
      request := Some(OrderRequest(CopyItems(cart), total, notes));
      if outcome.Parsed? {
        ClearCart();
      }
    }
  }
}
