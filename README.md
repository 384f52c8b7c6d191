# FlaskPOS order workflow

A Dafny model of the order workflow of FlaskPOS, a restaurant point-of-sale app.
It has three parts:

- **The waiter view's cart** (`static/js/waiter.js`). The cart is a list of line items. Adding an item merges entries by menu id and copies the name and price from the menu at add time. Entries are edited by index. The total is a left fold of price × quantity. Submitting builds an order-creation request, and the cart is cleared only once the reply has been parsed.
- **The kitchen view's order list** (`static/js/kitchen.js`). A `new_order` event puts the order at the front. An `order_updated` event, or the reply to the view's own status request, replaces the first listed order with that id; an unknown id is ignored. The board is a filtered projection of the list. Each card offers exactly one "next status" button.
- **The order server** (`app.py`). The orders table is a map from id to order. `create_order` stores a `pending` order under a fresh id with the number `ORD<yyyymmdd><count+1, zero-padded to 4>`. `update_order_status` accepts any of the five status names from any current status. `get_pending_orders` lists the orders that are not completed. Each successful create or update broadcasts one event whose payload is the reply body.

Module layout:
- `wrappers.dfy`: Option and Result.
- `seqs.dfy`: JavaScript's `findIndex` and `filter` on sequences, plus the subsequence relation.
- `records.dfy`: menu items, line items, orders and the five statuses.
- `waiter.dfy`, `kitchen.dfy`, `server.dfy`: one module per source file. Each has pure functions for the logic and a class for the state the source changes in place. Every method of those classes is proved to agree with its function.
- `workflow.dfy`: properties that span the three parts.

Modelling choices:
- Money is an integer number of cents, so totals are exact.
- An order's status is kept as the raw text the JSON carries. `Records.Parse` maps the five known names to the `Status` datatype.
- The server clock is a parameter. The date is passed as `%Y%m%d` text (eight characters), and the timestamps as text.
- Network outcomes are parameters. A fetch that failed is `None`. A submission's outcome is `Parsed` (the reply was parsed and nothing before `clearCart()` threw) or `Threw`.

The code does not give a strict forward lifecycle or a reconciler that adds unknown orders, and the model follows the code:
- `update_order_status` does not check the current status. Backward moves, skips and same-state moves are all accepted (`Server.NoFromStateCheck`, `Workflow.SkipAndBackwardAccepted`). The kitchen's buttons move an order forward only while the kitchen's copy of it is up to date (`Workflow.PressNextIsForward`). A button drawn from an out-of-date copy is accepted too, and it can move the order backward (`Workflow.StaleButtonAccepted`).
- The kitchen's `order_updated` handler ignores an id it does not list. It does not treat it as a creation.
- `create_order` does not reject an empty item list.
- `submitOrder` does not look at the reply's status code. It clears the cart whenever the reply body parses and nothing before `clearCart()` throws, including for a non-2xx reply. The cart is kept when the request fails, when the body is not JSON, or when a parsed reply makes a later line throw: a `null` body parses, then reading its `order_number` throws.

## Model

| member | source | states |
|---|---|---|
| `Seqs.FindIndex` | FlaskPOS/static/js/kitchen.js:19 | The result is the first index whose element matches, or none when no element matches |
| `Seqs.Filter` | FlaskPOS/static/js/kitchen.js:43 | Every kept element passes the test and comes from the list; every element that passes is kept |
| `Seqs.FilterCounts` | FlaskPOS/static/js/kitchen.js:43 | Each element that passes is kept exactly as many times as it occurs, and no other element is kept |
| `Seqs.FilterIsSubsequence` | FlaskPOS/static/js/kitchen.js:46 | A filter's result is an order-preserving subsequence of its input |
| `Records.Parse` | FlaskPOS/app.py:155 | A name parses exactly when it is one of the five status names, and it parses to the status of that name |
| `Records.ParseName` | FlaskPOS/app.py:155 | Every status's name is accepted and parses back to that status |
| `Waiter.AddUnknownKeepsCart` | FlaskPOS/static/js/waiter.js:61-63 | Adding an id that no menu item has leaves the cart unchanged |
| `Waiter.AddExistingIncrements` | FlaskPOS/static/js/waiter.js:65-68 | Adding an id the cart holds raises that entry's quantity by 1; the length and every other entry stay the same |
| `Waiter.AddNewAppends` | FlaskPOS/static/js/waiter.js:69-76 | Adding a new id appends one entry with the first matching menu item's id, name and price and quantity 1; earlier entries are unchanged |
| `Waiter.AddTwiceMerges` | FlaskPOS/static/js/waiter.js:61-76 | Adding the same new id twice gives one entry of quantity 2, not two entries |
| `Waiter.AddPreservesInvariant` | FlaskPOS/static/js/waiter.js:61-80 | Adding keeps one entry per id and every quantity at least 1 |
| `Waiter.IncreasePreservesInvariant` | FlaskPOS/static/js/waiter.js:118-121 | Increasing keeps the cart invariant |
| `Waiter.DecreasePreservesInvariant` | FlaskPOS/static/js/waiter.js:123-128 | Decreasing keeps the cart invariant; no quantity falls below 1 |
| `Waiter.RemovePreservesInvariant` | FlaskPOS/static/js/waiter.js:130-133 | Removing keeps the cart invariant |
| `Waiter.DecreaseBehaviour` | FlaskPOS/static/js/waiter.js:123-128 | At quantity 1 decreasing does nothing; above 1 it subtracts exactly 1 at that index and changes nothing else |
| `Waiter.SpliceStart` | FlaskPOS/static/js/waiter.js:131 | `splice` starts at the index when it is in range, counts back from the end when it is negative, starts at 0 when the negative index is beyond the length, and starts at the end when the index is past it |
| `Waiter.RemoveOutOfRange` | FlaskPOS/static/js/waiter.js:130-133 | Removing at an index past the end leaves the cart unchanged; a negative index beyond the length removes the first entry |
| `Waiter.RemoveDeletes` | FlaskPOS/static/js/waiter.js:130-133 | Removing a valid index deletes exactly that entry and keeps the others in their order |
| `Waiter.TotalOfEmpty` | FlaskPOS/static/js/waiter.js:136 | The total of an empty cart is 0 |
| `Waiter.TotalAppend` | FlaskPOS/static/js/waiter.js:136 | The total of a concatenation is the sum of the two totals |
| `Waiter.TotalUpdate` | FlaskPOS/static/js/waiter.js:136 | Replacing one entry changes the total by the difference of the two entries' amounts |
| `Waiter.TotalRemove` | FlaskPOS/static/js/waiter.js:136 | Deleting one entry lowers the total by that entry's amount |
| `Waiter.TotalAfterAdd` | FlaskPOS/static/js/waiter.js:61-76 | Adding raises the total by the stored price of the merged entry or the menu price of the new one, or leaves it for an unknown id |
| `Waiter.TotalAfterIncrease` | FlaskPOS/static/js/waiter.js:118-121 | Increasing raises the total by that entry's price |
| `Waiter.TotalAfterDecrease` | FlaskPOS/static/js/waiter.js:123-128 | Decreasing a quantity above 1 lowers the total by that entry's price |
| `Waiter.TotalAfterRemove` | FlaskPOS/static/js/waiter.js:130-133 | Removing lowers the total by the removed entry's price × quantity |
| `Waiter.TotalNonNegative` | FlaskPOS/static/js/waiter.js:136 | A cart with non-negative prices has a non-negative total |
| `Waiter.RunPreservesInvariant` | FlaskPOS/static/js/waiter.js:61-144 | No sequence of add, increase, decrease, remove and clear actions breaks the cart invariant |
| `Waiter.CopyItems` | FlaskPOS/static/js/waiter.js:156-161 | The copied item list equals the cart, field by field |
| `Waiter.Payload` | FlaskPOS/static/js/waiter.js:146-164 | An empty cart builds no request; otherwise the request's items are the cart's, its total is the cart total and its notes are the text box's |
| `Waiter.WaiterView.constructor` | FlaskPOS/static/js/waiter.js:2-3 | The page starts with an empty menu, an empty cart and empty notes |
| `Waiter.WaiterView.LoadMenu` | FlaskPOS/static/js/waiter.js:23-32 | A fetched menu replaces the old one; a failed fetch keeps it; the cart is untouched |
| `Waiter.WaiterView.EditNotes` | FlaskPOS/static/js/waiter.js:152 | The notes text box holds what was typed; menu and cart are untouched |
| `Waiter.WaiterView.AddToCart` | FlaskPOS/static/js/waiter.js:61-80 | The cart becomes the add function applied to the old cart, and the invariant holds |
| `Waiter.WaiterView.IncreaseQuantity` | FlaskPOS/static/js/waiter.js:118-121 | The cart becomes the increase function applied to the old cart, and the invariant holds |
| `Waiter.WaiterView.DecreaseQuantity` | FlaskPOS/static/js/waiter.js:123-128 | The cart becomes the decrease function applied to the old cart, and the invariant holds |
| `Waiter.WaiterView.RemoveFromCart` | FlaskPOS/static/js/waiter.js:130-133 | The cart becomes the splice-deletion of the old cart, and the invariant holds |
| `Waiter.WaiterView.ClearCart` | FlaskPOS/static/js/waiter.js:140-144 | Cart and notes are emptied; the menu is untouched |
| `Waiter.WaiterView.SubmitOrder` | FlaskPOS/static/js/waiter.js:146-187 | Returns the request built from the old cart and notes, or none for an empty cart; clears cart and notes only when a request was sent and its reply parsed; keeps both when something threw |
| `Kitchen.BadgeStatus` | FlaskPOS/static/js/kitchen.js:104-113 | A known status gets its own badge; any other text gets the pending badge |
| `Kitchen.ReplaceInPlace` | FlaskPOS/static/js/kitchen.js:17-24 | Replacing by id keeps the length, puts the payload at the first position with that id and changes no other position; an unknown id leaves the list unchanged |
| `Kitchen.ReplaceIdempotent` | FlaskPOS/static/js/kitchen.js:17-24 | Applying the same `order_updated` payload twice gives the list that one application gives |
| `Kitchen.LastPayloadWins` | FlaskPOS/static/js/kitchen.js:166-170 | Two payloads for one order applied in turn leave the list as the second alone would, so a late status reply overwrites a newer broadcast |
| `Kitchen.RepeatedNewOrderShadows` | FlaskPOS/static/js/kitchen.js:9-24 | With no duplicate check on `new_order`, a later update replaces only the newest entry with that id, at the front, and leaves the older copy |
| `Kitchen.DisplayedIsFilteredView` | FlaskPOS/static/js/kitchen.js:41-46 | The board is a subsequence of the list, shows no completed order and only the selected status unless the filter is 'all', and shows each order those filters admit as many times as the list holds it |
| `Kitchen.CompletedFilterShowsNothing` | FlaskPOS/static/js/kitchen.js:41-46 | Selecting the 'completed' filter always shows an empty board |
| `Kitchen.PendingCountMatchesPendingBoard` | FlaskPOS/static/js/kitchen.js:48 | The pending count over the whole list equals the size of the 'pending' board and is at most the size of the 'all' board |
| `Kitchen.OpenListShownWhole` | FlaskPOS/static/js/kitchen.js:41-46 | A list with no completed order, such as the open-orders listing, is shown whole on the 'all' board |
| `Kitchen.OfferedNextIsSuccessor` | FlaskPOS/static/js/kitchen.js:115-144 | A button is offered exactly for pending, received, cooking and ready, and it targets the status one rank later; completed and unknown statuses get none |
| `Kitchen.OfferedChainAdvances` | FlaskPOS/static/js/kitchen.js:115-144 | A chain of statuses where each is the previous one's offered target strictly increases in rank and has at most five elements |
| `Kitchen.KitchenView.constructor` | FlaskPOS/static/js/kitchen.js:2-3 | The page starts with no orders and the 'all' filter |
| `Kitchen.KitchenView.LoadOrders` | FlaskPOS/static/js/kitchen.js:26-35 | A fetched list replaces the local one; a failed fetch keeps it |
| `Kitchen.KitchenView.OnNewOrder` | FlaskPOS/static/js/kitchen.js:9-15 | The order goes to index 0, the length grows by 1 and the old list shifts by one |
| `Kitchen.KitchenView.OnOrderUpdated` | FlaskPOS/static/js/kitchen.js:17-24 | The list becomes the replace-by-id of the old list with the payload |
| `Kitchen.KitchenView.OnStatusReply` | FlaskPOS/static/js/kitchen.js:154-179 | A reply replaces the listed order with the requested id; a request that threw changes nothing |
| `Kitchen.KitchenView.SetFilter` | FlaskPOS/static/js/kitchen.js:201-206 | The filter becomes the chosen value; the list is untouched |
| `Kitchen.KitchenView.Board` | FlaskPOS/static/js/kitchen.js:37-49 | Returns exactly the displayed projection of the list under the current filter, with its multiplicities, and the pending count over the unfiltered list |
| `Server.Pad4` | FlaskPOS/app.py:124 | The padded number is all decimal digits, has at least four characters, and exactly four below 10000 |
| `Server.Pad4RoundTrip` | FlaskPOS/app.py:124 | Reading the padded digits back gives the number |
| `Server.SerialOfOrderNumber` | FlaskPOS/app.py:122-124 | The sequence part of a generated order number is the order count plus 1 |
| `Server.OrderNumberInjective` | FlaskPOS/app.py:122-124 | Two generated order numbers are equal only for the same date and the same count |
| `Server.NumbersDistinct` | FlaskPOS/app.py:122-124 | When each order number's sequence part is its order's id, no two stored orders share a number |
| `Server.InsertedRow` | FlaskPOS/app.py:126-129 | The inserted row is pending and holds the request's items, total and notes as sent, with defaults `[]`, 0 and "" |
| `Server.CreatedBody` | FlaskPOS/app.py:135-143 | The creation reply is pending and has no update time |
| `Server.InvalidStatusRejected` | FlaskPOS/app.py:155-156 | A missing target or one outside the five names gets "Invalid status" and leaves the table unchanged |
| `Server.UnknownOrderNotFound` | FlaskPOS/app.py:168-188 | A valid target for an unknown id gets "Order not found" and leaves the table unchanged |
| `Server.NoFromStateCheck` | FlaskPOS/app.py:161-164 | A valid target succeeds from any current status; only that order's status and update time change; every other order and the key set stay the same |
| `Server.OpenUpToLists` | FlaskPOS/app.py:88-89 | The listing holds each stored order that is not completed once, nothing else, in ascending id order |
| `Server.InsertKeepsNumbered` | FlaskPOS/app.py:126-131 | Inserting under the next id keeps the ids contiguous and the numbers tied to ids, and the new number differs from every stored one |
| `Server.UpdateKeepsNumbered` | FlaskPOS/app.py:161-164 | A status update keeps the table invariant |
| `Server.OrderServer.constructor` | FlaskPOS/database.py:32-43 | The table starts empty with no events |
| `Server.OrderServer.CreateOrder` | FlaskPOS/app.py:112-147 | Stores a pending row under a fresh id, with number `ORD` + date + pad4(count+1) distinct from every stored number, and appends exactly one `new_order` event whose payload is the reply |
| `Server.OrderServer.UpdateOrderStatus` | FlaskPOS/app.py:150-188 | Reply and new table are as the status functions say; exactly one `order_updated` event carrying the reply on success, none on failure |
| `Server.OrderServer.GetPendingOrders` | FlaskPOS/app.py:84-109 | Returns exactly the stored orders that are not completed, each once, by ascending id |
| `Workflow.SubmittedCartIsStored` | FlaskPOS/app.py:114-129 | A submitted non-empty cart is stored as a pending order with the cart's items, the cart's total and the notes |
| `Workflow.CartScenario` | FlaskPOS/static/js/waiter.js:61-164 | Adding item 1 (10.00) then increasing it gives totals 10.00 and 20.00, and the stored order has one line of quantity 2, total 20.00, status pending |
| `Workflow.OfferedRequestAdvances` | FlaskPOS/static/js/kitchen.js:115-144 | Requesting the status the kitchen's button offers succeeds and moves the order exactly one rank forward |
| `Workflow.PressNextIsForward` | FlaskPOS/app.py:150-188 | Pressing n times the button offered for the stored status moves an order from rank r to rank min(r + n, 4), reaches completed after four presses, and changes no other order |
| `Workflow.StaleButtonAccepted` | FlaskPOS/app.py:155-164 | The button offered for an out-of-date local status is accepted and sets the copy's successor; when the stored status is two or more ranks ahead, the order moves backward (stored cooking, copy pending: received) |
| `Workflow.SkipAndBackwardAccepted` | FlaskPOS/app.py:155-164 | The server accepts pending to cooking and completed to pending |
| `Workflow.BroadcastAndReplyAgree` | FlaskPOS/app.py:172-186 | The kitchen's list is the same whether the update broadcast, the request's reply, or both arrive first |
| `Workflow.CreationReachesKitchen` | FlaskPOS/static/js/kitchen.js:9-15 | The `new_order` broadcast of a created order puts the server's pending reply body at the front of the kitchen's list and shifts the rest |
| `Workflow.UpdateReachesKitchen` | FlaskPOS/static/js/kitchen.js:17-24 | After a successful status update, the broadcast makes the kitchen's first copy of the order equal to the stored row and changes nothing else; a kitchen that does not list the order is unchanged |
| `Workflow.CompletedLeavesBoard` | FlaskPOS/static/js/kitchen.js:17-46 | A listed ready order updated to completed leaves the board but stays in the list as completed |

## Left out

- Socket.IO transport, `fetch`, and the asynchronous suspension of handlers. Each handler is one atomic step on the view's state, and takes the event's payload as a parameter. The server records its broadcasts in an event log; `Workflow.Deliver` hands one event to the kitchen's list.
- DOM and HTML building, `toFixed` formatting, alerts, notifications and sound playback. `displayMenu`'s category grouping is presentation only.
- The waiter view's `order_updated` handler. It only shows a notification.
- Floating-point prices and totals. Money is integer cents.
- `datetime.now()` and SQLite's `CURRENT_TIMESTAMP` are parameters. The listing orders by ascending id, which stands for `ORDER BY created_at ASC` under a clock that never goes back.
- SQLite connections, the schema setup in `database.py`, `get_menu`, `get_orders` and the page routes.
- Server.OrderServer.Valid: the table is assumed never to lose rows. With deletions, `COUNT(*) + 1` could repeat an existing order number and the `UNIQUE` insert would fail; that failure path is not modelled.
- Each server request is one atomic step on the table; requests from concurrent threads do not interleave in the model.
- Server.OrderServer.CreateOrder: requires an eight-character date, which is the `%Y%m%d` format. A missing or non-JSON request body (a server error) is not modelled. Two concurrent creations that read the same `COUNT(*)` would produce the same order number, and the second insert would fail the `UNIQUE` constraint with a server error, no row and no event; that failure is not modelled. The request's `None` stands only for an absent key: an explicit JSON `null` makes `.get` return `None` rather than the default, so null notes are stored as null and a null total fails the `NOT NULL` constraint; neither is modelled.
- Server.StatusReply: a JSON `status` that is not a string is modelled as a missing one; both are rejected the same way.
- Server.OrderServer.UpdateOrderStatus: the reply is the row written by this request. On a threaded server another request can change the row between the commit and the read-back `SELECT`. The reply and the `order_updated` broadcast would then carry the other request's status; that window is not modelled.
- Kitchen.BadgeStatus: the badge table is a plain JavaScript object, so a status such as "toString", "constructor", "valueOf", "hasOwnProperty" or "__proto__" finds an inherited, truthy value instead of falling back to the pending badge. The model gives the pending badge for every text that is not one of the five names. The server never stores such a status.
- Workflow.PressNextIsForward: assumes the kitchen's copy of the order is up to date, so the button it offers is the one for the stored status. The copy can be out of date: a `loadOrders` reply can overwrite events already applied, an `order_updated` for an order not yet listed is ignored, and a late status reply overwrites a newer broadcast (`Kitchen.LastPayloadWins`). The button such a copy offers is still accepted, and it can move the order backward (`Workflow.StaleButtonAccepted`).
- Kitchen.KitchenView.OnStatusReply: only successful replies are modelled. The source does not check `response.ok`, so an error body would be stored as the order; that defect is not modelled.
