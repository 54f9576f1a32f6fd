# Cloud-kitchen storefront: a Dafny model of its core logic

This project models the logic beneath a mock food-delivery storefront. The
storefront is a React application. Customers browse cloud kitchens, fill a cart
and check out or subscribe. Kitchens move orders along a status board. Delivery
partners accept and confirm deliveries. Customers pick a delivery partner from a
list of bids, and new kitchens and partners sign up through multi-step wizards.

Every part of it is modelled as pure functions over immutable records:

- the cart store and its three views;
- the mock user store (login, register, logout);
- the in-memory catalogue and order queries;
- the kitchen board and the delivery partner's page;
- the customer's order tracker;
- the order list, kitchen statistics, admin dashboard and order card;
- the home page's kitchen search;
- the subscription planner;
- the kitchen and partner registration wizards and the sign-up page;
- the two bid lists.

Conventions used throughout:

- Money is an integer number of minor units, so the platform fee 2.50 is `250`
  and a 2.99 delivery fee is `299`.
- Ratings are integer tenths of a star (4.8 is `48`).
- Timestamps are integer milliseconds, and a subscription's dates are day numbers.
- Strings are `seq<char>`. Upper- and lower-casing act on ASCII letters.
- The browser's confirmation dialog, the clock, generated ids and the random
  bid values are parameters of the functions that use them.

Shared pieces are defined once and reused:

- `Seqs`: filter, count, sum, subsequence, toggle and dedup over sequences.
- `Text`: splitting, joining, capitalising, and number/text conversion.
- `StatusText`: the status label, which three pages define separately.
- `Bids.FormatClock`: the `m:ss` clock, which two bid lists define separately.
- `Forms`: the untyped form state of the two wizards. It is a map from field
  names to JavaScript-like values.

The code and the written description of the cart disagree on one point, and the
model follows the code. `updateQuantity` removes a line only for a quantity of
exactly 0. A negative quantity is stored as given.

Two quirks of the order tracker are modelled as written:

- The "preparing" step is never shown as completed, because its third
  alternative re-tests the two statuses the first two already answered.
- The "ready" step is not completed once the order is in transit or delivered.

The board's "Mark as …" button replaces only the first `_` and capitalises only
the first letter. So it would show "Mark as In transit" where the status label
shows "In Transit". The board never passes such a status, because every next
status it uses has no `_`.

## Model

| member | source | states |
|---|---|---|
| Types.StatusNameInjective | lib/types.ts:77 | the nine statuses are stored as nine distinct strings and have nine distinct positions in declaration order |
| CartStore.FindLine | lib/cart-context.tsx:95-98 | returns the first line that holds the item |
| CartStore.MergeLines | lib/cart-context.tsx:96-106 | adds the quantity to every line holding the item. The new note replaces the old one only when it is non-empty. Every other line is untouched |
| CartStore.AddToCart | lib/cart-context.tsx:79-115 | adding from another kitchen depends on the confirmation. Confirmed: the cart becomes that one line and the kitchen is replaced. Declined: the cart is unchanged. Either way the sidebar is not opened. Otherwise the kitchen is set if it was unset, a present item is merged and an absent one is appended, and the sidebar opens. Distinct item ids stay distinct |
| CartStore.RemoveFromCart | lib/cart-context.tsx:117-119 | keeps exactly the lines of other items, in their order and as often as before. Kitchen and sidebar are unchanged. An absent id is a no-op |
| CartStore.SetQuantity | lib/cart-context.tsx:125-129 | overwrites the quantity of every line holding the item and of no other line |
| CartStore.UpdateQuantity | lib/cart-context.tsx:121-131 | exactly 0 removes the item. Any other value, negative included, overwrites only the matching line's quantity and keeps the line count. An unknown id is a no-op |
| CartStore.ClearCart | lib/cart-context.tsx:133-138 | empties the lines and unsets the kitchen |
| CartStore.Subtotal | lib/cart-context.tsx:140-142 | an empty cart has subtotal 0, and the subtotal is never negative while no line total is |
| CartStore.ItemCount | lib/cart-context.tsx:144-146 | an empty cart counts 0 items, and while every line holds a unit the count is at least the number of lines |
| CartStore.TotalItems | lib/cart-context.tsx:148-150 | the number of lines, which never exceeds the item count while every line holds a unit |
| CartStore.DeliveryFee | lib/cart-context.tsx:154 | the kitchen's delivery fee, or 0 without a kitchen |
| CartStore.CartTotal | lib/cart-context.tsx:153-156 | subtotal plus delivery fee plus the 2.50 platform fee, which an empty cart without a kitchen still shows |
| CartStore.UniqueIdsCons | lib/cart-context.tsx:95-110 | a line in front of a list keeps ids distinct exactly when the rest is distinct and no line of the rest holds the front line's item |
| CartStore.SubseqUnique | lib/cart-context.tsx:117-119 | dropping lines from a list with distinct ids keeps them distinct |
| CartStore.MergeLinesIsUpdate | lib/cart-context.tsx:96-106 | with distinct ids, a merge is a write of the one merged line at the item's position |
| CartStore.SetQuantityIsUpdate | lib/cart-context.tsx:125-129 | with distinct ids, a quantity update is a write at the item's position |
| CartStore.AddToCartLines | lib/cart-context.tsx:95-110 | with no kitchen switch, an add either merges into the line at the item's position, keeping the line count, or appends one new line at the end |
| CartStore.MergeIntoTotals | lib/cart-context.tsx:100-103 | a merge raises the line's price total by price × added quantity and its quantity by the added quantity |
| CartStore.AddToCartTotals | lib/cart-context.tsx:95-110 | an add raises the item count by the quantity and the subtotal by the item's price × quantity |
| CartStore.AddKeepsNote | lib/cart-context.tsx:104 | a merged line keeps its previous instructions when the new ones are absent or empty |
| CartStore.UpdateQuantityTotals | lib/cart-context.tsx:121-131 | overwriting a present item's quantity shifts the subtotal by price × change and the count by the change |
| CartStore.RemoveSubtotal | lib/cart-context.tsx:117-119 | removing a present item lowers the subtotal by exactly that line's total |
| CartStore.RunKeepsUniqueIds | lib/cart-context.tsx:79-138 | item ids stay distinct across any run of add, remove, update and clear |
| CartStore.KitchenChanges | lib/cart-context.tsx:81-93 | the kitchen changes only when it was unset or on a confirmed switch, and only a clear unsets it. Removing the last line leaves it set |
| CartStore.RunKeepsSingleKitchen | lib/cart-context.tsx:79-138 | when every add names the item's own kitchen, every line always belongs to the cart's kitchen |
| CartViews.PayloadItems | components/cloud-cart-sidebar.tsx:40-46 | one order item per cart line, in line order, with id, name, quantity, price and instructions copied |
| CartViews.PayloadItemsSubtotal | app/cart/page.tsx:38-45 | pricing the payload's items gives back the cart's subtotal |
| CartViews.CheckoutEnabled | components/cloud-cart-sidebar.tsx:206 | checkout is enabled unless the subtotal is below the minimum order, so an empty cart cannot check out when there is a minimum |
| CartViews.SidebarPayload | components/cloud-cart-sidebar.tsx:32-35 | the payload carries the cart subtotal and the kitchen's delivery fee. Its total is subtotal + delivery fee + 2.50, and pricing its own items afresh gives the same total |
| CartViews.SidebarMatchesStore | lib/cart-context.tsx:153-156 | for the store's own kitchen, the sidebar's total and fee equal the store's derived values |
| CartViews.Shortfall | components/cloud-cart-sidebar.tsx:206-211 | a shortfall is shown exactly while checkout is disabled. It is positive and tops the subtotal up to the minimum order |
| CartViews.SidebarCheckout | components/cloud-cart-sidebar.tsx:37-58 | checkout produces a request exactly for a non-empty cart, for one-time checkout, with the sidebar's payload |
| CartViews.SidebarSubscription | components/cloud-cart-sidebar.tsx:60-61 | subscribing produces a request exactly for a non-empty cart, with the same payload, for the subscription flow |
| CartViews.SubscriptionOffered | components/cloud-cart-sidebar.tsx:194 | the subscribe button appears exactly for kitchens that offer subscriptions |
| CartViews.QuantityMinus | components/cloud-cart-sidebar.tsx:147 | "−" never requests less than 1 and otherwise requests one less |
| CartViews.QuantityPlus | components/cloud-cart-sidebar.tsx:154 | "+" requests one more. The result exceeds 1 exactly when the line held a unit, and "−" on it then gives back the original quantity |
| CartViews.PlusMinus | app/cart/page.tsx:101-108 | "+" then "−" returns to the original quantity of a line with at least one unit |
| CartViews.MinusKeepsLine | app/cart/page.tsx:101 | "−" never removes a line. The line's item is kept and its quantity stays at least 1 |
| CartViews.CartPageCheckout | app/cart/page.tsx:34-48 | the cart page checks out only with a kitchen and a non-empty cart, and takes its figures from the store |
| CartViews.CartPageMatchesSidebar | app/cart/page.tsx:35-48 | the cart page and the cloud sidebar build the same request |
| CartViews.CartPageShowsEmpty | app/cart/page.tsx:62 | the empty view shows when the item count is 0, which with a unit on every line means there are no lines |
| CartViews.ShowsEmptyIffNoLines | lib/cart-context.tsx:144-146 | with positive quantities, the item count is 0 exactly when there are no lines, and it is at least the number of lines |
| CartViews.LegacyTotal | components/cart-sidebar.tsx:28-30 | the older sidebar's total less its delivery fee is the subtotal, and it equals the checkout items priced afresh plus the fee |
| CartViews.LegacyTotalDifference | components/cart-sidebar.tsx:28-30 | for the same lines and fee, the cloud sidebar charges exactly the 2.50 platform fee more |
| CartViews.LegacyCheckout | components/cart-sidebar.tsx:32-36 | the older checkout proceeds exactly on a non-empty cart and hands over the restaurant id and the lines |
| Auth.FindUser | lib/auth-context.tsx:55 | finds the first stored user with that email and role, or reports that there is none |
| Auth.Login | lib/auth-context.tsx:48-68 | succeeds exactly when some stored user has that email and role. On success the first such user is signed in. On failure nothing changes. The user list never changes |
| Auth.LoginIgnoresPassword | lib/auth-context.tsx:54-58 | two logins that differ only in the password give the same result |
| Auth.Logout | lib/auth-context.tsx:70-73 | nobody is signed in afterwards and the user list is kept |
| Auth.IsAuthenticated | lib/auth-context.tsx:129 | `!!user`: someone is signed in |
| Auth.NewUser | lib/auth-context.tsx:90-111 | the stored record: a missing phone becomes `''` and a missing vehicle type `'motorcycle'`. Kitchen fields are present exactly for kitchen owners and delivery fields exactly for delivery agents |
| Auth.EmailTaken | lib/auth-context.tsx:84 | some stored user has the email, under any role |
| Auth.Register | lib/auth-context.tsx:75-122 | refuses exactly when the email is stored under any role, and then changes nothing. Otherwise it appends exactly one user at the end and signs that user in |
| Auth.RegisterKeepsUniqueEmails | lib/auth-context.tsx:84-87 | one register keeps stored emails distinct |
| Auth.RegistersKeepUniqueEmails | lib/auth-context.tsx:84-117 | any sequence of registers keeps stored emails distinct |
| Auth.RegisterThenLogin | lib/auth-context.tsx:48-122 | after a successful register and a logout, logging in with the same email and role (any password) signs in exactly the new user |
| Api.GetCloudKitchenById | lib/api.ts:9-11 | finds a stored kitchen with that id, or nothing exactly when none has it |
| Api.GetStoredKitchen | lib/api.ts:9-11 | with distinct ids, looking up a stored kitchen's id finds that kitchen |
| Api.GetAvailableDeliveryPartners | lib/api.ts:18-20 | keeps exactly the available partners, in stored order and as often as stored |
| Api.AvailablePartnersSplit | lib/api.ts:18-20 | the available and the unavailable partners together account for every partner |
| Api.GetMenuItems | lib/api.ts:33-35 | keeps exactly the kitchen's items, in stored order and as often as stored |
| Api.GetOrders | lib/api.ts:42-44 | keeps exactly the customer's orders, in stored order and as often as stored |
| Api.CreateDeliveryBid | lib/api.ts:22-30 | the bid is always open and expires five minutes after creation. A caller's id wins over the generated one, and the caller's other fields are kept |
| Api.GeneratedBidId | lib/api.ts:24 | a generated bid id is `bid_` followed by the creation time, which reads back from it |
| Api.CreateOrder | lib/api.ts:46-56 | the stored order is pending whatever status was passed, with the generated id and times. It is appended, so the store grows by one |
| Api.CreateOrderThenGetOrders | lib/api.ts:42-56 | a created order shows up last among its own customer's orders and among no one else's |
| OrderBoard.WithStatus | app/kitchen/page.tsx:21-26 | keeps exactly the orders with that status, in list order and as often as listed |
| OrderBoard.GroupOrders | app/kitchen/page.tsx:21-26 | each of the four columns holds, in list order, every order with its status as often as the list does, and nothing else |
| OrderBoard.ColumnsPartition | app/kitchen/page.tsx:21-26 | an order with one of the four statuses sits in exactly one column, and any other order in none |
| OrderBoard.ColumnSizes | components/order-board-column.tsx:20 | the four column badges add up to the number of orders on the board, which is at most the number of orders |
| OrderBoard.UpdateOrderStatus | app/kitchen/page.tsx:28-30 | only the status of orders with the given id changes. Length, other orders and other fields are unchanged |
| OrderBoard.UpdateIsWrite | app/kitchen/page.tsx:28-30 | with distinct ids, the update is a write at the order's position |
| OrderBoard.UpdateUnknownId | app/delivery/page.tsx:30-32 | an unknown id changes nothing |
| OrderBoard.UpdateIdempotent | app/kitchen/page.tsx:28-30 | writing the same status twice is writing it once |
| OrderBoard.UpdateKeepsIds | app/kitchen/page.tsx:28-30 | the update keeps every id, so distinct ids stay distinct |
| OrderBoard.BoardNext | app/kitchen/page.tsx:50-77 | exactly the four column statuses have a next status. It lies strictly later in the status order and is never cancelled or pending |
| OrderBoard.BoardChain | app/kitchen/page.tsx:50-77 | the chain is pending → confirmed → preparing → ready → assigned, and it stops there |
| OrderBoard.ClickAdvance | components/order-board-column.tsx:55 | a click gives the column's next status to exactly the orders sharing the clicked order's id. The length and every other order are unchanged |
| OrderBoard.ClickMovesOneOrder | app/kitchen/page.tsx:22-25 | a click moves one order from its column to the next. A ready order leaves the board altogether |
| OrderBoard.OrderTitle | components/order-card.tsx:37 | no items give an empty title and one item its name. With more, the title is the first name, ", " and the title of the remaining items, so it starts with the first name |
| OrderBoard.TitleCons | components/order-board-column.tsx:34 | joining the names peels off the first name and one separator, and the join starts with the first name |
| OrderBoard.ItemNames | components/order-card.tsx:37 | the item names in item order |
| OrderBoard.TitleLength | components/order-card.tsx:37 | the joined title is the names plus two characters per separator |
| StatusText.CapitalizeAll | app/admin/page.tsx:307 | every word capitalised, in order |
| StatusText.Relabel | app/admin/page.tsx:304-309 | the reference reading of the label keeps its length |
| StatusText.RelabelAt | app/admin/page.tsx:304-309 | character by character: `_` becomes a space, a letter after `_` or at the start is upper-cased, and the rest is kept |
| StatusText.FormatStatus | app/kitchen/page.tsx:149-154 | the label has the status's length. Each `_` becomes a space and each word starts upper-case |
| StatusText.JoinHead | app/admin/page.tsx:308 | joining keeps a common prefix of the first word in front |
| StatusText.FormatStatusIsRelabel | components/order-card.tsx:25-30 | the split–capitalise–join pipeline equals the character-level reading |
| StatusText.InTransitLabel | app/kitchen/page.tsx:149-154 | `in_transit` is labelled `In Transit` |
| StatusText.MarkAsLabel | components/order-board-column.tsx:58 | the button reads "Mark as " and then the status with its first letter upper-cased and its first `_` replaced by a space |
| StatusText.MarkAsTail | components/order-board-column.tsx:58 | after the prefix: the first character upper-cased, the first `_` after it turned into a space, every other character kept |
| StatusText.MarkAsMatchesFormat | components/order-board-column.tsx:58 | for a status without `_`, the button is "Mark as " + the status label |
| StatusText.MarkAsOnlyFirstUnderscore | components/order-board-column.tsx:58 | a second `_` stays in the button text |
| StatusText.MarkAsInTransit | components/order-board-column.tsx:58 | the button would write `in_transit` with a lower-case "transit", where the label capitalises it |
| StatusText.KitchenStatusColour | app/kitchen/page.tsx:132-147 | the five listed statuses get five distinct colours, and only they do |
| StatusText.DashboardStatusColour | app/admin/page.tsx:286-302 | delivered, in transit, preparing and cancelled each get their own colour. Pending and confirmed share one |
| StatusText.UnlistedStatusesNeutral | components/order-card.tsx:7-23 | exactly the statuses a table does not list get the neutral colour |
| DeliveryDesk.DeliveredEarnings | app/delivery/page.tsx:18-22 | each order adds its fee once delivered and nothing otherwise |
| DeliveryDesk.DeliveredEarningsSum | app/delivery/page.tsx:18-22 | the per-order reading equals the sum of fees over the delivered orders |
| DeliveryDesk.Load | app/delivery/page.tsx:15-24 | keeps exactly this partner's orders, in order and as often as stored, with no active delivery and the earnings of those orders |
| DeliveryDesk.MyOrdersWith | app/delivery/page.tsx:26-28 | keeps exactly this partner's orders with that status, in order and as often as stored |
| DeliveryDesk.ListsDisjoint | app/delivery/page.tsx:26-28 | the available, active and completed lists never share an order |
| DeliveryDesk.Accept | app/delivery/page.tsx:104-107 | the order becomes the active delivery and is marked assigned, so it leaves all three lists |
| DeliveryDesk.Confirm | app/delivery/page.tsx:158-161 | the order is marked delivered and shows under completed when it is this partner's. There is no active delivery afterwards |
| DeliveryDesk.CurrentDelivery | app/delivery/page.tsx:34 | the first order whose id is the active delivery, or nothing exactly when no stored order has that id |
| DeliveryDesk.FindById | app/delivery/page.tsx:34 | the first stored order with that id, or nothing exactly when none has it |
| DeliveryDesk.AcceptedIsCurrent | app/delivery/page.tsx:104-107 | after accepting, the accepted order is the current delivery and is assigned |
| DeliveryDesk.EarningsGoStale | app/delivery/page.tsx:15-24 | confirming an undelivered order raises the delivered total by its fee, while the shown earnings stay as loaded |
| Tracking.TrackingSteps | components/order-tracking.tsx:74-131 | there are six steps exactly when a partner is given or the order is assigned or in transit, and three otherwise. Each step's state follows the status |
| Tracking.PreparingNeverCompleted | components/order-tracking.tsx:88-90 | the "preparing" step is never completed, whatever the status |
| Tracking.CurrentStep | components/order-tracking.tsx:50-54 | the first active step's index, or the previous value when no step is active |
| Tracking.FirstActive | components/order-tracking.tsx:50-54 | the first active step, or nothing exactly when no step is active |
| Tracking.CurrentStepByStatus | components/order-tracking.tsx:50-54 | where the tracker settles for each status |
| Tracking.EstimateTick | components/order-tracking.tsx:67 | one tick lowers the estimate by one and never goes below 5 |
| Tracking.EstimateAfter | components/order-tracking.tsx:44-67 | the estimate always lies between 5 and 30, and any tick takes it below 30 |
| Tracking.EstimateAfterClosedForm | components/order-tracking.tsx:44-67 | after k ticks from 30 the estimate is 30 − k, or 5 once that is reached |
| Tracking.FormatMinutes | components/order-tracking.tsx:138-145 | below an hour the text is the minutes as `toString` writes them, followed by `m`, with no `h`. From an hour on it reads `{h}h {m}m`: h is the whole hours and m the remaining minutes, both unpadded numerals with no leading zero. The text starts with `0` exactly for 0 minutes |
| Tracking.HoursShape | components/order-tracking.tsx:141-142 | in `{h}h {m}m` built from digit strings, the first `h` sits right after the hours and the two numbers parse back |
| Tracking.HoursPartsAreToString | components/order-tracking.tsx:141-142 | from an hour on, the two numbers are exactly `${hours}` and `${mins}`, so no other numeral meets the contract |
| Tracking.ReadHoursAndMinutes | components/order-tracking.tsx:141-142 | an `{h}h {m}m` text reads back as h hours and m minutes |
| Tracking.ReadPlainMinutes | components/order-tracking.tsx:144 | an `{m}m` text reads back as m minutes |
| Tracking.ReadFormatMinutes | components/order-tracking.tsx:138-145 | the formatted text determines the minutes: reading it back gives them |
| Dashboards.FilterOrders | app/orders/page.tsx:24-32 | "all" keeps the list. "Active" keeps exactly the orders neither delivered nor cancelled. "Completed" keeps exactly the delivered ones. Order and multiplicity are preserved |
| Dashboards.TabsDisjoint | app/orders/page.tsx:24-32 | the active and completed tabs never share an order, cancelled orders appear in neither, and together they hold at most the list |
| Dashboards.ActivePlusReady | components/kitchen-stats.tsx:7-10 | active plus ready orders never exceed the orders |
| Dashboards.ReadyCount | components/kitchen-stats.tsx:7 | "Ready to Deliver" counts the ready orders: at most all orders, and 0 exactly when none is ready |
| Dashboards.ActiveCount | components/kitchen-stats.tsx:8-10 | "Active Orders" counts pending, confirmed and preparing orders: at most all orders, and 0 exactly when none is in the kitchen |
| Dashboards.KitchenRevenue | components/kitchen-stats.tsx:12-14 | each order adds its total once ready or delivered and nothing otherwise |
| Dashboards.KitchenRevenueSum | components/kitchen-stats.tsx:12-14 | the per-order reading equals the sum of totals over ready and delivered orders |
| Dashboards.RoundedMean | components/kitchen-stats.tsx:18-21 | the rounded mean lies within half a minute of the exact mean, rounding halves up |
| Dashboards.AvgPrepMinutes | components/kitchen-stats.tsx:16-23 | 0 without orders, and otherwise the rounded mean preparation time in minutes |
| Dashboards.RoundedMeanUnique | components/kitchen-stats.tsx:18-21 | the rounded mean is the only integer within half a minute of the exact mean |
| Dashboards.ComputeStats | app/admin/page.tsx:33-41 | the order count, the revenue over all orders, the delivered count (at most the order count) and the user count |
| Dashboards.StatsAgree | app/admin/page.tsx:33-41 | the platform revenue (every order's total) is the kitchen revenue plus the totals of the orders neither ready nor delivered, and the delivered count is the chart's delivered slice |
| Dashboards.RevenueSplit | components/kitchen-stats.tsx:12-14 | summed over the orders, each total is counted once: in the kitchen revenue when the order is ready or delivered, otherwise among the other orders |
| Dashboards.ComputeChart | app/admin/page.tsx:57-66 | the four slices count delivered, in-transit, preparing, and pending-or-confirmed orders. They never overlap, so together they hold exactly the charted orders and at most all orders |
| Dashboards.ChartSlices | app/admin/page.tsx:57-66 | the four status counts add up to the count of orders on the chart, which is at most the number of orders |
| Dashboards.FirstWord | app/admin/page.tsx:70 | the label is the longest space-free prefix of the name |
| Dashboards.RestaurantRowOf | app/admin/page.tsx:69-73 | a kitchen's bar, read order by order: each order with its id adds one to the count and its total to the revenue, and every other order adds nothing. The count is 0 exactly when no order is the kitchen's |
| Dashboards.RowSums | app/admin/page.tsx:71-72 | the filtered count and revenue equal the order-by-order reading |
| Dashboards.RestaurantData | app/admin/page.tsx:69-73 | one bar per kitchen, in kitchen order |
| Dashboards.RecentOrders | app/admin/page.tsx:258 | the first ten orders, or all of them when there are fewer |
| Dashboards.OrderCard | components/order-card.tsx:7-49 | the title starts with the first item's name and is empty without items. The status label is `getStatusLabel` character by character: each `_` becomes a space and each word's first letter is upper-cased, so `in_transit` reads "In Transit". Each colour marks exactly its statuses: green delivered, blue in transit, yellow preparing, purple pending or confirmed, red cancelled, and neutral ready, awaiting and assigned. The arrival time is shown exactly when an estimate is present |
| Dashboards.CardColour | components/order-card.tsx:7-23 | green, blue, yellow, purple, red and neutral each mark exactly their statuses |
| Dashboards.CardLabel | components/order-card.tsx:25-30 | the label has the status's length, with each `_` a space and each word's first letter upper-cased. It reads "In Transit" for `in_transit` |
| Home.AnyCuisineMatches | app/page.tsx:71 | some cuisine contains the query, ignoring case |
| Home.FilterKitchens | app/page.tsx:64-83 | keeps exactly the kitchens that pass all three filters, each skipped when unset, in list order and as often as listed |
| Home.NoFilterShowsAll | app/page.tsx:67-81 | an empty query with both selects on "all" shows every kitchen |
| Home.LowerOfUpper | app/page.tsx:70 | lower-casing after upper-casing is lower-casing |
| Home.QueryIgnoresCase | app/page.tsx:68-72 | typing the query in capitals finds the same kitchens |
| Home.AllCuisineTags | app/page.tsx:86 | exactly the cuisines of the kitchens |
| Home.AllCuisines | app/page.tsx:86 | the first five distinct cuisines of the kitchens in first-appearance order: as many as there are up to five, and any cuisine seen before a chosen one is chosen too |
| Home.TakeFirstSeen | app/page.tsx:86 | a tag first seen before a kept tag is kept too |
| Home.TakeKeepsTagOrder | app/page.tsx:86 | the kept tags appear in the order of their first occurrence |
| Subscription.ToggleDay | components/subscription-order.tsx:34-40 | flips the day's membership and no other day's. A new value is appended at the end; removing one keeps the others in order and as often as before. Other settings are kept and no duplicate appears |
| Subscription.ToggleMealTime | components/subscription-order.tsx:42-48 | flips the meal time's membership and no other meal time's. A new value is appended at the end; removing one keeps the others in order and as often as before. Other settings are kept and no duplicate appears |
| Subscription.ToggleTwiceRestores | components/subscription-order.tsx:34-48 | toggling the same value twice restores membership, and restores the state exactly for an absent day |
| Subscription.TotalDeliveries | components/subscription-order.tsx:75-78 | days × meal times for a weekly plan and four times that for a monthly plan, which is 0 exactly when nothing is chosen |
| Subscription.EstimatedPrice | components/subscription-order.tsx:80-84 | 120 for every portion of every chosen day and meal time, four times over for a month. It is 0 exactly when no day, no meal time or no portion is chosen |
| Subscription.ContinueIffDeliveries | components/subscription-order.tsx:241 | continue is enabled exactly when there is a delivery, and then the price is at least one meal's |
| Subscription.CanContinue | components/subscription-order.tsx:241 | continue is enabled when a day and a meal time are chosen |
| Subscription.PortionsMinus | components/subscription-order.tsx:192 | "−" steps down to 1 and no further: from 1 or less it gives 1. Nothing else changes |
| Subscription.PortionsPlus | components/subscription-order.tsx:202 | "+" steps up to 10 and no further: from 10 or more it gives 10. Nothing else changes |
| Subscription.InitialValid | components/subscription-order.tsx:21-24 | the planner starts valid |
| Subscription.RunKeepsValid | components/subscription-order.tsx:34-48 | any run of the page's clicks keeps portions in [1, 10] and the choices distinct and offered |
| Subscription.DeliveriesBounded | components/subscription-order.tsx:75-84 | a valid planner has at most 84 deliveries, so the price is at most 120 × 84 × 10 |
| Subscription.CalculateSubscription | components/subscription-order.tsx:50-68 | the plan starts today and ends 7 days later for weekly and 30 for monthly, carrying the choices |
| Subscription.PlanSpanMatchesDeliveries | components/subscription-order.tsx:50-78 | the plan spans as many whole weeks as the delivery count assumes, one or four, and the planner's choices read back from the plan |
| Forms.Get | components/kitchen-registration.tsx:145 | a missing field reads as `undefined` |
| Forms.Member | components/kitchen-registration.tsx:149 | a member of a non-object reads as `undefined` |
| Forms.Items | components/kitchen-registration.tsx:76-78 | an array field's elements |
| Forms.Parent | components/kitchen-registration.tsx:96 | the text before the first dot: a prefix of the name without a dot, followed in the name by a dot |
| Forms.Child | components/kitchen-registration.tsx:96 | the text after the first dot up to the next dot: it follows the parent and one dot in the name, and ends at a dot or at the end of the name |
| Text.SplitSecond | components/kitchen-registration.tsx:96 | the second piece of `split('.')` follows the first piece and one dot, and ends at the next dot or at the end of the name |
| Forms.ParentChildOfPath | components/kitchen-registration.tsx:96 | a name built as parent.child splits back into those two parts |
| Forms.UpdateField | components/kitchen-registration.tsx:94-107 | a dotted name sets only that child and keeps the parent's other members. A plain name sets that field. No other field changes |
| Forms.UpdateThenLookup | components/kitchen-registration.tsx:94-107 | what is written under a name is what a read of the same name returns |
| Forms.UpdateKeepsOthers | components/kitchen-registration.tsx:94-107 | a write leaves reads of every other name unchanged |
| Forms.SetField | components/delivery-partner-registration.tsx:53-55 | sets exactly that one field |
| Forms.PlainUpdateIsSet | components/delivery-partner-registration.tsx:53-55 | both wizards write a plain field name the same way |
| Forms.Previous | components/kitchen-registration.tsx:617 | Previous never goes below 1 and otherwise steps back |
| Forms.Next | components/kitchen-registration.tsx:635 | Next steps forward up to the last step and no further: from the last step or beyond it gives the last step |
| Forms.StepsStayInRange | components/kitchen-registration.tsx:56-636 | from a step in range, any clicks keep it between 1 and the last step |
| Forms.NextNeedsProceed | components/kitchen-registration.tsx:635-636 | Next moves one step forward exactly when the step's check passes and it is not the last |
| KitchenWizard.ToggleCuisine | components/kitchen-registration.tsx:73-80 | flips the cuisine's membership and no other cuisine's. A new value is appended at the end; removing one keeps the others in order and as often as before. No other field changes and no duplicate appears |
| KitchenWizard.ToggleDay | components/kitchen-registration.tsx:82-92 | flips the day's membership inside the operating hours and no other day's. A new value is appended at the end; removing one keeps the others in order and as often as before. The open and close times and every other field are kept, and no duplicate appears |
| KitchenWizard.ToggleTwiceRestores | components/kitchen-registration.tsx:73-92 | toggling the same cuisine or day twice restores the selection |
| KitchenWizard.ProceedReadsOnlyStepFields | components/kitchen-registration.tsx:142-159 | a step's check reads only that step's fields |
| KitchenWizard.CanProceed | components/kitchen-registration.tsx:142-159 | each step checks its own fields, and no step outside 1–6 passes |
| KitchenWizard.ToggleCuisineOnlyStepOne | components/kitchen-registration.tsx:142-147 | only the first step's check looks at the cuisines |
| KitchenWizard.ToggleDayOnlyStepThree | components/kitchen-registration.tsx:150-151 | only the third step's check looks at the operating days |
| KitchenWizard.InitialFormChecks | components/kitchen-registration.tsx:15-54 | the fresh form passes only the operating-days step, and no step number outside 1–6 ever passes |
| KitchenWizard.SubmitNeedsTerms | components/kitchen-registration.tsx:624-627 | submit is enabled exactly on step 6 with the terms accepted and no submission under way |
| KitchenWizard.SubmitEnabled | components/kitchen-registration.tsx:624-627 | submit shows on the last step, enabled when its check passes and nothing is loading |
| KitchenWizard.KitchenAddress | components/kitchen-registration.tsx:122 | the address starts with the street text and a comma |
| KitchenWizard.KitchenAddressOfText | components/kitchen-registration.tsx:122 | for text fields, the address is `{address}, {area}, {city} - {pincode}` |
| KitchenWizard.SubmitRequest | components/kitchen-registration.tsx:115-126 | registers a kitchen owner with the fixed password. Email, owner name, phone, kitchen name, FSSAI licence and GST number are the rendered fields, with the formatted address and the chosen cuisines. There are no delivery fields |
| KitchenWizard.Submit | components/kitchen-registration.tsx:128-134 | goes to the kitchen dashboard exactly when the email is new. Otherwise it alerts and nothing changes |
| KitchenWizard.SubmitSignsInKitchen | components/kitchen-registration.tsx:115-130 | a successful submission signs in a kitchen owner whose kitchen address is the formatted one and whose cuisines are the selection |
| PartnerWizard.ToggleVehicle | components/delivery-partner-registration.tsx:44-51 | flips the vehicle's membership and no other's. A new value is appended at the end; removing one keeps the others in order and as often as before. The preferred vehicle and every other field are left alone, and no duplicate appears |
| PartnerWizard.ToggleVehicleTwice | components/delivery-partner-registration.tsx:44-51 | toggling the same vehicle twice restores the selection |
| PartnerWizard.PreferredNeedNotBeAvailable | components/delivery-partner-registration.tsx:72-73 | the vehicle step passes with a preferred vehicle that is not among the available ones |
| PartnerWizard.InitialFormChecks | components/delivery-partner-registration.tsx:11-31 | the fresh form passes no step |
| PartnerWizard.CanProceed | components/delivery-partner-registration.tsx:68-82 | each step checks its own fields, and no step outside 1–5 passes |
| PartnerWizard.EnterIfsc | components/delivery-partner-registration.tsx:299 | the stored code is the typed text upper-cased character by character, so it has the typed length and no lower-case letter. No other field changes |
| PartnerWizard.EnterIfscIdempotent | components/delivery-partner-registration.tsx:299 | retyping the stored code changes nothing |
| PartnerWizard.SubmitNeedsTerms | components/delivery-partner-registration.tsx:402-405 | submit is enabled exactly on step 5 with the terms accepted and no submission under way |
| PartnerWizard.SubmitEnabled | components/delivery-partner-registration.tsx:402-405 | submit shows on the last step, enabled when its check passes and nothing is loading |
| RegisterPage.Validate | app/auth/register/page.tsx:59-85 | no error exactly when every check passes, with the password length counted in UTF-16 units. Otherwise it reports a real problem, and no earlier check fails |
| RegisterPage.FirstErrorUnique | app/auth/register/page.tsx:59-85 | a problem that no earlier check reports is the one shown |
| RegisterPage.MissingFieldsFirst | app/auth/register/page.tsx:60-62 | a missing name, email or password is reported before everything else |
| RegisterPage.MessagesDistinct | app/auth/register/page.tsx:59-85 | every problem has its own message |
| Text.Utf16Length | app/auth/register/page.tsx:68 | `length` counts UTF-16 units: between one and two per character, and exactly one per character when none lies beyond U+FFFF |
| Text.CanonicalUnique | components/delivery-partner-selection.tsx:290 | a numeral without a leading zero is the `toString` of its own value, so two such numerals with one value are the same text |
| RegisterPage.Request | app/auth/register/page.tsx:100-118 | the common fields are copied. A kitchen owner sends kitchen name, address, FSSAI licence, GST number and cuisines as typed, and every other role sends none of them. A delivery partner sends vehicle, licence and Aadhar numbers as typed, and every other role sends none of them |
| RegisterPage.RequestIgnoresOtherRoles | app/auth/register/page.tsx:100-118 | two forms that agree on the common fields and on their own role's fields send the same request |
| RegisterPage.Submit | app/auth/register/page.tsx:87-135 | an invalid form shows its error and registers nobody. A taken email shows "An account with this email already exists". It redirects exactly when the form is valid and the email new, to the role's home |
| RegisterPage.SubmitSignsIn | app/auth/register/page.tsx:100-132 | a redirecting submit signs in a user with the form's email and role. A kitchen owner keeps the kitchen name, and a delivery partner keeps the licence number and any chosen vehicle |
| Bids.Tick | components/delivery-partner-selection.tsx:207-215 | one tick lowers the countdown by one and stops at 0 |
| Bids.TicksClosedForm | components/delivery-bidding.tsx:78-86 | after k ticks the countdown is start − k, or 0 once that is reached |
| Bids.CountdownReachesZero | components/delivery-partner-selection.tsx:49 | from 300 the countdown is positive for fewer than 300 ticks and 0 from then on |
| Bids.FormatClock | components/delivery-partner-selection.tsx:287-291 | the clock text ends in a colon and two digits. The digits before the colon are an unpadded numeral for the whole minutes, and the two after it parse to the remaining seconds. The text starts with `0` exactly when less than a minute is left |
| Bids.ClockMinutesAreToString | components/delivery-partner-selection.tsx:288-290 | the minutes before the colon are exactly `${minutes}`, so no padded numeral meets the contract |
| Bids.ReadClock | components/delivery-bidding.tsx:91-95 | reading a clock text: it succeeds only on text with a colon three characters from the end |
| Bids.ReadMinutesSeconds | components/delivery-bidding.tsx:91-95 | an `m:ss` text reads back as m minutes and ss seconds |
| Bids.ReadFormatClock | components/delivery-bidding.tsx:91-95 | the clock text determines the seconds: reading it back gives them |
| Bids.FormatFullCountdown | components/delivery-partner-selection.tsx:287-291 | the full countdown reads `5:00` |
| Bids.FilterVehicle | components/delivery-partner-selection.tsx:329 | no filter keeps every bid. A filter keeps exactly the bids of that vehicle. Order and multiplicity are preserved |
| Bids.PartnerData | components/delivery-partner-selection.tsx:221-285 | a known id gives that partner, any other id gives partner_1, and ratings lie between 4.6 and 4.9 |
| Bids.Insert | components/delivery-partner-selection.tsx:330-343 | the result holds the list's bids plus exactly the new one, as a multiset |
| Bids.InsertSorted | components/delivery-partner-selection.tsx:330-343 | inserting into a list sorted by the comparator keeps it sorted |
| Bids.Sort | components/delivery-partner-selection.tsx:330-343 | the result is sorted by price or time ascending, or by rating descending, and is a permutation of the input |
| Bids.SortSorted | components/delivery-partner-selection.tsx:330-343 | a list already in order is left exactly as it is |
| Bids.FilteredAndSorted | components/delivery-partner-selection.tsx:328-343 | a sorted permutation of the filtered bids |
| Bids.RecommendedIsBest | components/delivery-partner-selection.tsx:452 | the one recommended bid has the smallest key of the shown list |
| Bids.Select | components/delivery-bidding.tsx:140-143 | selecting hands on that same bid, and the recorded selection highlights exactly the bids sharing its id |
| Bids.SelectHighlightsOne | components/delivery-partner-selection.tsx:345-348 | with distinct ids, the chosen bid is the only one highlighted |
| Bids.GeneratedBid | components/delivery-bidding.tsx:53-68 | the i-th bid is `bid_{i+1}`, open, for that partner and order, and expires five minutes after now |
| Bids.GenerateFrom | components/delivery-bidding.tsx:36-68 | one bid per partner, in partner order |
| Bids.BiddingList | components/delivery-bidding.tsx:35-71 | one bid for each of the first three available partners, at most three, sorted by price |
| Bids.GeneratedShaped | components/delivery-bidding.tsx:53-68 | every generated bid is open, for the order, for one of the partners, and carries a bid_ number |
| Bids.BiddingListShape | components/delivery-bidding.tsx:35-71 | every stored bid is open, for the order, for an available partner, and numbered bid_1 to bid_3 |

## Left out

- Persistence: the cart and the users are not saved to or restored from local storage, and checkout payloads are not written to session storage. The state value stands for what would be stored.
- The confirmation dialog before a kitchen switch is the `confirmed` parameter of `CartStore.AddToCart`.
- Timers: only one tick of each countdown and estimate is modelled, not their scheduling. The simulated delays of login, register and submit are dropped.
- Randomness: the generated bid amounts, times, routes and vehicles are the `BidDraw` inputs of `Bids.GenerateFrom`.
- Floating point: amounts are exact integers in minor units. The `toFixed` display, the checkout tax and the win-probability figures are not modelled.
- Dates: `Date.now()` ids and timestamps are parameters. Subscription dates are day numbers, and "min ago" texts are not modelled.
- Rendering, styling, icons, step titles and routing other than the redirect target are not modelled.
- delivery-bidding-enhanced and delivery-partner-dashboard are not part of this model. They are float-heavy pricing and presentation.
- global-cart-sidebar is not part of this model. It only delegates to the cloud cart sidebar.
- getCloudKitchens, getDeliveryPartners, getMenuItemById and getUser are not modelled. They return or look up seeded lists, in the same way as the queries that are modelled.
- The seeded data module is not part of this model. Seeded lists are parameters.
- The partner wizard's submission is not modelled. It only waits on a timer and navigates.
- The register page's redirect of a user who is already signed in is not modelled.
- Forms.UpdateField: spreading a parent that is not an object is modelled as spreading `{}`. JavaScript would copy a string's or an array's indices instead.
- KitchenWizard.ToggleCuisine: a field that is not an array is treated as empty. The page would throw there.
- KitchenWizard.CanProceed: reading the length of a missing field is treated as a failed check. The page would throw there.
- KitchenWizard.SubmitRequest: form values are rendered as text with `String()` rules and numbers as integers. Non-integer input is not modelled.
- Text.ToUpper: case mapping covers ASCII letters only.
- Bids.FormatClock: defined on non-negative seconds, the only values the clamped countdown produces.
- Tracking.FormatMinutes: defined on non-negative minutes, the only values the clamped estimate produces.
- Dashboards.AvgPrepMinutes: timestamps are whole milliseconds, so the mean is exact before rounding.
- Bids.Sort: the result is a sorted permutation of the bids. Whether bids with equal keys keep their order is not stated.
- CartStore.AddToCart: the `quantity = 1` default of `addToCart` is not modelled, because every caller passes a quantity.
- Auth.NewUser: the avatar image URL and the `createdAt` timestamp of a new user are not modelled. They are presentation data that no other part of the model reads.
