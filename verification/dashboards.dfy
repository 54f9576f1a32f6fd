/** The read-only dashboards: the customer's order list filter
    (app/orders/page.tsx), the kitchen's statistics cards
    (components/kitchen-stats.tsx), the admin overview (app/admin/page.tsx)
    and the customer's order card (components/order-card.tsx). */
module Dashboards {
  import opened Optional
  import opened Types
  import opened Seqs
  import opened Text
  import opened StatusText
  import opened OrderBoard

  // ---------------------------------------------------------------------------
  // Customer order list

  /** The three tabs of the order list. */
  datatype OrderFilter = All | ActiveOnly | CompletedOnly

  predicate IsOpenOrder(o: Order) {
    o.status != Delivered && o.status != Cancelled
  }

  predicate IsDelivered(o: Order) {
    o.status == Delivered
  }

  predicate Keeps(f: OrderFilter, o: Order) {
    match f
    case All => true
    case ActiveOnly => IsOpenOrder(o)
    case CompletedOnly => IsDelivered(o)
  }

  /** `filteredOrders`. */
  function FilterOrders(orders: seq<Order>, f: OrderFilter): (r: seq<Order>)
    ensures f == All ==> r == orders
    ensures f == ActiveOnly ==> forall o :: o in r <==> o in orders && o.status !in {Delivered, Cancelled}
    ensures f == CompletedOnly ==> forall o :: o in r <==> o in orders && o.status == Delivered
    ensures forall o :: multiset(r)[o] == if Keeps(f, o) then multiset(orders)[o] else 0
    ensures Subseq(r, orders)
  {
    if f == All then
      FilterAll(orders, o => Keeps(f, o));
      orders
    else Filter(orders, o => Keeps(f, o))
  }

  /** The active and completed tabs never share an order, cancelled orders
      appear only under "all", and the two tabs together hold at most every order. */
  lemma TabsDisjoint(orders: seq<Order>, o: Order)
    ensures !(o in FilterOrders(orders, ActiveOnly) && o in FilterOrders(orders, CompletedOnly))
    ensures o.status == Cancelled ==> o !in FilterOrders(orders, ActiveOnly) && o !in FilterOrders(orders, CompletedOnly)
    ensures |FilterOrders(orders, ActiveOnly)| + |FilterOrders(orders, CompletedOnly)| <= |orders|
  {
    CountDisjoint(orders, o => Keeps(ActiveOnly, o), o => Keeps(CompletedOnly, o));
  }

  // ---------------------------------------------------------------------------
  // Kitchen statistics

  predicate IsReady(o: Order) {
    o.status == Ready
  }

  predicate InKitchen(o: Order) {
    o.status == Pending || o.status == Confirmed || o.status == Preparing
  }

  predicate Earning(o: Order) {
    o.status == Ready || o.status == Delivered
  }

  function OrderTotal(o: Order): int {
    o.total
  }

  /** What an order adds to kitchen revenue: its total once ready or delivered. */
  function RevenueOf(o: Order): int {
    if Earning(o) then o.total else 0
  }

  /** "Ready to Deliver" (named `completedOrders` in the component). */
  function ReadyCount(orders: seq<Order>): (n: nat)
    ensures n <= |orders|
    ensures n == 0 <==> forall o :: o in orders ==> o.status != Ready
  {
    Count(orders, IsReady)
  }

  /** "Active Orders": pending, confirmed or preparing. */
  function ActiveCount(orders: seq<Order>): (n: nat)
    ensures n <= |orders|
    ensures n == 0 <==> forall o :: o in orders ==> o.status !in {Pending, Confirmed, Preparing}
  {
    Count(orders, InKitchen)
  }

  /** An order is never counted both as active and as ready. */
  lemma ActivePlusReady(orders: seq<Order>)
    ensures ActiveCount(orders) + ReadyCount(orders) <= |orders|
  {
    CountDisjoint(orders, InKitchen, IsReady);
  }

  /** "Revenue": Σ total over ready and delivered orders; every other order
      contributes nothing. */
  function KitchenRevenue(orders: seq<Order>): (r: int)
    ensures r == SumBy(orders, RevenueOf)
  {
    KitchenRevenueSum(orders);
    SumBy(Filter(orders, Earning), OrderTotal)
  }

  lemma {:induction false} KitchenRevenueSum(orders: seq<Order>)
    ensures SumBy(Filter(orders, Earning), OrderTotal) == SumBy(orders, RevenueOf)
  {
    if |orders| > 0 {
      KitchenRevenueSum(orders[1..]);
      if Earning(orders[0]) {
        assert Filter(orders, Earning)[1..] == Filter(orders[1..], Earning);
      }
    }
  }

  function PrepMillis(o: Order): int {
    o.updatedAt - o.createdAt
  }

  /** `Math.round(x / 60000 / n)` for a total of `x` milliseconds over `n`
      orders, computed exactly: `Math.round` rounds halves up, which is
      ⌊(2x + d) / 2d⌋ for d = 60000·n. */
  function RoundedMean(totalMillis: int, n: nat): (r: int)
    requires n > 0
    ensures var d := 60000 * n;
      2 * r * d <= 2 * totalMillis + d < 2 * r * d + 2 * d
  {
    var d := 60000 * n;
    var r := (2 * totalMillis + d) / (2 * d);
    assert 2 * r * d == r * (2 * d);
    r
  }

  /** "Avg Prep Time" in minutes: 0 without orders, otherwise the mean of
      `updatedAt - createdAt` in minutes, rounded half up. */
  function AvgPrepMinutes(orders: seq<Order>): (r: int)
    ensures |orders| == 0 ==> r == 0
    ensures |orders| > 0 ==> var d := 60000 * |orders|; var total := SumBy(orders, PrepMillis);
      2 * r * d <= 2 * total + d < 2 * r * d + 2 * d
  {
    if |orders| > 0 then RoundedMean(SumBy(orders, PrepMillis), |orders|) else 0
  }

  /** An integer whose multiple lies within one step below `x` is `x`'s floor quotient. */
  lemma QuotientUnique(x: int, e: int, r: int, k: int)
    requires e > 0
    requires r * e <= x < r * e + e && k * e <= x < k * e + e
    ensures r == k
  {
    MulMonotone(k + 1, r, e);
    MulMonotone(r + 1, k, e);
    assert (k + 1) * e == k * e + e && (r + 1) * e == r * e + e;
  }

  lemma MulMonotone(a: int, b: int, e: int)
    requires e > 0
    ensures a <= b ==> a * e <= b * e
  {
    assert b * e - a * e == (b - a) * e;
  }

  /** The rounded mean is the unique integer within half a minute of the exact mean. */
  lemma RoundedMeanUnique(totalMillis: int, n: nat, k: int)
    requires n > 0
    requires var d := 60000 * n; 2 * k * d <= 2 * totalMillis + d < 2 * k * d + 2 * d
    ensures RoundedMean(totalMillis, n) == k
  {
    var d := 60000 * n;
    var r := RoundedMean(totalMillis, n);
    assert 2 * r * d == r * (2 * d) && 2 * k * d == k * (2 * d);
    QuotientUnique(2 * totalMillis + d, 2 * d, r, k);
  }

  // ---------------------------------------------------------------------------
  // Admin overview

  datatype AdminStats = AdminStats(totalOrders: nat, totalRevenue: int, activeUsers: nat, completedDeliveries: nat)

  /** The four headline figures. */
  function ComputeStats(orders: seq<Order>, users: seq<User>): (s: AdminStats)
    ensures s.totalOrders == |orders| && s.activeUsers == |users|
    ensures s.totalRevenue == SumBy(orders, OrderTotal)
    ensures s.completedDeliveries == Count(orders, IsDelivered) && s.completedDeliveries <= s.totalOrders
  {
    AdminStats(|orders|, SumBy(orders, OrderTotal), |users|, Count(orders, IsDelivered))
  }

  /** What an order not yet ready or delivered is worth. */
  function OpenValue(o: Order): int {
    if Earning(o) then 0 else o.total
  }

  /** The admin figures agree with the kitchen statistics and the pie: the
      platform revenue is the kitchen revenue plus the totals of the orders
      neither ready nor delivered, and the completed deliveries are the chart's delivered slice. */
  lemma StatsAgree(orders: seq<Order>, users: seq<User>)
    ensures var s := ComputeStats(orders, users);
      && s.totalRevenue == KitchenRevenue(orders) + SumBy(orders, OpenValue)
      && s.completedDeliveries == ComputeChart(orders).completed
  {
    RevenueSplit(orders);
  }

  lemma {:induction false} RevenueSplit(orders: seq<Order>)
    ensures SumBy(orders, OrderTotal) == SumBy(orders, RevenueOf) + SumBy(orders, OpenValue)
  {
    if |orders| > 0 {
      RevenueSplit(orders[1..]);
    }
  }

  predicate IsInTransit(o: Order) { o.status == InTransit }
  predicate IsPreparing(o: Order) { o.status == Preparing }
  predicate IsQueued(o: Order) { o.status == Pending || o.status == Confirmed }

  /** An order that falls in one of the chart's four slices. */
  predicate OnChart(o: Order) {
    IsDelivered(o) || IsInTransit(o) || IsPreparing(o) || IsQueued(o)
  }

  datatype StatusChart = StatusChart(completed: nat, inTransit: nat, preparing: nat, pending: nat)

  /** The order-status pie: delivered, in transit, preparing, and pending or confirmed. */
  function ComputeChart(orders: seq<Order>): (c: StatusChart)
    ensures c.completed == Count(orders, IsDelivered) && c.inTransit == Count(orders, IsInTransit)
    ensures c.preparing == Count(orders, IsPreparing) && c.pending == Count(orders, IsQueued)
    ensures c.completed + c.inTransit + c.preparing + c.pending == Count(orders, OnChart) <= |orders|
  {
    ChartSlices(orders);
    StatusChart(Count(orders, IsDelivered), Count(orders, IsInTransit),
                Count(orders, IsPreparing), Count(orders, IsQueued))
  }

  /** The slices never overlap: they add up to the orders on the chart, never
      more than all orders. */
  lemma {:induction false} ChartSlices(orders: seq<Order>)
    ensures Count(orders, IsDelivered) + Count(orders, IsInTransit) + Count(orders, IsPreparing)
            + Count(orders, IsQueued) == Count(orders, OnChart)
    ensures Count(orders, OnChart) <= |orders|
  {
    if |orders| > 0 {
      ChartSlices(orders[1..]);
      CountCons(orders, IsDelivered);
      CountCons(orders, IsInTransit);
      CountCons(orders, IsPreparing);
      CountCons(orders, IsQueued);
      CountCons(orders, OnChart);
    }
  }

  /** The label of a restaurant: its name up to the first space. */
  function FirstWord(name: string): (w: string)
    ensures w <= name && ' ' !in w
    ensures |w| < |name| ==> name[|w|] == ' '
  {
    SplitFirst(name, ' ');
    Split(name, ' ')[0]
  }

  datatype RestaurantRow = RestaurantRow(name: string, orders: nat, revenue: int)

  function FromKitchen(id: string): Order -> bool {
    (o: Order) => o.kitchenId == id
  }

  /** What an order adds to a kitchen's bar: one order and its total when it
      is that kitchen's, nothing otherwise. */
  function OrderShare(id: string): Order -> int {
    (o: Order) => if o.kitchenId == id then 1 else 0
  }

  function RevenueShare(id: string): Order -> int {
    (o: Order) => if o.kitchenId == id then o.total else 0
  }

  /** One kitchen's bar: its order count and the Σ total of its orders. Order
      by order, each of the kitchen's orders adds one and its total, and every
      other order adds nothing. */
  function RestaurantRowOf(k: CloudKitchen, orders: seq<Order>): (row: RestaurantRow)
    ensures row.name == FirstWord(k.name)
    ensures row.orders == SumBy(orders, OrderShare(k.id)) <= |orders|
    ensures row.revenue == SumBy(orders, RevenueShare(k.id))
    ensures row.orders == 0 <==> forall o :: o in orders ==> o.kitchenId != k.id
  {
    var mine := Filter(orders, FromKitchen(k.id));
    RowSums(orders, k.id);
    RestaurantRow(FirstWord(k.name), |mine|, SumBy(mine, OrderTotal))
  }

  /** The filtered count and sum agree with the order-by-order reading. */
  lemma {:induction false} RowSums(orders: seq<Order>, id: string)
    ensures |Filter(orders, FromKitchen(id))| == SumBy(orders, OrderShare(id))
    ensures SumBy(Filter(orders, FromKitchen(id)), OrderTotal) == SumBy(orders, RevenueShare(id))
  {
    if |orders| > 0 {
      RowSums(orders[1..], id);
      FilterCons(orders, FromKitchen(id));
    }
  }

  /** `restaurantData`: one row per kitchen, in kitchen order. */
  function RestaurantData(kitchens: seq<CloudKitchen>, orders: seq<Order>): (rows: seq<RestaurantRow>)
    ensures |rows| == |kitchens|
    ensures forall i :: 0 <= i < |kitchens| ==> rows[i] == RestaurantRowOf(kitchens[i], orders)
  {
    seq(|kitchens|, i requires 0 <= i < |kitchens| => RestaurantRowOf(kitchens[i], orders))
  }

  /** The recent-orders table: the first ten orders. */
  function RecentOrders(orders: seq<Order>): (r: seq<Order>)
    ensures r <= orders
    ensures |r| == if |orders| < 10 then |orders| else 10
  {
    Take(orders, 10)
  }

  // ---------------------------------------------------------------------------
  // Order card

  datatype OrderCardView = OrderCardView(title: string, statusLabel: string, colour: Colour, showsEta: bool)

  /** What the card shows: item names, the formatted status in its dashboard
      colour, and the estimated time only when there is one. */
  function OrderCard(o: Order): (v: OrderCardView)
    ensures v.title == OrderTitle(o)
    ensures |o.items| == 0 ==> v.title == ""
    ensures |o.items| >= 1 ==> o.items[0].name <= v.title
    ensures |v.statusLabel| == |StatusName(o.status)|
    ensures v.statusLabel[0] == Upper(StatusName(o.status)[0])
    ensures o.status == InTransit ==> v.statusLabel == "In Transit"
    ensures LabelsStatus(v.statusLabel, StatusName(o.status))
    ensures v.colour == Green <==> o.status == Delivered
    ensures v.colour == Blue <==> o.status == InTransit
    ensures v.colour == Yellow <==> o.status == Preparing
    ensures v.colour == Purple <==> o.status == Pending || o.status == Confirmed
    ensures v.colour == Red <==> o.status == Cancelled
    ensures v.colour == Neutral <==> o.status in {Ready, AwaitingDelivery, Assigned}
    ensures v.showsEta <==> o.estimatedDeliveryTime.Some?
  {
    CardColour(o.status, DashboardStatusColour(StatusName(o.status)));
    CardLabel(o.status, FormatStatus(StatusName(o.status)));
    TitleCons(o.items);
    OrderCardView(OrderTitle(o), FormatStatus(StatusName(o.status)),
                  DashboardStatusColour(StatusName(o.status)), o.estimatedDeliveryTime.Some?)
  }

  /** `l` is the label `getStatusLabel` gives `name`: each `_` becomes a space
      and each word's first letter is upper-cased. */
  predicate LabelsStatus(l: string, name: string) {
    && |l| == |name|
    && forall i :: 0 <= i < |name| ==>
         l[i] == if name[i] == '_' then ' '
                 else if i == 0 || name[i - 1] == '_' then Upper(name[i])
                 else name[i]
  }

  lemma CardColour(s: Status, c: Colour)
    requires c == DashboardStatusColour(StatusName(s))
    ensures c == Green <==> s == Delivered
    ensures c == Blue <==> s == InTransit
    ensures c == Yellow <==> s == Preparing
    ensures c == Purple <==> s == Pending || s == Confirmed
    ensures c == Red <==> s == Cancelled
    ensures c == Neutral <==> s in {Ready, AwaitingDelivery, Assigned}
  {
    UnlistedStatusesNeutral(s);
  }

  lemma CardLabel(s: Status, l: string)
    requires l == FormatStatus(StatusName(s))
    ensures |l| == |StatusName(s)| && l[0] == Upper(StatusName(s)[0])
    ensures s == InTransit ==> l == "In Transit"
    ensures LabelsStatus(l, StatusName(s))
  {
    if s == InTransit {
      InTransitLabel();
    }
  }
}
