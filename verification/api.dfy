/** The mock data API (lib/api.ts): queries over the seeded lists and the two
    record constructors. The seeded lists are parameters; `Date.now()` is the
    parameter `now` (milliseconds). */
module Api {
  import opened Optional
  import opened Types
  import opened Seqs
  import opened Text

  /** How long a new bid stays open: five minutes. */
  const BidLifetime: int := 5 * 60000

  /** `getCloudKitchenById(id)`: the first kitchen with that id, if any. */
  function GetCloudKitchenById(kitchens: seq<CloudKitchen>, id: string): (r: Option<CloudKitchen>)
    ensures r.None? <==> forall i :: 0 <= i < |kitchens| ==> kitchens[i].id != id
    ensures r.Some? ==> exists i :: 0 <= i < |kitchens| && kitchens[i] == r.value && kitchens[i].id == id
                          && forall j :: 0 <= j < i ==> kitchens[j].id != id
  {
    if |kitchens| == 0 then None
    else if kitchens[0].id == id then Some(kitchens[0])
    else
      var r := GetCloudKitchenById(kitchens[1..], id);
      assert forall i :: 1 <= i < |kitchens| ==> kitchens[i] == kitchens[1..][i - 1];
      assert r.Some? ==> exists i :: 0 <= i < |kitchens| && kitchens[i] == r.value && kitchens[i].id == id
                          && forall j :: 0 <= j < i ==> kitchens[j].id != id by {
        if r.Some? {
          var i :| 0 <= i < |kitchens[1..]| && kitchens[1..][i] == r.value && kitchens[1..][i].id == id
                   && forall j :: 0 <= j < i ==> kitchens[1..][j].id != id;
          assert kitchens[i + 1] == r.value;
          forall j | 0 <= j < i + 1 ensures kitchens[j].id != id {
            if j > 0 {
              assert kitchens[j] == kitchens[1..][j - 1];
            }
          }
        }
      }
      r
  }

  /** In a list with distinct ids, looking up a stored kitchen's id finds that kitchen. */
  lemma GetStoredKitchen(kitchens: seq<CloudKitchen>, k: nat)
    requires k < |kitchens|
    requires forall i, j :: 0 <= i < j < |kitchens| ==> kitchens[i].id != kitchens[j].id
    ensures GetCloudKitchenById(kitchens, kitchens[k].id) == Some(kitchens[k])
  {
    var id := kitchens[k].id;
    var r := GetCloudKitchenById(kitchens, id);
    assert r.Some? by {
      assert kitchens[k].id == id;
    }
    var i :| 0 <= i < |kitchens| && kitchens[i] == r.value && kitchens[i].id == id
             && forall j :: 0 <= j < i ==> kitchens[j].id != id;
    if i < k {
      assert false;
    } else if k < i {
      assert false;
    }
  }

  /** `getAvailableDeliveryPartners()`. */
  function GetAvailableDeliveryPartners(partners: seq<DeliveryPartner>): (r: seq<DeliveryPartner>)
    ensures forall p :: p in r <==> p in partners && p.isAvailable
    ensures forall p :: multiset(r)[p] == if p.isAvailable then multiset(partners)[p] else 0
    ensures Subseq(r, partners)
  {
    Filter(partners, (p: DeliveryPartner) => p.isAvailable)
  }

  /** The available and the unavailable partners together account for every partner. */
  lemma AvailablePartnersSplit(partners: seq<DeliveryPartner>)
    ensures |GetAvailableDeliveryPartners(partners)|
            + |Filter(partners, (p: DeliveryPartner) => !p.isAvailable)| == |partners|
  {
    CountComplement(partners, (p: DeliveryPartner) => p.isAvailable, (p: DeliveryPartner) => !p.isAvailable);
  }

  /** `getMenuItems(kitchenId)`. */
  function GetMenuItems(items: seq<MenuItem>, kitchenId: string): (r: seq<MenuItem>)
    ensures forall m :: m in r <==> m in items && m.restaurantId == kitchenId
    ensures forall m :: multiset(r)[m] == if m.restaurantId == kitchenId then multiset(items)[m] else 0
    ensures Subseq(r, items)
  {
    Filter(items, (m: MenuItem) => m.restaurantId == kitchenId)
  }

  function OfCustomer(userId: string): Order -> bool {
    (o: Order) => o.customerId == userId
  }

  /** `getOrders(userId)`. */
  function GetOrders(orders: seq<Order>, userId: string): (r: seq<Order>)
    ensures forall o :: o in r <==> o in orders && o.customerId == userId
    ensures forall o :: multiset(r)[o] == if o.customerId == userId then multiset(orders)[o] else 0
    ensures Subseq(r, orders)
  {
    Filter(orders, OfCustomer(userId))
  }

  /** The fields of a bid as a caller passes them; any of the fields the API
      sets itself may also be present. */
  datatype BidDraft = BidDraft(
    id: Option<string>,
    orderId: string,
    deliveryPartnerId: string,
    bidAmount: int,
    estimatedTime: int,
    vehicleType: Vehicle,
    route: Route,
    status: Option<BidStatus>,
    createdAt: Option<int>,
    expiresAt: Option<int>)

  /** `createDeliveryBid(bid)`. The generated id is written before the caller's
      fields are spread, so a caller-supplied id wins; status, creation time
      and expiry are written after and always win. */
  function CreateDeliveryBid(draft: BidDraft, now: nat): (b: DeliveryBid)
    ensures b.status == Open
    ensures b.createdAt == now && b.expiresAt == Some(now + BidLifetime)
    ensures b.id == if draft.id.Some? then draft.id.value else "bid_" + NatToString(now)
    ensures b.orderId == draft.orderId && b.deliveryPartnerId == draft.deliveryPartnerId
    ensures b.bidAmount == draft.bidAmount && b.estimatedTime == draft.estimatedTime
    ensures b.vehicleType == draft.vehicleType && b.route == draft.route
  {
    var id := if draft.id.Some? then draft.id.value else "bid_" + NatToString(now);
    DeliveryBid(id, draft.orderId, draft.deliveryPartnerId, draft.bidAmount, draft.estimatedTime,
                draft.vehicleType, draft.route, Open, now, Some(now + BidLifetime))
  }

  /** A generated bid id carries the creation time, which can be read back from it. */
  lemma GeneratedBidId(draft: BidDraft, now: nat)
    requires draft.id.None?
    ensures var id := CreateDeliveryBid(draft, now).id;
      |id| > 4 && id[..4] == "bid_" && AllDigits(id[4..]) && ParseNat(id[4..]) == now
  {
    var id := CreateDeliveryBid(draft, now).id;
    assert id[4..] == NatToString(now);
    ParseNatToString(now);
  }

  /** `createOrder(order)`: stores a copy with a generated id, fresh
      timestamps and status `pending`, whatever status was passed. */
  function CreateOrder(store: seq<Order>, order: Order, now: nat): (r: (Order, seq<Order>))
    ensures r.0.status == Pending
    ensures r.0.id == "order_" + NatToString(now) && r.0.createdAt == now && r.0.updatedAt == now
    ensures r.0.(id := order.id, status := order.status, createdAt := order.createdAt,
                 updatedAt := order.updatedAt) == order
    ensures |r.1| == |store| + 1 && r.1[..|store|] == store && r.1[|store|] == r.0
  {
    var created := order.(id := "order_" + NatToString(now), createdAt := now, updatedAt := now,
                          status := Pending);
    assert (store + [created])[..|store|] == store;
    (created, store + [created])
  }

  /** A created order shows up last among its customer's orders and nowhere else. */
  lemma CreateOrderThenGetOrders(store: seq<Order>, order: Order, now: nat, userId: string)
    ensures var r := CreateOrder(store, order, now);
      GetOrders(r.1, userId) ==
        if order.customerId == userId then GetOrders(store, userId) + [r.0] else GetOrders(store, userId)
  {
    var r := CreateOrder(store, order, now);
    assert r.1 == store + [r.0];
    assert r.0.customerId == order.customerId;
    FilterSnoc(store, r.0, OfCustomer(userId));
  }
}
