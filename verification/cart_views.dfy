/** The three cart views: the cloud-kitchen sidebar
    (components/cloud-cart-sidebar.tsx), the cart page (app/cart/page.tsx) and
    the older restaurant sidebar (components/cart-sidebar.tsx). Each derives
    totals from the lines, offers -/+ quantity buttons, and builds a checkout
    request. Writing the request to session storage and routing are not
    modelled; the request itself is the result. */
module CartViews {
  import opened Optional
  import opened Types
  import opened Seqs
  import opened CartStore

  /** The order data a checkout hands to the checkout page. */
  datatype CheckoutPayload = CheckoutPayload(
    kitchenId: string,
    items: seq<OrderItem>,
    subtotal: int,
    deliveryFee: int,
    platformFee: int,
    total: int)

  /** Where the sidebar sends the customer with the payload. */
  datatype Destination = OneTimeCheckout | SubscriptionCheckout

  datatype CheckoutRequest = CheckoutRequest(payload: CheckoutPayload, destination: Destination)

  /** One order item per cart line (`cart.map(c => ({ menuItemId, ... }))`). */
  function PayloadItems(lines: seq<CartLine>): (items: seq<OrderItem>)
    ensures |items| == |lines|
    ensures forall i :: 0 <= i < |lines| ==>
      && items[i].menuItemId == lines[i].item.id
      && items[i].name == lines[i].item.name
      && items[i].quantity == lines[i].quantity
      && items[i].price == lines[i].item.price
      && items[i].specialInstructions == lines[i].specialInstructions
  {
    if |lines| == 0 then []
    else
      var l := lines[0];
      [OrderItem(l.item.id, l.item.name, l.quantity, l.item.price, l.specialInstructions)]
        + PayloadItems(lines[1..])
  }

  function ItemTotal(it: OrderItem): int {
    it.price * it.quantity
  }

  /** The subtotal recomputed from a payload's items. */
  function ItemsSubtotal(items: seq<OrderItem>): int {
    SumBy(items, ItemTotal)
  }

  /** Pricing the payload's items gives back the cart's subtotal. */
  lemma {:induction false} PayloadItemsSubtotal(lines: seq<CartLine>)
    ensures ItemsSubtotal(PayloadItems(lines)) == Subtotal(lines)
  {
    if |lines| > 0 {
      PayloadItemsSubtotal(lines[1..]);
      assert PayloadItems(lines)[1..] == PayloadItems(lines[1..]);
    }
  }

  /** The cloud sidebar's summary for a cart bound to `kitchen`. */
  function SidebarPayload(lines: seq<CartLine>, kitchen: CloudKitchen): (p: CheckoutPayload)
    ensures p.kitchenId == kitchen.id && p.items == PayloadItems(lines)
    ensures p.subtotal == Subtotal(lines) && p.deliveryFee == kitchen.deliveryFee && p.platformFee == PlatformFee
    ensures p.total == p.subtotal + p.deliveryFee + p.platformFee
    ensures |p.items| == |lines| && p.total == ItemsSubtotal(p.items) + p.deliveryFee + p.platformFee
  {
    PayloadItemsSubtotal(lines);
    var subtotal := Subtotal(lines);
    CheckoutPayload(kitchen.id, PayloadItems(lines), subtotal, kitchen.deliveryFee, PlatformFee,
                    subtotal + kitchen.deliveryFee + PlatformFee)
  }

  /** The sidebar's figures agree with the cart store's derived values when the
      sidebar is shown for the store's kitchen. */
  lemma SidebarMatchesStore(s: CartState)
    requires s.kitchen.Some?
    ensures SidebarPayload(s.lines, s.kitchen.value).total == CartTotal(s)
    ensures SidebarPayload(s.lines, s.kitchen.value).deliveryFee == DeliveryFee(s)
  {
  }

  /** The checkout button is enabled exactly when the subtotal reaches the
      kitchen's minimum order. */
  predicate CheckoutEnabled(lines: seq<CartLine>, kitchen: CloudKitchen)
    ensures |lines| == 0 && kitchen.minOrderAmount > 0 ==> !CheckoutEnabled(lines, kitchen)
  {
    !(Subtotal(lines) < kitchen.minOrderAmount)
  }

  /** The "Add ... more to checkout" amount, shown only while checkout is disabled. */
  function Shortfall(lines: seq<CartLine>, kitchen: CloudKitchen): (r: Option<int>)
    ensures r.None? <==> CheckoutEnabled(lines, kitchen)
    ensures r.Some? ==> r.value > 0 && Subtotal(lines) + r.value == kitchen.minOrderAmount
  {
    var subtotal := Subtotal(lines);
    if subtotal < kitchen.minOrderAmount then Some(kitchen.minOrderAmount - subtotal) else None
  }

  /** `handleCheckout` of the cloud sidebar: nothing on an empty cart. */
  function SidebarCheckout(lines: seq<CartLine>, kitchen: CloudKitchen): (r: Option<CheckoutRequest>)
    ensures r.Some? <==> |lines| > 0
    ensures r.Some? ==> r.value.destination == OneTimeCheckout && r.value.payload == SidebarPayload(lines, kitchen)
  {
    if |lines| > 0 then Some(CheckoutRequest(SidebarPayload(lines, kitchen), OneTimeCheckout)) else None
  }

  /** `handleSubscription`: the same payload, sent to the subscription flow. */
  function SidebarSubscription(lines: seq<CartLine>, kitchen: CloudKitchen): (r: Option<CheckoutRequest>)
    ensures r.Some? <==> |lines| > 0
    ensures r.Some? ==> r.value.destination == SubscriptionCheckout && r.value.payload == SidebarPayload(lines, kitchen)
  {
    if |lines| > 0 then Some(CheckoutRequest(SidebarPayload(lines, kitchen), SubscriptionCheckout)) else None
  }

  /** The subscription button is offered only by kitchens that take subscriptions. */
  predicate SubscriptionOffered(kitchen: CloudKitchen) {
    kitchen.subscriptionAvailable
  }

  /** The quantity the "−" button requests: `Math.max(1, quantity - 1)`. */
  function QuantityMinus(quantity: int): (r: int)
    ensures r >= 1
    ensures quantity > 1 ==> r == quantity - 1
    ensures quantity <= 1 ==> r == 1
  {
    if quantity - 1 > 1 then quantity - 1 else 1
  }

  /** The quantity the "+" button requests. */
  function QuantityPlus(quantity: int): (r: int)
    ensures r == quantity + 1
    ensures r > 1 <==> quantity >= 1
    ensures quantity >= 1 ==> QuantityMinus(r) == quantity
  {
    quantity + 1
  }

  /** "+" then "−" returns to the original quantity of any line with at least one unit. */
  lemma PlusMinus(quantity: int)
    requires quantity >= 1
    ensures QuantityMinus(QuantityPlus(quantity)) == quantity
  {
  }

  /** The "−" button never removes a line: it never requests 0, so the store
      keeps every line and only that line's quantity changes. */
  lemma MinusKeepsLine(s: CartState, i: nat)
    requires i < |s.lines|
    ensures var r := UpdateQuantity(s, s.lines[i].item.id, QuantityMinus(s.lines[i].quantity));
      |r.lines| == |s.lines| && r.lines[i].quantity >= 1 && r.lines[i].item == s.lines[i].item
  {
  }

  /** `handleCheckout` of the cart page: proceeds only with a kitchen and at least
      one line, and takes its figures from the store. */
  function CartPageCheckout(s: CartState): (r: Option<CheckoutRequest>)
    ensures r.Some? <==> s.kitchen.Some? && |s.lines| > 0
    ensures r.Some? ==>
      && r.value.destination == OneTimeCheckout
      && r.value.payload.kitchenId == s.kitchen.value.id
      && r.value.payload.items == PayloadItems(s.lines)
      && r.value.payload.subtotal == Subtotal(s.lines)
      && r.value.payload.deliveryFee == DeliveryFee(s)
      && r.value.payload.platformFee == PlatformFee
      && r.value.payload.total == CartTotal(s)
  {
    if s.kitchen.Some? && |s.lines| > 0 then
      Some(CheckoutRequest(CheckoutPayload(s.kitchen.value.id, PayloadItems(s.lines), Subtotal(s.lines),
                                           DeliveryFee(s), PlatformFee, CartTotal(s)), OneTimeCheckout))
    else None
  }

  /** The cart page and the cloud sidebar build the same request for a cart with a kitchen. */
  lemma CartPageMatchesSidebar(s: CartState)
    requires s.kitchen.Some?
    ensures CartPageCheckout(s) == SidebarCheckout(s.lines, s.kitchen.value)
  {
  }

  /** The cart page shows "Your cart is empty" when the item count is 0. */
  predicate CartPageShowsEmpty(s: CartState)
    ensures (forall i :: 0 <= i < |s.lines| ==> s.lines[i].quantity >= 1) && CartPageShowsEmpty(s) ==> |s.lines| == 0
  {
    ItemCount(s.lines) == 0
  }

  /** While every quantity is positive, the empty view is shown exactly when
      there are no lines. */
  lemma {:induction false} ShowsEmptyIffNoLines(lines: seq<CartLine>)
    requires forall i :: 0 <= i < |lines| ==> lines[i].quantity > 0
    ensures ItemCount(lines) == 0 <==> |lines| == 0
    ensures ItemCount(lines) >= |lines|
  {
    if |lines| > 0 {
      ShowsEmptyIffNoLines(lines[1..]);
    }
  }

  /** The older restaurant sidebar's total: subtotal plus delivery fee, no platform fee. */
  function LegacyTotal(lines: seq<CartLine>, deliveryFee: int): (r: int)
    ensures r - deliveryFee == Subtotal(lines)
    ensures r == ItemsSubtotal(PayloadItems(lines)) + deliveryFee
  {
    PayloadItemsSubtotal(lines);
    Subtotal(lines) + deliveryFee
  }

  /** For the same lines and fee, the cloud sidebar charges exactly the platform fee more. */
  lemma LegacyTotalDifference(lines: seq<CartLine>, kitchen: CloudKitchen)
    ensures SidebarPayload(lines, kitchen).total - LegacyTotal(lines, kitchen.deliveryFee) == PlatformFee
  {
  }

  /** The older sidebar's checkout hands over the restaurant id and the lines. */
  datatype LegacyCheckoutRequest = LegacyCheckoutRequest(restaurantId: string, lines: seq<CartLine>)

  function LegacyCheckout(restaurantId: string, lines: seq<CartLine>): (r: Option<LegacyCheckoutRequest>)
    ensures r.Some? <==> |lines| > 0
    ensures r.Some? ==> r.value.restaurantId == restaurantId && r.value.lines == lines
  {
    if |lines| > 0 then Some(LegacyCheckoutRequest(restaurantId, lines)) else None
  }
}
