/** The delivery partner's page (app/delivery/page.tsx): the orders assigned
    to partner "user_3", the three lists shown from them, the accept and
    confirm buttons, and the earnings figure computed once at load. */
module DeliveryDesk {
  import opened Optional
  import opened Types
  import opened Seqs
  import opened OrderBoard

  /** The partner whose page this is. */
  const PartnerId: string := "user_3"

  predicate Mine(o: Order) {
    o.deliveryPartner == Some(PartnerId)
  }

  datatype DeskState = DeskState(orders: seq<Order>, activeDelivery: Option<string>, earnings: int)

  function DeliveryFeeOf(o: Order): int {
    o.deliveryFee
  }

  predicate IsDelivered(o: Order) {
    o.status == Delivered
  }

  /** What an order contributes to earnings: its fee once delivered. */
  function EarnedFee(o: Order): int {
    if o.status == Delivered then o.deliveryFee else 0
  }

  /** Σ delivery fee over the delivered orders: every order contributes its
      fee if delivered and nothing otherwise. */
  function DeliveredEarnings(orders: seq<Order>): (r: int)
    ensures r == SumBy(orders, EarnedFee)
  {
    DeliveredEarningsSum(orders);
    SumBy(Filter(orders, IsDelivered), DeliveryFeeOf)
  }

  lemma {:induction false} DeliveredEarningsSum(orders: seq<Order>)
    ensures SumBy(Filter(orders, IsDelivered), DeliveryFeeOf) == SumBy(orders, EarnedFee)
  {
    if |orders| > 0 {
      DeliveredEarningsSum(orders[1..]);
      if IsDelivered(orders[0]) {
        assert Filter(orders, IsDelivered)[1..] == Filter(orders[1..], IsDelivered);
      }
    }
  }

  /** The page on mount: only this partner's orders, no active delivery, and
      the earnings of the orders delivered so far. */
  function Load(all: seq<Order>): (s: DeskState)
    ensures forall o :: o in s.orders <==> o in all && Mine(o)
    ensures forall o :: multiset(s.orders)[o] == if Mine(o) then multiset(all)[o] else 0
    ensures Subseq(s.orders, all)
    ensures s.activeDelivery.None?
    ensures s.earnings == DeliveredEarnings(s.orders)
  {
    var mine := Filter(all, Mine);
    DeskState(mine, None, DeliveredEarnings(mine))
  }

  /** One of the three lists: this partner's orders with status `st`. */
  function MyOrdersWith(orders: seq<Order>, st: Status): (r: seq<Order>)
    ensures forall o :: o in r <==> o in orders && o.status == st && Mine(o)
    ensures forall o :: multiset(r)[o] == if o.status == st && Mine(o) then multiset(orders)[o] else 0
    ensures Subseq(r, orders)
  {
    Filter(orders, (o: Order) => o.status == st && Mine(o))
  }

  function Available(s: DeskState): seq<Order> { MyOrdersWith(s.orders, Ready) }
  function Active(s: DeskState): seq<Order> { MyOrdersWith(s.orders, InTransit) }
  function Completed(s: DeskState): seq<Order> { MyOrdersWith(s.orders, Delivered) }

  predicate Listed(s: DeskState, o: Order) {
    o in Available(s) || o in Active(s) || o in Completed(s)
  }

  /** The three lists never share an order. */
  lemma ListsDisjoint(s: DeskState, o: Order)
    ensures !(o in Available(s) && o in Active(s))
    ensures !(o in Available(s) && o in Completed(s))
    ensures !(o in Active(s) && o in Completed(s))
  {
  }

  /** "Accept Delivery": the order becomes the active delivery and is marked
      assigned; earnings are not touched. */
  function Accept(s: DeskState, id: string): (r: DeskState)
    ensures r.activeDelivery == Some(id) && r.earnings == s.earnings
    ensures r.orders == UpdateOrderStatus(s.orders, id, Assigned)
    ensures forall o :: o in r.orders && o.id == id ==> !Listed(r, o)
  {
    DeskState(UpdateOrderStatus(s.orders, id, Assigned), Some(id), s.earnings)
  }

  /** "Confirm Delivery": the order is marked delivered and there is no
      active delivery any more; earnings are not touched. */
  function Confirm(s: DeskState, id: string): (r: DeskState)
    ensures r.activeDelivery.None? && r.earnings == s.earnings
    ensures r.orders == UpdateOrderStatus(s.orders, id, Delivered)
    ensures forall o :: o in r.orders && o.id == id ==> (o in Completed(r) <==> Mine(o))
  {
    DeskState(UpdateOrderStatus(s.orders, id, Delivered), None, s.earnings)
  }

  /** `currentDelivery`: the first order whose id is the active delivery. */
  function CurrentDelivery(s: DeskState): (r: Option<Order>)
    ensures s.activeDelivery.None? ==> r.None?
    ensures r.Some? ==> r.value in s.orders && Some(r.value.id) == s.activeDelivery
    ensures r.None? && s.activeDelivery.Some? ==> forall o :: o in s.orders ==> o.id != s.activeDelivery.value
    ensures r.Some? ==> exists i :: 0 <= i < |s.orders| && s.orders[i] == r.value
                          && forall j :: 0 <= j < i ==> Some(s.orders[j].id) != s.activeDelivery
  {
    if s.activeDelivery.None? then None else FindById(s.orders, s.activeDelivery.value)
  }

  /** `orders.find(o => o.id === id)`: the first order with that id, if any. */
  function FindById(orders: seq<Order>, id: string): (r: Option<Order>)
    ensures r.Some? ==> r.value in orders && r.value.id == id
    ensures r.None? ==> forall o :: o in orders ==> o.id != id
    ensures r.Some? ==> exists i :: 0 <= i < |orders| && orders[i] == r.value
                          && forall j :: 0 <= j < i ==> orders[j].id != id
  {
    if |orders| == 0 then None
    else if orders[0].id == id then Some(orders[0])
    else
      var r := FindById(orders[1..], id);
      assert r.Some? ==> exists i :: 0 <= i < |orders| && orders[i] == r.value
                          && forall j :: 0 <= j < i ==> orders[j].id != id by {
        if r.Some? {
          var i :| 0 <= i < |orders[1..]| && orders[1..][i] == r.value
                   && forall j :: 0 <= j < i ==> orders[1..][j].id != id;
          assert orders[i + 1] == r.value;
          forall j | 0 <= j < i + 1 ensures orders[j].id != id {
            if j > 0 {
              assert orders[j] == orders[1..][j - 1];
            }
          }
        }
      }
      r
  }

  /** After accepting, the accepted order is the current delivery. */
  lemma AcceptedIsCurrent(s: DeskState, k: nat)
    requires k < |s.orders|
    ensures var r := Accept(s, s.orders[k].id);
      CurrentDelivery(r).Some? && CurrentDelivery(r).value.id == s.orders[k].id
      && CurrentDelivery(r).value.status == Assigned
  {
    var id := s.orders[k].id;
    var r := Accept(s, id);
    assert r.orders[k].id == id && r.orders[k] in r.orders;
    var c := CurrentDelivery(r);
    assert c.Some? && c.value in r.orders && c.value.id == id;
    UpdatedCarriesStatus(s.orders, id, Assigned, c.value);
  }

  /** An order with the updated id carries the new status afterwards. */
  lemma UpdatedCarriesStatus(orders: seq<Order>, id: string, st: Status, o: Order)
    requires o in UpdateOrderStatus(orders, id, st) && o.id == id
    ensures o.status == st
  {
    var r := UpdateOrderStatus(orders, id, st);
    var j :| 0 <= j < |r| && r[j] == o;
    assert r[j] == orders[j].(status := st);
  }

  /** The stored figure is never refreshed: confirming one of this partner's
      undelivered orders (ids distinct) raises the delivered total by that
      order's fee while the shown earnings stay as they were. */
  lemma EarningsGoStale(s: DeskState, k: nat)
    requires UniqueOrderIds(s.orders) && k < |s.orders| && s.orders[k].status != Delivered
    ensures var r := Confirm(s, s.orders[k].id);
      && DeliveredEarnings(r.orders) == DeliveredEarnings(s.orders) + s.orders[k].deliveryFee
      && r.earnings == s.earnings
  {
    var v := s.orders[k].(status := Delivered);
    UpdateIsWrite(s.orders, k, Delivered);
    SumByUpdate(s.orders, k, v, EarnedFee);
  }
}
