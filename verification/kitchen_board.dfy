/** The kitchen's order board (app/kitchen/page.tsx with
    components/order-board-column.tsx): orders grouped into four status
    columns, each column's button advancing an order to the column's fixed
    next status. The status overwrite defined here is the one the delivery
    page uses as well. */
module OrderBoard {
  import opened Optional
  import opened Types
  import opened Seqs
  import opened Text

  function HasStatus(st: Status): Order -> bool {
    (o: Order) => o.status == st
  }

  /** The orders with status `st`, in list order. */
  function WithStatus(orders: seq<Order>, st: Status): (r: seq<Order>)
    ensures forall o :: o in r <==> o in orders && o.status == st
    ensures forall o :: multiset(r)[o] == if o.status == st then multiset(orders)[o] else 0
    ensures Subseq(r, orders)
  {
    Filter(orders, HasStatus(st))
  }

  datatype Board = Board(pending: seq<Order>, confirmed: seq<Order>, preparing: seq<Order>, ready: seq<Order>)

  /** `col` holds, in list order, each order of status `st` as often as the
      list does, and nothing else. */
  ghost predicate ColumnOf(col: seq<Order>, orders: seq<Order>, st: Status) {
    && Subseq(col, orders)
    && forall o :: multiset(col)[o] == if o.status == st then multiset(orders)[o] else 0
  }

  /** `groupedOrders`: one column per kitchen status. */
  function GroupOrders(orders: seq<Order>): (b: Board)
    ensures ColumnOf(b.pending, orders, Pending) && ColumnOf(b.confirmed, orders, Confirmed)
    ensures ColumnOf(b.preparing, orders, Preparing) && ColumnOf(b.ready, orders, Ready)
  {
    Board(WithStatus(orders, Pending), WithStatus(orders, Confirmed),
          WithStatus(orders, Preparing), WithStatus(orders, Ready))
  }

  predicate OnBoard(o: Order) {
    o.status in {Pending, Confirmed, Preparing, Ready}
  }

  predicate InBoard(b: Board, o: Order) {
    o in b.pending || o in b.confirmed || o in b.preparing || o in b.ready
  }

  /** Every order with one of the four statuses sits in exactly one column, and
      no other order sits in any. */
  lemma ColumnsPartition(orders: seq<Order>, o: Order)
    ensures var b := GroupOrders(orders);
      && (InBoard(b, o) <==> o in orders && OnBoard(o))
      && !(o in b.pending && o in b.confirmed) && !(o in b.pending && o in b.preparing)
      && !(o in b.pending && o in b.ready) && !(o in b.confirmed && o in b.preparing)
      && !(o in b.confirmed && o in b.ready) && !(o in b.preparing && o in b.ready)
  {
  }

  /** The four column badges add up to the number of orders on the board. */
  lemma {:induction false} ColumnSizes(orders: seq<Order>)
    ensures var b := GroupOrders(orders);
      |b.pending| + |b.confirmed| + |b.preparing| + |b.ready| == Count(orders, OnBoard)
    ensures Count(orders, OnBoard) <= |orders|
  {
    if |orders| > 0 {
      ColumnSizes(orders[1..]);
      CountCons(orders, HasStatus(Pending));
      CountCons(orders, HasStatus(Confirmed));
      CountCons(orders, HasStatus(Preparing));
      CountCons(orders, HasStatus(Ready));
      CountCons(orders, OnBoard);
    }
  }

  /** `updateOrderStatus(orderId, newStatus)`: every order with that id gets
      the new status; nothing else changes. */
  function UpdateOrderStatus(orders: seq<Order>, id: string, st: Status): (r: seq<Order>)
    ensures |r| == |orders|
    ensures forall i :: 0 <= i < |orders| ==>
      r[i] == if orders[i].id == id then orders[i].(status := st) else orders[i]
  {
    if |orders| == 0 then []
    else
      var rest := UpdateOrderStatus(orders[1..], id, st);
      var r := [if orders[0].id == id then orders[0].(status := st) else orders[0]] + rest;
      assert forall i :: 1 <= i < |orders| ==> r[i] == rest[i - 1] && orders[i] == orders[1..][i - 1];
      r
  }

  predicate UniqueOrderIds(orders: seq<Order>) {
    forall i, j :: 0 <= i < j < |orders| ==> orders[i].id != orders[j].id
  }

  /** With distinct ids the overwrite is a single-position write. */
  lemma UpdateIsWrite(orders: seq<Order>, k: nat, st: Status)
    requires UniqueOrderIds(orders) && k < |orders|
    ensures UpdateOrderStatus(orders, orders[k].id, st) == orders[k := orders[k].(status := st)]
  {
    var r := UpdateOrderStatus(orders, orders[k].id, st);
    forall i | 0 <= i < |orders| ensures r[i] == orders[k := orders[k].(status := st)][i] {
      if i != k {
        assert orders[i].id != orders[k].id;
      }
    }
  }

  /** An unknown id changes nothing. */
  lemma UpdateUnknownId(orders: seq<Order>, id: string, st: Status)
    requires forall i :: 0 <= i < |orders| ==> orders[i].id != id
    ensures UpdateOrderStatus(orders, id, st) == orders
  {
  }

  /** Overwriting twice with the same status is overwriting once. */
  lemma UpdateIdempotent(orders: seq<Order>, id: string, st: Status)
    ensures UpdateOrderStatus(UpdateOrderStatus(orders, id, st), id, st) == UpdateOrderStatus(orders, id, st)
  {
    var r := UpdateOrderStatus(orders, id, st);
    var rr := UpdateOrderStatus(r, id, st);
    forall i | 0 <= i < |orders| ensures rr[i] == r[i] {
    }
  }

  /** Ids are untouched, so distinct ids stay distinct. */
  lemma UpdateKeepsIds(orders: seq<Order>, id: string, st: Status)
    ensures var r := UpdateOrderStatus(orders, id, st);
      forall i :: 0 <= i < |orders| ==> r[i].id == orders[i].id
    ensures UniqueOrderIds(orders) ==> UniqueOrderIds(UpdateOrderStatus(orders, id, st))
  {
  }

  /** The next status of each column: pending, confirmed, preparing and ready
      advance to confirmed, preparing, ready and assigned; no other status has
      a column. */
  function BoardNext(st: Status): (r: Option<Status>)
    ensures r.Some? <==> st in {Pending, Confirmed, Preparing, Ready}
    ensures r.Some? ==> StatusRank(r.value) > StatusRank(st)
    ensures r.Some? ==> r.value != Cancelled && r.value != Pending
  {
    match st
    case Pending => Some(Confirmed)
    case Confirmed => Some(Preparing)
    case Preparing => Some(Ready)
    case Ready => Some(Assigned)
    case _ => None
  }

  /** Following the column chain from pending reaches assigned after four
      clicks, passing through every column once. */
  lemma BoardChain()
    ensures BoardNext(Pending) == Some(Confirmed) && BoardNext(Confirmed) == Some(Preparing)
    ensures BoardNext(Preparing) == Some(Ready) && BoardNext(Ready) == Some(Assigned)
    ensures BoardNext(Assigned).None?
  {
  }

  /** A column button click on order `o` of the column for `column`:
      `onStatusChange(order.id, nextStatus)`. */
  function ClickAdvance(orders: seq<Order>, column: Status, o: Order): (r: seq<Order>)
    requires BoardNext(column).Some?
    ensures |r| == |orders|
    ensures forall i :: 0 <= i < |orders| ==>
      r[i] == if orders[i].id == o.id then orders[i].(status := BoardNext(column).value) else orders[i]
  {
    UpdateOrderStatus(orders, o.id, BoardNext(column).value)
  }

  /** Clicking an order in its column moves it to the next column (or, from
      "ready", off the board): its old column loses exactly one order and the
      next column, when there is one, gains exactly one. */
  lemma ClickMovesOneOrder(orders: seq<Order>, k: nat)
    requires UniqueOrderIds(orders) && k < |orders| && OnBoard(orders[k])
    ensures var st := orders[k].status;
      var r := ClickAdvance(orders, st, orders[k]);
      var next := BoardNext(st).value;
      && |WithStatus(r, st)| == |WithStatus(orders, st)| - 1
      && |WithStatus(r, next)| == |WithStatus(orders, next)| + 1
      && (st == Ready ==> Count(r, OnBoard) == Count(orders, OnBoard) - 1)
  {
    var st := orders[k].status;
    var next := BoardNext(st).value;
    var v := orders[k].(status := next);
    UpdateIsWrite(orders, k, next);
    CountUpdate(orders, k, v, HasStatus(st));
    CountUpdate(orders, k, v, HasStatus(next));
    CountUpdate(orders, k, v, OnBoard);
  }

  /** A column's heading: the item names joined with ", ": the first name,
      then for each further item a separator and the title of the rest. */
  function OrderTitle(o: Order): (t: string)
    ensures |o.items| == 1 ==> t == o.items[0].name
    ensures |o.items| == 0 ==> t == ""
    ensures |o.items| >= 2 ==> t == o.items[0].name + ", " + OrderTitle(o.(items := o.items[1..]))
    ensures |o.items| >= 1 ==> o.items[0].name <= t
    decreases |o.items|
  {
    TitleCons(o.items);
    Join(ItemNames(o.items), ", ")
  }

  lemma TitleCons(items: seq<OrderItem>)
    ensures |items| >= 2 ==>
      Join(ItemNames(items), ", ") == items[0].name + ", " + Join(ItemNames(items[1..]), ", ")
    ensures |items| >= 1 ==> items[0].name <= Join(ItemNames(items), ", ")
  {
    if |items| >= 1 {
      var names := ItemNames(items);
      assert names[0] == items[0].name;
      if |items| >= 2 {
        assert ItemNames(items[1..]) == names[1..];
        assert names[0] + ", " + Join(names[1..], ", ") == Join(names, ", ");
      }
    }
  }

  function ItemNames(items: seq<OrderItem>): (r: seq<string>)
    ensures |r| == |items|
    ensures forall i :: 0 <= i < |items| ==> r[i] == items[i].name
  {
    if |items| == 0 then [] else [items[0].name] + ItemNames(items[1..])
  }

  /** The joined title is as long as the names plus two characters per separator. */
  lemma {:induction false} TitleLength(names: seq<string>)
    requires |names| > 0
    ensures |Join(names, ", ")| == SumBy(names, (n: string) => |n|) + 2 * (|names| - 1)
  {
    if |names| > 1 {
      TitleLength(names[1..]);
    }
  }
}
