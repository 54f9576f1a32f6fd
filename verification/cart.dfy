/** The cart store (lib/cart-context.tsx): a list of lines, the kitchen the
    cart belongs to, and whether the cart sidebar is open, together with the
    values derived from them. The browser confirmation shown before switching
    kitchens is the `confirmed` parameter; persistence is not modelled. */
module CartStore {
  import opened Optional
  import opened Types
  import opened Seqs

  datatype CartLine = CartLine(item: MenuItem, quantity: int, specialInstructions: Option<string>)

  datatype CartState = CartState(lines: seq<CartLine>, kitchen: Option<CloudKitchen>, isOpen: bool)

  /** The flat platform fee, 2.50. */
  const PlatformFee: int := 250

  /** The store as first mounted: no lines, no kitchen, sidebar closed. */
  function Initial(): CartState {
    CartState([], None, false)
  }

  /** No two lines hold the same menu item. */
  predicate UniqueIds(lines: seq<CartLine>) {
    forall i, j :: 0 <= i < j < |lines| ==> lines[i].item.id != lines[j].item.id
  }

  predicate HasItem(lines: seq<CartLine>, id: string) {
    exists i :: 0 <= i < |lines| && lines[i].item.id == id
  }

  /** Index of the first line holding item `id`. */
  function FindLine(lines: seq<CartLine>, id: string): (k: nat)
    requires HasItem(lines, id)
    ensures k < |lines| && lines[k].item.id == id
    ensures forall i :: 0 <= i < k ==> lines[i].item.id != id
  {
    if lines[0].item.id == id then 0
    else
      assert HasItem(lines[1..], id) by {
        var i :| 0 <= i < |lines| && lines[i].item.id == id;
        assert lines[1..][i - 1] == lines[i];
      }
      1 + FindLine(lines[1..], id)
  }

  /** The call names a kitchen other than the one the cart already belongs to. */
  predicate IsKitchenSwitch(s: CartState, kitchenInfo: Option<CloudKitchen>) {
    kitchenInfo.Some? && s.kitchen.Some? && s.kitchen.value.id != kitchenInfo.value.id
  }

  /** A line after `quantity` more of its item is added: the note is replaced
      only by a non-empty new note. */
  function MergeInto(line: CartLine, quantity: int, instructions: Option<string>): CartLine {
    line.(quantity := line.quantity + quantity,
          specialInstructions := if instructions.Some? && instructions.value != "" then instructions
                                 else line.specialInstructions)
  }

  /** Every line holding item `id` merged with the new quantity and note. */
  function MergeLines(lines: seq<CartLine>, id: string, quantity: int, instructions: Option<string>): (r: seq<CartLine>)
    ensures |r| == |lines|
    ensures forall i :: 0 <= i < |lines| ==>
      r[i] == if lines[i].item.id == id then MergeInto(lines[i], quantity, instructions) else lines[i]
  {
    if |lines| == 0 then []
    else
      [if lines[0].item.id == id then MergeInto(lines[0], quantity, instructions) else lines[0]]
        + MergeLines(lines[1..], id, quantity, instructions)
  }

  /** `addToCart(item, quantity, instructions, kitchenInfo)`. */
  function AddToCart(s: CartState, item: MenuItem, quantity: int, instructions: Option<string>,
                     kitchenInfo: Option<CloudKitchen>, confirmed: bool): (r: CartState)
    ensures IsKitchenSwitch(s, kitchenInfo) && confirmed ==>
      r.lines == [CartLine(item, quantity, instructions)] && r.kitchen == kitchenInfo
    ensures IsKitchenSwitch(s, kitchenInfo) && !confirmed ==> r == s
    ensures IsKitchenSwitch(s, kitchenInfo) ==> r.isOpen == s.isOpen
    ensures !IsKitchenSwitch(s, kitchenInfo) ==> r.isOpen
    ensures !IsKitchenSwitch(s, kitchenInfo) ==>
      r.kitchen == (if s.kitchen.Some? then s.kitchen else kitchenInfo)
    ensures !IsKitchenSwitch(s, kitchenInfo) ==>
      |r.lines| == if HasItem(s.lines, item.id) then |s.lines| else |s.lines| + 1
    ensures !IsKitchenSwitch(s, kitchenInfo) && !HasItem(s.lines, item.id) ==>
      r.lines[..|s.lines|] == s.lines && r.lines[|s.lines|] == CartLine(item, quantity, instructions)
    ensures UniqueIds(s.lines) ==> UniqueIds(r.lines)
  {
    if IsKitchenSwitch(s, kitchenInfo) then
      if confirmed then s.(lines := [CartLine(item, quantity, instructions)], kitchen := kitchenInfo)
      else s
    else
      var kitchen := if kitchenInfo.Some? && s.kitchen.None? then kitchenInfo else s.kitchen;
      if HasItem(s.lines, item.id) then
        CartState(MergeLines(s.lines, item.id, quantity, instructions), kitchen, true)
      else
        var lines := s.lines + [CartLine(item, quantity, instructions)];
        assert UniqueIds(s.lines) ==> UniqueIds(lines) by {
          if UniqueIds(s.lines) {
            forall i, j | 0 <= i < j < |lines| ensures lines[i].item.id != lines[j].item.id {
              if j == |s.lines| {
                assert lines[i] == s.lines[i];
              }
            }
          }
        }
        CartState(lines, kitchen, true)
  }

  /** The lines `removeFromCart(id)` keeps. */
  function OtherItem(id: string): CartLine -> bool {
    (l: CartLine) => l.item.id != id
  }

  /** `removeFromCart(id)`: drops every line holding the item. */
  function RemoveFromCart(s: CartState, id: string): (r: CartState)
    ensures r.kitchen == s.kitchen && r.isOpen == s.isOpen
    ensures !HasItem(r.lines, id)
    ensures forall l :: l in r.lines <==> l in s.lines && l.item.id != id
    ensures forall l :: multiset(r.lines)[l] == if l.item.id != id then multiset(s.lines)[l] else 0
    ensures Subseq(r.lines, s.lines)
    ensures !HasItem(s.lines, id) ==> r == s
    ensures UniqueIds(s.lines) ==> UniqueIds(r.lines)
  {
    var lines := Filter(s.lines, OtherItem(id));
    assert !HasItem(lines, id) by {
      forall i | 0 <= i < |lines| ensures lines[i].item.id != id {
        assert lines[i] in lines;
      }
    }
    assert !HasItem(s.lines, id) ==> lines == s.lines by {
      if !HasItem(s.lines, id) {
        FilterAll(s.lines, OtherItem(id));
      }
    }
    assert UniqueIds(s.lines) ==> UniqueIds(lines) by {
      if UniqueIds(s.lines) {
        SubseqUnique(lines, s.lines);
      }
    }
    s.(lines := lines)
  }

  /** Every line holding item `id` with its quantity overwritten. */
  function SetQuantity(lines: seq<CartLine>, id: string, quantity: int): (r: seq<CartLine>)
    ensures |r| == |lines|
    ensures forall i :: 0 <= i < |lines| ==>
      r[i] == if lines[i].item.id == id then lines[i].(quantity := quantity) else lines[i]
  {
    if |lines| == 0 then []
    else
      [if lines[0].item.id == id then lines[0].(quantity := quantity) else lines[0]]
        + SetQuantity(lines[1..], id, quantity)
  }

  /** `updateQuantity(id, quantity)`: exactly 0 removes the item; any other
      value, negative ones included, is stored as given. */
  function UpdateQuantity(s: CartState, id: string, quantity: int): (r: CartState)
    ensures quantity == 0 ==> r == RemoveFromCart(s, id)
    ensures quantity != 0 ==> r.kitchen == s.kitchen && r.isOpen == s.isOpen && |r.lines| == |s.lines|
    ensures quantity != 0 ==> forall i :: 0 <= i < |s.lines| ==>
      r.lines[i].item == s.lines[i].item &&
      r.lines[i].specialInstructions == s.lines[i].specialInstructions &&
      r.lines[i].quantity == (if s.lines[i].item.id == id then quantity else s.lines[i].quantity)
    ensures !HasItem(s.lines, id) ==> r == s
    ensures UniqueIds(s.lines) ==> UniqueIds(r.lines)
  {
    if quantity == 0 then RemoveFromCart(s, id)
    else
      var lines := SetQuantity(s.lines, id, quantity);
      assert !HasItem(s.lines, id) ==> lines == s.lines;
      assert UniqueIds(s.lines) ==> UniqueIds(lines) by {
        if UniqueIds(s.lines) {
          forall i, j | 0 <= i < j < |lines| ensures lines[i].item.id != lines[j].item.id {
            assert lines[i].item == s.lines[i].item && lines[j].item == s.lines[j].item;
          }
        }
      }
      s.(lines := lines)
  }

  /** `clearCart()`: the only operation that unsets the kitchen. */
  function ClearCart(s: CartState): (r: CartState)
    ensures r.lines == [] && r.kitchen.None? && r.isOpen == s.isOpen
  {
    s.(lines := [], kitchen := None)
  }

  function LineTotal(l: CartLine): int {
    l.item.price * l.quantity
  }

  function LineQuantity(l: CartLine): int {
    l.quantity
  }

  /** `getCartTotal()`: the sum of price times quantity over the lines. */
  function Subtotal(lines: seq<CartLine>): (r: int)
    ensures |lines| == 0 ==> r == 0
    ensures (forall i :: 0 <= i < |lines| ==> LineTotal(lines[i]) >= 0) ==> r >= 0
  {
    SumByAtLeast(lines, LineTotal, 0);
    SumBy(lines, LineTotal)
  }

  /** `getCartItemCount()`: the sum of the quantities. */
  function ItemCount(lines: seq<CartLine>): (r: int)
    ensures |lines| == 0 ==> r == 0
    ensures (forall i :: 0 <= i < |lines| ==> lines[i].quantity >= 1) ==> r >= |lines|
  {
    SumByAtLeast(lines, LineQuantity, 1);
    SumBy(lines, LineQuantity)
  }

  /** `getTotalItems()`: the number of lines, which never exceeds the item
      count while every line holds at least one unit. */
  function TotalItems(lines: seq<CartLine>): (r: nat)
    ensures r == |lines|
    ensures (forall i :: 0 <= i < |lines| ==> lines[i].quantity >= 1) ==> r <= ItemCount(lines)
  {
    |lines|
  }

  /** `kitchen?.deliveryFee || 0`: the kitchen's fee, or nothing without a kitchen. */
  function DeliveryFee(s: CartState): (r: int)
    ensures s.kitchen.None? ==> r == 0
    ensures s.kitchen.Some? ==> r == s.kitchen.value.deliveryFee
  {
    if s.kitchen.Some? then s.kitchen.value.deliveryFee else 0
  }

  /** `cartTotal`: subtotal, the kitchen's delivery fee and the platform fee.
      The platform fee is charged even on an empty cart without a kitchen. */
  function CartTotal(s: CartState): (r: int)
    ensures r - PlatformFee == Subtotal(s.lines) + DeliveryFee(s)
    ensures |s.lines| == 0 && s.kitchen.None? ==> r == PlatformFee
    ensures s.kitchen.Some? ==> r == Subtotal(s.lines) + s.kitchen.value.deliveryFee + PlatformFee
  {
    Subtotal(s.lines) + DeliveryFee(s) + PlatformFee
  }

  // ---------------------------------------------------------------------------
  // Properties of the operations

  /** A line in front of distinct lines keeps them distinct exactly when no
      line behind it holds its item. */
  lemma UniqueIdsCons(h: CartLine, t: seq<CartLine>)
    ensures UniqueIds([h] + t) <==> UniqueIds(t) && forall l :: l in t ==> l.item.id != h.item.id
  {
    if UniqueIds(t) && forall l :: l in t ==> l.item.id != h.item.id {
      UniqueIdsConsBuild(h, t);
    }
    if UniqueIds([h] + t) {
      UniqueIdsConsSplit(h, t);
    }
  }

  lemma UniqueIdsConsBuild(h: CartLine, t: seq<CartLine>)
    requires UniqueIds(t) && forall l :: l in t ==> l.item.id != h.item.id
    ensures UniqueIds([h] + t)
  {
    var s := [h] + t;
    forall i, j | 0 <= i < j < |s| ensures s[i].item.id != s[j].item.id {
      assert s[j] == t[j - 1];
      if i > 0 {
        assert s[i] == t[i - 1];
      } else {
        assert t[j - 1] in t;
      }
    }
  }

  lemma UniqueIdsConsSplit(h: CartLine, t: seq<CartLine>)
    requires UniqueIds([h] + t)
    ensures UniqueIds(t) && forall l :: l in t ==> l.item.id != h.item.id
  {
    var s := [h] + t;
    forall i, j | 0 <= i < j < |t| ensures t[i].item.id != t[j].item.id {
      assert t[i] == s[i + 1] && t[j] == s[j + 1];
    }
    forall l | l in t ensures l.item.id != h.item.id {
      var k :| 0 <= k < |t| && t[k] == l;
      assert s[k + 1] == l && s[0] == h;
    }
  }

  /** A subsequence of lines with distinct items has distinct items. */
  lemma {:induction false} SubseqUnique(a: seq<CartLine>, b: seq<CartLine>)
    requires Subseq(a, b) && UniqueIds(b)
    ensures UniqueIds(a)
    decreases |b|
  {
    if |a| > 0 {
      assert b == [b[0]] + b[1..];
      UniqueIdsCons(b[0], b[1..]);
      if a[0] == b[0] && Subseq(a[1..], b[1..]) {
        SubseqUnique(a[1..], b[1..]);
        SubseqMembers(a[1..], b[1..]);
        assert a == [a[0]] + a[1..];
        UniqueIdsCons(a[0], a[1..]);
      } else {
        SubseqUnique(a, b[1..]);
      }
    }
  }

  lemma {:induction false} SubseqMembers<T>(a: seq<T>, b: seq<T>)
    requires Subseq(a, b)
    ensures forall x :: x in a ==> x in b
    decreases |b|
  {
    if |a| > 0 {
      if a[0] == b[0] && Subseq(a[1..], b[1..]) {
        SubseqMembers(a[1..], b[1..]);
        assert a == [a[0]] + a[1..];
      } else {
        SubseqMembers(a, b[1..]);
      }
    }
  }

  /** With distinct items, merging touches exactly the one line holding the item. */
  lemma MergeLinesIsUpdate(lines: seq<CartLine>, id: string, quantity: int, instructions: Option<string>)
    requires UniqueIds(lines) && HasItem(lines, id)
    ensures MergeLines(lines, id, quantity, instructions)
      == lines[FindLine(lines, id) := MergeInto(lines[FindLine(lines, id)], quantity, instructions)]
  {
  }

  lemma SetQuantityIsUpdate(lines: seq<CartLine>, id: string, quantity: int)
    requires UniqueIds(lines) && HasItem(lines, id)
    ensures SetQuantity(lines, id, quantity)
      == lines[FindLine(lines, id) := lines[FindLine(lines, id)].(quantity := quantity)]
  {
  }

  /** With no kitchen switch, the lines after an add are either the old lines
      with the one matching line merged, or the old lines plus the new line. */
  lemma AddToCartLines(s: CartState, item: MenuItem, quantity: int, instructions: Option<string>,
                       kitchenInfo: Option<CloudKitchen>, confirmed: bool)
    requires UniqueIds(s.lines) && !IsKitchenSwitch(s, kitchenInfo)
    ensures var r := AddToCart(s, item, quantity, instructions, kitchenInfo, confirmed);
      if HasItem(s.lines, item.id) then
        var k := FindLine(s.lines, item.id);
        r.lines == s.lines[k := MergeInto(s.lines[k], quantity, instructions)]
      else
        r.lines == s.lines + [CartLine(item, quantity, instructions)]
  {
    if HasItem(s.lines, item.id) {
      MergeLinesIsUpdate(s.lines, item.id, quantity, instructions);
    }
  }

  lemma MergeIntoTotals(l: CartLine, quantity: int, instructions: Option<string>)
    ensures LineTotal(MergeInto(l, quantity, instructions)) == LineTotal(l) + l.item.price * quantity
    ensures LineQuantity(MergeInto(l, quantity, instructions)) == LineQuantity(l) + quantity
  {
    assert l.item.price * (l.quantity + quantity) == l.item.price * l.quantity + l.item.price * quantity;
  }

  /** Adding to a cart with distinct items (and no kitchen switch) raises the
      item count by the added quantity and the subtotal by that quantity at the
      price of the line that receives it: the existing line's item when merging,
      the new item otherwise. */
  lemma AddToCartTotals(s: CartState, item: MenuItem, quantity: int, instructions: Option<string>,
                        kitchenInfo: Option<CloudKitchen>, confirmed: bool)
    requires UniqueIds(s.lines) && !IsKitchenSwitch(s, kitchenInfo)
    ensures var r := AddToCart(s, item, quantity, instructions, kitchenInfo, confirmed);
      && ItemCount(r.lines) == ItemCount(s.lines) + quantity
      && Subtotal(r.lines) == Subtotal(s.lines) +
           (if HasItem(s.lines, item.id) then s.lines[FindLine(s.lines, item.id)].item.price else item.price) * quantity
  {
    AddToCartLines(s, item, quantity, instructions, kitchenInfo, confirmed);
    var lines := AddToCart(s, item, quantity, instructions, kitchenInfo, confirmed).lines;
    if HasItem(s.lines, item.id) {
      var k := FindLine(s.lines, item.id);
      var merged := MergeInto(s.lines[k], quantity, instructions);
      assert lines == s.lines[k := merged];
      SumByUpdate(s.lines, k, merged, LineTotal);
      SumByUpdate(s.lines, k, merged, LineQuantity);
      MergeIntoTotals(s.lines[k], quantity, instructions);
    } else {
      var line := CartLine(item, quantity, instructions);
      assert lines == s.lines + [line];
      SumByAppend(s.lines, [line], LineTotal);
      SumByAppend(s.lines, [line], LineQuantity);
    }
  }

  /** A merge keeps the previous note unless the new one is non-empty. */
  lemma AddKeepsNote(s: CartState, item: MenuItem, quantity: int, instructions: Option<string>,
                     kitchenInfo: Option<CloudKitchen>, confirmed: bool, i: nat)
    requires !IsKitchenSwitch(s, kitchenInfo) && i < |s.lines| && s.lines[i].item.id == item.id
    ensures var r := AddToCart(s, item, quantity, instructions, kitchenInfo, confirmed);
      && r.lines[i].quantity == s.lines[i].quantity + quantity
      && r.lines[i].specialInstructions ==
           (if instructions.None? || instructions.value == "" then s.lines[i].specialInstructions else instructions)
  {
  }

  /** Overwriting the quantity of a present item (not with 0) shifts the
      subtotal by the price times the change and the count by the change. */
  lemma UpdateQuantityTotals(s: CartState, id: string, quantity: int)
    requires UniqueIds(s.lines) && HasItem(s.lines, id) && quantity != 0
    ensures var l := s.lines[FindLine(s.lines, id)];
      var r := UpdateQuantity(s, id, quantity);
      && Subtotal(r.lines) == Subtotal(s.lines) + l.item.price * (quantity - l.quantity)
      && ItemCount(r.lines) == ItemCount(s.lines) + (quantity - l.quantity)
  {
    var k := FindLine(s.lines, id);
    var l := s.lines[k];
    var v := l.(quantity := quantity);
    var lines := UpdateQuantity(s, id, quantity).lines;
    assert lines == s.lines[k := v] by {
      SetQuantityIsUpdate(s.lines, id, quantity);
    }
    assert Subtotal(lines) == Subtotal(s.lines) - LineTotal(l) + LineTotal(v) by {
      SumByUpdate(s.lines, k, v, LineTotal);
    }
    assert ItemCount(lines) == ItemCount(s.lines) - l.quantity + quantity by {
      SumByUpdate(s.lines, k, v, LineQuantity);
    }
    LineTotalShift(l, quantity);
  }

  /** Changing a line's quantity changes its total by the price times the change. */
  lemma LineTotalShift(l: CartLine, quantity: int)
    ensures LineTotal(l.(quantity := quantity)) - LineTotal(l) == l.item.price * (quantity - l.quantity)
  {
    assert l.item.price * quantity - l.item.price * l.quantity == l.item.price * (quantity - l.quantity);
  }

  /** Dropping the lines of a present item from distinct lines lowers their
      subtotal by exactly that item's line total. */
  lemma {:induction false} FilterSubtotal(lines: seq<CartLine>, id: string)
    requires UniqueIds(lines) && HasItem(lines, id)
    ensures Subtotal(Filter(lines, OtherItem(id))) == Subtotal(lines) - LineTotal(lines[FindLine(lines, id)])
  {
    var p := OtherItem(id);
    var t := lines[1..];
    assert lines == [lines[0]] + t;
    assert UniqueIds(t) && forall l :: l in t ==> l.item.id != lines[0].item.id by {
      UniqueIdsCons(lines[0], t);
    }
    if lines[0].item.id == id {
      assert Filter(lines, p) == Filter(t, p);
      FilterAll(t, p);
    } else {
      var k := FindLine(lines, id);
      assert HasItem(t, id) by {
        assert t[k - 1] == lines[k];
      }
      FilterSubtotal(t, id);
      assert k == 1 + FindLine(t, id);
      assert Filter(lines, p) == [lines[0]] + Filter(t, p);
      assert ([lines[0]] + Filter(t, p))[1..] == Filter(t, p);
    }
  }

  /** Removing a present item from a cart with distinct items lowers the
      subtotal by exactly that item's line total. */
  lemma RemoveSubtotal(s: CartState, id: string)
    requires UniqueIds(s.lines) && HasItem(s.lines, id)
    ensures Subtotal(RemoveFromCart(s, id).lines) == Subtotal(s.lines) - LineTotal(s.lines[FindLine(s.lines, id)])
  {
    FilterSubtotal(s.lines, id);
  }

  // ---------------------------------------------------------------------------
  // Runs of operations

  datatype CartOp =
    | Add(item: MenuItem, quantity: int, instructions: Option<string>, kitchenInfo: Option<CloudKitchen>, confirmed: bool)
    | Remove(id: string)
    | Update(id: string, quantity: int)
    | Clear

  function Apply(s: CartState, op: CartOp): CartState {
    match op
    case Add(item, q, ins, k, c) => AddToCart(s, item, q, ins, k, c)
    case Remove(id) => RemoveFromCart(s, id)
    case Update(id, q) => UpdateQuantity(s, id, q)
    case Clear => ClearCart(s)
  }

  function Run(s: CartState, ops: seq<CartOp>): CartState
    decreases |ops|
  {
    if |ops| == 0 then s else Run(Apply(s, ops[0]), ops[1..])
  }

  /** Item ids in the cart stay distinct across any run of operations. */
  lemma {:induction false} RunKeepsUniqueIds(s: CartState, ops: seq<CartOp>)
    requires UniqueIds(s.lines)
    ensures UniqueIds(Run(s, ops).lines)
    decreases |ops|
  {
    if |ops| > 0 {
      RunKeepsUniqueIds(Apply(s, ops[0]), ops[1..]);
    }
  }

  /** The kitchen only changes when it was unset or on a confirmed switch, and
      only `clearCart` unsets it (removing the last line leaves it set). */
  lemma KitchenChanges(s: CartState, op: CartOp)
    ensures var r := Apply(s, op);
      && (r.kitchen.None? && s.kitchen.Some? ==> op.Clear?)
      && (r.kitchen != s.kitchen && !op.Clear? ==>
            op.Add? && (s.kitchen.None? || (IsKitchenSwitch(s, op.kitchenInfo) && op.confirmed)))
  {
  }

  /** Every line belongs to the cart's kitchen. */
  predicate SingleKitchen(s: CartState) {
    forall l :: l in s.lines ==> s.kitchen.Some? && l.item.restaurantId == s.kitchen.value.id
  }

  /** An operation as the kitchen pages issue it: an add always names the
      kitchen whose menu the item comes from. */
  predicate KitchenConsistent(op: CartOp) {
    op.Add? ==> op.kitchenInfo.Some? && op.item.restaurantId == op.kitchenInfo.value.id
  }

  /** An add that names the item's own kitchen keeps every line in the cart's kitchen. */
  lemma AddKeepsSingleKitchen(s: CartState, item: MenuItem, q: int, ins: Option<string>,
                              k: Option<CloudKitchen>, c: bool)
    requires SingleKitchen(s) && k.Some? && item.restaurantId == k.value.id
    ensures SingleKitchen(AddToCart(s, item, q, ins, k, c))
  {
    var r := AddToCart(s, item, q, ins, k, c);
    if !IsKitchenSwitch(s, k) {
      var kid := r.kitchen.value.id;
      assert kid == item.restaurantId || s.kitchen.Some?;
      if HasItem(s.lines, item.id) {
        assert r.lines == MergeLines(s.lines, item.id, q, ins);
        MergeKeepsKitchen(s.lines, item.id, q, ins, kid);
      } else {
        assert r.lines == s.lines + [CartLine(item, q, ins)];
      }
    }
  }

  lemma MergeKeepsKitchen(lines: seq<CartLine>, id: string, q: int, ins: Option<string>, kid: string)
    requires forall l :: l in lines ==> l.item.restaurantId == kid
    ensures forall l :: l in MergeLines(lines, id, q, ins) ==> l.item.restaurantId == kid
  {
    var r := MergeLines(lines, id, q, ins);
    forall l | l in r ensures l.item.restaurantId == kid {
      var i :| 0 <= i < |r| && r[i] == l;
      assert lines[i] in lines;
    }
  }

  /** A quantity update keeps every line in the cart's kitchen. */
  lemma UpdateKeepsSingleKitchen(s: CartState, id: string, q: int)
    requires SingleKitchen(s)
    ensures SingleKitchen(UpdateQuantity(s, id, q))
  {
    var r := UpdateQuantity(s, id, q);
    if q != 0 {
      forall l | l in r.lines ensures r.kitchen.Some? && l.item.restaurantId == r.kitchen.value.id {
        var i :| 0 <= i < |r.lines| && r.lines[i] == l;
        assert s.lines[i] in s.lines;
      }
    }
  }

  /** When every add names the item's own kitchen, the cart never mixes kitchens. */
  lemma {:induction false} RunKeepsSingleKitchen(s: CartState, ops: seq<CartOp>)
    requires SingleKitchen(s)
    requires forall i :: 0 <= i < |ops| ==> KitchenConsistent(ops[i])
    ensures SingleKitchen(Run(s, ops))
    decreases |ops|
  {
    if |ops| > 0 {
      var op := ops[0];
      assert KitchenConsistent(op);
      match op {
        case Add(item, q, ins, k, c) => AddKeepsSingleKitchen(s, item, q, ins, k, c);
        case Remove(id) =>
        case Update(id, q) => UpdateKeepsSingleKitchen(s, id, q);
        case Clear =>
      }
      RunKeepsSingleKitchen(Apply(s, op), ops[1..]);
    }
  }
}
