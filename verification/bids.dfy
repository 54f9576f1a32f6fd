/** The bid lists a customer picks a delivery partner from
    (components/delivery-partner-selection.tsx, components/delivery-bidding.tsx):
    the bid countdown and its `m:ss` clock, the vehicle filter, the three sort
    orders, the recommended bid and the selection. The random bid values are
    inputs; the one-second timer is modelled by its per-tick step. */
module Bids {
  import opened Optional
  import opened Seqs
  import opened Text
  import opened Types
  import Api

  /** Both lists give bidders five minutes. */
  const BiddingSeconds: nat := 300

  /** One tick of the countdown: at 1 or below it stops at 0. */
  function Tick(remaining: int): (r: int)
    ensures r >= 0
    ensures remaining >= 1 ==> r == remaining - 1
    ensures remaining <= 1 ==> r == 0
  {
    if remaining <= 1 then 0 else remaining - 1
  }

  function Ticks(remaining: int, k: nat): int
    decreases k
  {
    if k == 0 then remaining else Ticks(Tick(remaining), k - 1)
  }

  /** After `k` ticks from a non-negative start the countdown shows
      `max(0, start - k)`: it falls one a second and then stays at 0. */
  lemma {:induction false} TicksClosedForm(start: nat, k: nat)
    ensures Ticks(start, k) == if start >= k then start - k else 0
    decreases k
  {
    if k > 0 {
      TicksClosedForm(Tick(start), k - 1);
    }
  }

  lemma CountdownReachesZero(k: nat)
    ensures Ticks(BiddingSeconds, k) >= 0
    ensures k >= BiddingSeconds ==> Ticks(BiddingSeconds, k) == 0
    ensures k < BiddingSeconds ==> Ticks(BiddingSeconds, k) > 0
  {
    TicksClosedForm(BiddingSeconds, k);
  }

  /** `formatTime(seconds)`: whole minutes, a colon, and the seconds padded to
      two digits. */
  function FormatClock(seconds: nat): (t: string)
    ensures ':' in t
    ensures |t| >= 4 && t[|t| - 3] == ':' && IsDigit(t[|t| - 2]) && IsDigit(t[|t| - 1])
    ensures AllDigits(t[..|t| - 3]) && ParseNat(t[..|t| - 3]) == seconds / 60
    ensures AllDigits(t[|t| - 2..]) && ParseNat(t[|t| - 2..]) == seconds % 60
    ensures Canonical(t[..|t| - 3])
    ensures t[0] == '0' <==> seconds < 60
  {
    PadTwoNat(seconds % 60);
    ParseNatToString(seconds / 60);
    var mins := NatToString(seconds / 60);
    var secs := PadTwo(NatToString(seconds % 60));
    var t := mins + ":" + secs;
    assert t[|t| - 3] == ':';
    assert t[..|t| - 3] == mins;
    assert t[|t| - 2..] == secs;
    assert t[0] == mins[0];
    t
  }

  /** The minutes before the colon are exactly `${minutes}`: the contract of
      `FormatClock` leaves no room for a padded or otherwise different numeral. */
  lemma ClockMinutesAreToString(seconds: nat)
    ensures var t := FormatClock(seconds);
      t[..|t| - 3] == NatToString(seconds / 60)
  {
    var t := FormatClock(seconds);
    CanonicalUnique(t[..|t| - 3]);
  }

  /** The seconds an `m:ss` text stands for, if it has that shape. */
  function ReadClock(t: string): (r: Option<nat>)
    ensures r.Some? ==> |t| >= 4 && t[|t| - 3] == ':' && IsDigit(t[|t| - 1])
    ensures ':' !in t ==> r.None?
  {
    if ':' in t then ReadAt(t, IndexOfChar(t, ':')) else None
  }

  function ReadAt(t: string, i: nat): Option<nat>
    requires i < |t|
  {
    if i >= 1 && |t| == i + 3 && AllDigits(t[..i]) && AllDigits(t[i + 1..])
    then Some(Seconds(ParseNat(t[..i]), ParseNat(t[i + 1..])))
    else None
  }

  /** Seconds in `mins` minutes and `secs` seconds. */
  function Seconds(mins: nat, secs: nat): nat {
    mins * 60 + secs
  }

  lemma ReadMinutesSeconds(m: string, s: string)
    requires AllDigits(m) && |m| >= 1 && AllDigits(s) && |s| == 2
    ensures ReadClock(m + ":" + s) == Some(Seconds(ParseNat(m), ParseNat(s)))
  {
    var t := m + ":" + s;
    assert t[|m|] == ':';
    forall k | 0 <= k < |m| ensures t[k] != ':' {
      assert t[k] == m[k] && IsDigit(m[k]);
    }
    IndexOfCharAt(t, ':', |m|);
    assert t[..|m|] == m;
    assert t[|m| + 1..] == s;
  }

  /** The clock text determines the seconds: reading it back gives them. */
  lemma ReadFormatClock(seconds: nat)
    ensures ReadClock(FormatClock(seconds)) == Some(seconds)
  {
    var m := NatToString(seconds / 60);
    var s := PadTwo(NatToString(seconds % 60));
    ParseNatToString(seconds / 60);
    PadTwoNat(seconds % 60);
    ReadMinutesSeconds(m, s);
    assert Seconds(seconds / 60, seconds % 60) == seconds;
  }

  /** The full countdown reads `5:00`. */
  lemma FormatFullCountdown()
    ensures FormatClock(BiddingSeconds) == "5:00"
  {
    assert NatToString(5) == "5";
    assert NatToString(0) == "0";
    assert PadTwo("0") == "00";
  }

  /** The vehicle filter: none (or the "All" button) keeps every bid. */
  function FilterVehicle(bids: seq<DeliveryBid>, vehicle: Option<Vehicle>): (r: seq<DeliveryBid>)
    ensures vehicle.None? ==> r == bids
    ensures vehicle.Some? ==> forall b :: b in r <==> b in bids && b.vehicleType == vehicle.value
    ensures forall b :: multiset(r)[b] == if vehicle.None? || b.vehicleType == vehicle.value then multiset(bids)[b] else 0
    ensures Subseq(r, bids)
  {
    if vehicle.None? then
      SubseqRefl(bids);
      bids
    else Filter(bids, (b: DeliveryBid) => b.vehicleType == vehicle.value)
  }

  /** `getPartnerData(id)`: the four known partners, with partner_1 for any
      other id. Ratings are in tenths of a star. */
  function PartnerData(id: string): (p: DeliveryPartner)
    ensures id in KnownPartners ==> p.id == id
    ensures id !in KnownPartners ==> p == FallbackPartner
    ensures 46 <= p.rating <= 49
  {
    if id == "partner_2" then
      DeliveryPartner("partner_2", "user_2", "Priya Sharma", "+91 9123456789", 49, 892, true,
                      [EVehicle, Cycle], "e_vehicle", 30)
    else if id == "partner_3" then
      DeliveryPartner("partner_3", "user_3", "Amit Singh", "+91 8876543210", 47, 2103, true,
                      [Motorcycle, Car], "motorcycle", 22)
    else if id == "partner_4" then
      DeliveryPartner("partner_4", "user_4", "Sneha Reddy", "+91 9234567890", 46, 567, true,
                      [Cycle, EVehicle], "e_vehicle", 35)
    else FallbackPartner
  }

  const FallbackPartner: DeliveryPartner :=
    DeliveryPartner("partner_1", "user_1", "Rahul Kumar", "+91 9876543210", 48, 1247, true,
                    [Motorcycle, EVehicle], "motorcycle", 25)

  const KnownPartners: set<string> := {"partner_1", "partner_2", "partner_3", "partner_4"}

  /** The three orders the list can be sorted in. */
  datatype SortOrder = ByPrice | ByTime | ByRating

  /** The number the comparator subtracts: lower sorts first, so the rating
      enters negated (best-rated first). */
  function Key(b: DeliveryBid, order: SortOrder): int {
    match order
    case ByPrice => b.bidAmount
    case ByTime => b.estimatedTime
    case ByRating => -PartnerData(b.deliveryPartnerId).rating
  }

  predicate SortedBy(s: seq<DeliveryBid>, order: SortOrder) {
    forall i, j :: 0 <= i < j < |s| ==> Key(s[i], order) <= Key(s[j], order)
  }

  /** A bid whose key is at most every key of a sorted list can go in front of it. */
  lemma SortedCons(h: DeliveryBid, t: seq<DeliveryBid>, order: SortOrder)
    requires SortedBy(t, order)
    requires forall x :: x in t ==> Key(h, order) <= Key(x, order)
    ensures SortedBy([h] + t, order)
  {
    var r := [h] + t;
    forall i, j | 0 <= i < j < |r| ensures Key(r[i], order) <= Key(r[j], order) {
      assert r[j] == t[j - 1] && r[j] in t;
      if i > 0 {
        assert r[i] == t[i - 1];
      }
    }
  }

  /** Places `b` before the first bid whose key is not smaller, so among equal
      keys `b` comes first. */
  function Insert(b: DeliveryBid, s: seq<DeliveryBid>, order: SortOrder): (r: seq<DeliveryBid>)
    ensures multiset(r) == multiset(s) + multiset{b}
    ensures |r| == |s| + 1
  {
    if |s| == 0 then [b]
    else if Key(b, order) <= Key(s[0], order) then [b] + s
    else
      assert s == [s[0]] + s[1..];
      [s[0]] + Insert(b, s[1..], order)
  }

  /** The tail of a sorted list is sorted, and its first key is not below the head's. */
  lemma SortedTail(s: seq<DeliveryBid>, order: SortOrder)
    requires |s| > 0 && SortedBy(s, order)
    ensures SortedBy(s[1..], order)
    ensures |s| > 1 ==> Key(s[0], order) <= Key(s[1..][0], order)
  {
    var t := s[1..];
    forall i, j | 0 <= i < j < |t| ensures Key(t[i], order) <= Key(t[j], order) {
      assert t[i] == s[i + 1] && t[j] == s[j + 1];
    }
  }

  /** A bid whose key is at most the first key goes in front. */
  lemma InsertFront(b: DeliveryBid, s: seq<DeliveryBid>, order: SortOrder)
    requires |s| == 0 || Key(b, order) <= Key(s[0], order)
    ensures Insert(b, s, order) == [b] + s
  {
  }

  /** Inserting into a sorted list keeps it sorted. */
  lemma {:induction false} InsertSorted(b: DeliveryBid, s: seq<DeliveryBid>, order: SortOrder)
    requires SortedBy(s, order)
    ensures SortedBy(Insert(b, s, order), order)
  {
    if |s| == 0 {
    } else if Key(b, order) <= Key(s[0], order) {
      forall x | x in s ensures Key(b, order) <= Key(x, order) {
        var j :| 0 <= j < |s| && s[j] == x;
      }
      SortedCons(b, s, order);
    } else {
      var t := s[1..];
      assert SortedBy(t, order);
      InsertSorted(b, t, order);
      var rest := Insert(b, t, order);
      forall x | x in rest ensures Key(s[0], order) <= Key(x, order) {
        assert x in multiset(rest);
        if x != b {
          assert x in multiset(t);
          var j :| 0 <= j < |t| && t[j] == x;
          assert s[j + 1] == x;
        }
      }
      SortedCons(s[0], rest, order);
    }
  }

  /** `Array.prototype.sort` with the chosen comparator: a sorted permutation
      of the bids. */
  function Sort(s: seq<DeliveryBid>, order: SortOrder): (r: seq<DeliveryBid>)
    ensures SortedBy(r, order)
    ensures multiset(r) == multiset(s)
    ensures |r| == |s|
  {
    if |s| == 0 then []
    else
      assert s == [s[0]] + s[1..];
      var sorted := Sort(s[1..], order);
      InsertSorted(s[0], sorted, order);
      Insert(s[0], sorted, order)
  }

  /** Sorting a non-empty list inserts its head into its sorted tail. */
  lemma SortCons(s: seq<DeliveryBid>, order: SortOrder)
    requires |s| > 0
    ensures Sort(s, order) == Insert(s[0], Sort(s[1..], order), order)
  {
  }

  /** A list already in order is left exactly as it is. */
  lemma {:induction false} SortSorted(s: seq<DeliveryBid>, order: SortOrder)
    requires SortedBy(s, order)
    ensures Sort(s, order) == s
  {
    if |s| > 0 {
      var t := s[1..];
      assert [s[0]] + t == s;
      SortedTail(s, order);
      SortSorted(t, order);
      SortCons(s, order);
      InsertFront(s[0], t, order);
    }
  }

  /** `filteredAndSortedBids`. */
  function FilteredAndSorted(bids: seq<DeliveryBid>, vehicle: Option<Vehicle>, order: SortOrder): (r: seq<DeliveryBid>)
    ensures SortedBy(r, order)
    ensures multiset(r) == multiset(FilterVehicle(bids, vehicle))
    ensures forall b :: b in r ==> b in bids && (vehicle.Some? ==> b.vehicleType == vehicle.value)
  {
    var kept := FilterVehicle(bids, vehicle);
    var r := Sort(kept, order);
    assert forall b :: b in r ==> b in kept by {
      forall b | b in r ensures b in kept {
        assert b in multiset(r);
      }
    }
    r
  }

  /** Only the first bid of the list is marked recommended, and it has the
      best key in the list. */
  predicate Recommended(index: int) {
    index == 0
  }

  lemma RecommendedIsBest(bids: seq<DeliveryBid>, vehicle: Option<Vehicle>, order: SortOrder)
    requires |FilteredAndSorted(bids, vehicle, order)| > 0
    ensures var r := FilteredAndSorted(bids, vehicle, order);
      forall i :: 0 <= i < |r| ==> (Recommended(i) <==> i == 0) && Key(r[0], order) <= Key(r[i], order)
  {
  }

  /** The selection: the same bid is passed to the callback, and the
      recorded selection highlights exactly the bids sharing its id. */
  function Select(bid: DeliveryBid): (r: (Option<string>, DeliveryBid))
    ensures r.1 == bid
    ensures forall b :: Highlighted(r.0, b) <==> b.id == bid.id
  {
    (Some(bid.id), bid)
  }

  predicate Highlighted(selected: Option<string>, b: DeliveryBid) {
    selected == Some(b.id)
  }

  /** With distinct bid ids, the chosen bid is the only one highlighted. */
  lemma SelectHighlightsOne(bids: seq<DeliveryBid>, k: nat)
    requires k < |bids|
    requires forall i, j :: 0 <= i < j < |bids| ==> bids[i].id != bids[j].id
    ensures forall i :: 0 <= i < |bids| ==> (Highlighted(Select(bids[k]).0, bids[i]) <==> i == k)
  {
  }

  /** What the random generator decides for one partner's bid. */
  datatype BidDraw = BidDraw(vehicle: Vehicle, bidAmount: int, estimatedTime: int, distanceMetres: int, traffic: Traffic)

  /** The bid generated for the partner at `index` of the list. */
  function GeneratedBid(orderId: string, partner: DeliveryPartner, index: nat, d: BidDraw, now: int): (b: DeliveryBid)
    ensures b.id == "bid_" + NatToString(index + 1) && b.deliveryPartnerId == partner.id && b.orderId == orderId
    ensures b.status == Open && b.route.estimatedDuration == b.estimatedTime
    ensures b.expiresAt == Some(now + Api.BidLifetime)
  {
    DeliveryBid("bid_" + NatToString(index + 1), orderId, partner.id, d.bidAmount, d.estimatedTime, d.vehicle,
                Route(d.distanceMetres, d.estimatedTime, d.traffic), Open, now, Some(now + Api.BidLifetime))
  }

  function GenerateFrom(orderId: string, partners: seq<DeliveryPartner>, start: nat, draw: nat -> BidDraw, now: int): (r: seq<DeliveryBid>)
    ensures |r| == |partners|
    ensures forall i :: 0 <= i < |partners| ==> r[i] == GeneratedBid(orderId, partners[i], start + i, draw(start + i), now)
    decreases |partners|
  {
    if |partners| == 0 then []
    else [GeneratedBid(orderId, partners[0], start, draw(start), now)] + GenerateFrom(orderId, partners[1..], start + 1, draw, now)
  }

  /** `simulateBidding` of the bidding list: one bid for each of the first
      three available partners, numbered from 1, stored cheapest first. */
  function BiddingList(orderId: string, partners: seq<DeliveryPartner>, draw: nat -> BidDraw, now: int): (r: seq<DeliveryBid>)
    ensures |r| == if |Api.GetAvailableDeliveryPartners(partners)| < 3 then |Api.GetAvailableDeliveryPartners(partners)| else 3
    ensures SortedBy(r, ByPrice)
    ensures multiset(r) == multiset(GenerateFrom(orderId, Take(Api.GetAvailableDeliveryPartners(partners), 3), 0, draw, now))
  {
    Sort(GenerateFrom(orderId, Take(Api.GetAvailableDeliveryPartners(partners), 3), 0, draw, now), ByPrice)
  }

  /** The shape of a generated bid: open, for that order, for one of the
      listed partners, numbered from `start + 1`. */
  predicate Shaped(b: DeliveryBid, orderId: string, partners: seq<DeliveryPartner>, start: nat) {
    && b.status == Open && b.orderId == orderId
    && (exists p :: p in partners && p.id == b.deliveryPartnerId)
    && (exists n :: start + 1 <= n <= start + |partners| && b.id == "bid_" + NatToString(n))
  }

  lemma GeneratedShaped(orderId: string, partners: seq<DeliveryPartner>, start: nat, draw: nat -> BidDraw, now: int)
    ensures forall b :: b in GenerateFrom(orderId, partners, start, draw, now) ==> Shaped(b, orderId, partners, start)
  {
    var gen := GenerateFrom(orderId, partners, start, draw, now);
    forall b | b in gen ensures Shaped(b, orderId, partners, start) {
      var i :| 0 <= i < |gen| && gen[i] == b;
      assert partners[i] in partners && partners[i].id == b.deliveryPartnerId;
      assert b.id == "bid_" + NatToString(start + i + 1);
    }
  }

  /** A stored bid is open, for an available partner, and numbered `bid_1`
      to `bid_3`. */
  predicate StoredShape(b: DeliveryBid, orderId: string, partners: seq<DeliveryPartner>) {
    && b.status == Open && b.orderId == orderId
    && (exists p :: p in partners && p.isAvailable && p.id == b.deliveryPartnerId)
    && (exists n :: 1 <= n <= 3 && b.id == "bid_" + NatToString(n))
  }

  lemma BiddingListShape(orderId: string, partners: seq<DeliveryPartner>, draw: nat -> BidDraw, now: int)
    ensures forall b :: b in BiddingList(orderId, partners, draw, now) ==> StoredShape(b, orderId, partners)
  {
    var avail := Api.GetAvailableDeliveryPartners(partners);
    var firsts := Take(avail, 3);
    var gen := GenerateFrom(orderId, firsts, 0, draw, now);
    GeneratedShaped(orderId, firsts, 0, draw, now);
    var r := BiddingList(orderId, partners, draw, now);
    forall b | b in r ensures StoredShape(b, orderId, partners) {
      assert b in multiset(r);
      assert b in gen;
      assert Shaped(b, orderId, firsts, 0);
      var p :| p in firsts && p.id == b.deliveryPartnerId;
      assert p in avail;
      var n :| 1 <= n <= |firsts| && b.id == "bid_" + NatToString(n);
      assert n <= 3;
    }
  }
}
