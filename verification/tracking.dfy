/** The customer's order tracker (components/order-tracking.tsx): the list of
    progress steps derived from an order's status, the highlighted step, the
    estimated-time countdown and the minutes formatter. Step titles, icons and
    timestamps are presentation and are not modelled. */
module Tracking {
  import opened Optional
  import opened Types
  import opened Text

  datatype StepState = Completed | Active | Waiting

  datatype StepId = OrderConfirmed | PreparingFood | ReadyForPickup | PickedUp | OnTheWay | DeliveredStep

  datatype Step = Step(id: StepId, state: StepState)

  /** The extra delivery steps are shown when a partner is given or the order
      is assigned or in transit. */
  predicate ShowsDeliverySteps(status: Status, hasPartner: bool) {
    hasPartner || status == Assigned || status == InTransit
  }

  /** The state of the "preparing" step as written: the third alternative
      re-tests the two statuses already answered by the first two, so it can
      never yield "completed". */
  function PreparingState(status: Status): StepState {
    if status == Confirmed then Active
    else if status == Preparing then Active
    else if status in {Confirmed, Preparing} then Completed
    else Waiting
  }

  function ReadyState(status: Status): StepState {
    if status == Ready then Active
    else if status in {Ready, AwaitingDelivery, Assigned} then Completed
    else Waiting
  }

  function TransitState(status: Status): StepState {
    if status == InTransit then Active
    else if status == Delivered then Completed
    else Waiting
  }

  /** `getTrackingSteps(order)`. */
  function TrackingSteps(status: Status, hasPartner: bool): (steps: seq<Step>)
    ensures |steps| == if ShowsDeliverySteps(status, hasPartner) then 6 else 3
    ensures steps[0] == Step(OrderConfirmed, Completed)
    ensures steps[1].id == PreparingFood
      && (steps[1].state == Active <==> status in {Confirmed, Preparing})
      && (steps[1].state == Waiting <==> status !in {Confirmed, Preparing})
    ensures steps[2].id == ReadyForPickup
      && (steps[2].state == Active <==> status == Ready)
      && (steps[2].state == Completed <==> status in {AwaitingDelivery, Assigned})
    ensures |steps| == 6 ==>
      && steps[3].id == PickedUp && steps[4].id == OnTheWay && steps[5].id == DeliveredStep
      && steps[3].state == steps[4].state
      && (steps[3].state == Active <==> status == InTransit)
      && (steps[3].state == Completed <==> status == Delivered)
      && (steps[5].state == Completed <==> status == Delivered)
      && steps[5].state != Active
  {
    var base := [Step(OrderConfirmed, Completed), Step(PreparingFood, PreparingState(status)),
                 Step(ReadyForPickup, ReadyState(status))];
    if ShowsDeliverySteps(status, hasPartner) then
      base + [Step(PickedUp, TransitState(status)), Step(OnTheWay, TransitState(status)),
              Step(DeliveredStep, if status == Delivered then Completed else Waiting)]
    else base
  }

  /** The "preparing" step is never shown as completed, whatever the status. */
  lemma PreparingNeverCompleted(status: Status, hasPartner: bool)
    ensures TrackingSteps(status, hasPartner)[1].state != Completed
  {
  }

  /** The highlighted step: the first active step, or the previous value when
      no step is active (`findIndex` giving -1 leaves it unchanged). */
  function CurrentStep(previous: nat, steps: seq<Step>): (r: nat)
    ensures (forall i :: 0 <= i < |steps| ==> steps[i].state != Active) ==> r == previous
    ensures (exists i :: 0 <= i < |steps| && steps[i].state == Active) ==>
      r < |steps| && steps[r].state == Active && forall i :: 0 <= i < r ==> steps[i].state != Active
  {
    match FirstActive(steps)
    case Some(i) => i
    case None => previous
  }

  function FirstActive(steps: seq<Step>): (r: Option<nat>)
    ensures r.None? <==> forall i :: 0 <= i < |steps| ==> steps[i].state != Active
    ensures r.Some? ==>
      && r.value < |steps| && steps[r.value].state == Active
      && forall i :: 0 <= i < r.value ==> steps[i].state != Active
  {
    if |steps| == 0 then None
    else if steps[0].state == Active then Some(0)
    else
      var rest := FirstActive(steps[1..]);
      assert forall i :: 1 <= i < |steps| ==> steps[i] == steps[1..][i - 1];
      if rest.Some? then Some(rest.value + 1) else None
  }

  /** Where the tracker settles for each status: the preparing step for
      confirmed and preparing orders, the ready step for ready orders, the
      pick-up step in transit, and the previous step otherwise. */
  lemma CurrentStepByStatus(previous: nat, status: Status, hasPartner: bool)
    ensures var r := CurrentStep(previous, TrackingSteps(status, hasPartner));
      r == (if status in {Confirmed, Preparing} then 1
            else if status == Ready then 2
            else if status == InTransit then 3
            else previous)
  {
    var steps := TrackingSteps(status, hasPartner);
    if status !in {Confirmed, Preparing, Ready, InTransit} {
      forall i | 0 <= i < |steps| ensures steps[i].state != Active {
      }
    } else {
      assert exists i :: 0 <= i < |steps| && steps[i].state == Active by {
        if status == InTransit {
          assert steps[3].state == Active;
        } else if status == Ready {
          assert steps[2].state == Active;
        } else {
          assert steps[1].state == Active;
        }
      }
    }
  }

  /** The estimated time the tracker starts from, in minutes. */
  const InitialEstimate: int := 30

  /** One tick of the estimate: `Math.max(5, prev - 1)`. */
  function EstimateTick(prev: int): (r: int)
    ensures r >= 5
    ensures prev > 5 ==> r == prev - 1
    ensures prev <= 5 ==> r == 5
  {
    if prev - 1 > 5 then prev - 1 else 5
  }

  /** The estimate after `ticks` ticks. */
  function EstimateAfter(ticks: nat): (r: int)
    ensures 5 <= r <= 30
    ensures ticks > 0 ==> r < 30
  {
    if ticks == 0 then InitialEstimate else EstimateTick(EstimateAfter(ticks - 1))
  }

  /** The estimate drops by one per tick from 30 and settles at 5. */
  lemma {:induction false} EstimateAfterClosedForm(ticks: nat)
    ensures EstimateAfter(ticks) == if 30 - ticks > 5 then 30 - ticks else 5
  {
    if ticks > 0 {
      EstimateAfterClosedForm(ticks - 1);
    }
  }

  /** `formatTime(minutes)`: "{h}h {m}m" with at least one hour, else "{m}m". */
  function FormatMinutes(minutes: nat): (r: string)
    ensures |r| >= 2 && r[|r| - 1] == 'm'
    ensures minutes < 60 ==> r == NatToString(minutes) + "m"
    ensures minutes < 60 ==> 'h' !in r && AllDigits(r[..|r| - 1]) && ParseNat(r[..|r| - 1]) == minutes
    ensures minutes >= 60 ==> 'h' in r && HoursAt(r, IndexOfChar(r, 'h'), minutes / 60, minutes % 60)
    ensures minutes >= 60 ==>
      Canonical(r[..IndexOfChar(r, 'h')]) && Canonical(r[IndexOfChar(r, 'h') + 2..|r| - 1])
    ensures r[0] == '0' <==> minutes == 0
  {
    var hours := minutes / 60;
    var mins := minutes % 60;
    if hours > 0 then
      HoursText(hours, mins);
      assert (NatToString(hours) + "h " + NatToString(mins) + "m")[0] == NatToString(hours)[0];
      NatToString(hours) + "h " + NatToString(mins) + "m"
    else
      ParseNatToString(mins);
      DigitsHaveNoMark(NatToString(mins));
      assert (NatToString(mins) + "m")[..|NatToString(mins)|] == NatToString(mins);
      NatToString(mins) + "m"
  }

  /** From an hour on, both numbers are exactly `${hours}` and `${mins}`: the
      contract of `FormatMinutes` leaves no room for padded numerals. */
  lemma HoursPartsAreToString(minutes: nat)
    requires minutes >= 60
    ensures var r := FormatMinutes(minutes); var i := IndexOfChar(r, 'h');
      && r[..i] == NatToString(minutes / 60)
      && r[i + 2..|r| - 1] == NatToString(minutes % 60)
  {
    var r := FormatMinutes(minutes);
    var i := IndexOfChar(r, 'h');
    CanonicalUnique(r[..i]);
    CanonicalUnique(r[i + 2..|r| - 1]);
  }

  /** `r` reads "{hours}h {mins}m" with its hours mark at `i`. */
  predicate HoursAt(r: string, i: nat, hours: nat, mins: nat) {
    && i + 2 < |r| && r[i] == 'h' && r[i + 1] == ' ' && r[|r| - 1] == 'm'
    && AllDigits(r[..i]) && AllDigits(r[i + 2..|r| - 1])
    && ParseNat(r[..i]) == hours && ParseNat(r[i + 2..|r| - 1]) == mins
  }

  lemma DigitsHaveNoMark(s: string)
    requires AllDigits(s)
    ensures 'h' !in s + "m"
  {
    forall k | 0 <= k < |s| ensures s[k] != 'h' {
      assert IsDigit(s[k]);
    }
  }

  lemma HoursText(hours: nat, mins: nat)
    ensures var r := NatToString(hours) + "h " + NatToString(mins) + "m";
      && 'h' in r && HoursAt(r, IndexOfChar(r, 'h'), hours, mins)
      && Canonical(r[..IndexOfChar(r, 'h')]) && Canonical(r[IndexOfChar(r, 'h') + 2..|r| - 1])
  {
    ParseNatToString(hours);
    ParseNatToString(mins);
    HoursShape(NatToString(hours), NatToString(mins));
  }

  /** Where the pieces of "{h}h {m}m" sit when `h` and `m` are digit strings. */
  lemma HoursShape(h: string, m: string)
    requires AllDigits(h) && AllDigits(m) && |m| >= 1
    ensures var r := h + "h " + m + "m";
      && 'h' in r && IndexOfChar(r, 'h') == |h|
      && HoursAt(r, |h|, ParseNat(h), ParseNat(m))
      && r[..|h|] == h && r[|h| + 2..|r| - 1] == m
  {
    var r := h + "h " + m + "m";
    assert r[|h|] == 'h';
    forall k | 0 <= k < |h| ensures r[k] != 'h' {
      assert r[k] == h[k] && IsDigit(h[k]);
    }
    IndexOfCharAt(r, 'h', |h|);
    assert r[..|h|] == h;
    assert r[|h| + 2..|r| - 1] == m;
  }

  /** Reads "{h}h {m}m" or "{m}m" back into minutes. */
  function ReadMinutes(s: string): Option<nat> {
    if |s| == 0 || s[|s| - 1] != 'm' then None else ReadAmount(s[..|s| - 1])
  }

  function ReadAmount(body: string): Option<nat> {
    if 'h' in body then ReadHours(body, IndexOfChar(body, 'h'))
    else if AllDigits(body) then Some(ParseNat(body))
    else None
  }

  /** `body` with its hours mark at `i`: digits, "h ", digits. */
  function ReadHours(body: string, i: nat): Option<nat>
    requires i < |body|
  {
    if i + 2 <= |body| && body[i + 1] == ' ' && AllDigits(body[..i]) && AllDigits(body[i + 2..])
    then Some(Total(ParseNat(body[..i]), ParseNat(body[i + 2..])))
    else None
  }

  /** Minutes in `hours` hours and `mins` minutes. */
  function Total(hours: nat, mins: nat): nat {
    hours * 60 + mins
  }

  lemma ReadHoursAndMinutes(h: string, m: string)
    requires AllDigits(h) && AllDigits(m)
    ensures ReadMinutes(h + "h " + m + "m") == Some(Total(ParseNat(h), ParseNat(m)))
  {
    var s := h + "h " + m + "m";
    var body := h + "h " + m;
    assert s[..|s| - 1] == body;
    assert s[|s| - 1] == 'm';
    assert body[|h|] == 'h' && body[|h| + 1] == ' ';
    forall k | 0 <= k < |h| ensures body[k] != 'h' {
      assert body[k] == h[k] && IsDigit(h[k]);
    }
    IndexOfCharAt(body, 'h', |h|);
    assert body[..|h|] == h;
    assert body[|h| + 2..] == m;
    assert AllDigits(body[..|h|]) && AllDigits(body[|h| + 2..]);
    assert ParseNat(body[..|h|]) == ParseNat(h);
    assert ParseNat(body[|h| + 2..]) == ParseNat(m);
    assert |h| + 2 <= |body| && body[|h| + 1] == ' ';
    assert ReadHours(body, |h|) == Some(Total(ParseNat(h), ParseNat(m)));
    assert ReadAmount(body) == ReadHours(body, |h|);
  }

  lemma ReadPlainMinutes(m: string)
    requires AllDigits(m)
    ensures ReadMinutes(m + "m") == Some(ParseNat(m))
  {
    var s := m + "m";
    var body := s[..|s| - 1];
    assert body == m;
    assert s[|s| - 1] == 'm';
    assert 'h' !in body by {
      forall k | 0 <= k < |body| ensures body[k] != 'h' {
        assert IsDigit(m[k]);
      }
    }
  }

  /** The formatted text determines the minutes: reading it back gives them. */
  lemma ReadFormatMinutes(minutes: nat)
    ensures ReadMinutes(FormatMinutes(minutes)) == Some(minutes)
  {
    ParseNatToString(minutes / 60);
    ParseNatToString(minutes % 60);
    if minutes / 60 > 0 {
      ReadHoursAndMinutes(NatToString(minutes / 60), NatToString(minutes % 60));
      assert Total(minutes / 60, minutes % 60) == minutes;
    } else {
      ReadPlainMinutes(NatToString(minutes % 60));
    }
  }
}
