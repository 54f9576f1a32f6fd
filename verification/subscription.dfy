/** The subscription planner (components/subscription-order.tsx): which days
    and meal times to deliver, how many portions, for a week or a month. Dates
    are whole-day numbers; the ISO rendering is not modelled. */
module Subscription {
  import opened Seqs

  datatype Plan = WeeklyPlan | MonthlyPlan

  datatype PlannerState = PlannerState(plan: Plan, days: seq<string>, mealTimes: seq<string>, portions: int)

  const WeekDays: seq<string> := ["Mon", "Tue", "Wed", "Thu", "Fri", "Sat", "Sun"]
  const MealTimes: seq<string> := ["breakfast", "lunch", "dinner"]

  /** The estimated price of one meal, in whole rupees. */
  const BasePricePerMeal: int := 120

  /** Weekly, Monday/Wednesday/Friday lunch, one portion. */
  function Initial(): PlannerState {
    PlannerState(WeeklyPlan, ["Mon", "Wed", "Fri"], ["lunch"], 1)
  }

  /** `toggleDay(day)`. */
  function ToggleDay(s: PlannerState, day: string): (r: PlannerState)
    ensures r.plan == s.plan && r.mealTimes == s.mealTimes && r.portions == s.portions
    ensures day in r.days <==> day !in s.days
    ensures forall d :: d != day ==> (d in r.days <==> d in s.days)
    ensures Distinct(s.days) ==> Distinct(r.days)
    ensures day !in s.days ==> r.days == s.days + [day]
    ensures day in s.days ==>
      Subseq(r.days, s.days) && forall d :: multiset(r.days)[d] == if d == day then 0 else multiset(s.days)[d]
  {
    s.(days := Toggle(s.days, day))
  }

  /** `toggleMealTime(mealTime)`. */
  function ToggleMealTime(s: PlannerState, mealTime: string): (r: PlannerState)
    ensures r.plan == s.plan && r.days == s.days && r.portions == s.portions
    ensures mealTime in r.mealTimes <==> mealTime !in s.mealTimes
    ensures forall m :: m != mealTime ==> (m in r.mealTimes <==> m in s.mealTimes)
    ensures Distinct(s.mealTimes) ==> Distinct(r.mealTimes)
    ensures mealTime !in s.mealTimes ==> r.mealTimes == s.mealTimes + [mealTime]
    ensures mealTime in s.mealTimes ==>
      Subseq(r.mealTimes, s.mealTimes) && forall m :: multiset(r.mealTimes)[m] == if m == mealTime then 0 else multiset(s.mealTimes)[m]
  {
    s.(mealTimes := Toggle(s.mealTimes, mealTime))
  }

  /** Toggling the same day or meal time twice restores the selection, and
      exactly when the value was absent it restores the list itself. */
  lemma ToggleTwiceRestores(s: PlannerState, day: string, mealTime: string)
    ensures forall d :: d in ToggleDay(ToggleDay(s, day), day).days <==> d in s.days
    ensures day !in s.days ==> ToggleDay(ToggleDay(s, day), day) == s
    ensures forall m :: m in ToggleMealTime(ToggleMealTime(s, mealTime), mealTime).mealTimes <==> m in s.mealTimes
  {
    ToggleTwice(s.days, day);
    ToggleTwice(s.mealTimes, mealTime);
  }

  /** `getTotalDeliveries()`: days × meal times a week, four weeks a month. */
  function TotalDeliveries(s: PlannerState): (n: nat)
    ensures n == 0 <==> |s.days| == 0 || |s.mealTimes| == 0
    ensures s.plan == WeeklyPlan ==> n == |s.days| * |s.mealTimes|
    ensures s.plan == MonthlyPlan ==> n == 4 * (|s.days| * |s.mealTimes|)
  {
    var perWeek := |s.days| * |s.mealTimes|;
    if s.plan == WeeklyPlan then perWeek else perWeek * 4
  }

  /** `getEstimatedPrice()`: the per-meal price for every portion of every
      delivery. It is zero exactly when nothing is selected or there are no
      portions, and a month costs four weeks. */
  function EstimatedPrice(s: PlannerState): (p: int)
    ensures p == 0 <==> |s.days| == 0 || |s.mealTimes| == 0 || s.portions == 0
    ensures s.portions >= 0 ==> p >= 0
    ensures s.plan == WeeklyPlan ==> p == BasePricePerMeal * (|s.days| * |s.mealTimes|) * s.portions
    ensures s.plan == MonthlyPlan ==> p == 4 * (BasePricePerMeal * (|s.days| * |s.mealTimes|) * s.portions)
  {
    PriceFactors(TotalDeliveries(s), |s.days| * |s.mealTimes|, s.portions, s.plan == MonthlyPlan);
    BasePricePerMeal * TotalDeliveries(s) * s.portions
  }

  /** The arithmetic behind the price's contract, on plain numbers. */
  lemma PriceFactors(n: nat, week: nat, portions: int, monthly: bool)
    requires n == if monthly then 4 * week else week
    ensures BasePricePerMeal * n * portions == 0 <==> n == 0 || portions == 0
    ensures portions >= 0 ==> BasePricePerMeal * n * portions >= 0
    ensures monthly ==> BasePricePerMeal * n * portions == 4 * (BasePricePerMeal * week * portions)
  {
    assert BasePricePerMeal * n * portions == BasePricePerMeal * (n * portions);
    if n != 0 && portions != 0 {
      NonZeroProduct(n, portions);
    }
    if portions >= 0 {
      NonNegativeProduct(n, portions);
    }
    if monthly {
      MonthlyFactor(week, portions);
    }
  }

  lemma NonZeroProduct(a: nat, b: int)
    requires a != 0 && b != 0
    ensures a * b != 0
  {
    if b > 0 {
      PositiveProduct(a, b);
    } else {
      PositiveProduct(a, -b);
      assert a * b == -(a * (-b));
    }
  }

  lemma {:induction false} PositiveProduct(a: nat, b: nat)
    requires a > 0 && b > 0
    ensures a * b > 0
    decreases a
  {
    if a > 1 {
      PositiveProduct(a - 1, b);
      assert a * b == (a - 1) * b + b;
    }
  }

  lemma NonNegativeProduct(a: nat, b: int)
    requires b >= 0
    ensures a * b >= 0
  {
  }

  lemma MonthlyFactor(week: int, portions: int)
    ensures BasePricePerMeal * (4 * week) * portions == 4 * (BasePricePerMeal * week * portions)
  {
  }

  /** "Continue" is enabled once a day and a meal time are chosen, which is
      exactly when there is at least one delivery. */
  predicate CanContinue(s: PlannerState) {
    !(|s.days| == 0 || |s.mealTimes| == 0)
  }

  lemma ContinueIffDeliveries(s: PlannerState)
    ensures CanContinue(s) <==> TotalDeliveries(s) > 0
    ensures CanContinue(s) && s.portions >= 1 ==> EstimatedPrice(s) >= BasePricePerMeal
  {
    if CanContinue(s) && s.portions >= 1 {
      var n := TotalDeliveries(s);
      assert n * s.portions >= 1 by {
        assert n * s.portions >= n * 1;
      }
      assert EstimatedPrice(s) == BasePricePerMeal * (n * s.portions);
    }
  }

  /** The "−" portions button: `Math.max(1, portions - 1)`. */
  function PortionsMinus(s: PlannerState): (r: PlannerState)
    ensures r.portions >= 1 && r.portions >= s.portions - 1
    ensures s.portions > 1 ==> r.portions == s.portions - 1
    ensures s.portions <= 1 ==> r.portions == 1
    ensures r.(portions := s.portions) == s
  {
    s.(portions := if s.portions - 1 > 1 then s.portions - 1 else 1)
  }

  /** The "+" portions button: `Math.min(10, portions + 1)`. */
  function PortionsPlus(s: PlannerState): (r: PlannerState)
    ensures r.portions <= 10 && r.portions <= s.portions + 1
    ensures s.portions < 10 ==> r.portions == s.portions + 1
    ensures s.portions >= 10 ==> r.portions == 10
    ensures r.(portions := s.portions) == s
  {
    s.(portions := if s.portions + 1 < 10 then s.portions + 1 else 10)
  }

  /** A click on the planner's controls. */
  datatype Click = DayClick(day: string) | MealClick(mealTime: string) | Minus | Plus | SwitchPlan(plan: Plan)

  function Step(s: PlannerState, c: Click): PlannerState {
    match c
    case DayClick(d) => ToggleDay(s, d)
    case MealClick(m) => ToggleMealTime(s, m)
    case Minus => PortionsMinus(s)
    case Plus => PortionsPlus(s)
    case SwitchPlan(p) => s.(plan := p)
  }

  function Run(s: PlannerState, clicks: seq<Click>): PlannerState
    decreases |clicks|
  {
    if |clicks| == 0 then s else Run(Step(s, clicks[0]), clicks[1..])
  }

  /** What the planner keeps true: portions in [1, 10], no day or meal time
      listed twice, and only days and meal times the page offers. */
  predicate Valid(s: PlannerState) {
    && 1 <= s.portions <= 10
    && Distinct(s.days) && Distinct(s.mealTimes)
    && (forall d :: d in s.days ==> d in WeekDays)
    && (forall m :: m in s.mealTimes ==> m in MealTimes)
  }

  /** A click the page can produce: the day and meal buttons carry offered values. */
  predicate Offered(c: Click) {
    (c.DayClick? ==> c.day in WeekDays) && (c.MealClick? ==> c.mealTime in MealTimes)
  }

  lemma InitialValid()
    ensures Valid(Initial())
  {
  }

  /** Any run of offered clicks from a valid planner keeps it valid. */
  lemma {:induction false} RunKeepsValid(s: PlannerState, clicks: seq<Click>)
    requires Valid(s) && forall i :: 0 <= i < |clicks| ==> Offered(clicks[i])
    ensures Valid(Run(s, clicks))
    decreases |clicks|
  {
    if |clicks| > 0 {
      var c := clicks[0];
      var t := Step(s, c);
      match c {
        case DayClick(d) =>
          assert forall x :: x in t.days ==> x in s.days || x == d;
        case MealClick(m) =>
          assert forall x :: x in t.mealTimes ==> x in s.mealTimes || x == m;
        case Minus =>
        case Plus =>
        case SwitchPlan(p) =>
      }
      RunKeepsValid(t, clicks[1..]);
    }
  }

  lemma {:induction false} DistinctWithin(s: seq<string>, universe: seq<string>)
    requires Distinct(s) && forall x :: x in s ==> x in universe
    ensures |s| <= |universe|
  {
    var a := set x | x in s;
    var b := set x | x in universe;
    DistinctSetSize(s);
    SetSizeAtMost(universe);
    assert a <= b;
    SubsetSize(a, b);
  }

  lemma SubsetSize(a: set<string>, b: set<string>)
    requires a <= b
    ensures |a| <= |b|
  {
    assert b == a + (b - a);
  }

  lemma {:induction false} DistinctSetSize(s: seq<string>)
    requires Distinct(s)
    ensures |set x | x in s| == |s|
  {
    if |s| > 0 {
      DistinctCons(s[0], s[1..]);
      assert s == [s[0]] + s[1..];
      DistinctSetSize(s[1..]);
      assert (set x | x in s) == {s[0]} + (set x | x in s[1..]);
    }
  }

  lemma {:induction false} SetSizeAtMost(s: seq<string>)
    ensures |set x | x in s| <= |s|
  {
    if |s| > 0 {
      SetSizeAtMost(s[1..]);
      assert (set x | x in s) == {s[0]} + (set x | x in s[1..]);
    }
  }

  /** Products of naturals are monotone in both factors. */
  lemma ProductAtMost(a: nat, b: nat, x: nat, y: nat)
    requires a <= x && b <= y
    ensures a * b <= x * y
  {
    assert a * b <= x * b;
    assert x * b <= x * y;
  }

  /** A valid planner never exceeds 7 days × 3 meals × 4 weeks deliveries, so
      the estimate never exceeds 120 × 84 × 10. */
  lemma DeliveriesBounded(s: PlannerState)
    requires Valid(s)
    ensures TotalDeliveries(s) <= 84
    ensures 0 <= EstimatedPrice(s) <= BasePricePerMeal * 84 * 10
  {
    DistinctWithin(s.days, WeekDays);
    DistinctWithin(s.mealTimes, MealTimes);
    ProductAtMost(|s.days|, |s.mealTimes|, 7, 3);
    var n := TotalDeliveries(s);
    ProductAtMost(n, s.portions, 84, 10);
    assert EstimatedPrice(s) == BasePricePerMeal * (n * s.portions);
  }

  datatype SubscriptionPlan = SubscriptionPlan(plan: Plan, deliveryDays: seq<string>, mealTimes: seq<string>,
                                               startDay: int, endDay: int, portions: int)

  /** `calculateSubscription()` with `today` as a day number: the plan ends 7
      days later for a week and 30 days later for a month. */
  function CalculateSubscription(s: PlannerState, today: int): (p: SubscriptionPlan)
    ensures p.startDay == today
    ensures p.endDay - p.startDay == if s.plan == WeeklyPlan then 7 else 30
    ensures p.plan == s.plan && p.deliveryDays == s.days && p.mealTimes == s.mealTimes && p.portions == s.portions
  {
    SubscriptionPlan(s.plan, s.days, s.mealTimes, today, today + (if s.plan == WeeklyPlan then 7 else 30), s.portions)
  }

  /** The plan's span holds as many whole weeks as the delivery count assumes:
      one for a week, four (of the 30 days) for a month; and the planner's
      choices can be read back from the plan. */
  lemma PlanSpanMatchesDeliveries(s: PlannerState, today: int)
    ensures var p := CalculateSubscription(s, today);
      && TotalDeliveries(s) == |p.deliveryDays| * |p.mealTimes| * ((p.endDay - p.startDay) / 7)
      && PlannerState(p.plan, p.deliveryDays, p.mealTimes, p.portions) == s
  {
    var p := CalculateSubscription(s, today);
    if s.plan == MonthlyPlan {
      assert (p.endDay - p.startDay) / 7 == 4;
    }
  }
}
