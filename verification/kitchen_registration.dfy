/** The six-step kitchen registration wizard
    (components/kitchen-registration.tsx): the form, its list toggles, the
    per-step checks that enable Next and Submit, and the registration request
    it submits. Routing and the `onSuccess` callback are not modelled. */
module KitchenWizard {
  import opened Optional
  import opened Seqs
  import opened Text
  import opened Types
  import opened Forms
  import Auth

  const LastStep: int := 6

  const WeekDays: seq<string> := ["Mon", "Tue", "Wed", "Thu", "Fri", "Sat", "Sun"]

  /** The password the wizard registers every kitchen with. */
  const KitchenPassword: string := "tempPassword123"

  /** The form as the page first renders it. The 2.99 delivery fee is stored in
      minor units. */
  function InitialForm(): Form {
    map[
      "kitchenName" := Str(""), "kitchenType" := Str("cloud_kitchen"), "description" := Str(""),
      "cuisineTypes" := List([]),
      "address" := Str(""), "area" := Str(""), "city" := Str(""), "pincode" := Str(""),
      "coordinates" := Group(map["lat" := Str(""), "lng" := Str("")]),
      "operatingHours" := Group(map["open" := Str("11:00"), "close" := Str("23:00"), "days" := List(WeekDays)]),
      "minOrderAmount" := Num(150), "deliveryTime" := Num(30), "deliveryFee" := Num(299),
      "subscriptionAvailable" := Flag(true),
      "businessLicense" := Str(""), "fssaiLicense" := Str(""), "gstNumber" := Str(""),
      "ownerName" := Str(""), "phone" := Str(""), "email" := Str(""),
      "termsAccepted" := Flag(false)
    ]
  }

  /** The selected cuisines, and the operating days inside `operatingHours`. */
  function Cuisines(form: Form): seq<string> {
    Items(Get(form, "cuisineTypes"))
  }

  function Days(form: Form): seq<string> {
    Items(Member(Get(form, "operatingHours"), "days"))
  }

  /** `toggleCuisine(cuisine)`: only the cuisine list changes. */
  function ToggleCuisine(form: Form, cuisine: string): (r: Form)
    ensures r.Keys == form.Keys + {"cuisineTypes"}
    ensures forall k :: k in form && k != "cuisineTypes" ==> r[k] == form[k]
    ensures cuisine in Cuisines(r) <==> cuisine !in Cuisines(form)
    ensures forall c :: c != cuisine ==> (c in Cuisines(r) <==> c in Cuisines(form))
    ensures Distinct(Cuisines(form)) ==> Distinct(Cuisines(r))
    ensures cuisine !in Cuisines(form) ==> Cuisines(r) == Cuisines(form) + [cuisine]
    ensures cuisine in Cuisines(form) ==>
      Subseq(Cuisines(r), Cuisines(form)) && forall c :: multiset(Cuisines(r))[c] == if c == cuisine then 0 else multiset(Cuisines(form))[c]
  {
    form["cuisineTypes" := List(Toggle(Cuisines(form), cuisine))]
  }

  /** `toggleDay(day)`: only the day list inside `operatingHours` changes; the
      opening and closing times are kept. */
  function ToggleDay(form: Form, day: string): (r: Form)
    ensures r.Keys == form.Keys + {"operatingHours"}
    ensures forall k :: k in form && k != "operatingHours" ==> r[k] == form[k]
    ensures r["operatingHours"].Group?
    ensures forall k :: k in Siblings(form, "operatingHours") && k != "days" ==>
      k in r["operatingHours"].fields && r["operatingHours"].fields[k] == Siblings(form, "operatingHours")[k]
    ensures day in Days(r) <==> day !in Days(form)
    ensures forall d :: d != day ==> (d in Days(r) <==> d in Days(form))
    ensures Distinct(Days(form)) ==> Distinct(Days(r))
    ensures day !in Days(form) ==> Days(r) == Days(form) + [day]
    ensures day in Days(form) ==>
      Subseq(Days(r), Days(form)) && forall d :: multiset(Days(r))[d] == if d == day then 0 else multiset(Days(form))[d]
  {
    var hours := Siblings(form, "operatingHours");
    form["operatingHours" := Group(hours["days" := List(Toggle(Days(form), day))])]
  }

  /** Toggling the same cuisine or day twice restores the selection. */
  lemma ToggleTwiceRestores(form: Form, cuisine: string, day: string)
    ensures forall c :: c in Cuisines(ToggleCuisine(ToggleCuisine(form, cuisine), cuisine)) <==> c in Cuisines(form)
    ensures forall d :: d in Days(ToggleDay(ToggleDay(form, day), day)) <==> d in Days(form)
  {
    ToggleTwice(Cuisines(form), cuisine);
    ToggleTwice(Days(form), day);
  }

  /** The top-level fields `canProceed` reads on each step. */
  function StepFields(step: int): seq<string> {
    if step == 1 then ["kitchenName", "kitchenType", "description", "cuisineTypes"]
    else if step == 2 then ["address", "city", "pincode"]
    else if step == 3 then ["operatingHours"]
    else if step == 4 then ["businessLicense", "fssaiLicense"]
    else if step == 5 then ["ownerName", "phone", "email"]
    else if step == 6 then ["termsAccepted"]
    else []
  }

  predicate Filled(form: Form, field: string) {
    Truthy(Get(form, field))
  }

  /** `canProceed()` for the given step. */
  predicate CanProceed(form: Form, step: int) {
    if step == 1 then
      Filled(form, "kitchenName") && Filled(form, "kitchenType") && Filled(form, "description")
      && NonEmpty(Get(form, "cuisineTypes"))
    else if step == 2 then Filled(form, "address") && Filled(form, "city") && Filled(form, "pincode")
    else if step == 3 then NonEmpty(Member(Get(form, "operatingHours"), "days"))
    else if step == 4 then Filled(form, "businessLicense") && Filled(form, "fssaiLicense")
    else if step == 5 then Filled(form, "ownerName") && Filled(form, "phone") && Filled(form, "email")
    else if step == 6 then Filled(form, "termsAccepted")
    else false
  }

  /** Two forms that agree on a step's fields agree on that step's check. */
  lemma ProceedDependsOnStepFields(a: Form, b: Form, step: int)
    requires forall k :: k in StepFields(step) ==> Get(a, k) == Get(b, k)
    ensures CanProceed(a, step) == CanProceed(b, step)
  {
  }

  /** A step's check depends only on that step's fields: a write to any other
      field leaves it as it was. */
  lemma ProceedReadsOnlyStepFields(form: Form, step: int, field: string, value: Value)
    requires Top(field) !in StepFields(step)
    ensures CanProceed(UpdateField(form, field, value), step) == CanProceed(form, step)
  {
    var r := UpdateField(form, field, value);
    forall k | k in StepFields(step) ensures Get(r, k) == Get(form, k) {
    }
    ProceedDependsOnStepFields(r, form, step);
  }

  /** No other field has a 12-character name starting with `c`, so
      `cuisineTypes` is read by step 1 alone. */
  lemma CuisineTypesOnlyStepOne(step: int)
    requires step != 1
    ensures "cuisineTypes" !in StepFields(step)
  {
    assert |"cuisineTypes"| == 12 && "cuisineTypes"[0] == 'c';
    forall k | k in StepFields(step) ensures |k| != 12 || k[0] != 'c' {
    }
  }

  /** Only step 1 looks at the cuisines. */
  lemma ToggleCuisineOnlyStepOne(form: Form, step: int, cuisine: string)
    requires step != 1
    ensures CanProceed(ToggleCuisine(form, cuisine), step) == CanProceed(form, step)
  {
    var r := ToggleCuisine(form, cuisine);
    CuisineTypesOnlyStepOne(step);
    forall k | k in StepFields(step) ensures Get(r, k) == Get(form, k) {
    }
    ProceedDependsOnStepFields(r, form, step);
  }

  /** No field other than `operatingHours` has its 14-character name, so it is
      read by step 3 alone. */
  lemma OperatingHoursOnlyStepThree(step: int)
    requires step != 3
    ensures "operatingHours" !in StepFields(step)
  {
    assert |"operatingHours"| == 14;
    forall k | k in StepFields(step) ensures |k| != 14 {
    }
  }

  /** Only step 3 looks at the operating days. */
  lemma ToggleDayOnlyStepThree(form: Form, step: int, day: string)
    requires step != 3
    ensures CanProceed(ToggleDay(form, day), step) == CanProceed(form, step)
  {
    var r := ToggleDay(form, day);
    OperatingHoursOnlyStepThree(step);
    forall k | k in StepFields(step) ensures Get(r, k) == Get(form, k) {
    }
    ProceedDependsOnStepFields(r, form, step);
  }

  /** The untouched form passes only the operating-days step: every day is
      preselected, every text field is empty and the terms are unticked. */
  lemma InitialFormChecks()
    ensures CanProceed(InitialForm(), 3)
    ensures forall step :: step != 3 ==> !CanProceed(InitialForm(), step)
  {
    InitialStepChecks();
    InitialStepChecksLater();
  }

  lemma InitialStepChecks()
    ensures !CanProceed(InitialForm(), 1) && !CanProceed(InitialForm(), 2)
    ensures CanProceed(InitialForm(), 3)
  {
    assert Get(InitialForm(), "kitchenName") == Str("");
    assert Get(InitialForm(), "address") == Str("");
    assert NonEmpty(Member(Get(InitialForm(), "operatingHours"), "days"));
  }

  lemma InitialStepChecksLater()
    ensures !CanProceed(InitialForm(), 4) && !CanProceed(InitialForm(), 5) && !CanProceed(InitialForm(), 6)
  {
    assert Get(InitialForm(), "businessLicense") == Str("");
    assert Get(InitialForm(), "ownerName") == Str("");
    assert Get(InitialForm(), "termsAccepted") == Flag(false);
  }

  /** The submit button: shown on the last step, enabled when its check passes
      and no submission is running. */
  predicate SubmitEnabled(form: Form, step: int, loading: bool) {
    step == LastStep && CanProceed(form, step) && !loading
  }

  lemma SubmitNeedsTerms(form: Form, step: int, loading: bool)
    ensures SubmitEnabled(form, step, loading) <==> step == 6 && Truthy(Get(form, "termsAccepted")) && !loading
  {
  }

  /** The submitted kitchen address, `"{address}, {area}, {city} - {pincode}"`. */
  function KitchenAddress(form: Form): (a: string)
    ensures Render(Get(form, "address")) + ", " <= a
  {
    Render(Get(form, "address")) + ", " + Render(Get(form, "area")) + ", "
      + Render(Get(form, "city")) + " - " + Render(Get(form, "pincode"))
  }

  /** The address of a kitchen whose fields hold plain text. */
  lemma KitchenAddressOfText(form: Form, address: string, area: string, city: string, pincode: string)
    requires Get(form, "address") == Str(address) && Get(form, "area") == Str(area)
    requires Get(form, "city") == Str(city) && Get(form, "pincode") == Str(pincode)
    ensures KitchenAddress(form) == address + ", " + area + ", " + city + " - " + pincode
    ensures |KitchenAddress(form)| == |address| + |area| + |city| + |pincode| + 7
  {
  }

  /** The request `handleSubmit` passes to `register`. */
  function SubmitRequest(form: Form): (req: Auth.RegisterRequest)
    ensures req.role == KitchenOwner && req.password == KitchenPassword
    ensures req.email == Render(Get(form, "email")) && req.name == Render(Get(form, "ownerName"))
    ensures req.phone == Some(Render(Get(form, "phone")))
    ensures req.kitchenName == Some(Render(Get(form, "kitchenName")))
    ensures req.fssaiLicense == Some(Render(Get(form, "fssaiLicense")))
    ensures req.gstNumber == Some(Render(Get(form, "gstNumber")))
    ensures req.kitchenAddress == Some(KitchenAddress(form))
    ensures req.cuisine == Some(Cuisines(form))
    ensures req.vehicleType.None? && req.licenseNumber.None? && req.aadharNumber.None?
  {
    Auth.RegisterRequest(
      Render(Get(form, "email")), Render(Get(form, "ownerName")), KitchenPassword, KitchenOwner,
      Some(Render(Get(form, "phone"))), Some(Render(Get(form, "kitchenName"))), Some(KitchenAddress(form)),
      Some(Render(Get(form, "fssaiLicense"))), Some(Render(Get(form, "gstNumber"))), Some(Cuisines(form)),
      None, None, None)
  }

  /** Where a submission leaves the customer. */
  datatype Outcome = KitchenDashboard | RegistrationFailedAlert

  /** `handleSubmit`: registers the kitchen owner and goes to the kitchen
      dashboard, or alerts when the email is taken. `id` stands for the
      generated user id. */
  function Submit(s: Auth.AuthState, form: Form, id: string): (r: (Auth.AuthState, Outcome))
    ensures r.1 == KitchenDashboard <==> !Auth.EmailTaken(s.users, Render(Get(form, "email")))
    ensures r.1 == RegistrationFailedAlert ==> r.0 == s
  {
    var (ok, s1) := Auth.Register(s, SubmitRequest(form), id);
    (s1, if ok then KitchenDashboard else RegistrationFailedAlert)
  }

  /** A successful submission signs in a kitchen owner whose stored kitchen
      address is the formatted address and whose cuisines are the selection. */
  lemma SubmitSignsInKitchen(s: Auth.AuthState, form: Form, id: string)
    requires Submit(s, form, id).1 == KitchenDashboard
    ensures var u := Submit(s, form, id).0.current;
      && u.Some? && u.value.role == KitchenOwner && u.value.extras.KitchenExtras?
      && u.value.extras.kitchenAddress == KitchenAddress(form)
      && u.value.extras.cuisine == Cuisines(form)
  {
    assert KitchenAddress(form) != "" by {
      assert |KitchenAddress(form)| >= 2;
    }
  }
}
