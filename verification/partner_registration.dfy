/** The five-step delivery-partner registration wizard
    (components/delivery-partner-registration.tsx): the form, the vehicle
    toggle, the per-step checks and the upper-cased IFSC input. Its submit only
    waits and calls back, so only the enabling of the button is modelled. */
module PartnerWizard {
  import opened Seqs
  import opened Text
  import opened Forms

  const LastStep: int := 5

  function InitialForm(): Form {
    map[
      "name" := Str(""), "phone" := Str(""), "email" := Str(""), "address" := Str(""),
      "availableVehicles" := List([]), "preferredVehicleType" := Str(""),
      "aadharNumber" := Str(""), "drivingLicenseNumber" := Str(""), "vehicleRegistrationNumber" := Str(""),
      "bankAccountNumber" := Str(""), "ifscCode" := Str(""),
      "termsAccepted" := Flag(false)
    ]
  }

  function Vehicles(form: Form): seq<string> {
    Items(Get(form, "availableVehicles"))
  }

  /** `toggleVehicle(vehicleId)`: only the available-vehicle list changes; the
      preferred vehicle is left as it was. */
  function ToggleVehicle(form: Form, vehicle: string): (r: Form)
    ensures r.Keys == form.Keys + {"availableVehicles"}
    ensures forall k :: k in form && k != "availableVehicles" ==> r[k] == form[k]
    ensures Get(r, "preferredVehicleType") == Get(form, "preferredVehicleType")
    ensures vehicle in Vehicles(r) <==> vehicle !in Vehicles(form)
    ensures forall v :: v != vehicle ==> (v in Vehicles(r) <==> v in Vehicles(form))
    ensures Distinct(Vehicles(form)) ==> Distinct(Vehicles(r))
    ensures vehicle !in Vehicles(form) ==> Vehicles(r) == Vehicles(form) + [vehicle]
    ensures vehicle in Vehicles(form) ==>
      Subseq(Vehicles(r), Vehicles(form)) && forall v :: multiset(Vehicles(r))[v] == if v == vehicle then 0 else multiset(Vehicles(form))[v]
  {
    SetField(form, "availableVehicles", List(Toggle(Vehicles(form), vehicle)))
  }

  /** Toggling the same vehicle twice restores the selection. */
  lemma ToggleVehicleTwice(form: Form, vehicle: string)
    ensures forall v :: v in Vehicles(ToggleVehicle(ToggleVehicle(form, vehicle), vehicle)) <==> v in Vehicles(form)
  {
    ToggleTwice(Vehicles(form), vehicle);
  }

  predicate Filled(form: Form, field: string) {
    Truthy(Get(form, field))
  }

  /** `canProceed()` for the given step. */
  predicate CanProceed(form: Form, step: int) {
    if step == 1 then Filled(form, "name") && Filled(form, "phone") && Filled(form, "email")
    else if step == 2 then NonEmpty(Get(form, "availableVehicles")) && Filled(form, "preferredVehicleType")
    else if step == 3 then
      Filled(form, "aadharNumber") && Filled(form, "drivingLicenseNumber") && Filled(form, "vehicleRegistrationNumber")
    else if step == 4 then Filled(form, "bankAccountNumber") && Filled(form, "ifscCode")
    else if step == 5 then Filled(form, "termsAccepted")
    else false
  }

  /** The vehicle step passes with a preferred vehicle that is not among the
      available ones: nothing ties the two fields together. */
  lemma PreferredNeedNotBeAvailable()
    ensures var form := ToggleVehicle(SetField(InitialForm(), "preferredVehicleType", Str("car")), "cycle");
      CanProceed(form, 2) && "car" !in Vehicles(form)
  {
    var f0 := SetField(InitialForm(), "preferredVehicleType", Str("car"));
    assert Get(f0, "availableVehicles") == List([]);
    assert Get(f0, "preferredVehicleType") == Str("car");
    var form := ToggleVehicle(f0, "cycle");
    assert Vehicles(form) == [] + ["cycle"];
    assert Get(form, "availableVehicles") == List(["cycle"]);
  }

  /** The untouched form passes no step. */
  lemma InitialFormChecks()
    ensures forall step :: !CanProceed(InitialForm(), step)
  {
  }

  /** The IFSC input stores what was typed, upper-cased. */
  function EnterIfsc(form: Form, typed: string): (r: Form)
    ensures r.Keys == form.Keys + {"ifscCode"}
    ensures Get(r, "ifscCode").Str? && |Get(r, "ifscCode").s| == |typed|
    ensures forall i :: 0 <= i < |typed| ==> Get(r, "ifscCode").s[i] == Upper(typed[i])
    ensures forall i :: 0 <= i < |typed| ==> !('a' <= Get(r, "ifscCode").s[i] <= 'z')
    ensures forall k :: k in form && k != "ifscCode" ==> r[k] == form[k]
  {
    ToUpperIdempotent(typed);
    SetField(form, "ifscCode", Str(ToUpper(typed)))
  }

  /** Retyping the stored code changes nothing. */
  lemma EnterIfscIdempotent(form: Form, typed: string)
    ensures EnterIfsc(EnterIfsc(form, typed), Get(EnterIfsc(form, typed), "ifscCode").s) == EnterIfsc(form, typed)
  {
    ToUpperIdempotent(typed);
  }

  /** The submit button: shown on the last step, enabled when the terms are
      accepted and no submission is running. */
  predicate SubmitEnabled(form: Form, step: int, loading: bool) {
    step == LastStep && CanProceed(form, step) && !loading
  }

  lemma SubmitNeedsTerms(form: Form, step: int, loading: bool)
    ensures SubmitEnabled(form, step, loading) <==> step == 5 && Truthy(Get(form, "termsAccepted")) && !loading
  {
  }
}
