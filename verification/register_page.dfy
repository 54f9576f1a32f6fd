/** The sign-up page (app/auth/register/page.tsx): the ordered form
    validation, the role-specific registration request and what the page does
    with the answer. The redirect of an already signed-in visitor is routing
    and is not modelled. */
module RegisterPage {
  import opened Optional
  import opened Types
  import Auth
  import opened Text

  datatype RegisterForm = RegisterForm(
    name: string,
    email: string,
    phone: string,
    password: string,
    confirmPassword: string,
    role: Role,
    kitchenName: string,
    kitchenAddress: string,
    fssaiLicense: string,
    gstNumber: string,
    cuisine: seq<string>,
    vehicleType: string,
    licenseNumber: string,
    aadharNumber: string)

  function InitialForm(): RegisterForm {
    RegisterForm("", "", "", "", "", Customer, "", "", "", "", [], "motorcycle", "", "")
  }

  /** The problems `validateForm` reports, in the order it checks them. */
  datatype FormError =
    | FieldsMissing
    | PasswordMismatch
    | PasswordTooShort
    | KitchenDetailsMissing
    | DeliveryDetailsMissing
    | TermsNotAgreed

  function ErrorRank(e: FormError): nat {
    match e
    case FieldsMissing => 0
    case PasswordMismatch => 1
    case PasswordTooShort => 2
    case KitchenDetailsMissing => 3
    case DeliveryDetailsMissing => 4
    case TermsNotAgreed => 5
  }

  function Message(e: FormError): string {
    match e
    case FieldsMissing => "All fields are required"
    case PasswordMismatch => "Passwords do not match"
    case PasswordTooShort => "Password must be at least 6 characters"
    case KitchenDetailsMissing => "Kitchen name and address are required"
    case DeliveryDetailsMissing => "License and Aadhar numbers are required"
    case TermsNotAgreed => "You must agree to the terms and conditions"
  }

  /** Whether the form has problem `e`, each check taken on its own. */
  predicate Has(f: RegisterForm, agreed: bool, e: FormError) {
    match e
    case FieldsMissing => f.name == "" || f.email == "" || f.password == ""
    case PasswordMismatch => f.password != f.confirmPassword
    case PasswordTooShort => Utf16Length(f.password) < 6
    case KitchenDetailsMissing => f.role == KitchenOwner && (f.kitchenName == "" || f.kitchenAddress == "")
    case DeliveryDetailsMissing => f.role == DeliveryAgent && (f.licenseNumber == "" || f.aadharNumber == "")
    case TermsNotAgreed => !agreed
  }

  /** `validateForm()`: the first problem in check order, or none. */
  function Validate(f: RegisterForm, agreed: bool): (r: Option<FormError>)
    ensures r.None? <==> forall e :: !Has(f, agreed, e)
    ensures r.Some? ==> Has(f, agreed, r.value)
    ensures r.Some? ==> forall e :: ErrorRank(e) < ErrorRank(r.value) ==> !Has(f, agreed, e)
  {
    if f.name == "" || f.email == "" || f.password == "" then
      assert Has(f, agreed, FieldsMissing); Some(FieldsMissing)
    else if f.password != f.confirmPassword then
      assert Has(f, agreed, PasswordMismatch); Some(PasswordMismatch)
    else if Utf16Length(f.password) < 6 then
      assert Has(f, agreed, PasswordTooShort); Some(PasswordTooShort)
    else if f.role == KitchenOwner && (f.kitchenName == "" || f.kitchenAddress == "") then
      assert Has(f, agreed, KitchenDetailsMissing); Some(KitchenDetailsMissing)
    else if f.role == DeliveryAgent && (f.licenseNumber == "" || f.aadharNumber == "") then
      assert Has(f, agreed, DeliveryDetailsMissing); Some(DeliveryDetailsMissing)
    else if !agreed then
      assert Has(f, agreed, TermsNotAgreed); Some(TermsNotAgreed)
    else
      None
  }

  /** Conversely, a problem that no earlier check reports is the one shown. */
  lemma FirstErrorUnique(f: RegisterForm, agreed: bool, e: FormError)
    requires Has(f, agreed, e) && forall d :: ErrorRank(d) < ErrorRank(e) ==> !Has(f, agreed, d)
    ensures Validate(f, agreed) == Some(e)
  {
    var r := Validate(f, agreed);
    assert r.Some?;
    assert ErrorRank(r.value) <= ErrorRank(e);
    assert ErrorRank(r.value) == ErrorRank(e);
  }

  /** Missing name, email or password wins over every other problem. */
  lemma MissingFieldsFirst(f: RegisterForm, agreed: bool)
    requires f.name == "" || f.email == "" || f.password == ""
    ensures Validate(f, agreed) == Some(FieldsMissing)
  {
  }

  /** The request `handleSubmit` hands to `register`: the common fields, plus
      the kitchen fields only for a kitchen and the delivery fields only for a
      delivery partner. */
  function Request(f: RegisterForm): (req: Auth.RegisterRequest)
    ensures req.email == f.email && req.name == f.name && req.password == f.password && req.role == f.role
    ensures req.phone == Some(f.phone)
    ensures f.role == KitchenOwner <==> req.kitchenName.Some?
    ensures f.role == KitchenOwner ==>
      && req.kitchenName == Some(f.kitchenName) && req.kitchenAddress == Some(f.kitchenAddress)
      && req.fssaiLicense == Some(f.fssaiLicense) && req.gstNumber == Some(f.gstNumber)
      && req.cuisine == Some(f.cuisine)
    ensures f.role != KitchenOwner ==>
      req.kitchenName.None? && req.kitchenAddress.None? && req.fssaiLicense.None? && req.gstNumber.None? && req.cuisine.None?
    ensures f.role == DeliveryAgent <==> req.vehicleType.Some?
    ensures f.role == DeliveryAgent ==>
      req.vehicleType == Some(f.vehicleType) && req.licenseNumber == Some(f.licenseNumber) && req.aadharNumber == Some(f.aadharNumber)
    ensures f.role != DeliveryAgent ==> req.vehicleType.None? && req.licenseNumber.None? && req.aadharNumber.None?
  {
    var kitchen := f.role == KitchenOwner;
    var delivery := f.role == DeliveryAgent;
    Auth.RegisterRequest(
      f.email, f.name, f.password, f.role, Some(f.phone),
      if kitchen then Some(f.kitchenName) else None,
      if kitchen then Some(f.kitchenAddress) else None,
      if kitchen then Some(f.fssaiLicense) else None,
      if kitchen then Some(f.gstNumber) else None,
      if kitchen then Some(f.cuisine) else None,
      if delivery then Some(f.vehicleType) else None,
      if delivery then Some(f.licenseNumber) else None,
      if delivery then Some(f.aadharNumber) else None)
  }

  /** What the other roles' inputs hold never reaches the request: two forms
      that agree on the common fields and on their own role's fields send the
      same request. */
  lemma RequestIgnoresOtherRoles(f: RegisterForm, g: RegisterForm)
    requires f.name == g.name && f.email == g.email && f.phone == g.phone
    requires f.password == g.password && f.role == g.role
    requires f.role == KitchenOwner ==>
      && f.kitchenName == g.kitchenName && f.kitchenAddress == g.kitchenAddress
      && f.fssaiLicense == g.fssaiLicense && f.gstNumber == g.gstNumber && f.cuisine == g.cuisine
    requires f.role == DeliveryAgent ==>
      f.vehicleType == g.vehicleType && f.licenseNumber == g.licenseNumber && f.aadharNumber == g.aadharNumber
    ensures Request(f) == Request(g)
  {
  }

  /** The page after a submit: the error it shows, or where it goes. */
  datatype Outcome = ShowError(message: string) | Redirect(path: string)

  /** Where a new account of each role lands. */
  function HomeOf(role: Role): string {
    match role
    case KitchenOwner => "/kitchen"
    case DeliveryAgent => "/delivery"
    case _ => "/"
  }

  /** `handleSubmit`: validation first; `register` only for a valid form. `id`
      stands for the generated user id. */
  function Submit(s: Auth.AuthState, f: RegisterForm, agreed: bool, id: string): (r: (Auth.AuthState, Outcome))
    ensures Validate(f, agreed).Some? ==> r == (s, ShowError(Message(Validate(f, agreed).value)))
    ensures Validate(f, agreed).None? && Auth.EmailTaken(s.users, f.email) ==>
      r == (s, ShowError("An account with this email already exists"))
    ensures r.1.Redirect? <==> Validate(f, agreed).None? && !Auth.EmailTaken(s.users, f.email)
    ensures r.1.Redirect? ==> r.1.path == HomeOf(f.role)
  {
    match Validate(f, agreed)
    case Some(e) => (s, ShowError(Message(e)))
    case None =>
      var (ok, s1) := Auth.Register(s, Request(f), id);
      if ok then (s1, Redirect(HomeOf(f.role)))
      else (s1, ShowError("An account with this email already exists"))
  }

  /** A redirecting submit signs in a user with the form's role, and a
      delivery partner keeps the vehicle chosen on the form. */
  lemma SubmitSignsIn(s: Auth.AuthState, f: RegisterForm, agreed: bool, id: string)
    requires Submit(s, f, agreed, id).1.Redirect?
    ensures var u := Submit(s, f, agreed, id).0.current;
      && u.Some? && u.value.role == f.role && u.value.email == f.email
      && (f.role == KitchenOwner ==> u.value.extras.KitchenExtras? && u.value.extras.kitchenName == f.kitchenName)
      && (f.role == DeliveryAgent ==> u.value.extras.DeliveryExtras? && u.value.extras.licenseNumber == f.licenseNumber)
      && (f.role == DeliveryAgent && f.vehicleType != "" ==> u.value.extras.vehicleType == f.vehicleType)
  {
  }

  /** Every message is distinct, so the shown text identifies the problem. */
  lemma MessagesDistinct(a: FormError, b: FormError)
    ensures Message(a) == Message(b) <==> a == b
  {
  }
}
