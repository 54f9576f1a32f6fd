/** The mock authentication store (lib/auth-context.tsx): a list of stored
    users and the signed-in user. Local storage is replaced by the state value,
    the simulated delay is dropped, and the generated id (`Date.now()`) is a
    parameter. */
module Auth {
  import opened Optional
  import opened Types

  datatype AuthState = AuthState(users: seq<User>, current: Option<User>)

  /** The data a registration form hands to `register`; the optional fields
      are the ones the store defaults. */
  datatype RegisterRequest = RegisterRequest(
    email: string,
    name: string,
    password: string,
    role: Role,
    phone: Option<string>,
    kitchenName: Option<string>,
    kitchenAddress: Option<string>,
    fssaiLicense: Option<string>,
    gstNumber: Option<string>,
    cuisine: Option<seq<string>>,
    vehicleType: Option<string>,
    licenseNumber: Option<string>,
    aadharNumber: Option<string>)

  predicate Matches(u: User, email: string, role: Role) {
    u.email == email && u.role == role
  }

  /** Position of the first stored user with this email and role
      (`users.find(u => u.email === email && u.role === role)`). */
  function FindUser(users: seq<User>, email: string, role: Role): (r: Option<nat>)
    ensures r.None? <==> forall i :: 0 <= i < |users| ==> !Matches(users[i], email, role)
    ensures r.Some? ==> r.value < |users| && Matches(users[r.value], email, role)
    ensures r.Some? ==> forall i :: 0 <= i < r.value ==> !Matches(users[i], email, role)
  {
    if |users| == 0 then None
    else if Matches(users[0], email, role) then Some(0)
    else
      var rest := FindUser(users[1..], email, role);
      assert forall i :: 1 <= i < |users| ==> users[i] == users[1..][i - 1];
      if rest.Some? then Some(rest.value + 1) else None
  }

  /** `login(email, password, role)`: the password is never looked at. */
  function Login(s: AuthState, email: string, password: string, role: Role): (r: (bool, AuthState))
    ensures r.0 <==> exists i :: 0 <= i < |s.users| && Matches(s.users[i], email, role)
    ensures r.1.users == s.users
    ensures !r.0 ==> r.1 == s
    ensures r.0 ==> r.1.current.Some? && Matches(r.1.current.value, email, role)
    ensures r.0 ==> exists i :: 0 <= i < |s.users| && r.1.current == Some(s.users[i])
                      && forall j :: 0 <= j < i ==> !Matches(s.users[j], email, role)
  {
    match FindUser(s.users, email, role)
    case None => (false, s)
    case Some(i) => (true, s.(current := Some(s.users[i])))
  }

  /** Two logins differing only in the password behave identically. */
  lemma LoginIgnoresPassword(s: AuthState, email: string, role: Role, p1: string, p2: string)
    ensures Login(s, email, p1, role) == Login(s, email, p2, role)
  {
  }

  /** `logout()`. */
  function Logout(s: AuthState): (r: AuthState)
    ensures r.current.None? && r.users == s.users
    ensures !IsAuthenticated(r)
  {
    s.(current := None)
  }

  /** `isAuthenticated`: `!!user`. */
  predicate IsAuthenticated(s: AuthState) {
    s.current.Some?
  }

  /** Some stored user, under any role, already has this email. */
  predicate EmailTaken(users: seq<User>, email: string) {
    exists i :: 0 <= i < |users| && users[i].email == email
  }

  /** The record `register` stores: missing strings default to `''`, a missing
      cuisine list to `[]`, a missing vehicle type to `'motorcycle'`, and the
      role-specific fields are present only for their role. */
  function NewUser(req: RegisterRequest, id: string): (u: User)
    ensures u.id == id && u.email == req.email && u.name == req.name && u.role == req.role
    ensures u.phone == OrElse(req.phone, "")
    ensures req.role == KitchenOwner <==> u.extras.KitchenExtras?
    ensures req.role == DeliveryAgent <==> u.extras.DeliveryExtras?
    ensures u.extras.KitchenExtras? ==>
      && u.extras.kitchenName == OrElse(req.kitchenName, "")
      && u.extras.kitchenAddress == OrElse(req.kitchenAddress, "")
      && u.extras.fssaiLicense == OrElse(req.fssaiLicense, "")
      && u.extras.gstNumber == OrElse(req.gstNumber, "")
      && u.extras.cuisine == req.cuisine.GetOr([])
    ensures u.extras.DeliveryExtras? ==>
      && u.extras.vehicleType == OrElse(req.vehicleType, "motorcycle")
      && u.extras.licenseNumber == OrElse(req.licenseNumber, "")
      && u.extras.aadharNumber == OrElse(req.aadharNumber, "")
  {
    var extras :=
      if req.role == KitchenOwner then
        KitchenExtras(OrElse(req.kitchenName, ""), OrElse(req.kitchenAddress, ""),
                      OrElse(req.fssaiLicense, ""), OrElse(req.gstNumber, ""), req.cuisine.GetOr([]))
      else if req.role == DeliveryAgent then
        DeliveryExtras(OrElse(req.vehicleType, "motorcycle"), OrElse(req.licenseNumber, ""),
                       OrElse(req.aadharNumber, ""))
      else NoExtras;
    User(id, req.email, req.name, OrElse(req.phone, ""), req.role, extras)
  }

  /** `register(userData)`: refuses an email already stored under any role;
      otherwise appends the new user and signs them in. */
  function Register(s: AuthState, req: RegisterRequest, id: string): (r: (bool, AuthState))
    ensures !r.0 <==> EmailTaken(s.users, req.email)
    ensures !r.0 ==> r.1 == s
    ensures r.0 ==> |r.1.users| == |s.users| + 1 && r.1.users[..|s.users|] == s.users
    ensures r.0 ==> r.1.users[|s.users|] == NewUser(req, id) && r.1.current == Some(NewUser(req, id))
    ensures r.0 ==> IsAuthenticated(r.1)
  {
    if EmailTaken(s.users, req.email) then (false, s)
    else
      var u := NewUser(req, id);
      assert (s.users + [u])[..|s.users|] == s.users;
      (true, AuthState(s.users + [u], Some(u)))
  }

  /** No two stored users share an email. */
  predicate UniqueEmails(users: seq<User>) {
    forall i, j :: 0 <= i < j < |users| ==> users[i].email != users[j].email
  }

  /** A register keeps stored emails unique. */
  lemma RegisterKeepsUniqueEmails(s: AuthState, req: RegisterRequest, id: string)
    requires UniqueEmails(s.users)
    ensures UniqueEmails(Register(s, req, id).1.users)
  {
    var r := Register(s, req, id);
    if r.0 {
      var users := r.1.users;
      forall i, j | 0 <= i < j < |users| ensures users[i].email != users[j].email {
        if j == |s.users| {
          assert users[i] == s.users[i];
        } else {
          assert users[i] == s.users[i] && users[j] == s.users[j];
        }
      }
    }
  }

  /** Registering any sequence of requests (with any ids) keeps emails unique. */
  lemma {:induction false} RegistersKeepUniqueEmails(s: AuthState, reqs: seq<RegisterRequest>, ids: seq<string>)
    requires UniqueEmails(s.users) && |ids| == |reqs|
    ensures UniqueEmails(RegisterAll(s, reqs, ids).users)
    decreases |reqs|
  {
    if |reqs| > 0 {
      RegisterKeepsUniqueEmails(s, reqs[0], ids[0]);
      RegistersKeepUniqueEmails(Register(s, reqs[0], ids[0]).1, reqs[1..], ids[1..]);
    }
  }

  function RegisterAll(s: AuthState, reqs: seq<RegisterRequest>, ids: seq<string>): AuthState
    requires |ids| == |reqs|
    decreases |reqs|
  {
    if |reqs| == 0 then s else RegisterAll(Register(s, reqs[0], ids[0]).1, reqs[1..], ids[1..])
  }

  /** After a successful register, logging out and back in with the same email
      and role (any password) signs in exactly the new user. */
  lemma RegisterThenLogin(s: AuthState, req: RegisterRequest, id: string, password: string)
    requires Register(s, req, id).0
    ensures var after := Logout(Register(s, req, id).1);
      var r := Login(after, req.email, password, req.role);
      r.0 && r.1.current == Some(NewUser(req, id))
  {
    var s1 := Register(s, req, id).1;
    var after := Logout(s1);
    var u := NewUser(req, id);
    var k := |s.users|;
    assert after.users[k] == u && Matches(u, req.email, req.role);
    forall j | 0 <= j < k ensures !Matches(after.users[j], req.email, req.role) {
      assert after.users[j] == s.users[j];
    }
  }
}
