/** Registration and login. Password hashing and token signing are
    parameters: `hash` stands for bcrypt's hash, `compare` for its check of
    a password against a stored hash, and `sign` for signing the claims
    {email, id} into a token. */
module AuthRoutes {
  import opened Common
  import opened Schema
  import opened Storage
  import opened Middleware

  /** The activation-code table, looked up as an own property (as
      `Object.hasOwn` would): one code per role that can register. */
  function ActivationRole(code: string): (r: Option<Role>)
    ensures r == Some(GarageAdmin) <==> code == "GG-ADMIN-2025"
    ensures r == Some(MechanicStaff) <==> code == "GG-STAFF-2025"
    ensures r.None? <==> code != "GG-ADMIN-2025" && code != "GG-STAFF-2025"
    ensures r != Some(SuperAdmin)
  {
    if code == "GG-ADMIN-2025" then Some(GarageAdmin)
    else if code == "GG-STAFF-2025" then Some(MechanicStaff)
    else None
  }

  /** The property names every object literal inherits from
      `Object.prototype`. Looking one of them up yields a function (for
      `__proto__`, the prototype object itself), which is truthy. */
  predicate InheritedName(code: string)
  {
    code in ["constructor", "hasOwnProperty", "isPrototypeOf", "propertyIsEnumerable", "toString",
             "toLocaleString", "valueOf", "__proto__", "__defineGetter__", "__defineSetter__",
             "__lookupGetter__", "__lookupSetter__"]
  }

  /** `validCodes[activationCode]` as written: the two codes give their
      roles, an inherited name gives its inherited value, which the handler
      goes on to store as the role (`Unlisted`), and any other code gives
      undefined. */
  function ActivationLookupAsWritten(code: string): (r: Option<Role>)
    ensures ActivationRole(code).Some? ==> r == ActivationRole(code)
    ensures r.None? <==> ActivationRole(code).None? && !InheritedName(code)
    ensures r.Some? && r.value.Unlisted? <==> InheritedName(code)
    ensures r.Some? && r.value.Unlisted? ==> r.value.code == code
    ensures r != Some(SuperAdmin)
  {
    if InheritedName(code) then Some(Unlisted(code)) else ActivationRole(code)
  }

  /** The lookup as written admits codes the table does not hold: every
      inherited name passes the check that the own-property lookup refuses. */
  lemma InheritedNamesPassTheCodeCheck(code: string)
    requires InheritedName(code)
    ensures ActivationLookupAsWritten(code).Some? && ActivationRole(code).None?
  {
    assert code != "GG-ADMIN-2025" && code != "GG-STAFF-2025";
  }

  /** A user as the API returns it: `{ ...user, password: undefined }`
      serialises without the password. */
  datatype PublicUser = PublicUser(id: string, email: string, role: Role, garageId: Option<string>,
                                   name: string, createdAt: nat)

  function Redact(u: User): (pub: PublicUser)
    ensures pub.id == u.id && pub.email == u.email && pub.role == u.role
    ensures pub.garageId == u.garageId && pub.name == u.name && pub.createdAt == u.createdAt
  {
    PublicUser(u.id, u.email, u.role, u.garageId, u.name, u.createdAt)
  }

  /** Redaction forgets the password and nothing else. */
  lemma RedactForgetsOnlyThePassword(u: User, v: User)
    ensures Redact(u) == Redact(v) <==> u.(password := v.password) == v
  {
  }

  /** The JSON body of a successful register or login. */
  datatype AuthResponse = AuthResponse(token: string, user: PublicUser, garage: Option<Garage>)

  datatype RegisterBody = RegisterBody(email: string, password: string, name: string, activationCode: string,
                                       garageName: string, ownerName: string, phone: string)

  /** The part of POST /api/auth/register after the code check, for the
      role the code gave: the email is checked, then an admin gets a new
      garage built from the body and is bound to it, and any other role is
      bound to no garage. */
  method Enrol(s: Store, body: RegisterBody, role: Role, hash: string -> string, sign: (string, string) -> string)
    returns (r: Result<AuthResponse>)
    requires s.Valid()
    modifies s
    ensures s.Valid()
    ensures old(s.GetUserByEmail(body.email)).Some? ==>
              r == Err(HttpError(400, "User already exists")) && s.State() == old(s.State())
    ensures role == GarageAdmin && old(s.GetUserByEmail(body.email)).None? ==>
              var g := InsertedGarage(IdOf(old(s.serial)), old(s.now),
                                      NewGarage(body.garageName, body.ownerName, body.phone, body.email, None));
              var u := InsertedUser(IdOf(old(s.serial) + 1), old(s.now),
                                    NewUser(body.email, hash(body.password), GarageAdmin, Some(g.id), body.name));
              s.State() == old(s.State()).(garages := old(s.garages) + [g], users := old(s.users) + [u],
                                           serial := old(s.serial) + 2)
              && r == Ok(AuthResponse(sign(u.email, u.id), Redact(u), Some(g)))
    ensures role != GarageAdmin && old(s.GetUserByEmail(body.email)).None? ==>
              var u := InsertedUser(IdOf(old(s.serial)), old(s.now),
                                    NewUser(body.email, hash(body.password), role, None, body.name));
              s.State() == old(s.State()).(users := old(s.users) + [u], serial := old(s.serial) + 1)
              && r == Ok(AuthResponse(sign(u.email, u.id), Redact(u), None))
  {
    if s.GetUserByEmail(body.email).Some? {
      return Err(HttpError(400, "User already exists"));
    }
    var hashed := hash(body.password);
    var garageId: Option<string> := None;
    if role == GarageAdmin {
      var g := s.CreateGarage(NewGarage(body.garageName, body.ownerName, body.phone, body.email, None));
      assert g in s.garages;
      garageId := Some(g.id);
    }
    var created := s.CreateUser(NewUser(body.email, hashed, role, garageId, body.name));
    var user := created.value;
    var garage: Option<Garage> := None;
    if garageId.Some? {
      garage := s.GetGarage(garageId.value);
      KeyedRowIsUnique(s.garages, GarageKey, s.garages[|s.garages| - 1]);
    }
    r := Ok(AuthResponse(sign(user.email, user.id), Redact(user), garage));
  }

  /** POST /api/auth/register with the code looked up as an own property.
      The activation code is checked first, then the email; an admin gets a
      new garage built from the body and is bound to it, staff are bound to
      no garage. */
  method Register(s: Store, body: RegisterBody, hash: string -> string, sign: (string, string) -> string)
    returns (r: Result<AuthResponse>)
    requires s.Valid()
    modifies s
    ensures s.Valid()
    ensures ActivationRole(body.activationCode).None? ==>
              r == Err(HttpError(400, "Invalid activation code")) && s.State() == old(s.State())
    ensures ActivationRole(body.activationCode).Some? && old(s.GetUserByEmail(body.email)).Some? ==>
              r == Err(HttpError(400, "User already exists")) && s.State() == old(s.State())
    ensures ActivationRole(body.activationCode) == Some(GarageAdmin) && old(s.GetUserByEmail(body.email)).None? ==>
              var g := InsertedGarage(IdOf(old(s.serial)), old(s.now),
                                      NewGarage(body.garageName, body.ownerName, body.phone, body.email, None));
              var u := InsertedUser(IdOf(old(s.serial) + 1), old(s.now),
                                    NewUser(body.email, hash(body.password), GarageAdmin, Some(g.id), body.name));
              s.State() == old(s.State()).(garages := old(s.garages) + [g], users := old(s.users) + [u],
                                           serial := old(s.serial) + 2)
              && r == Ok(AuthResponse(sign(u.email, u.id), Redact(u), Some(g)))
    ensures ActivationRole(body.activationCode) == Some(MechanicStaff) && old(s.GetUserByEmail(body.email)).None? ==>
              var u := InsertedUser(IdOf(old(s.serial)), old(s.now),
                                    NewUser(body.email, hash(body.password), MechanicStaff, None, body.name));
              s.State() == old(s.State()).(users := old(s.users) + [u], serial := old(s.serial) + 1)
              && r == Ok(AuthResponse(sign(u.email, u.id), Redact(u), None))
  {
    var role := ActivationRole(body.activationCode);
    if role.None? {
      return Err(HttpError(400, "Invalid activation code"));
    }
    r := Enrol(s, body, role.value, hash, sign);
  }

  /** POST /api/auth/register as written: the code check is the truthiness
      of `validCodes[activationCode]`. A code naming an inherited property
      passes it; with a new email the handler then stores a user whose role
      is that inherited value, bound to no garage, and answers with a token. */
  method RegisterAsWritten(s: Store, body: RegisterBody, hash: string -> string, sign: (string, string) -> string)
    returns (r: Result<AuthResponse>)
    requires s.Valid()
    modifies s
    ensures s.Valid()
    ensures ActivationLookupAsWritten(body.activationCode).None? ==>
              r == Err(HttpError(400, "Invalid activation code")) && s.State() == old(s.State())
    ensures ActivationLookupAsWritten(body.activationCode).Some? && old(s.GetUserByEmail(body.email)).Some? ==>
              r == Err(HttpError(400, "User already exists")) && s.State() == old(s.State())
    ensures ActivationLookupAsWritten(body.activationCode) == Some(GarageAdmin) && old(s.GetUserByEmail(body.email)).None? ==>
              var g := InsertedGarage(IdOf(old(s.serial)), old(s.now),
                                      NewGarage(body.garageName, body.ownerName, body.phone, body.email, None));
              var u := InsertedUser(IdOf(old(s.serial) + 1), old(s.now),
                                    NewUser(body.email, hash(body.password), GarageAdmin, Some(g.id), body.name));
              s.State() == old(s.State()).(garages := old(s.garages) + [g], users := old(s.users) + [u],
                                           serial := old(s.serial) + 2)
              && r == Ok(AuthResponse(sign(u.email, u.id), Redact(u), Some(g)))
    ensures var role := ActivationLookupAsWritten(body.activationCode);
            role.Some? && role.value != GarageAdmin && old(s.GetUserByEmail(body.email)).None? ==>
              var u := InsertedUser(IdOf(old(s.serial)), old(s.now),
                                    NewUser(body.email, hash(body.password), role.value, None, body.name));
              s.State() == old(s.State()).(users := old(s.users) + [u], serial := old(s.serial) + 1)
              && r == Ok(AuthResponse(sign(u.email, u.id), Redact(u), None))
  {
    var role := ActivationLookupAsWritten(body.activationCode);
    if role.None? {
      return Err(HttpError(400, "Invalid activation code"));
    }
    r := Enrol(s, body, role.value, hash, sign);
  }

  /** POST /api/auth/login. An unknown email and a wrong password give the
      same 401 response. */
  function Login(s: Store, email: string, password: string, compare: (string, string) -> bool,
                 sign: (string, string) -> string): (r: Result<AuthResponse>)
    reads s
    ensures r.Err? ==> r == Err(HttpError(401, "Invalid credentials"))
    ensures r.Ok? ==> s.GetUserByEmail(email).Some?
    ensures r.Ok? ==> var u := s.GetUserByEmail(email).value;
                      compare(password, u.password)
                      && r.value.token == sign(u.email, u.id) && r.value.user == Redact(u)
                      && r.value.garage == (if Truthy(u.garageId) then s.GetGarage(u.garageId.value) else None)
  {
    var user := s.GetUserByEmail(email);
    if user.None? || !compare(password, user.value.password) then Err(HttpError(401, "Invalid credentials"))
    else
      var u := user.value;
      Ok(AuthResponse(sign(u.email, u.id), Redact(u), if Truthy(u.garageId) then s.GetGarage(u.garageId.value) else None))
  }

  /** Login succeeds exactly when some user has the email and the password
      matches that user's stored hash. */
  lemma LoginSucceedsIff(s: Store, email: string, password: string, compare: (string, string) -> bool,
                         sign: (string, string) -> string)
    requires s.Valid()
    ensures Login(s, email, password, compare, sign).Ok?
            <==> exists u :: u in s.users && u.email == email && compare(password, u.password)
  {
    if exists u :: u in s.users && u.email == email && compare(password, u.password) {
      var u :| u in s.users && u.email == email && compare(password, u.password);
      UserByEmailIsTheUser(s, u);
    }
  }

  /** A registered user whose stored hash matches the password logs in as themself. */
  lemma RegisteredUserLogsIn(s: Store, u: User, password: string, compare: (string, string) -> bool,
                             sign: (string, string) -> string)
    requires s.Valid() && u in s.users && compare(password, u.password)
    ensures Login(s, u.email, password, compare, sign).Ok?
    ensures Login(s, u.email, password, compare, sign).value.user == Redact(u)
  {
    UserByEmailIsTheUser(s, u);
  }
}
