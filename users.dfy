/** The user service: sign-up of customers and vendors, login and profile
    edits. The password encoder is a parameter `encode`; nothing is assumed
    about it. */
module Users {
  import opened Base
  import opened Text
  import opened Tables
  import opened Entities
  import opened Store

  /** SignUpReqDto: the role is free text until it is upper-cased. */
  datatype SignUpRequest = SignUpRequest(name: string, email: string, password: string, phone: string, role: string)

  /** The fields addVendor copies from its request. */
  datatype VendorRequest = VendorRequest(name: string, email: string, password: string, phone: string)

  /** The fields updateProfile copies from its request. */
  datatype ProfileRequest = ProfileRequest(name: string, email: string, password: string, phone: string)

  /** UserDto: what the service hands back, without the password. */
  datatype UserView = UserView(id: nat, name: string, email: string, phone: string, role: string, addressId: Option<nat>)

  function ViewOf(id: nat, u: User): UserView
  {
    UserView(id, u.name, u.email, u.phone, u.role, u.addressId)
  }

  /** VendorDto as addVendor hands it back: the saved user mapped back,
      its stored (encoded) password included. */
  datatype VendorView = VendorView(id: nat, name: string, email: string, password: string, phone: string, role: string)

  function VendorViewOf(id: nat, u: User): VendorView
  {
    VendorView(id, u.name, u.email, u.password, u.phone, u.role)
  }

  /** `existsByEmail(email)`. */
  predicate EmailTaken(users: Table<User>, email: string)
  {
    exists id :: id in users.rows && users.rows[id].email == email
  }

  /** The unique constraint on the email column. */
  ghost predicate EmailsDistinct(users: Table<User>)
  {
    forall i, j :: i in users.rows && j in users.rows && users.rows[i].email == users.rows[j].email ==> i == j
  }

  /** Whether a stored password is something the encoder produced. */
  ghost predicate Encoded(password: string, encode: string -> string)
  {
    exists raw :: encode(raw) == password
  }

  /** Every stored password came out of the encoder: no raw password is kept. */
  ghost predicate PasswordsEncoded(users: Table<User>, encode: string -> string)
  {
    forall id :: id in users.rows ==> Encoded(users.rows[id].password, encode)
  }

  /** Inserting a user or rewriting one keeps every row that refers to users valid. */
  lemma UsersGrowKeepIntegrity(db: Database, users': Table<User>)
    requires db.Valid()
    requires db.users.rows.Keys <= users'.rows.Keys
    ensures CartsOwned(db.carts, users') && CatalogueReferenced(db.products, db.categories, users')
    ensures OrdersReferenced(db.orders, db.payments, users')
  {
  }

  // ----- Sign-up: registerUser and addVendor -----

  /** The check both sign-ups share: an email already registered is refused,
      otherwise the user is saved under a fresh id. */
  function SignUp(users: Table<User>, u: User): (r: Result<Table<User>>)
    ensures r.Err? <==> EmailTaken(users, u.email)
    ensures r.Err? ==> r.error == InvalidInput("user already exist by email!!!!")
    ensures r.Ok? ==> r.value.rows == users.rows[users.next := u] && users.next !in users.rows
  {
    if EmailTaken(users, u.email) then Err(InvalidInput("user already exist by email!!!!"))
    else Ok(Insert(users, u))
  }

  /** A sign-up with an encoded password keeps the emails distinct and every
      stored password encoded. */
  lemma SignUpKeepsInvariants(users: Table<User>, u: User, encode: string -> string)
    requires EmailsDistinct(users) && PasswordsEncoded(users, encode)
    requires Encoded(u.password, encode)
    requires SignUp(users, u).Ok?
    ensures EmailsDistinct(SignUp(users, u).value) && PasswordsEncoded(SignUp(users, u).value, encode)
  {
    var after := SignUp(users, u).value;
    forall i, j | i in after.rows && j in after.rows && i != j
      ensures after.rows[i].email != after.rows[j].email
    {
      if i == users.next {
        assert after.rows[j] == users.rows[j];
      } else if j == users.next {
        assert after.rows[i] == users.rows[i];
      }
    }
  }

  /** The user registerUser saves: the role upper-cased, the password encoded, no address. */
  function RegisteredUser(dto: SignUpRequest, encode: string -> string): User
  {
    User(dto.name, dto.email, encode(dto.password), dto.phone, ToUpper(dto.role), None)
  }

  /** A registered user's role is a case variant of the requested one that
      upper-casing leaves alone, and the password is the encoder's output for
      the requested one. */
  lemma RegisteredUserShape(dto: SignUpRequest, encode: string -> string)
    ensures var u := RegisteredUser(dto, encode);
            && EqualsIgnoreCase(u.role, dto.role) && ToUpper(u.role) == u.role
            && u.password == encode(dto.password) && Encoded(u.password, encode)
            && u.addressId == None
  {
    ToUpperIdempotent(dto.role);
  }

  method RegisterUser(db: Database, dto: SignUpRequest, encode: string -> string) returns (r: Result<UserView>)
    requires db.Valid()
    modifies db`users
    ensures db.Valid()
    ensures var outcome := SignUp(old(db.users), RegisteredUser(dto, encode));
            && (outcome.Err? ==> r == Err(outcome.error) && db.users == old(db.users))
            && (outcome.Ok? ==> db.users == outcome.value && r == Ok(ViewOf(old(db.users.next), RegisteredUser(dto, encode))))
  {
    var u := RegisteredUser(dto, encode);
    var outcome := SignUp(db.users, u);
    if outcome.Err? {
      return Err(outcome.error);
    }
    r := Ok(ViewOf(db.users.next, u));
    UsersGrowKeepIntegrity(db, outcome.value);
    db.SetUsers(outcome.value);
  }

  /** The user addVendor saves: role ROLE_VENDOR, the password encoded, no address. */
  function VendorUser(dto: VendorRequest, encode: string -> string): User
  {
    User(dto.name, dto.email, encode(dto.password), dto.phone, "ROLE_VENDOR", None)
  }

  /** `addVendor(dto)`: the result hands the encoded password back to the caller. */
  method AddVendor(db: Database, dto: VendorRequest, encode: string -> string) returns (r: Result<VendorView>)
    requires db.Valid()
    modifies db`users
    ensures db.Valid()
    ensures var outcome := SignUp(old(db.users), VendorUser(dto, encode));
            && (outcome.Err? ==> r == Err(outcome.error) && db.users == old(db.users))
            && (outcome.Ok? ==> db.users == outcome.value && r == Ok(VendorViewOf(old(db.users.next), VendorUser(dto, encode))))
    ensures r.Ok? ==> r.value.password == encode(dto.password) && r.value.role == "ROLE_VENDOR"
                      && r.value.id in db.users.rows && db.users.rows[r.value.id].password == r.value.password
  {
    var u := VendorUser(dto, encode);
    var outcome := SignUp(db.users, u);
    if outcome.Err? {
      return Err(outcome.error);
    }
    r := Ok(VendorViewOf(db.users.next, u));
    UsersGrowKeepIntegrity(db, outcome.value);
    db.SetUsers(outcome.value);
  }

  // ----- login -----

  /** `login(email, password)`: the user with that email, or NotFound. The
      password is never compared with the stored one. */
  function Login(users: Table<User>, email: string, password: string): (r: Result<UserView>)
    ensures r == Err(NotFound("emaill not found!!!")) <==> !EmailTaken(users, email)
    ensures r.Ok? ==> r.value.id in users.rows && r.value == ViewOf(r.value.id, users.rows[r.value.id])
                      && r.value.email == email
    ensures r.Err? ==> r.error in {NotFound("emaill not found!!!"), NonUniqueResult}
  {
    match FindOne(users, (u: User) => u.email == email)
    case Missing => Err(NotFound("emaill not found!!!"))
    case Ambiguous => Err(NonUniqueResult)
    case Found(id) => Ok(ViewOf(id, users.rows[id]))
  }

  /** Login is the same whatever password is given. */
  lemma LoginIgnoresPassword(users: Table<User>, email: string, password: string, other: string)
    ensures Login(users, email, password) == Login(users, email, other)
  {
  }

  /** With distinct emails, login finds the one user with that email, and
      reports an address exactly when the user has one. */
  lemma LoginFinds(users: Table<User>, email: string, password: string, id: nat)
    requires EmailsDistinct(users)
    requires id in users.rows && users.rows[id].email == email
    ensures Login(users, email, password) == Ok(ViewOf(id, users.rows[id]))
    ensures Login(users, email, password).value.addressId.Some? <==> users.rows[id].addressId.Some?
  {
    assert forall i, j :: i in users.rows && j in users.rows && i != j && users.rows[i].email == email
                          ==> users.rows[j].email != email;
  }

  /** A user who has just registered can log in, with no address yet. */
  lemma RegisteredUserLogsIn(users: Table<User>, dto: SignUpRequest, encode: string -> string, password: string)
    requires EmailsDistinct(users) && PasswordsEncoded(users, encode)
    requires SignUp(users, RegisteredUser(dto, encode)).Ok?
    ensures var after := SignUp(users, RegisteredUser(dto, encode)).value;
            Login(after, dto.email, password) == Ok(ViewOf(users.next, RegisteredUser(dto, encode)))
            && Login(after, dto.email, password).value.addressId == None
  {
    var u := RegisteredUser(dto, encode);
    RegisteredUserShape(dto, encode);
    SignUpKeepsInvariants(users, u, encode);
    var after := SignUp(users, u).value;
    LoginFinds(after, dto.email, password, users.next);
  }

  // ----- updateProfile -----

  /** The user after updateProfile as the code is written: every request
      field is copied first, the password included, and only a non-blank
      password is then replaced by its encoding, so a blank one stays in the
      row as it was typed. */
  function ProfileUpdatedAsWritten(u: User, dto: ProfileRequest, encode: string -> string): User
  {
    var copied := u.(name := dto.name, email := dto.email, password := dto.password, phone := dto.phone);
    if !IsBlank(dto.password) then copied.(password := encode(dto.password)) else copied
  }

  /** A blank password in the request replaces the stored, encoded one with
      the blank text: when the encoder never yields that text, the table no
      longer holds only encoded passwords. */
  lemma BlankPasswordStoredRaw(users: Table<User>, id: nat, dto: ProfileRequest, encode: string -> string)
    requires id in users.rows && IsBlank(dto.password)
    requires forall raw :: encode(raw) != dto.password
    ensures ProfileUpdatedAsWritten(users.rows[id], dto, encode).password == dto.password
    ensures !PasswordsEncoded(Put(users, id, ProfileUpdatedAsWritten(users.rows[id], dto, encode)), encode)
  {
    var after := Put(users, id, ProfileUpdatedAsWritten(users.rows[id], dto, encode));
    assert after.rows[id].password == dto.password;
    assert !Encoded(after.rows[id].password, encode);
  }

  /** The user after updateProfile as its password check intends: the
      request's name, email and phone; a non-blank password encoded; a blank
      one leaves the stored password alone. Role and address are kept. */
  function ProfileUpdated(u: User, dto: ProfileRequest, encode: string -> string): User
  {
    var copied := u.(name := dto.name, email := dto.email, phone := dto.phone);
    if !IsBlank(dto.password) then copied.(password := encode(dto.password)) else copied
  }

  /** The check and the lookup updateProfile shares with its corrected form:
      an unknown id fails, and an email another user already has breaks the
      unique column; otherwise the user becomes `update(u)`. */
  function ProfileOutcome(users: Table<User>, id: nat, dto: ProfileRequest, update: User -> User)
    : (r: Result<Table<User>>)
    ensures id !in users.rows ==> r == Err(NotFound("id not found!!!"))
    ensures r.Ok? ==> id in users.rows && r.value.rows.Keys == users.rows.Keys && r.value.next == users.next
    ensures r.Ok? ==> forall other :: other in users.rows && other != id ==> r.value.rows[other] == users.rows[other]
  {
    if id !in users.rows then Err(NotFound("id not found!!!"))
    else if exists other :: other in users.rows && other != id && users.rows[other].email == dto.email then Err(UniqueViolation)
    else Ok(Put(users, id, update(users.rows[id])))
  }

  /** `updateProfile(userId, dto)` as written: the user table afterwards. */
  function UpdateProfileOutcome(users: Table<User>, id: nat, dto: ProfileRequest, encode: string -> string)
    : (r: Result<Table<User>>)
    ensures id !in users.rows ==> r == Err(NotFound("id not found!!!"))
    ensures r.Ok? ==> id in users.rows && r.value.rows.Keys == users.rows.Keys && r.value.next == users.next
    ensures r.Ok? ==> forall other :: other in users.rows && other != id ==> r.value.rows[other] == users.rows[other]
  {
    ProfileOutcome(users, id, dto, u => ProfileUpdatedAsWritten(u, dto, encode))
  }

  /** An update of a known user succeeds exactly when no other user has the
      requested email. The request's name, email and phone are stored; the
      password becomes the encoding of a non-blank request password and the
      request's blank text otherwise; role and address are kept. */
  lemma UpdateProfileAccepts(users: Table<User>, id: nat, dto: ProfileRequest, encode: string -> string)
    requires id in users.rows
    ensures var r := UpdateProfileOutcome(users, id, dto, encode);
            && (r.Ok? <==> forall other :: other in users.rows && other != id ==> users.rows[other].email != dto.email)
            && (r.Err? ==> r.error == UniqueViolation)
            && (r.Ok? ==> var u := r.value.rows[id];
                  && u.email == dto.email && u.name == dto.name && u.phone == dto.phone
                  && u.role == users.rows[id].role && u.addressId == users.rows[id].addressId
                  && (!IsBlank(dto.password) ==> u.password == encode(dto.password))
                  && (IsBlank(dto.password) ==> u.password == dto.password))
  {
  }

  /** As written, an update keeps the emails distinct, and keeps every
      password encoded whenever the request's password is not blank. */
  lemma UpdateProfileKeepsEmailsDistinct(users: Table<User>, id: nat, dto: ProfileRequest, encode: string -> string)
    requires EmailsDistinct(users) && PasswordsEncoded(users, encode)
    requires UpdateProfileOutcome(users, id, dto, encode).Ok?
    ensures EmailsDistinct(UpdateProfileOutcome(users, id, dto, encode).value)
    ensures !IsBlank(dto.password) ==> PasswordsEncoded(UpdateProfileOutcome(users, id, dto, encode).value, encode)
  {
    var after := UpdateProfileOutcome(users, id, dto, encode).value;
    forall i, j | i in after.rows && j in after.rows && i != j
      ensures after.rows[i].email != after.rows[j].email
    {
      var keep := if i == id then j else i;
      assert after.rows[keep] == users.rows[keep];
    }
    if !IsBlank(dto.password) {
      assert Encoded(after.rows[id].password, encode);
    }
  }

  /** `updateProfile` as its password check intends: a blank password leaves
      the stored one alone. */
  function CorrectedProfileOutcome(users: Table<User>, id: nat, dto: ProfileRequest, encode: string -> string)
    : (r: Result<Table<User>>)
    ensures r.Ok? <==> UpdateProfileOutcome(users, id, dto, encode).Ok?
    ensures r.Ok? ==> id in users.rows && id in r.value.rows
                      && (IsBlank(dto.password) ==> r.value.rows[id] == users.rows[id].(name := dto.name, email := dto.email, phone := dto.phone))
  {
    ProfileOutcome(users, id, dto, u => ProfileUpdated(u, dto, encode))
  }

  /** The corrected update keeps the emails distinct and every password
      encoded, blank request password or not. */
  lemma UpdateProfileKeepsInvariants(users: Table<User>, id: nat, dto: ProfileRequest, encode: string -> string)
    requires EmailsDistinct(users) && PasswordsEncoded(users, encode)
    requires CorrectedProfileOutcome(users, id, dto, encode).Ok?
    ensures EmailsDistinct(CorrectedProfileOutcome(users, id, dto, encode).value)
    ensures PasswordsEncoded(CorrectedProfileOutcome(users, id, dto, encode).value, encode)
  {
    var after := CorrectedProfileOutcome(users, id, dto, encode).value;
    forall i, j | i in after.rows && j in after.rows && i != j
      ensures after.rows[i].email != after.rows[j].email
    {
      var keep := if i == id then j else i;
      assert after.rows[keep] == users.rows[keep];
    }
    if !IsBlank(dto.password) {
      assert Encoded(after.rows[id].password, encode);
    } else {
      assert Encoded(users.rows[id].password, encode);
    }
  }

  method UpdateProfile(db: Database, id: nat, dto: ProfileRequest, encode: string -> string) returns (r: Result<User>)
    requires db.Valid()
    modifies db`users
    ensures db.Valid()
    ensures var outcome := UpdateProfileOutcome(old(db.users), id, dto, encode);
            && (outcome.Err? ==> r == Err(outcome.error) && db.users == old(db.users))
            && (outcome.Ok? ==> db.users == outcome.value && r == Ok(db.users.rows[id]))
  {
    var outcome := UpdateProfileOutcome(db.users, id, dto, encode);
    if outcome.Err? {
      return Err(outcome.error);
    }
    UsersGrowKeepIntegrity(db, outcome.value);
    db.SetUsers(outcome.value);
    r := Ok(db.users.rows[id]);
  }
}
