/**
 * `UserService`: sign-up, activation by one-time password, login, password
 * reset, the profile's names and the default delivery address. The PBKDF2
 * hash and the JWT are the environment's; the random salt and the random
 * one-time password arrive as parameters; the e-mails are left out.
 */
module Users {
  import opened Common
  import opened Entities
  import opened Tables
  import opened Auth
  import opened Storage

  /** What a login hands back: the 403 payload of an account that is not
      activated yet, or the token together with whether a profile exists. */
  datatype LoginReply = NotActivated(userId: Id) | LoggedIn(token: string, hasProfile: bool)

  /** The account a login checks: the `user-<email>` cache entry when there
      is one, otherwise the table row with that address. */
  function LoginUser(s: Store, email: string): Option<User>
  {
    if email in s.cache.users then Some(s.cache.users[email]) else UserByEmail(s, email)
  }

  /** The password check and the token of a login, once the account is
      known. The token is always issued with type 1. */
  function CheckPassword(env: Env, s: Store, u: User, password: string, now: nat): (r: Step<LoginReply>)
    ensures r.result.Ok? <==> env.hash(password, u.salt) == u.password
    ensures r.result.Err? ==> r == Reject(s, Unauthorized, "Invalid password")
    ensures r.result.Ok? ==>
      r.store == s.(cache := GenerateToken(env.jwt, s.cache, u.id, Admin, now).0) &&
      r.result.value == LoggedIn(env.jwt.sign(Claims(u.id, Admin), now), ProfileOf(s, u.id).Some?)
  {
    if env.hash(password, u.salt) != u.password then Reject(s, Unauthorized, "Invalid password")
    else
      var (cache, grant) := GenerateToken(env.jwt, s.cache, u.id, Admin, now);
      Step(s.(cache := cache), Ok(LoggedIn(grant.token, ProfileOf(s, u.id).Some?)))
  }

  /** `confirmEmailAndPassword(payload)`. On a cache miss the row is read
      and its `activated` flag tested before the code checks that the row
      exists, so an unknown address fails with a `TypeError`; `corrected`
      selects the `NotFound` the later check evidently intends. An
      activated row is cached before its password is checked. */
  function Login(env: Env, s: Store, email: string, password: string, now: nat, corrected: bool): (r: Step<LoginReply>)
    ensures r.store == s.(cache := r.store.cache) && r.store.cache.otps == s.cache.otps
    ensures LoginUser(s, email).None? ==>
      r.store == s && r.result.Err? && r.result.error.kind == (if corrected then NotFound else Internal)
    ensures email !in s.cache.users && UserByEmail(s, email).Some? && !UserByEmail(s, email).value.activated ==>
      r == Step(s, Ok(NotActivated(UserByEmail(s, email).value.id)))
    ensures r.result.Ok? && r.result.value.NotActivated? ==> r.store == s
    ensures LoginUser(s, email).Some? && (email in s.cache.users || LoginUser(s, email).value.activated) ==>
      (r.result.Ok? <==> env.hash(password, LoginUser(s, email).value.salt) == LoginUser(s, email).value.password)
    ensures r.result.Ok? && r.result.value.LoggedIn? ==>
      LoginUser(s, email).Some? &&
      r.result.value.token == env.jwt.sign(Claims(LoginUser(s, email).value.id, Admin), now) &&
      r.store.cache.accessTokens == s.cache.accessTokens[LoginUser(s, email).value.id := r.result.value.token]
    ensures r.result.Err? && LoginUser(s, email).Some? ==> r.result == Fail(Unauthorized, "Invalid password")
    ensures email !in s.cache.users && UserByEmail(s, email).Some? && UserByEmail(s, email).value.activated ==>
      r.store.cache.users == s.cache.users[email := UserByEmail(s, email).value]
    ensures email in s.cache.users || UserByEmail(s, email).None? || !UserByEmail(s, email).value.activated ==>
      r.store.cache.users == s.cache.users
    ensures r.result.Err? ==> r.store.cache.accessTokens == s.cache.accessTokens
  {
    if email in s.cache.users then CheckPassword(env, s, s.cache.users[email], password, now)
    else match UserByEmail(s, email)
      case None =>
        if corrected then Reject(s, NotFound, "Invalid email address")
        else Reject(s, Internal, "Cannot read properties of null (reading 'activated')")
      case Some(u) =>
        if !u.activated then Step(s, Ok(NotActivated(u.id)))
        else CheckPassword(env, s.(cache := s.cache.(users := s.cache.users[email := u])), u, password, now)
  }

  /** Every token a login issues validates as type 1, whatever the
      account's own type, so it never passes a buyer's (type 0) gate. */
  lemma LoginIssuesTypeOneToken(env: Env, s: Store, email: string, password: string, now: nat, corrected: bool)
    requires LoginUser(s, email).Some? && SignsSoundly(env.jwt, Claims(LoginUser(s, email).value.id, Admin), now)
    requires Login(env, s, email, password, now, corrected).result.Ok?
    requires Login(env, s, email, password, now, corrected).result.value.LoggedIn?
    ensures var r := Login(env, s, email, password, now, corrected);
      var header := Some(BearerPrefix + r.result.value.token);
      Authenticate(env, r.store, header) == Ok(Claims(LoginUser(s, email).value.id, Admin)) &&
      !(Authenticate(env, r.store, header).value.role == Buyer)
  {
    var r := Login(env, s, email, password, now, corrected);
    BearerTokenRoundTrip(r.result.value.token);
  }

  /** An address nobody registered crashes the login as written, where the
      code after the crash shows a `NotFound` was meant. */
  lemma UnknownEmailCrashesLogin(env: Env, password: string, now: nat)
    ensures var s := Store([], [], [], {}, {}, [], [], [], [], [], [], [], [], [], [], EmptyCache, 0);
      Login(env, s, "a@b.c", password, now, false).result.error.kind == Internal &&
      Login(env, s, "a@b.c", password, now, true).result == Fail(NotFound, "Invalid email address")
  {
  }

  /** `createUserAccount(userDetails)` with `salt` the fresh random salt
      and `otpRandom` the `Math.random()` the one-time password is drawn
      from. The account type is whatever the request says. The reply
      carries the new id and nothing else. */
  function CreateUserAccount(env: Env, s: Store, email: string, password: string, role: int,
                             salt: string, otpRandom: real): (r: Step<Id>)
    requires 0.0 <= otpRandom < 1.0
    ensures r.result.Ok? <==> UserByEmail(s, email).None?
    ensures UserByEmail(s, email).Some? ==> r == Reject(s, Conflict, "Email address already exists")
    ensures r.result.Ok? ==>
      r.result.value == s.nextId &&
      UserByEmail(r.store, email) == Some(User(s.nextId, email, env.hash(password, salt), salt, false, role))
    ensures r.result.Ok? ==>
      r.store == s.(users := r.store.users, cache := r.store.cache, nextId := s.nextId + 1) &&
      s.nextId in r.store.cache.otps && 100000 <= r.store.cache.otps[s.nextId] <= 999999 &&
      r.store.cache == s.cache.(otps := s.cache.otps[s.nextId := r.store.cache.otps[s.nextId]])
  {
    if UserByEmail(s, email).Some? then Reject(s, Conflict, "Email address already exists")
    else
      var (id, s1) := Fresh(s);
      var user := User(id, email, env.hash(password, salt), salt, false, role);
      var (cache, otp) := GenerateOtp(s.cache, id, otpRandom);
      FindIndexAppended(s.users, user, UserEmailIs(email));
      Step(s1.(users := s.users + [user], cache := cache), Ok(id))
  }

  function Activate(u: User): User
  {
    u.(activated := true)
  }

  /** `activateAccount(payload)`. A matching code is consumed even when the
      user row is then not found. */
  function ActivateAccount(s: Store, userId: Id, otp: int): (r: Step<string>)
    ensures !ValidateOtp(s.cache, otp, userId).1 ==> r == Reject(s, Unauthorized, "Invalid OTP")
    ensures r.result.Ok? <==> ValidateOtp(s.cache, otp, userId).1 && UserById(s, userId).Some?
    ensures ValidateOtp(s.cache, otp, userId).1 ==> userId !in r.store.cache.otps
    ensures r.result.Ok? ==>
      r.store == s.(users := r.store.users, cache := r.store.cache) &&
      UserById(r.store, userId) == Some(UserById(s, userId).value.(activated := true))
  {
    var (cache, valid) := ValidateOtp(s.cache, otp, userId);
    if !valid then Reject(s, Unauthorized, "Invalid OTP")
    else
      var s1 := s.(cache := cache);
      match UserById(s, userId)
      case None => Step(s1, Fail(NotFound, "User not found"))
      case Some(u) =>
        FindIndexAfterUpdate(s.users, UserIdIs(u.id), Activate, UserIdIs(userId));
        Step(s1.(users := Update(s.users, UserIdIs(u.id), Activate)), Ok("Account activated successfully"))
  }

  /** Every user id was handed out by `Fresh`. */
  ghost predicate UserIdsBelow(s: Store)
  {
    forall i :: 0 <= i < |s.users| ==> s.users[i].id < s.nextId
  }

  /** Sign-up, activation with the code the sign-up issued, and login with
      the same password: before activation the login answers with the 403
      payload, after it the password is accepted. */
  lemma {:induction false} SignUpActivateLogin(env: Env, s: Store, email: string, password: string, role: int,
                                               salt: string, otpRandom: real, now: nat)
    requires 0.0 <= otpRandom < 1.0
    requires UserByEmail(s, email).None? && email !in s.cache.users && UserIdsBelow(s)
    ensures var c := CreateUserAccount(env, s, email, password, role, salt, otpRandom);
      c.result.Ok? &&
      Login(env, c.store, email, password, now, true).result == Ok(NotActivated(c.result.value)) &&
      var a := ActivateAccount(c.store, c.result.value, c.store.cache.otps[c.result.value]);
      a.result.Ok? &&
      Login(env, a.store, email, password, now, true).result.Ok? &&
      Login(env, a.store, email, password, now, true).result.value.LoggedIn?
  {
    var c := CreateUserAccount(env, s, email, password, role, salt, otpRandom);
    var id := s.nextId;
    var u := User(id, email, env.hash(password, salt), salt, false, role);
    assert c.store.users == s.users + [u];
    FindIndexAppended(s.users, u, UserIdIs(id));
    assert UserById(c.store, id) == Some(u);
    var a := ActivateAccount(c.store, id, c.store.cache.otps[id]);
    FindIndexAfterUpdate(c.store.users, UserIdIs(id), Activate, UserEmailIs(email));
    var i := FindIndex(c.store.users, UserEmailIs(email)).value;
    assert c.store.users[i] == u;
    assert a.store.users[i] == Activate(u);
    assert UserByEmail(a.store, email) == Some(Activate(u));
  }

  /** A code that activated an account is spent: presenting it again is
      refused and changes nothing. */
  lemma ActivationCodeSpent(s: Store, userId: Id, otp: int)
    requires ActivateAccount(s, userId, otp).result.Ok?
    ensures var t := ActivateAccount(s, userId, otp).store;
      ActivateAccount(t, userId, otp) == Reject(t, Unauthorized, "Invalid OTP")
  {
  }

  function Reset(hash: string, salt: string): User -> User
  {
    (u: User) => u.(password := hash, salt := salt)
  }

  /** `completePasswordReset(payload)` with `salt` the fresh random salt. */
  function CompletePasswordReset(env: Env, s: Store, userId: Id, otp: int, password: string, salt: string): (r: Step<string>)
    ensures !ValidateOtp(s.cache, otp, userId).1 ==> r == Reject(s, Unauthorized, "Invalid OTP")
    ensures r.result.Ok? <==> ValidateOtp(s.cache, otp, userId).1 && UserById(s, userId).Some?
    ensures ValidateOtp(s.cache, otp, userId).1 ==> userId !in r.store.cache.otps
    ensures r.result.Ok? ==>
      var u := UserById(s, userId).value;
      r.store == s.(users := r.store.users, cache := r.store.cache) &&
      UserById(r.store, userId) == Some(u.(password := env.hash(password, salt), salt := salt)) &&
      u.email !in r.store.cache.users &&
      r.store.cache.accessTokens == s.cache.accessTokens
  {
    var (cache, valid) := ValidateOtp(s.cache, otp, userId);
    if !valid then Reject(s, Unauthorized, "Invalid OTP")
    else
      var s1 := s.(cache := cache);
      match UserById(s, userId)
      case None => Step(s1, Fail(NotFound, "User not found"))
      case Some(u) =>
        var f := Reset(env.hash(password, salt), salt);
        FindIndexAfterUpdate(s.users, UserIdIs(u.id), f, UserIdIs(userId));
        Step(s1.(users := Update(s.users, UserIdIs(u.id), f),
                 cache := cache.(users := cache.users - {u.email})),
             Ok("Password reset successful"))
  }

  /** After a reset the new password logs in and, unless the two hash
      alike, the old one is refused. Evicting the cached row is what makes
      this hold: a login would otherwise check the row cached before the
      reset. */
  lemma {:induction false} ResetThenLogin(env: Env, s: Store, userId: Id, otp: int, password: string, salt: string,
                                          oldPassword: string, now: nat)
    requires CompletePasswordReset(env, s, userId, otp, password, salt).result.Ok?
    requires var u := UserById(s, userId).value; u.activated && UserByEmail(s, u.email) == Some(u)
    ensures var u := UserById(s, userId).value;
      var t := CompletePasswordReset(env, s, userId, otp, password, salt).store;
      Login(env, t, u.email, password, now, true).result.Ok? &&
      Login(env, t, u.email, password, now, true).result.value.LoggedIn? &&
      (env.hash(oldPassword, salt) != env.hash(password, salt) ==>
         Login(env, t, u.email, oldPassword, now, true).result == Fail(Unauthorized, "Invalid password"))
  {
    var u := UserById(s, userId).value;
    var t := CompletePasswordReset(env, s, userId, otp, password, salt).store;
    var f := Reset(env.hash(password, salt), salt);
    FindIndexAfterUpdate(s.users, UserIdIs(u.id), f, UserEmailIs(u.email));
    var i := FindIndex(s.users, UserEmailIs(u.email)).value;
    assert s.users[i] == u;
    assert t.users[i] == f(u);
    assert UserByEmail(t, u.email) == Some(f(u));
  }

  /** A request field the code copies only when it is truthy: present and
      not the empty string. */
  predicate Truthy(field: Option<string>)
  {
    field.Some? && field.value != ""
  }

  function Rename(firstName: Option<string>, lastName: Option<string>): Profile -> Profile
  {
    (p: Profile) => p.(firstName := if Truthy(firstName) then firstName.value else p.firstName,
                       lastName := if Truthy(lastName) then lastName.value else p.lastName)
  }

  function ProfileOfUser(user: Id): Profile -> bool
  {
    (p: Profile) => p.user == user
  }

  /** `updateProfile(payload)`: the caller's profile takes the names the
      request supplies with a truthy value; the other names stay. */
  function UpdateProfile(env: Env, s: Store, header: Option<string>, firstName: Option<string>,
                         lastName: Option<string>): (r: Step<string>)
    ensures r.result.Ok? <==> Authenticate(env, s, header).Ok? && UserById(s, Authenticate(env, s, header).value.userId).Some?
    ensures r.result.Err? ==> r.store == s && r.result.error.kind == Unauthorized
    ensures r.result.Ok? ==>
      var user := Authenticate(env, s, header).value.userId;
      r.store == s.(profiles := r.store.profiles) && |r.store.profiles| == |s.profiles| &&
      (forall k :: 0 <= k < |s.profiles| && s.profiles[k].user != user ==> r.store.profiles[k] == s.profiles[k]) &&
      (forall k :: 0 <= k < |s.profiles| && s.profiles[k].user == user ==>
         r.store.profiles[k].id == s.profiles[k].id && r.store.profiles[k].user == user &&
         r.store.profiles[k].firstName == (if Truthy(firstName) then firstName.value else s.profiles[k].firstName) &&
         r.store.profiles[k].lastName == (if Truthy(lastName) then lastName.value else s.profiles[k].lastName))
  {
    match Authenticate(env, s, header)
    case Err(e) => Step(s, Err(e))
    case Ok(claims) =>
      match UserById(s, claims.userId)
      case None => Reject(s, Unauthorized, "Unauthorized")
      case Some(u) =>
        Step(s.(profiles := Update(s.profiles, ProfileOfUser(u.id), Rename(firstName, lastName))),
             Ok("Profile updated successfully"))
  }

  /** A request with no truthy name leaves every profile as it was, and
      repeating a request changes nothing more. */
  lemma ProfileUpdateSettles(env: Env, s: Store, header: Option<string>, firstName: Option<string>, lastName: Option<string>)
    requires UpdateProfile(env, s, header, firstName, lastName).result.Ok?
    ensures !Truthy(firstName) && !Truthy(lastName) ==> UpdateProfile(env, s, header, firstName, lastName).store == s
    ensures var t := UpdateProfile(env, s, header, firstName, lastName).store;
      UpdateProfile(env, t, header, firstName, lastName).store == t
  {
    var user := Authenticate(env, s, header).value.userId;
    UpdateIdempotent(s.profiles, ProfileOfUser(user), Rename(firstName, lastName));
  }

  /** The profile the services read back carries the new names. */
  lemma ProfileReadsBack(env: Env, s: Store, header: Option<string>, first: string, last: string)
    requires first != "" && last != ""
    requires UpdateProfile(env, s, header, Some(first), Some(last)).result.Ok?
    requires ProfileOf(s, Authenticate(env, s, header).value.userId).Some?
    ensures var user := Authenticate(env, s, header).value.userId;
      var p := ProfileOf(s, user).value;
      ProfileOf(UpdateProfile(env, s, header, Some(first), Some(last)).store, user) ==
        Some(p.(firstName := first, lastName := last))
  {
    var user := Authenticate(env, s, header).value.userId;
    var f := Rename(Some(first), Some(last));
    FindIndexAfterUpdate(s.profiles, ProfileOfUser(user), f, (p: Profile) => p.user == user);
  }

  function AddressIdIs(id: Id): Address -> bool
  {
    (a: Address) => a.id == id
  }

  function DefaultOf(user: Id): Address -> bool
  {
    (a: Address) => a.user == user && a.isDefault
  }

  function MarkDefault(isDefault: bool): Address -> Address
  {
    (a: Address) => a.(isDefault := isDefault)
  }

  /** The user's first default row cleared: the `defaultAddress` lookup
      and its update. */
  function ClearDefault(rows: seq<Address>, user: Id): (r: seq<Address>)
    ensures |r| == |rows|
    ensures forall k :: 0 <= k < |rows| ==>
      r[k] == rows[k] || r[k] == rows[k].(isDefault := false)
    ensures Find(rows, DefaultOf(user)).None? ==> r == rows
    ensures forall k :: 0 <= k < |rows| && r[k] != rows[k] ==>
      Find(rows, DefaultOf(user)).Some? && rows[k].id == Find(rows, DefaultOf(user)).value.id
  {
    match Find(rows, DefaultOf(user))
    case None => rows
    case Some(d) => Update(rows, AddressIdIs(d.id), MarkDefault(false))
  }

  /** The address rows after `updateDefaultAddress` picked `address` for
      `user`: the user's first default row is cleared, then the chosen row
      is set. The chosen row is found by id alone, whoever owns it. */
  function Redefault(rows: seq<Address>, user: Id, address: Address): (r: seq<Address>)
    ensures |r| == |rows|
    ensures forall k :: 0 <= k < |rows| ==> r[k].id == rows[k].id && r[k].user == rows[k].user && r[k].text == rows[k].text
    ensures forall k :: 0 <= k < |rows| && rows[k].id == address.id ==> r[k].isDefault
  {
    Update(ClearDefault(rows, user), AddressIdIs(address.id), MarkDefault(true))
  }

  /** Apart from the chosen row, a redefault changes only rows sharing the
      id of the user's first default row, and those only by clearing the
      flag. */
  lemma RedefaultFrame(rows: seq<Address>, user: Id, address: Address)
    ensures var r := Redefault(rows, user, address);
      forall k :: 0 <= k < |rows| && rows[k].id != address.id && r[k] != rows[k] ==>
        r[k] == rows[k].(isDefault := false) &&
        Find(rows, DefaultOf(user)).Some? && rows[k].id == Find(rows, DefaultOf(user)).value.id
  {
  }

  /** `updateDefaultAddress(payload)`. */
  function UpdateDefaultAddress(env: Env, s: Store, header: Option<string>, addressId: Id): (r: Step<string>)
    ensures r.result.Ok? <==>
      Authenticate(env, s, header).Ok? && UserById(s, Authenticate(env, s, header).value.userId).Some? &&
      Find(s.addresses, AddressIdIs(addressId)).Some?
    ensures r.result.Err? ==> r.store == s
    ensures (Authenticate(env, s, header).Ok? && UserById(s, Authenticate(env, s, header).value.userId).Some? &&
             Find(s.addresses, AddressIdIs(addressId)).None?) ==>
      r.result == Fail(NotFound, "Address not found")
    ensures r.result.Ok? ==>
      r.store == s.(addresses := Redefault(s.addresses, Authenticate(env, s, header).value.userId,
                                           Find(s.addresses, AddressIdIs(addressId)).value))
  {
    match Authenticate(env, s, header)
    case Err(e) => Step(s, Err(e))
    case Ok(claims) =>
      match UserById(s, claims.userId)
      case None => Reject(s, Unauthorized, "Unauthorized")
      case Some(u) =>
        match Find(s.addresses, AddressIdIs(addressId))
        case None => Reject(s, NotFound, "Address not found")
        case Some(a) => Step(s.(addresses := Redefault(s.addresses, u.id, a)), Ok("Address updated to default"))
  }

  /** Each user has at most one default address. */
  ghost predicate OneDefaultEach(rows: seq<Address>)
  {
    forall i, j :: 0 <= i < j < |rows| && rows[i].user == rows[j].user ==> !(rows[i].isDefault && rows[j].isDefault)
  }

  ghost predicate AddressIdsUnique(rows: seq<Address>)
  {
    forall i, j :: 0 <= i < j < |rows| ==> rows[i].id != rows[j].id
  }

  /** With at most one default per user, clearing the first default of
      `user` leaves that user none. */
  lemma ClearDefaultClears(rows: seq<Address>, user: Id)
    requires OneDefaultEach(rows)
    ensures forall k :: 0 <= k < |rows| ==> !(ClearDefault(rows, user)[k].user == user && ClearDefault(rows, user)[k].isDefault)
  {
    var cleared := ClearDefault(rows, user);
    forall k | 0 <= k < |rows|
      ensures !(cleared[k].user == user && cleared[k].isDefault)
    {
      match FindIndex(rows, DefaultOf(user))
      case None =>
      case Some(j) =>
        assert Find(rows, DefaultOf(user)) == Some(rows[j]);
        if j < k {
          assert rows[j].user == rows[k].user ==> !(rows[j].isDefault && rows[k].isDefault);
        }
    }
  }

  /** Only the row at position `a` carries `rows[a]`'s id. */
  lemma IdAt(rows: seq<Address>, a: nat)
    requires AddressIdsUnique(rows) && a < |rows|
    ensures forall k :: 0 <= k < |rows| && k != a ==> rows[k].id != rows[a].id
  {
    forall k | 0 <= k < |rows| && k != a
      ensures rows[k].id != rows[a].id
    {
      if k < a {
        assert rows[k].id != rows[a].id;
      } else {
        assert rows[a].id != rows[k].id;
      }
    }
  }

  /** With distinct ids, clearing touches exactly the user's first default
      row and no other. */
  lemma ClearDefaultOnlyFirst(rows: seq<Address>, user: Id)
    requires AddressIdsUnique(rows)
    ensures match FindIndex(rows, DefaultOf(user))
      case None => ClearDefault(rows, user) == rows
      case Some(j) =>
        rows[j].user == user && rows[j].isDefault &&
        forall k :: 0 <= k < |rows| ==>
          ClearDefault(rows, user)[k] == (if k == j then rows[k].(isDefault := false) else rows[k])
  {
    match FindIndex(rows, DefaultOf(user))
    case None =>
    case Some(j) =>
      assert Find(rows, DefaultOf(user)) == Some(rows[j]);
      IdAt(rows, j);
  }

  /** With distinct ids, a redefault leaves the flag of every row of
      another user alone, except the chosen row's. */
  lemma RedefaultKeepsOthers(rows: seq<Address>, user: Id, address: Address)
    requires AddressIdsUnique(rows)
    ensures forall k :: 0 <= k < |rows| && rows[k].user != user && rows[k].id != address.id ==>
      Redefault(rows, user, address)[k] == rows[k]
  {
    ClearDefaultOnlyFirst(rows, user);
    RedefaultFrame(rows, user, address);
  }

  /** Picking one of the user's own addresses keeps at most one default per
      user and makes the picked address the user's only default. */
  lemma RedefaultKeepsOneDefault(rows: seq<Address>, user: Id, address: Address)
    requires OneDefaultEach(rows) && AddressIdsUnique(rows)
    requires address in rows && address.user == user
    ensures var r := Redefault(rows, user, address);
      forall k :: 0 <= k < |r| ==> (r[k].user == user && r[k].isDefault <==> r[k].id == address.id)
    ensures OneDefaultEach(Redefault(rows, user, address))
  {
    var a :| 0 <= a < |rows| && rows[a] == address;
    RedefaultAt(rows, user, a);
    ClearDefaultClears(rows, user);
    IdAt(rows, a);
    PickOnlyDefault(rows, ClearDefault(rows, user), Redefault(rows, user, address), user, a);
  }

  /** Setting row `a` of the user in a table where the user has no default
      left, and whose other flags only went down, leaves row `a` the user's
      only default and at most one default per user. */
  lemma PickOnlyDefault(rows: seq<Address>, cleared: seq<Address>, r: seq<Address>, user: Id, a: nat)
    requires |cleared| == |rows| && |r| == |rows| && a < |rows| && rows[a].user == user
    requires OneDefaultEach(rows)
    requires forall k :: 0 <= k < |rows| && k != a ==> rows[k].id != rows[a].id
    requires forall k :: 0 <= k < |rows| ==>
      cleared[k].id == rows[k].id && cleared[k].user == rows[k].user && (cleared[k].isDefault ==> rows[k].isDefault)
    requires forall k :: 0 <= k < |rows| ==> !(cleared[k].user == user && cleared[k].isDefault)
    requires forall k :: 0 <= k < |rows| ==> r[k] == (if k == a then cleared[k].(isDefault := true) else cleared[k])
    ensures forall k :: 0 <= k < |r| ==> (r[k].user == user && r[k].isDefault <==> r[k].id == rows[a].id)
    ensures OneDefaultEach(r)
  {
    forall i, j | 0 <= i < j < |r| && r[i].user == r[j].user
      ensures !(r[i].isDefault && r[j].isDefault)
    {
      if i != a && j != a {
        assert rows[i].user == rows[j].user ==> !(rows[i].isDefault && rows[j].isDefault);
      }
    }
  }

  /** With distinct ids the chosen row is the only one the second update
      touches. */
  lemma RedefaultAt(rows: seq<Address>, user: Id, a: nat)
    requires AddressIdsUnique(rows) && a < |rows|
    ensures var cleared := ClearDefault(rows, user);
      forall k :: 0 <= k < |rows| ==>
        Redefault(rows, user, rows[a])[k] == (if k == a then cleared[k].(isDefault := true) else cleared[k])
  {
    IdAt(rows, a);
  }

  /** The chosen row is found by id alone: picking another user's address
      clears the caller's default and gives the owner a second default. */
  lemma ForeignAddressBecomesDefault()
    ensures var rows := [Address(1, 7, "home", true), Address(2, 8, "office", true), Address(3, 8, "depot", false)];
      var r := Redefault(rows, 7, rows[2]);
      OneDefaultEach(rows) && !OneDefaultEach(r) &&
      !r[0].isDefault && r[1].isDefault && r[2].isDefault
  {
    var rows := [Address(1, 7, "home", true), Address(2, 8, "office", true), Address(3, 8, "depot", false)];
    assert Find(rows, DefaultOf(7)) == Some(rows[0]);
    var r := Redefault(rows, 7, rows[2]);
    assert r[1].user == r[2].user;
  }
}
