/**
 * The user viewset of the generic API (`generic.api.views.UserViewSet`): what staff and others
 * see, registration, activation with a code, logging in for a token, setting a password, and the
 * anonymising destroy.
 */
module UserViews {
  import opened Common
  import opened Users
  import UserPermissions

  /** A row of the user table, as far as these views read or write it. */
  datatype UserRow = UserRow(username: string, firstName: string, lastName: string, email: string,
                             password: string, isActive: bool, isStaff: bool,
                             lastLogin: Option<Time>, dateJoined: Time)

  // ------------------------------------------------------------ Staff-based selection

  datatype UserFilterClass = UserAdminFilter | UserFilter
  datatype UserSerializerClass = UserAdminSerializer | UserSerializer

  /** `filter_class`; `None` is the request-less call made while generating the docs. */
  function FilterClassFor(req: Option<Request>): UserFilterClass
  {
    if req.None? then UserFilter
    else if IsStaff(req.value.user) then UserAdminFilter
    else UserFilter
  }

  /** `get_serializer_class`. */
  function SerializerClassFor(req: Option<Request>): UserSerializerClass
  {
    if req.None? then UserAdminSerializer
    else if IsStaff(req.value.user) then UserAdminSerializer
    else UserSerializer
  }

  /** `get_queryset`, as a set of primary keys. */
  function UserQueryset(req: Option<Request>, users: seq<UserRow>): (q: set<nat>)
    ensures forall pk :: pk in q ==> pk < |users|
  {
    if req.None? then {}
    else set pk: nat | pk < |users| && (IsStaff(req.value.user) || users[pk].isActive)
  }

  /**
   * Staff get the admin filter, the admin serializer and every user; everyone else the username
   * filter, the minimal serializer and the active users only.
   */
  lemma StaffSelection(r: Request, users: seq<UserRow>, pk: nat)
    requires pk < |users|
    ensures IsStaff(r.user) ==>
            FilterClassFor(Some(r)) == UserAdminFilter && SerializerClassFor(Some(r)) == UserAdminSerializer &&
            pk in UserQueryset(Some(r), users)
    ensures !IsStaff(r.user) ==>
            FilterClassFor(Some(r)) == UserFilter && SerializerClassFor(Some(r)) == UserSerializer &&
            (pk in UserQueryset(Some(r), users) <==> users[pk].isActive)
  {
  }

  /** Without a request the docs get the username filter and the admin serializer, over no users. */
  lemma DocsSelection(users: seq<UserRow>)
    ensures FilterClassFor(None) == UserFilter && SerializerClassFor(None) == UserAdminSerializer
    ensures UserQueryset(None, users) == {}
  {
  }

  // ------------------------------------------------------------ register

  /** A serializer's error dictionary: field name to messages. */
  type Errors = map<string, seq<string>>

  const EmailTaken := "A user with this email address already exists."

  /** `errors.setdefault(field, []).extend(messages)`. */
  function WithErrors(errors: Errors, field: string, messages: seq<string>): (r: Errors)
    ensures field in r && forall f :: f in errors ==> f in r
    ensures forall f :: f in r && f != field ==> f in errors && r[f] == errors[f]
  {
    errors[field := (if field in errors then errors[field] else []) + messages]
  }

  /** The validated fields of `UserRegisterSerializer`. */
  datatype RegisterForm = RegisterForm(username: string, firstName: string, lastName: string, email: string, password: string)

  predicate EmailInUse(users: seq<UserRow>, email: string)
  {
    exists i :: 0 <= i < |users| && users[i].email == email
  }

  /**
   * The errors `register` collects: the serializer's own, an existing email address, then the
   * messages of `validate_password` (empty when the password passes).
   */
  function RegisterErrors(users: seq<UserRow>, fieldErrors: Errors, form: RegisterForm, passwordErrors: seq<string>): Errors
  {
    var errors := if form.email != "" && EmailInUse(users, form.email) then WithErrors(fieldErrors, "email", [EmailTaken]) else fieldErrors;
    if |passwordErrors| > 0 then WithErrors(errors, "password", passwordErrors) else errors
  }

  datatype RegisterOutcome = Invalid(errors: Errors) | Registered(pk: nat)

  /**
   * `register`: with any error nothing is created; otherwise an inactive account is added with the
   * hashed password (`make_password`, given here as `hash`) and joined at `now`.
   */
  function Register(users: seq<UserRow>, fieldErrors: Errors, form: RegisterForm, passwordErrors: seq<string>,
                    hash: string, now: Time): (seq<UserRow>, RegisterOutcome)
  {
    var errors := RegisterErrors(users, fieldErrors, form, passwordErrors);
    if errors != map[] then (users, Invalid(errors))
    else (users + [UserRow(form.username, form.firstName, form.lastName, form.email, hash, false, false, None, now)],
          Registered(|users|))
  }

  /**
   * A taken address or a rejected password is reported under its field and creates nobody; a
   * registration goes through exactly when there is no error of any kind, and adds one inactive
   * account at the end of the table.
   */
  lemma RegisterSpec(users: seq<UserRow>, fieldErrors: Errors, form: RegisterForm, passwordErrors: seq<string>, hash: string, now: Time)
    ensures var (users', outcome) := Register(users, fieldErrors, form, passwordErrors, hash, now);
            (outcome.Invalid? ==> users' == users) &&
            (form.email != "" && EmailInUse(users, form.email) ==>
               outcome.Invalid? && "email" in outcome.errors && EmailTaken in outcome.errors["email"]) &&
            (|passwordErrors| > 0 ==>
               outcome.Invalid? && "password" in outcome.errors &&
               forall m :: m in passwordErrors ==> m in outcome.errors["password"]) &&
            (outcome.Invalid? ==> forall f :: f in fieldErrors ==> f in outcome.errors)
    ensures var (users', outcome) := Register(users, fieldErrors, form, passwordErrors, hash, now);
            outcome.Registered? <==> fieldErrors == map[] && |passwordErrors| == 0 && !(form.email != "" && EmailInUse(users, form.email))
    ensures var (users', outcome) := Register(users, fieldErrors, form, passwordErrors, hash, now);
            outcome.Registered? ==>
              outcome.pk == |users| && |users'| == |users| + 1 && users'[..|users|] == users &&
              !users'[outcome.pk].isActive && !users'[outcome.pk].isStaff && users'[outcome.pk].lastLogin.None? &&
              users'[outcome.pk].password == hash && users'[outcome.pk].email == form.email
  {
    var errors := RegisterErrors(users, fieldErrors, form, passwordErrors);
    var e1 := if form.email != "" && EmailInUse(users, form.email) then WithErrors(fieldErrors, "email", [EmailTaken]) else fieldErrors;
    if |passwordErrors| > 0 {
      assert "password" in errors;
      assert errors["password"][|errors["password"]| - |passwordErrors|..] == passwordErrors;
    }
    if form.email != "" && EmailInUse(users, form.email) {
      assert EmailTaken in e1["email"];
    }
    if fieldErrors != map[] {
      var f :| f in fieldErrors;
      assert f in errors;
    }
  }

  // ------------------------------------------------------------ authenticate

  datatype ActivationOutcome =
    | NotFound
    | MissingCode
    | AlreadyActivated
    | CannotActivate
    | InvalidCode
    | CodeExpired
    | Activated

  const ActivationWindow := 7 * SecondsPerDay

  /**
   * `authenticate` on the account with primary key `pk` (looked up among all users). `code` is
   * the submitted code, `None` or empty when missing; `expected` is the code the account's token
   * yields (`salted_hmac(username, token.key).hexdigest()`).
   */
  function Activate(users: seq<UserRow>, pk: nat, code: Option<string>, expected: string, now: Time): (seq<UserRow>, ActivationOutcome)
  {
    if pk >= |users| then (users, NotFound)
    else if code.None? || code.value == "" then (users, MissingCode)
    else if users[pk].isActive then (users, AlreadyActivated)
    else if users[pk].lastLogin.Some? then (users, CannotActivate)
    else if code.value != expected then (users, InvalidCode)
    else if users[pk].dateJoined < now - ActivationWindow then (users, CodeExpired)
    else (users[pk := users[pk].(isActive := true)], Activated)
  }

  /**
   * Only a successful activation writes, and then only `is_active`; it succeeds exactly for a
   * never-used inactive account presenting its own code within seven days of joining.
   */
  lemma ActivateSpec(users: seq<UserRow>, pk: nat, code: Option<string>, expected: string, now: Time)
    ensures var (users', outcome) := Activate(users, pk, code, expected, now);
            (outcome != Activated ==> users' == users) &&
            (outcome == Activated ==> pk < |users| && users' == users[pk := users[pk].(isActive := true)])
    ensures Activate(users, pk, code, expected, now).1 == Activated <==>
            pk < |users| && code == Some(expected) && expected != "" && !users[pk].isActive &&
            users[pk].lastLogin.None? && users[pk].dateJoined >= now - ActivationWindow
    ensures pk < |users| && users[pk].isActive && code.Some? && code.value != "" ==>
            Activate(users, pk, code, expected, now).1 == AlreadyActivated
    ensures pk < |users| && !users[pk].isActive && users[pk].lastLogin.Some? && code.Some? && code.value != "" ==>
            Activate(users, pk, code, expected, now).1 == CannotActivate
  {
  }

  /** A second activation with the same code reports the account as already active and changes nothing. */
  lemma ActivateTwice(users: seq<UserRow>, pk: nat, code: Option<string>, expected: string, now: Time, later: Time)
    requires Activate(users, pk, code, expected, now).1 == Activated
    ensures var users' := Activate(users, pk, code, expected, now).0;
            Activate(users', pk, code, expected, later) == (users', AlreadyActivated)
  {
  }

  // ------------------------------------------------------------ get_token

  /**
   * `get_token` for the account the credentials identify (credential checking itself is not part
   * of this model): the request counts as a login.
   */
  function GetToken(users: seq<UserRow>, pk: nat, now: Time): (users': seq<UserRow>)
    requires pk < |users| && users[pk].isActive
    ensures |users'| == |users| && users'[pk].lastLogin == Some(now)
    ensures forall i :: 0 <= i < |users| && i != pk ==> users'[i] == users[i]
  {
    users[pk := users[pk].(lastLogin := Some(now))]
  }

  // ------------------------------------------------------------ set_password

  datatype SetPasswordOutcome = PasswordNotFound | Forbidden | MissingPassword | PasswordSet

  /**
   * `set_password`: the account is looked up in the requester's queryset, `AllowSelf` decides,
   * then the new password (hashed by `hash`) replaces the old one. The view-level check has
   * already turned anonymous users away.
   */
  function SetPassword(users: seq<UserRow>, r: Request, pk: nat, password: Option<string>, hash: string -> string)
    : (seq<UserRow>, SetPasswordOutcome)
    requires UserPermissions.AllowSelfView(r)
  {
    if pk !in UserQueryset(Some(r), users) then (users, PasswordNotFound)
    else if !UserPermissions.AllowSelfObject(r, pk) then (users, Forbidden)
    else if password.None? || password.value == "" then (users, MissingPassword)
    else (users[pk := users[pk].(password := hash(password.value))], PasswordSet)
  }

  /** Only a superuser or the account itself changes a password, and nothing but the password changes. */
  lemma SetPasswordSpec(users: seq<UserRow>, r: Request, pk: nat, password: Option<string>, hash: string -> string)
    requires UserPermissions.AllowSelfView(r)
    ensures var (users', outcome) := SetPassword(users, r, pk, password, hash);
            (outcome != PasswordSet ==> users' == users) &&
            (outcome == PasswordSet ==>
               pk < |users| && (IsSuperuser(r.user) || r.user.id == pk) &&
               users' == users[pk := users[pk].(password := hash(password.value))])
    ensures pk < |users| && !IsSuperuser(r.user) && r.user.id != pk ==> SetPassword(users, r, pk, password, hash).1 != PasswordSet
  {
  }

  // ------------------------------------------------------------ perform_destroy

  /**
   * `perform_destroy` as written: `hashlib.sha1` is handed the username as a `str`, which raises
   * `TypeError` before any field is assigned, so the account is left exactly as it was.
   */
  function DestroyAsWritten(users: seq<UserRow>, pk: nat): (seq<UserRow>, Result<(), string>)
    requires pk < |users|
  {
    (users, Err("TypeError"))
  }

  /** As written, destroying an account never anonymises or deactivates it. */
  lemma DestroyAsWrittenKeepsAccount(users: seq<UserRow>, pk: nat)
    requires pk < |users|
    ensures DestroyAsWritten(users, pk).0[pk] == users[pk]
    ensures users[pk].isActive ==> DestroyAsWritten(users, pk).0[pk].isActive
    ensures DestroyAsWritten(users, pk).1.Err?
  {
  }

  /**
   * `perform_destroy` as intended: the username is replaced by the hex SHA-1 digest of its
   * encoding (`digest`), the names and email are blanked and the account is deactivated.
   */
  function Destroy(users: seq<UserRow>, pk: nat, digest: string -> string): (seq<UserRow>, Result<(), string>)
    requires pk < |users|
  {
    var u := users[pk];
    (users[pk := u.(username := digest(u.username), firstName := "", lastName := "", email := "", isActive := false)], Ok(()))
  }

  /**
   * Destroying anonymises and deactivates the account and nothing else: it disappears from what
   * non-staff users list, and its email address is free for a new registration unless another
   * account holds it.
   */
  lemma DestroySpec(users: seq<UserRow>, pk: nat, digest: string -> string, r: Request, email: string)
    requires pk < |users|
    ensures var users' := Destroy(users, pk, digest).0;
            |users'| == |users| &&
            users'[pk] == users[pk].(username := digest(users[pk].username), firstName := "", lastName := "", email := "", isActive := false) &&
            (forall i :: 0 <= i < |users| && i != pk ==> users'[i] == users[i])
    ensures !IsStaff(r.user) ==> pk !in UserQueryset(Some(r), Destroy(users, pk, digest).0)
    ensures email != "" && email == users[pk].email && (forall i :: 0 <= i < |users| && i != pk ==> users[i].email != email) ==>
            !EmailInUse(Destroy(users, pk, digest).0, email)
  {
  }

  /** A destroyed account that had ever logged in cannot be brought back with an activation code. */
  lemma DestroyedStaysInactive(users: seq<UserRow>, pk: nat, digest: string -> string, code: Option<string>, expected: string, now: Time)
    requires pk < |users| && users[pk].lastLogin.Some?
    ensures Activate(Destroy(users, pk, digest).0, pk, code, expected, now).1 != Activated
  {
  }

  /**
   * An account that has fetched a token and is later destroyed cannot be brought back with an
   * activation code: the login it recorded is what `authenticate` refuses.
   */
  lemma UsedAccountsStayDeactivated(users: seq<UserRow>, pk: nat, now: Time, digest: string -> string,
                                    code: Option<string>, expected: string, later: Time)
    requires pk < |users| && users[pk].isActive
    ensures var users' := Destroy(GetToken(users, pk, now), pk, digest).0;
            !users'[pk].isActive && Activate(users', pk, code, expected, later).1 != Activated
  {
    DestroyedStaysInactive(GetToken(users, pk, now), pk, digest, code, expected, later);
  }

  // ------------------------------------------------------------ The user table

  /** The user table, changed in place by the actions above. */
  class UserTable {
    var rows: seq<UserRow>

    constructor(rows0: seq<UserRow>)
      ensures rows == rows0
    {
      rows := rows0;
    }

    /** `register`, accumulating into `errors` as the view does. */
    method RegisterAccount(fieldErrors: Errors, form: RegisterForm, passwordErrors: seq<string>, hash: string, now: Time)
      returns (outcome: RegisterOutcome)
      modifies this
      ensures (rows, outcome) == Register(old(rows), fieldErrors, form, passwordErrors, hash, now)
    {
      var errors := fieldErrors;
      if form.email != "" && EmailInUse(rows, form.email) {
        errors := WithErrors(errors, "email", [EmailTaken]);
      }
      if |passwordErrors| > 0 {
        errors := WithErrors(errors, "password", passwordErrors);
      }
      if errors != map[] {
        return Invalid(errors);
      }
      rows := rows + [UserRow(form.username, form.firstName, form.lastName, form.email, hash, false, false, None, now)];
      outcome := Registered(|rows| - 1);
    }

    /** `authenticate`. */
    method Authenticate(pk: nat, code: Option<string>, expected: string, now: Time) returns (outcome: ActivationOutcome)
      modifies this
      ensures (rows, outcome) == Activate(old(rows), pk, code, expected, now)
    {
      if pk >= |rows| {
        return NotFound;
      }
      if code.None? || code.value == "" {
        return MissingCode;
      }
      var user := rows[pk];
      if user.isActive {
        return AlreadyActivated;
      }
      if user.lastLogin.Some? {
        return CannotActivate;
      }
      if code.value != expected {
        return InvalidCode;
      }
      if user.dateJoined < now - ActivationWindow {
        return CodeExpired;
      }
      user := user.(isActive := true);
      rows := rows[pk := user];
      outcome := Activated;
    }

    /** `get_token` for the active account the credentials identify. */
    method RecordTokenLogin(pk: nat, now: Time)
      requires pk < |rows| && rows[pk].isActive
      modifies this
      ensures rows == GetToken(old(rows), pk, now)
    {
      rows := rows[pk := rows[pk].(lastLogin := Some(now))];
    }

    /** `set_password`. */
    method ChangePassword(r: Request, pk: nat, password: Option<string>, hash: string -> string) returns (outcome: SetPasswordOutcome)
      requires UserPermissions.AllowSelfView(r)
      modifies this
      ensures (rows, outcome) == SetPassword(old(rows), r, pk, password, hash)
    {
      if pk !in UserQueryset(Some(r), rows) {
        return PasswordNotFound;
      }
      if !UserPermissions.AllowSelfObject(r, pk) {
        return Forbidden;
      }
      if password.None? || password.value == "" {
        return MissingPassword;
      }
      rows := rows[pk := rows[pk].(password := hash(password.value))];
      outcome := PasswordSet;
    }

    /** `perform_destroy`, with the digest of the encoded username. */
    method PerformDestroy(pk: nat, digest: string -> string)
      requires pk < |rows|
      modifies this
      ensures rows == Destroy(old(rows), pk, digest).0
    {
      var user := rows[pk];
      user := user.(username := digest(user.username));
      user := user.(firstName := "");
      user := user.(lastName := "");
      user := user.(email := "");
      user := user.(isActive := false);
      rows := rows[pk := user];
    }
  }
}
