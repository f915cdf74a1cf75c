/** `CreateUserDto` and the validation pipe that checks it: `username` is a
    non-empty string of at least 4 characters made of ASCII letters and
    digits; `password` is a non-empty string of at least 8 characters;
    `roles`, when present, is a non-empty array of known role names. Every
    rule of every property is evaluated, and any failure is a 400. Lengths
    are the ones validator.js's `isLength` measures: code points, with the
    variation selectors U+FE0E and U+FE0F counting as nothing. */
module CreateUserValidation {
  import opened Wrappers
  import opened JsStrings
  import UserRegistry

  /** The request body; `None` marks a property that was left out. */
  datatype CreateUserBody = CreateUserBody(username: Option<string>, password: Option<string>, roles: Option<seq<string>>)

  datatype Property = Username | Password | Roles

  /** The decorators of the DTO that can fail. */
  datatype Rule = IsString | IsNotEmpty | MinLength | Matches | ArrayNotEmpty | IsIn

  datatype Violation = Violation(property: Property, rule: Rule)

  const MIN_USERNAME_LENGTH: nat := 4
  const MIN_PASSWORD_LENGTH: nat := 8

  /** The `@IsIn` list of `roles`. */
  const ROLE_NAMES: seq<string> := ["USER", "OPERATOR", "AUDITOR", "ADMIN"]

  /** The two presentation selectors `isLength` leaves out of the count. */
  predicate IsVariationSelector(c: char) {
    c == '\U{FE0E}' || c == '\U{FE0F}'
  }

  /** The length `@MinLength` compares: `isLength` takes the UTF-16 length,
      subtracts one per surrogate pair (so every code point counts once) and
      one per variation selector. */
  function ValidatorLength(s: string): (n: nat)
    ensures n <= |s|
    ensures n == |s| - multiset(s)['\U{FE0E}'] - multiset(s)['\U{FE0F}']
  {
    if |s| == 0 then 0
    else
      assert s == [s[0]] + s[1..];
      (if IsVariationSelector(s[0]) then 0 else 1) + ValidatorLength(s[1..])
  }

  /** `/^[a-zA-Z0-9]+$/`. */
  predicate IsAlphanumeric(s: string) {
    |s| > 0 && forall i :: 0 <= i < |s| ==> IsAsciiLetterOrDigit(s[i])
  }

  /** The rules of a required string property that fail on `v`: a missing
      value fails all of them. */
  function StringViolations(p: Property, v: Option<string>, minLength: nat, pattern: bool): (vs: set<Violation>)
    ensures Violation(p, IsString) in vs <==> v.None?
    ensures Violation(p, IsNotEmpty) in vs <==> v.None? || v.value == ""
    ensures Violation(p, MinLength) in vs <==> v.None? || ValidatorLength(v.value) < minLength
    ensures Violation(p, Matches) in vs <==> pattern && (v.None? || !IsAlphanumeric(v.value))
    ensures forall x :: x in vs ==> x.property == p
  {
    (if v.None? then {Violation(p, IsString)} else {})
    + (if v.None? || v.value == "" then {Violation(p, IsNotEmpty)} else {})
    + (if v.None? || ValidatorLength(v.value) < minLength then {Violation(p, MinLength)} else {})
    + (if pattern && (v.None? || !IsAlphanumeric(v.value)) then {Violation(p, Matches)} else {})
  }

  /** The rules of `roles` that fail: none when it is left out
      (`@IsOptional`). */
  function RolesViolations(roles: Option<seq<string>>): (vs: set<Violation>)
    ensures Violation(Roles, ArrayNotEmpty) in vs <==> roles.Some? && |roles.value| == 0
    ensures Violation(Roles, IsIn) in vs <==>
              roles.Some? && exists j :: 0 <= j < |roles.value| && roles.value[j] !in ROLE_NAMES
    ensures forall x :: x in vs ==> x.property == Roles
    ensures vs <= {Violation(Roles, ArrayNotEmpty), Violation(Roles, IsIn)}
  {
    match roles
    case None => {}
    case Some(rs) =>
      (if |rs| == 0 then {Violation(Roles, ArrayNotEmpty)} else {})
      + (if exists j :: 0 <= j < |rs| && rs[j] !in ROLE_NAMES then {Violation(Roles, IsIn)} else {})
  }

  /** Every failing rule of the body. */
  function Violations(b: CreateUserBody): set<Violation> {
    StringViolations(Username, b.username, MIN_USERNAME_LENGTH, true)
    + StringViolations(Password, b.password, MIN_PASSWORD_LENGTH, false)
    + RolesViolations(b.roles)
  }

  /** An ASCII string is as long for `isLength` as it is in characters. */
  lemma {:induction false} AlphanumericLength(s: string)
    requires forall i :: 0 <= i < |s| ==> IsAsciiLetterOrDigit(s[i])
    ensures ValidatorLength(s) == |s|
  {
    if |s| > 0 {
      AlphanumericLength(s[1..]);
    }
  }

  /** A body passes exactly when the username is present, alphanumeric and
      at least 4 characters long, the password is present and at least 8
      long as `isLength` counts, and the roles, if given, are a non-empty list of
      known names. */
  lemma ValidBodies(b: CreateUserBody)
    ensures Violations(b) == {} <==>
              && b.username.Some? && IsAlphanumeric(b.username.value) && |b.username.value| >= MIN_USERNAME_LENGTH
              && b.password.Some? && ValidatorLength(b.password.value) >= MIN_PASSWORD_LENGTH
              && (b.roles.Some? ==> |b.roles.value| > 0 && forall j :: 0 <= j < |b.roles.value| ==> b.roles.value[j] in ROLE_NAMES)
  {
    if b.username.Some? && IsAlphanumeric(b.username.value) {
      AlphanumericLength(b.username.value);
    }
    var u := StringViolations(Username, b.username, MIN_USERNAME_LENGTH, true);
    var p := StringViolations(Password, b.password, MIN_PASSWORD_LENGTH, false);
    var r := RolesViolations(b.roles);
    if Violations(b) == {} {
      assert Violation(Username, IsString) !in u && Violation(Password, IsString) !in p;
      assert Violation(Roles, IsIn) !in r && Violation(Roles, ArrayNotEmpty) !in r;
    } else {
      var x :| x in Violations(b);
      assert x in u || x in p || x in r;
    }
  }

  /** A password of four emoji is 8 UTF-16 units long but only 4 long for
      `isLength`, so `@MinLength(8)` refuses it. */
  lemma FourEmojiPasswordTooShort()
    ensures Violation(Password, MinLength) in
              Violations(CreateUserBody(Some("abcd"), Some("\U{1F600}\U{1F600}\U{1F600}\U{1F600}"), None))
  {
    assert ValidatorLength("\U{1F600}\U{1F600}\U{1F600}\U{1F600}") == 4;
  }

  /** A body left entirely empty fails every rule of both required
      properties and none of `roles`. */
  lemma EmptyBodyViolations()
    ensures Violations(CreateUserBody(None, None, None)) ==
              {Violation(Username, IsString), Violation(Username, IsNotEmpty), Violation(Username, MinLength),
               Violation(Username, Matches), Violation(Password, IsString), Violation(Password, IsNotEmpty),
               Violation(Password, MinLength)}
  {
  }

  /** The pipe: a body with any failing rule is refused with 400, otherwise
      the service receives its three fields. */
  function ValidateCreateUser(b: CreateUserBody): (r: Result<UserRegistry.Registration, HttpError>)
    ensures r.Failure? <==> Violations(b) != {}
    ensures r.Failure? ==> r.error == BadRequest
    ensures r.Success? ==> r.value == UserRegistry.Registration(b.username.value, b.password.value, b.roles)
  {
    if Violations(b) != {} then Failure(BadRequest)
    else
      assert Violation(Username, IsString) !in Violations(b);
      assert Violation(Password, IsString) !in Violations(b);
      Success(UserRegistry.Registration(b.username.value, b.password.value, b.roles))
  }

  /** An alphanumeric username has nothing for the schema's `trim` to remove. */
  lemma AlphanumericIsTrimmed(s: string)
    requires IsAlphanumeric(s)
    ensures Trim(s) == s
  {
    assert IsAsciiLetterOrDigit(s[0]) && IsAsciiLetterOrDigit(s[|s| - 1]);
    assert IsTrimmed(s);
    TrimIsTrimmed(s);
  }

  /** A body the pipe accepts is stored as sent: registering it fails only
      on a taken username (409) or an id already stored (500), and otherwise
      stores the username unchanged with the roles sent, each a known name,
      or `['USER']` when none were sent. */
  lemma AcceptedBodyIsStoredAsSent(b: CreateUserBody, users: UserRegistry.Users, newId: UserRegistry.UserKey, hashed: string)
    requires ValidateCreateUser(b).Success?
    ensures var r := UserRegistry.CreateUser(users, ValidateCreateUser(b).value, newId, hashed);
            && (r.Failure? ==> r.error == Conflict || UserRegistry.FirstWithId(users, newId).Some?)
            && (r.Success? ==>
                  && r.value.username == b.username.value
                  && r.value.roles == (if b.roles.Some? then b.roles.value else UserRegistry.DEFAULT_ROLES)
                  && forall j :: 0 <= j < |r.value.roles| ==> r.value.roles[j] in ROLE_NAMES)
  {
    ValidBodies(b);
    AlphanumericIsTrimmed(b.username.value);
  }
}
