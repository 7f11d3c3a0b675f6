/**
 The user registry behind registration, login and phone verification.
 bcrypt and JWT are function-valued parameters the model does not look
 inside; the phone-number validator is one too. The registry is the ordered
 list of users, to which registration appends.
 */
module Auth {
  import opened Js

  /** bcrypt's hash and compare, and JWT signing. */
  datatype Crypto = Crypto(
    hash: (string, nat) -> string,
    compare: (string, string) -> bool,
    sign: (nat, string) -> string)

  /** The stored account: `pin` holds the bcrypt hash of the PIN. */
  datatype User = User(
    id: nat, phoneNumber: string, firstName: string, lastName: string, pin: string,
    language: string, createdAt: int, isActive: bool, trustScore: int)

  /** The account fields the responses disclose; the PIN hash is not among them. */
  datatype Profile = Profile(
    id: nat, phoneNumber: string, firstName: string, lastName: string, language: string, trustScore: int)

  function ProfileOf(u: User): Profile {
    Profile(u.id, u.phoneNumber, u.firstName, u.lastName, u.language, u.trustScore)
  }

  /** A signed-in session: the JWT and the user's profile. */
  datatype Session = Session(token: string, user: Profile)

  /** Why a request was refused: the messages of the validators that failed (`errors.array()`), or one fixed message. */
  datatype AuthError =
    | ValidationFailed(errors: seq<string>)
    | UserExists
    | InvalidCredentials
    | InvalidVerificationCode
    | VerificationFailed

  function Status(e: AuthError): int {
    match e
    case ValidationFailed(_) => 400
    case UserExists => 400
    case InvalidCredentials => 401
    case InvalidVerificationCode => 400
    case VerificationFailed => 500
  }

  /** The `message` of a refusal; a validation failure sends its list of messages instead. */
  function Message(e: AuthError): string
    requires !e.ValidationFailed?
  {
    match e
    case UserExists => "User already exists with this phone number"
    case InvalidCredentials => "Invalid credentials"
    case InvalidVerificationCode => "Invalid verification code"
    case VerificationFailed => "Verification failed"
  }

  datatype Result<T> = Ok(value: T) | Err(error: AuthError)

  const SupportedLanguages: seq<string> := ["en", "zu", "xh", "af"]

  /** The first-registered user's position among those with phone number `phone`. */
  function FindByPhone(users: seq<User>, phone: string): (r: Option<nat>)
    ensures r.None? <==> forall i :: 0 <= i < |users| ==> users[i].phoneNumber != phone
    ensures r.Some? ==> r.value < |users| && users[r.value].phoneNumber == phone
    ensures r.Some? ==> forall i :: 0 <= i < r.value ==> users[i].phoneNumber != phone
  {
    FindIndex(users, (u: User) => u.phoneNumber == phone)
  }

  // ---------------------------------------------------------------------------
  // Registration

  datatype RegisterRequest = RegisterRequest(
    phoneNumber: string, firstName: string, lastName: string, pin: string, language: Option<string>)

  /** The validation chain of the register route: a mobile number, both names, a 4-6 character PIN, a known language if one is given. */
  predicate ValidRegistration(r: RegisterRequest, isMobilePhone: string -> bool) {
    && isMobilePhone(r.phoneNumber)
    && r.firstName != ""
    && r.lastName != ""
    && 4 <= |r.pin| <= 6
    && (r.language.None? || r.language.value in SupportedLanguages)
  }

  /** The register route's validators, in the order the chain declares them. */
  datatype RegisterCheck = PhoneCheck | FirstNameCheck | LastNameCheck | PinCheck | LanguageCheck

  /** The message each register validator reports when it fails. */
  function RegisterMessage(c: RegisterCheck): string {
    match c
    case PhoneCheck => "Valid phone number required"
    case FirstNameCheck => "First name is required"
    case LastNameCheck => "Last name is required"
    case PinCheck => "PIN must be 4-6 digits"
    case LanguageCheck => "Invalid language"
  }

  /** Distinct validators report distinct messages. */
  lemma RegisterMessageInjective()
    ensures forall a, b :: RegisterMessage(a) == RegisterMessage(b) ==> a == b
  {
    assert |RegisterMessage(PhoneCheck)| == 27 && |RegisterMessage(FirstNameCheck)| == 22;
    assert |RegisterMessage(LastNameCheck)| == 21 && |RegisterMessage(PinCheck)| == 22;
    assert |RegisterMessage(LanguageCheck)| == 16;
    assert RegisterMessage(FirstNameCheck)[0] != RegisterMessage(PinCheck)[0];
  }

  /** The register validators that fail on a request, in chain order. */
  function RegistrationFailures(r: RegisterRequest, isMobilePhone: string -> bool): (fs: seq<RegisterCheck>)
    ensures fs == [] <==> ValidRegistration(r, isMobilePhone)
    ensures PhoneCheck in fs <==> !isMobilePhone(r.phoneNumber)
    ensures FirstNameCheck in fs <==> r.firstName == ""
    ensures LastNameCheck in fs <==> r.lastName == ""
    ensures PinCheck in fs <==> !(4 <= |r.pin| <= 6)
    ensures LanguageCheck in fs <==> r.language.Some? && r.language.value !in SupportedLanguages
  {
    (if isMobilePhone(r.phoneNumber) then [] else [PhoneCheck])
    + (if r.firstName != "" then [] else [FirstNameCheck])
    + (if r.lastName != "" then [] else [LastNameCheck])
    + (if 4 <= |r.pin| <= 6 then [] else [PinCheck])
    + (if r.language.None? || r.language.value in SupportedLanguages then [] else [LanguageCheck])
  }

  /** The messages of the given failed register validators, in the same order. */
  function RegisterMessages(fs: seq<RegisterCheck>): (errs: seq<string>)
    ensures |errs| == |fs|
    ensures forall c :: RegisterMessage(c) in errs <==> c in fs
  {
    if fs == [] then []
    else
      RegisterMessageInjective();
      [RegisterMessage(fs[0])] + RegisterMessages(fs[1..])
  }

  /** `errors.array()` of the register route: the failed validators' messages, in chain order. */
  function RegistrationErrors(r: RegisterRequest, isMobilePhone: string -> bool): (errs: seq<string>)
    ensures errs == [] <==> ValidRegistration(r, isMobilePhone)
    ensures forall c :: RegisterMessage(c) in errs <==> c in RegistrationFailures(r, isMobilePhone)
  {
    RegisterMessages(RegistrationFailures(r, isMobilePhone))
  }

  /** No two users share a phone number. */
  ghost predicate PhonesUnique(users: seq<User>) {
    forall i, j :: 0 <= i < j < |users| ==> users[i].phoneNumber != users[j].phoneNumber
  }

  /** The user at position `i` has id `i + 1`. */
  ghost predicate IdsSequential(users: seq<User>) {
    forall i :: 0 <= i < |users| ==> users[i].id == i + 1
  }

  ghost predicate Registry(users: seq<User>) {
    PhonesUnique(users) && IdsSequential(users)
  }

  /**
   `POST /auth/register`: `salt` is the randomness bcrypt draws for this hash
   and `now` the creation time.
   */
  function Register(users: seq<User>, r: RegisterRequest, isMobilePhone: string -> bool,
                    crypto: Crypto, salt: nat, now: int): (out: (seq<User>, Result<Session>))
    ensures !ValidRegistration(r, isMobilePhone) ==>
      out == (users, Err(ValidationFailed(RegistrationErrors(r, isMobilePhone))))
    ensures ValidRegistration(r, isMobilePhone) && FindByPhone(users, r.phoneNumber).Some? ==>
      out == (users, Err(UserExists))
    ensures out.1.Ok? <==> ValidRegistration(r, isMobilePhone) && FindByPhone(users, r.phoneNumber).None?
    ensures out.1.Err? ==> out.0 == users
    ensures out.1.Ok? ==> |out.0| == |users| + 1
    ensures out.1.Ok? ==>
      var u := out.0[|users|];
      && out.0 == users + [u]
      && u.id == |users| + 1
      && u.phoneNumber == r.phoneNumber && u.firstName == r.firstName && u.lastName == r.lastName
      && u.pin == crypto.hash(r.pin, salt)
      && u.language == (if r.language.Some? then r.language.value else "en")
      && u.isActive && u.trustScore == 100
      && out.1.value == Session(crypto.sign(u.id, u.phoneNumber), ProfileOf(u))
  {
    if !ValidRegistration(r, isMobilePhone) then (users, Err(ValidationFailed(RegistrationErrors(r, isMobilePhone))))
    else if FindByPhone(users, r.phoneNumber).Some? then (users, Err(UserExists))
    else
      var language := if r.language.Some? then r.language.value else "en";
      var u := User(|users| + 1, r.phoneNumber, r.firstName, r.lastName, crypto.hash(r.pin, salt),
                    language, now, true, 100);
      (users + [u], Ok(Session(crypto.sign(u.id, u.phoneNumber), ProfileOf(u))))
  }

  /** Registration keeps phone numbers unique and ids sequential. */
  lemma RegisterPreservesRegistry(users: seq<User>, r: RegisterRequest, isMobilePhone: string -> bool,
                                  crypto: Crypto, salt: nat, now: int)
    requires Registry(users)
    ensures Registry(Register(users, r, isMobilePhone, crypto, salt, now).0)
  {
  }

  /** A run of registrations, the i-th with salt `salts[i]` at time `times[i]`. */
  function RegisterAll(users: seq<User>, rs: seq<RegisterRequest>, isMobilePhone: string -> bool,
                       crypto: Crypto, salts: seq<nat>, times: seq<int>): (out: seq<User>)
    requires |rs| == |salts| == |times|
    ensures |users| <= |out| <= |users| + |rs|
    ensures out[..|users|] == users
    decreases |rs|
  {
    if rs == [] then users
    else
      var next := Register(users, rs[0], isMobilePhone, crypto, salts[0], times[0]).0;
      assert |users| <= |next| <= |users| + 1 && next[..|users|] == users;
      var rest := RegisterAll(next, rs[1..], isMobilePhone, crypto, salts[1..], times[1..]);
      assert rest[..|users|] == rest[..|next|][..|users|];
      rest
  }

  /** Phone numbers stay unique and ids sequential after any run of registrations. */
  lemma {:induction false} RegisterAllPreservesRegistry(
    users: seq<User>, rs: seq<RegisterRequest>, isMobilePhone: string -> bool,
    crypto: Crypto, salts: seq<nat>, times: seq<int>)
    requires |rs| == |salts| == |times|
    requires Registry(users)
    ensures Registry(RegisterAll(users, rs, isMobilePhone, crypto, salts, times))
    decreases |rs|
  {
    if rs != [] {
      RegisterPreservesRegistry(users, rs[0], isMobilePhone, crypto, salts[0], times[0]);
      var next := Register(users, rs[0], isMobilePhone, crypto, salts[0], times[0]).0;
      RegisterAllPreservesRegistry(next, rs[1..], isMobilePhone, crypto, salts[1..], times[1..]);
    }
  }

  // ---------------------------------------------------------------------------
  // Login

  /** The messages of the login route's failed validators, in the order the chain declares them. */
  function LoginErrors(phoneNumber: string, pin: string, isMobilePhone: string -> bool): (errs: seq<string>)
    ensures errs == [] <==> isMobilePhone(phoneNumber) && pin != ""
    ensures "Valid phone number required" in errs <==> !isMobilePhone(phoneNumber)
    ensures "PIN is required" in errs <==> pin == ""
  {
    Failed(isMobilePhone(phoneNumber), "Valid phone number required")
    + Failed(pin != "", "PIN is required")
  }

  /** `POST /auth/login`: the same 401 for an unknown phone number and for a wrong PIN. */
  function Login(users: seq<User>, phoneNumber: string, pin: string, isMobilePhone: string -> bool,
                 crypto: Crypto): (r: Result<Session>)
    ensures !isMobilePhone(phoneNumber) || pin == "" ==>
      r == Err(ValidationFailed(LoginErrors(phoneNumber, pin, isMobilePhone)))
    ensures isMobilePhone(phoneNumber) && pin != "" ==>
      match FindByPhone(users, phoneNumber)
      case None => r == Err(InvalidCredentials)
      case Some(i) =>
        if crypto.compare(pin, users[i].pin)
        then r == Ok(Session(crypto.sign(users[i].id, phoneNumber), ProfileOf(users[i])))
        else r == Err(InvalidCredentials)
  {
    if !isMobilePhone(phoneNumber) || pin == "" then Err(ValidationFailed(LoginErrors(phoneNumber, pin, isMobilePhone)))
    else match FindByPhone(users, phoneNumber)
      case None => Err(InvalidCredentials)
      case Some(i) =>
        var u := users[i];
        if crypto.compare(pin, u.pin) then Ok(Session(crypto.sign(u.id, u.phoneNumber), ProfileOf(u)))
        else Err(InvalidCredentials)
  }

  /**
   In a registry with unique phone numbers, a well-formed login succeeds exactly
   when some user has that phone number and the PIN matches that user's hash.
   */
  lemma LoginSucceedsIff(users: seq<User>, phoneNumber: string, pin: string,
                         isMobilePhone: string -> bool, crypto: Crypto)
    requires PhonesUnique(users)
    requires isMobilePhone(phoneNumber) && pin != ""
    ensures Login(users, phoneNumber, pin, isMobilePhone, crypto).Ok? <==>
      exists i :: 0 <= i < |users| && users[i].phoneNumber == phoneNumber && crypto.compare(pin, users[i].pin)
  {
    var found := FindByPhone(users, phoneNumber);
    if found.Some? {
      forall i | 0 <= i < |users| && users[i].phoneNumber == phoneNumber
        ensures i == found.value
      {
      }
    }
  }

  /** An unknown phone number and a wrong PIN are indistinguishable to the caller. */
  lemma LoginFailuresIndistinguishable(users: seq<User>, unknown: string, known: string, pin: string,
                                       wrongPin: string, isMobilePhone: string -> bool, crypto: Crypto)
    requires isMobilePhone(unknown) && isMobilePhone(known) && pin != "" && wrongPin != ""
    requires forall i :: 0 <= i < |users| ==> users[i].phoneNumber != unknown
    requires forall i :: 0 <= i < |users| && users[i].phoneNumber == known ==> !crypto.compare(wrongPin, users[i].pin)
    ensures Login(users, unknown, pin, isMobilePhone, crypto) == Login(users, known, wrongPin, isMobilePhone, crypto)
    ensures Status(Login(users, unknown, pin, isMobilePhone, crypto).error) == 401
  {
  }

  /** If bcrypt's compare accepts a PIN against its own hash, a freshly registered user can log in with that PIN. */
  lemma RegisterThenLogin(users: seq<User>, r: RegisterRequest, isMobilePhone: string -> bool,
                          crypto: Crypto, salt: nat, now: int)
    requires forall p, s :: crypto.compare(p, crypto.hash(p, s))
    requires Register(users, r, isMobilePhone, crypto, salt, now).1.Ok?
    ensures var users' := Register(users, r, isMobilePhone, crypto, salt, now).0;
      var login := Login(users', r.phoneNumber, r.pin, isMobilePhone, crypto);
      login.Ok? && login.value.user.id == |users| + 1
  {
    var users' := Register(users, r, isMobilePhone, crypto, salt, now).0;
    var found := FindByPhone(users', r.phoneNumber);
    assert users'[|users|].phoneNumber == r.phoneNumber;
    assert found.Some? && found.value == |users|;
  }

  // ---------------------------------------------------------------------------
  // Phone verification

  /**
   `POST /auth/verify-phone`: any code whose JavaScript `length` is the
   number 4 is accepted. The code is whatever JSON value the request carries:
   a string's length counts UTF-16 code units, an array's its items, and an
   object's is its own `length` field; a number or boolean has none, so a
   numeric code such as 1234 is refused. The route declares a 4-6 character
   check but never consults it, so strings of length 5 and 6 reach the length
   test and fail it. A missing or null code makes `.length` throw, which the
   route reports as a 500.
   */
  function VerifyPhone(verificationCode: Option<Json>): (r: Result<()>)
    ensures r == Err(VerificationFailed) <==> verificationCode.None? || verificationCode.value.JNull?
    ensures r.Ok? || r == Err(InvalidVerificationCode) || r == Err(VerificationFailed)
    ensures verificationCode.Some? && verificationCode.value.JString? ==>
      (r.Ok? <==> Utf16Length(verificationCode.value.s) == 4)
    ensures verificationCode.Some? && verificationCode.value.JArray? ==>
      (r.Ok? <==> |verificationCode.value.items| == 4)
    ensures verificationCode.Some? && verificationCode.value.JObject? ==>
      var fields := verificationCode.value.fields;
      (r.Ok? <==> "length" in fields && fields["length"].JNumber? && fields["length"].x == 4.0)
    ensures verificationCode.Some? && (verificationCode.value.JNumber? || verificationCode.value.JBool?) ==>
      r == Err(InvalidVerificationCode)
  {
    match verificationCode
    case None => Err(VerificationFailed)
    case Some(code) =>
      if code.JNull? then Err(VerificationFailed)
      else if IsNumber(LengthOf(code), 4.0) then Ok(())
      else Err(InvalidVerificationCode)
  }

  /** A code of characters from the Basic Multilingual Plane, such as a digit code, is accepted exactly when it has four. */
  lemma PlainCodeAcceptedIffFourChars(code: string)
    requires forall i :: 0 <= i < |code| ==> code[i] as int < 0x1_0000
    ensures VerifyPhone(Some(JString(code))).Ok? <==> |code| == 4
  {
  }

  /** Two characters beyond the Basic Multilingual Plane (two emoji, say) make a code of length 4, which is accepted. */
  lemma TwoWideCharsAccepted(a: char, b: char)
    requires a as int >= 0x1_0000 && b as int >= 0x1_0000
    ensures VerifyPhone(Some(JString([a, b]))).Ok?
  {
    var code := [a, b];
    assert code[1..] == [b] && code[1..][1..] == [];
    assert Utf16Length(code) == Utf16Units(a) + Utf16Units(b) + Utf16Length([]);
  }
}
