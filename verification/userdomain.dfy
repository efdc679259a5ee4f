/** The lab05 user domain: the email, name and password validators, the
    normalising constructor `NewUser`, and the validated field updates.
    Each clock reading (`time.Now()`) is an integer supplied by the caller. */
module UserDomain {
  import opened Wrappers
  import opened Text

  datatype User = User(
    id: int,
    email: string,
    name: string,
    password: string,
    createdAt: int,
    updatedAt: int)

  /** One constructor per distinct error message of the validators. */
  datatype DomainError =
    | EmailEmpty        // "email cannot be empty"
    | EmailFormat       // "invalid email format"
    | NameLength        // "name must be between 2 and 50 characters long"
    | NameEmpty         // "name cannot be empty"
    | PasswordLength    // "password must be at least 8 characters long"
    | PasswordNoDigit   // "password must contain at least one number"
    | PasswordNoLower   // "password must contain at least one lowercase letter"
    | PasswordNoUpper   // "password must contain at least one uppercase letter"
  {
    predicate IsEmailError() { this == EmailEmpty || this == EmailFormat }
    predicate IsNameError() { this == NameLength || this == NameEmpty }
    predicate IsPasswordError() { !IsEmailError() && !IsNameError() }
  }

  // ---------------------------------------------------------------------------
  // Email shape: ^[a-zA-Z0-9._%+-]+@[a-zA-Z0-9.-]+\.[a-zA-Z]{2,}$

  predicate IsLocalChar(c: char) {
    IsLetter(c) || IsDigit(c) || c == '.' || c == '_' || c == '%' || c == '+' || c == '-'
  }

  predicate IsDomainChar(c: char) {
    IsLetter(c) || IsDigit(c) || c == '.' || c == '-'
  }

  /** Every character of `t[lo..hi]` is allowed in the local part. */
  predicate LocalRun(t: string, lo: int, hi: int)
    requires 0 <= lo <= hi <= |t|
  {
    forall i | lo <= i < hi :: IsLocalChar(t[i])
  }

  /** Every character of `t[lo..hi]` is allowed in the domain body. */
  predicate DomainRun(t: string, lo: int, hi: int)
    requires 0 <= lo <= hi <= |t|
  {
    forall i | lo <= i < hi :: IsDomainChar(t[i])
  }

  /** Every character of `t[lo..hi]` is an ASCII letter. */
  predicate LetterRun(t: string, lo: int, hi: int)
    requires 0 <= lo <= hi <= |t|
  {
    forall i | lo <= i < hi :: IsLetter(t[i])
  }

  /** `t` splits as the email regular expression requires, with the `@` at `a`
      and the dot before the top-level domain at `d`. */
  predicate EmailSplit(t: string, a: int, d: int) {
    && 1 <= a && a + 2 <= d && d + 3 <= |t|
    && t[a] == '@' && t[d] == '.'
    && LocalRun(t, 0, a) && DomainRun(t, a + 1, d) && LetterRun(t, d + 1, |t|)
  }

  /** The language of the email regular expression: a non-empty local part,
      `@`, a non-empty domain body, a dot, and a top-level domain of at least
      two letters. */
  ghost predicate EmailPattern(t: string) {
    exists a: int, d: int :: EmailSplit(t, a, d)
  }

  /** A one-pass decision procedure for `EmailPattern`: the `@` must be the
      first one and the dot before the top-level domain must be the last one. */
  predicate MatchesEmailPattern(t: string) {
    match (IndexOf(t, '@'), LastIndexOf(t, '.'))
    case (Some(a), Some(d)) => EmailSplit(t, a, d)
    case _ => false
  }

  lemma MatchesEmailPatternCorrect(t: string)
    ensures MatchesEmailPattern(t) <==> EmailPattern(t)
  {
    if EmailPattern(t) {
      var a: int, d: int :| EmailSplit(t, a, d);
      // The `@` at `a` is the first one, since the local part has none; the
      // dot at `d` is the last one, since the top-level domain has none.
      assert '@' in t && '.' in t;
      var a' := IndexOf(t, '@').value;
      var d' := LastIndexOf(t, '.').value;
    }
  }

  // ---------------------------------------------------------------------------
  // Validators

  /** `ValidateEmail`: trims, rejects the empty string, then requires the
      email shape. */
  function ValidateEmail(email: string): (r: Outcome<DomainError>)
    ensures r == Fail(EmailEmpty) <==> TrimSpace(email) == []
    ensures r == Pass <==> EmailPattern(TrimSpace(email))
    ensures r.Fail? ==> r.error.IsEmailError()
  {
    MatchesEmailPatternCorrect(TrimSpace(email));
    var t := TrimSpace(email);
    if t == [] then Fail(EmailEmpty)
    else if !MatchesEmailPattern(t) then Fail(EmailFormat)
    else Pass
  }

  /** `ValidateName`: the trimmed name is 2 to 50 bytes long. The "cannot be
      empty" branch of the source is dead, since an empty name is already
      shorter than 2. */
  function ValidateName(name: string): (r: Outcome<DomainError>)
    ensures r == Pass <==> 2 <= ByteLen(TrimSpace(name)) <= 50
    ensures r.Fail? ==> r.error == NameLength
  {
    var n := ByteLen(TrimSpace(name));
    if n < 2 || n > 50 then Fail(NameLength)
    else if TrimSpace(name) == [] then Fail(NameEmpty)
    else Pass
  }

  /** `ValidatePassword`: at least 8 bytes, a digit, a lower-case and an
      upper-case ASCII letter; `PasswordCheckOrder` gives the order in which
      failures are reported. */
  function ValidatePassword(password: string): (r: Outcome<DomainError>)
    ensures r == Pass <==>
      ByteLen(password) >= 8 && HasDigit(password) && HasLower(password) && HasUpper(password)
    ensures r.Fail? ==> r.error.IsPasswordError()
  {
    ContainsAnyClasses(password);
    if ByteLen(password) < 8 then Fail(PasswordLength)
    else if !ContainsAny(password, Digits) then Fail(PasswordNoDigit)
    else if !ContainsAny(password, LowerLetters) then Fail(PasswordNoLower)
    else if !ContainsAny(password, UpperLetters) then Fail(PasswordNoUpper)
    else Pass
  }

  /** The password checks run in the order length, digit, lower case, upper
      case, and the first one that fails is reported. */
  lemma PasswordCheckOrder(password: string)
    ensures ValidatePassword(password) == Fail(PasswordLength) <==> ByteLen(password) < 8
    ensures ValidatePassword(password) == Fail(PasswordNoDigit) <==>
      ByteLen(password) >= 8 && !HasDigit(password)
    ensures ValidatePassword(password) == Fail(PasswordNoLower) <==>
      ByteLen(password) >= 8 && HasDigit(password) && !HasLower(password)
    ensures ValidatePassword(password) == Fail(PasswordNoUpper) <==>
      ByteLen(password) >= 8 && HasDigit(password) && HasLower(password) && !HasUpper(password)
  {
    ContainsAnyClasses(password);
  }

  /** `User.Validate`: the user is valid when its email, name and password
      are; `ValidateErrorPriority` gives which error is reported. */
  function Validate(u: User): (r: Outcome<DomainError>)
    ensures r == Pass <==>
      ValidateEmail(u.email) == Pass && ValidateName(u.name) == Pass && ValidatePassword(u.password) == Pass
    ensures r.Fail? ==> r in {ValidateEmail(u.email), ValidateName(u.name), ValidatePassword(u.password)}
  {
    match ValidateEmail(u.email)
    case Fail(e) => Fail(e)
    case Pass =>
      match ValidateName(u.name)
      case Fail(e) => Fail(e)
      case Pass => ValidatePassword(u.password)
  }

  /** The email is checked before the name and the name before the password:
      a name error is reported only for a valid email, a password error only
      for a valid email and name. */
  lemma ValidateErrorPriority(u: User)
    ensures ValidateEmail(u.email).Fail? ==> Validate(u) == ValidateEmail(u.email)
    ensures ValidateEmail(u.email) == Pass && ValidateName(u.name).Fail? ==> Validate(u) == ValidateName(u.name)
    ensures ValidateEmail(u.email) == Pass && ValidateName(u.name) == Pass ==> Validate(u) == ValidatePassword(u.password)
  {
  }

  // ---------------------------------------------------------------------------
  // Normalisation

  /** The stored form of an email: trimmed and lower-cased. */
  function NormalEmail(email: string): string {
    ToLower(TrimSpace(email))
  }

  /** The stored form of a name: trimmed. */
  function NormalName(name: string): string {
    TrimSpace(name)
  }

  /** Every character class of the email shape is closed under lower-casing,
      and lower-casing never moves a character into a class. */
  lemma LowerKeepsEmailClasses(c: char)
    ensures IsLocalChar(ToLowerChar(c)) <==> IsLocalChar(c)
    ensures IsDomainChar(ToLowerChar(c)) <==> IsDomainChar(c)
    ensures IsLetter(ToLowerChar(c)) <==> IsLetter(c)
    ensures ToLowerChar(c) == '@' <==> c == '@'
    ensures ToLowerChar(c) == '.' <==> c == '.'
  {
  }

  lemma EmailSplitIgnoresCase(t: string, a: int, d: int)
    ensures EmailSplit(ToLower(t), a, d) <==> EmailSplit(t, a, d)
  {
    var l := ToLower(t);
    forall i | 0 <= i < |t|
      ensures (IsLocalChar(l[i]) <==> IsLocalChar(t[i])) && (IsDomainChar(l[i]) <==> IsDomainChar(t[i]))
      ensures (IsLetter(l[i]) <==> IsLetter(t[i])) && (l[i] == '@' <==> t[i] == '@') && (l[i] == '.' <==> t[i] == '.')
    {
      LowerKeepsEmailClasses(t[i]);
    }
  }

  lemma EmailPatternIgnoresCase(t: string)
    ensures EmailPattern(ToLower(t)) <==> EmailPattern(t)
  {
    if EmailPattern(t) {
      var a: int, d: int :| EmailSplit(t, a, d);
      EmailSplitIgnoresCase(t, a, d);
    }
    if EmailPattern(ToLower(t)) {
      var a: int, d: int :| EmailSplit(ToLower(t), a, d);
      EmailSplitIgnoresCase(t, a, d);
    }
  }

  /** Validating the stored form of an email gives the same verdict, error
      included, as validating what the caller typed. */
  lemma ValidateNormalEmail(email: string)
    ensures ValidateEmail(NormalEmail(email)) == ValidateEmail(email)
  {
    var t := TrimSpace(email);
    ToLowerKeepsTrimmed(t);
    assert TrimSpace(ToLower(t)) == ToLower(t);
    EmailPatternIgnoresCase(t);
  }

  lemma ValidateNormalName(name: string)
    ensures ValidateName(NormalName(name)) == ValidateName(name)
  {
    TrimSpaceIdempotent(name);
  }

  /** `NewUser`: builds the user from the normalised email and name and the
      password as given, stamps the two timestamps with two clock readings,
      `created` and `updated`, and returns it only if it validates. */
  function NewUser(email: string, name: string, password: string, created: int, updated: int): (r: Result<User, DomainError>)
    ensures r.Ok? ==> Validate(r.value) == Pass
    ensures r.Ok? ==>
      && r.value.email == NormalEmail(email)
      && r.value.name == NormalName(name)
      && r.value.password == password
      && r.value.createdAt == created && r.value.updatedAt == updated
  {
    var u := User(0, NormalEmail(email), NormalName(name), password, created, updated);
    match Validate(u)
    case Fail(e) => Err(e)
    case Pass => Ok(u)
  }

  /** `NewUser` accepts exactly the inputs the validators accept as typed, and
      its error is the one `Validate` reports on the raw inputs. */
  lemma NewUserValidatesRawInputs(email: string, name: string, password: string, created: int, updated: int)
    ensures NewUser(email, name, password, created, updated).Ok? <==>
      ValidateEmail(email) == Pass && ValidateName(name) == Pass && ValidatePassword(password) == Pass
    ensures NewUser(email, name, password, created, updated).Err? ==>
      Fail(NewUser(email, name, password, created, updated).error) == Validate(User(0, email, name, password, created, updated))
  {
    ValidateNormalEmail(email);
    ValidateNormalName(name);
  }

  // ---------------------------------------------------------------------------
  // Updates: each returns the user after the call and the error it reported.

  /** `UpdateName`: on success only the name (trimmed) and `updatedAt` change;
      on failure the user is left as it was. */
  function UpdateName(u: User, name: string, now: int): (r: (User, Outcome<DomainError>))
    ensures r.1 == ValidateName(name)
    ensures r.1.Fail? ==> r.0 == u
    ensures r.1.Pass? ==> r.0.(name := u.name, updatedAt := u.updatedAt) == u
    ensures r.1.Pass? ==> r.0.name == NormalName(name) && r.0.updatedAt == now
    ensures r.1.Pass? ==> ValidateName(r.0.name) == Pass
  {
    ValidateNormalName(name);
    match ValidateName(name)
    case Fail(e) => (u, Fail(e))
    case Pass => (u.(name := TrimSpace(name), updatedAt := now), Pass)
  }

  /** `UpdateEmail`: on success only the email (trimmed, lower-cased) and
      `updatedAt` change; on failure the user is left as it was. */
  function UpdateEmail(u: User, email: string, now: int): (r: (User, Outcome<DomainError>))
    ensures r.1 == ValidateEmail(email)
    ensures r.1.Fail? ==> r.0 == u
    ensures r.1.Pass? ==> r.0.(email := u.email, updatedAt := u.updatedAt) == u
    ensures r.1.Pass? ==> r.0.email == NormalEmail(email) && r.0.updatedAt == now
    ensures r.1.Pass? ==> ValidateEmail(r.0.email) == Pass && !HasUpper(r.0.email)
  {
    ValidateNormalEmail(email);
    ToLowerHasNoUpper(TrimSpace(email));
    match ValidateEmail(email)
    case Fail(e) => (u, Fail(e))
    case Pass => (u.(email := ToLower(TrimSpace(email)), updatedAt := now), Pass)
  }

  /** A valid user stays valid through a name update, whether it succeeds or not. */
  lemma UpdateNamePreservesValidity(u: User, name: string, now: int)
    requires Validate(u) == Pass
    ensures Validate(UpdateName(u, name, now).0) == Pass
  {
    var v := UpdateName(u, name, now).0;
    assert v.email == u.email && v.password == u.password;
    assert ValidateName(v.name) == Pass;
  }

  /** A valid user stays valid through an email update, whether it succeeds or not. */
  lemma UpdateEmailPreservesValidity(u: User, email: string, now: int)
    requires Validate(u) == Pass
    ensures Validate(UpdateEmail(u, email, now).0) == Pass
  {
    var v := UpdateEmail(u, email, now).0;
    assert v.name == u.name && v.password == u.password;
    assert ValidateEmail(v.email) == Pass;
  }
}
