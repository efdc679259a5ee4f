/** The lab05 credential service: the login-level password rule and the
    empty-input guards around bcrypt. bcrypt itself is abstract: a pair of
    functions supplied by the caller, related by the soundness condition
    `Bcrypt.Sound`. The random salt is a parameter. */
module Security {
  import opened Wrappers
  import opened Text
  import UserDomain

  /** The bcrypt cost the service always uses. */
  const DefaultCost: nat := 10

  /** An abstract bcrypt: `generate(password, cost, salt)` is
      `GenerateFromPassword`, which may fail (`None`); `compare(hash, password)`
      is `CompareHashAndPassword` succeeding. */
  datatype Bcrypt = Bcrypt(
    generate: (string, nat, nat) -> Option<string>,
    compare: (string, string) -> bool)
  {
    /** What the model assumes of bcrypt: a produced hash is non-empty and
        accepts the password it was produced from. */
    ghost predicate Sound() {
      forall p, cost, salt :: generate(p, cost, salt).Some? ==>
        generate(p, cost, salt).value != "" && compare(generate(p, cost, salt).value, p)
    }
  }

  datatype PasswordError =
    | Composition   // "password must contain at least one number and one letter"
    | TooShort      // "password must be at least 6 chars long"

  /** `ValidatePassword`: a digit and a lower-case ASCII letter are required
      (upper-case letters do not count as letters), checked before the
      6-byte minimum length. */
  function ValidatePassword(password: string): (r: Outcome<PasswordError>)
    ensures r == Pass <==> HasDigit(password) && HasLower(password) && ByteLen(password) >= 6
    ensures r == Fail(Composition) <==> !HasDigit(password) || !HasLower(password)
    ensures r == Fail(TooShort) <==> HasDigit(password) && HasLower(password) && ByteLen(password) < 6
  {
    ContainsAnyClasses(password);
    if !ContainsAny(password, Digits) || !ContainsAny(password, LowerLetters) then Fail(Composition)
    else if ByteLen(password) < 6 then Fail(TooShort)
    else Pass
  }

  /** A password of digits and upper-case letters only has no "letter". */
  lemma UpperCaseIsNotALetter(password: string)
    requires forall i :: 0 <= i < |password| ==> IsDigit(password[i]) || IsUpper(password[i])
    ensures ValidatePassword(password) == Fail(Composition)
  {
  }

  /** The composition check comes first: "abcdef" fails it although it is
      long enough, and "ab1" passes it and fails on length. */
  lemma LongButNoDigit()
    ensures ValidatePassword("abcdef") == Fail(Composition)
  {
    assert !HasDigit("abcdef");
  }

  lemma ComposedButShort()
    ensures ValidatePassword("ab1") == Fail(TooShort)
  {
    var p := "ab1";
    assert IsDigit(p[2]) && IsLower(p[0]);
    assert ByteLen(p) == 3;
  }

  /** The domain rule is the stricter one: every password it accepts passes
      the login rule as well. */
  lemma DomainRuleImpliesLoginRule(password: string)
    requires UserDomain.ValidatePassword(password) == Pass
    ensures ValidatePassword(password) == Pass
  {
  }

  datatype HashError =
    | EmptyPassword    // "empty pass"
    | BcryptFailure    // the error of GenerateFromPassword

  /** `HashPassword`: refuses the empty password before bcrypt is consulted,
      otherwise hashes at `DefaultCost`. */
  function HashPassword(b: Bcrypt, password: string, salt: nat): (r: Result<string, HashError>)
    ensures password == "" ==> r == Err(EmptyPassword)
    ensures password != "" && b.generate(password, DefaultCost, salt).None? ==> r == Err(BcryptFailure)
    ensures password != "" && b.generate(password, DefaultCost, salt).Some? ==>
      r == Ok(b.generate(password, DefaultCost, salt).value)
    ensures r.Ok? ==> password != "" && Some(r.value) == b.generate(password, DefaultCost, salt)
  {
    if password == "" then Err(EmptyPassword)
    else match b.generate(password, DefaultCost, salt)
      case None => Err(BcryptFailure)
      case Some(h) => Ok(h)
  }

  /** `VerifyPassword`: false whenever either input is empty, otherwise
      whatever bcrypt's comparison says. */
  function VerifyPassword(b: Bcrypt, password: string, hash: string): (r: bool)
    ensures password == "" || hash == "" ==> !r
    ensures r <==> password != "" && hash != "" && b.compare(hash, password)
  {
    if password == "" || hash == "" then false
    else b.compare(hash, password)
  }

  /** The empty password is refused without looking at bcrypt: any two
      bcrypts, any two salts, give the same answer. */
  lemma HashEmptyIgnoresBcrypt(b1: Bcrypt, b2: Bcrypt, salt1: nat, salt2: nat)
    ensures HashPassword(b1, "", salt1) == HashPassword(b2, "", salt2)
  {
  }

  /** Round trip: a password verifies against any hash made from it. */
  lemma {:induction false} HashThenVerify(b: Bcrypt, password: string, salt: nat)
    requires b.Sound()
    requires HashPassword(b, password, salt).Ok?
    ensures VerifyPassword(b, password, HashPassword(b, password, salt).value)
  {
    var h := HashPassword(b, password, salt).value;
    assert b.generate(password, DefaultCost, salt) == Some(h);
  }
}
