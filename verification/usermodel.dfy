/** The lab04 user model: validation of a user and of a create request, and
    the conversion of one into the other. */
module UserModel {
  import opened Wrappers
  import opened Text

  datatype User = User(id: int, name: string, email: string, createdAt: int, updatedAt: int)

  datatype CreateUserRequest = CreateUserRequest(name: string, email: string)

  /** A partial update: an absent field is left alone. */
  datatype UpdateUserRequest = UpdateUserRequest(name: Option<string>, email: Option<string>)

  datatype ModelError =
    | NameTooShort   // "name too short"    (User.Validate)
    | NameIncorrect  // "name is incorrect" (CreateUserRequest.Validate)
    | EmailInvalid   // "email is not valid"

  /** The language of `(^$|^.*@.*\..*$)`: either empty, or free of newlines
      (Go's `.` does not match one) with an `@` somewhere before a `.`. */
  ghost predicate EmailRegex(s: string) {
    s == [] || ('\n' !in s && exists i, j :: 0 <= i < j < |s| && s[i] == '@' && s[j] == '.')
  }

  /** A decision procedure for `EmailRegex`: it is enough to look for a dot
      after the first `@`. */
  predicate MatchesEmailRegex(s: string) {
    s == [] ||
    ('\n' !in s && match IndexOf(s, '@')
      case None => false
      case Some(i) => '.' in s[i + 1..])
  }

  lemma MatchesEmailRegexCorrect(s: string)
    ensures MatchesEmailRegex(s) <==> EmailRegex(s)
  {
    if s != [] && '\n' !in s {
      if exists i, j :: 0 <= i < j < |s| && s[i] == '@' && s[j] == '.' {
        var i, j :| 0 <= i < j < |s| && s[i] == '@' && s[j] == '.';
        var f := IndexOf(s, '@').value;
        assert s[j] in s[f + 1..];
      }
      if MatchesEmailRegex(s) {
        var f := IndexOf(s, '@').value;
        var k :| 0 <= k < |s[f + 1..]| && s[f + 1..][k] == '.';
        assert s[f] == '@' && s[f + 1 + k] == '.';
      }
    }
  }

  /** The email check shared by both validators: non-empty and of the regex's
      shape, which with the emptiness check means the `@ ... .` branch. */
  predicate EmailAccepted(email: string) {
    email != "" && MatchesEmailRegex(email)
  }

  lemma EmailAcceptedMeans(email: string)
    ensures EmailAccepted(email) <==>
      '\n' !in email && exists i, j :: 0 <= i < j < |email| && email[i] == '@' && email[j] == '.'
  {
    MatchesEmailRegexCorrect(email);
  }

  /** `User.Validate`: a name of at least 2 bytes, checked before the email. */
  function Validate(u: User): (r: Outcome<ModelError>)
    ensures r == Pass <==> ByteLen(u.name) >= 2 && EmailRegex(u.email) && u.email != ""
    ensures r == Fail(NameTooShort) <==> ByteLen(u.name) < 2
    ensures r.Fail? ==> r.error in {NameTooShort, EmailInvalid}
  {
    MatchesEmailRegexCorrect(u.email);
    if ByteLen(u.name) < 2 then Fail(NameTooShort)
    else if !EmailAccepted(u.email) then Fail(EmailInvalid)
    else Pass
  }

  /** `CreateUserRequest.Validate`: the same checks as `User.Validate`, with
      its own message for a short name. */
  function ValidateRequest(req: CreateUserRequest): (r: Outcome<ModelError>)
    ensures r == Pass <==> ByteLen(req.name) >= 2 && EmailRegex(req.email) && req.email != ""
    ensures r == Fail(NameIncorrect) <==> ByteLen(req.name) < 2
    ensures r.Fail? ==> r.error in {NameIncorrect, EmailInvalid}
  {
    MatchesEmailRegexCorrect(req.email);
    if ByteLen(req.name) < 2 then Fail(NameIncorrect)
    else if !EmailAccepted(req.email) then Fail(EmailInvalid)
    else Pass
  }

  /** `CreateUserRequest.ToUser`: copies name and email, sets the id to 1 and
      the two timestamps to two clock readings, `created` and `updated`. */
  function ToUser(req: CreateUserRequest, created: int, updated: int): (u: User)
    ensures u.name == req.name && u.email == req.email
    ensures u.id == 1 && u.createdAt == created && u.updatedAt == updated
  {
    User(1, req.name, req.email, created, updated)
  }

  /** A request is accepted exactly when the user it converts to is, and a
      short name is reported by both. */
  lemma ValidateRequestAgreesWithUser(req: CreateUserRequest, created: int, updated: int)
    ensures ValidateRequest(req) == Pass <==> Validate(ToUser(req, created, updated)) == Pass
    ensures ValidateRequest(req) == Fail(NameIncorrect) <==> Validate(ToUser(req, created, updated)) == Fail(NameTooShort)
    ensures ValidateRequest(req) == Fail(EmailInvalid) <==> Validate(ToUser(req, created, updated)) == Fail(EmailInvalid)
  {
  }
}
