# Account, token and message core of the Go labs, in Dafny

This project models the decision logic of a family of small Go web back ends:

- **lab05 user domain.** The email, name and password validators. `NewUser` trims the email and name and lower-cases the email before validating. `UpdateName` and `UpdateEmail` leave the user untouched when validation fails.
- **lab05 credential service.** The looser login password rule, and the empty-input guards around an abstract bcrypt.
- **lab05 token service.** Key check, subject checks, a 24-hour expiry, and how a parse result is classified as empty, expired, invalid or bad claims. The JWS primitives are abstract, and the flow of golang-jwt v4's `ParseWithClaims` around them is modelled.
- **lab02 stores.**
  - The message store: an append-only sequence with a filter by sender.
  - The user manager: a map keyed by user id that rejects duplicates. Its context is modelled as a `cancelled` flag.
- **lab04 models.** The user and post validators, and the conversions from request to entity.
- **lab04 user repository.** Validate-before-insert in `Create`. The UPDATE-statement builder, whose clause list and argument list stay in step. "No row affected" becomes `sql.ErrNoRows` in both `Update` and `Delete`.
- **lab03 HTTP handlers, pure parts.** The status-description table, the 100–599 range check of the status endpoint, and the status each message endpoint answers for each outcome.

There is one module per Go source file, plus `Wrappers` (`Option`, `Result`, `Outcome`) and `Text`. `Text` stands in for Go's `strings` package, restricted to ASCII, and for `len`, which is exact in UTF-8 bytes:

- lengths count UTF-8 bytes, as Go's `len` does;
- `TrimSpace` removes ASCII white space only;
- `ToLower` maps ASCII letters only.

Stateful operations are pure functions. Each returns the state after the call together with the error reported, so "nothing else changes" can be stated as an equality.

Several things are parameters rather than modelled code:

- **The clock.** Each `time.Now()` reading is an integer supplied by the caller. Where the code reads the clock twice (`NewUser`, `ToUser`, `ToPost`), the model takes two readings, `created` and `updated`. The one exception is `GenerateToken` (see "Left out").
- **Crypto.** bcrypt is the pair `Security.Bcrypt`. The JWS sign, decode and verify functions are `JwtService.Jws`. Each comes with a soundness predicate (`Sound`) that the round-trip lemmas require.
- **The database.** Three oracle functions in `UserRepository.Database`.
- **lab03 message storage.** Oracle functions passed to each handler.
- **Parse results.** A JSON body or path id that did not parse is `None`.

Where the code and its documentation disagree, the model follows the code:

- **Login password rule.** It is documented as "a letter and a digit". The code demands a lower-case ASCII letter, so upper-case letters do not count (`Security.UpperCaseIsNotALetter`).
- **Name length.** A comment says "2-51 characters". The check is 2 to 50 bytes after trimming.
- **Wrong algorithm.** A token whose header names another algorithm is reported as `ErrInvalidToken`, not as a separate malformed-token error.
- **Expired token.** An expired token is reported as `ErrTokenExpired` even when its signature is also bad, because the library sets every failure flag it finds (`JwtService.ExpiredReportedAsExpired`).

## Model

| member | source | states |
|---|---|---|
| Text.ContainsAny | labs/lab05/backend/userdomain/user.go:96 | `strings.ContainsAny` holds iff some character of the string occurs in the set |
| Text.ContainsAnyClasses | labs/lab05/backend/userdomain/user.go:96-103 | the three `ContainsAny` class checks mean "has a digit / lower-case / upper-case ASCII letter" |
| Text.ByteLen | labs/lab05/backend/userdomain/user.go:93 | Go's `len` lies between the character count and four times it, and equals the character count on ASCII text |
| Text.ByteLenEmpty | labs/lab04/backend/models/post.go:37 | the byte length is zero exactly for the empty string, so `Title == ""` is subsumed by `len(Title) < 5` |
| Text.ToLower | labs/lab05/backend/userdomain/user.go:29 | `strings.ToLower` keeps the length and lower-cases each character in place |
| Text.ToLowerHasNoUpper | labs/lab05/backend/userdomain/user.go:123 | a lower-cased string holds no upper-case letter |
| Text.TrimSpace | labs/lab05/backend/userdomain/user.go:60 | `strings.TrimSpace` yields a string with no white space at either end, and leaves an already trimmed string alone |
| Text.TrimSpaceDropsOnlySpace | labs/lab05/backend/userdomain/user.go:60 | the trimmed string is an infix of the input, and everything dropped before or after it is white space |
| Text.TrimSpaceIdempotent | labs/lab05/backend/userdomain/user.go:113 | trimming twice is trimming once |
| Text.ToLowerKeepsTrimmed | labs/lab05/backend/userdomain/user.go:123 | lower-casing a trimmed string keeps it trimmed |
| Text.IndexOf | labs/lab05/backend/userdomain/user.go:64-68 | helper of the matcher that decides the email regular expression (the source calls no index function): the first occurrence of a character, or none iff the character is absent |
| Text.LastIndexOf | labs/lab05/backend/userdomain/user.go:64-68 | helper of the matcher that decides the email regular expression (the source calls no index function): the last occurrence of a character, or none iff the character is absent |
| Text.JoinEnds | labs/lab04/backend/repository/user_repository.go:88 | `strings.Join` (modelled by `Text.Join`) is empty for no parts, and otherwise starts with the first part and ends with the last |
| Text.CountJoin | labs/lab04/backend/repository/user_repository.go:88 | joining with a separator free of `?` adds no `?` to the parts, for any list of parts |
| Text.Decimal | labs/lab03/backend/api/handlers.go:152 | `%d` of a non-negative number is a non-empty string of digits |
| Text.DecimalRoundTrip | labs/lab03/backend/api/handlers.go:152 | reading the decimal rendering back gives the number |
| Text.DecimalThreeDigits | labs/lab03/backend/api/handlers.go:152 | a code in 100..999 renders as exactly three digits |
| UserDomain.MatchesEmailPatternCorrect | labs/lab05/backend/userdomain/user.go:64-68 | the one-pass matcher accepts exactly the language of `^[a-zA-Z0-9._%+-]+@[a-zA-Z0-9.-]+\.[a-zA-Z]{2,}$` |
| UserDomain.ValidateEmail | labs/lab05/backend/userdomain/user.go:59-70 | "email cannot be empty" iff the trimmed email is empty; success iff the trimmed email is in the regular language; only email errors |
| UserDomain.ValidateName | labs/lab05/backend/userdomain/user.go:74-85 | success iff the trimmed name is 2 to 50 bytes; the only error reported is the length error (the "cannot be empty" branch is dead) |
| UserDomain.ValidatePassword | labs/lab05/backend/userdomain/user.go:89-106 | success iff at least 8 bytes with a digit, a lower-case and an upper-case ASCII letter; only password errors |
| UserDomain.PasswordCheckOrder | labs/lab05/backend/userdomain/user.go:93-104 | each password error is reported iff every earlier check (length, digit, lower, upper) passed and its own failed |
| UserDomain.Validate | labs/lab05/backend/userdomain/user.go:44-55 | a user is valid iff its email, name and password are, and a failure is one of the three validators' errors |
| UserDomain.ValidateErrorPriority | labs/lab05/backend/userdomain/user.go:44-55 | the email error wins over the name error, which wins over the password error |
| UserDomain.LowerKeepsEmailClasses | labs/lab05/backend/userdomain/user.go:64 | lower-casing keeps each character class of the email pattern, in both directions |
| UserDomain.EmailSplitIgnoresCase | labs/lab05/backend/userdomain/user.go:64 | a split point of the email pattern is one for the lower-cased string and back |
| UserDomain.EmailPatternIgnoresCase | labs/lab05/backend/userdomain/user.go:64 | the email pattern accepts a string iff it accepts its lower-cased form |
| UserDomain.ValidateNormalEmail | labs/lab05/backend/userdomain/user.go:29 | validating the stored (trimmed, lower-cased) email gives the same verdict, error included, as validating the typed email |
| UserDomain.ValidateNormalName | labs/lab05/backend/userdomain/user.go:30 | validating the stored (trimmed) name gives the same verdict as validating the typed name |
| UserDomain.NewUser | labs/lab05/backend/userdomain/user.go:27-40 | a returned user validates and holds the normalised email and name, the password as given, and the two clock readings as its timestamps |
| UserDomain.NewUserValidatesRawInputs | labs/lab05/backend/userdomain/user.go:27-40 | `NewUser` succeeds iff the three validators accept the raw inputs, and its error is the one `Validate` reports on them |
| UserDomain.UpdateName | labs/lab05/backend/userdomain/user.go:109-116 | the error is `ValidateName`'s; on failure the user is unchanged; on success only the name (trimmed) and `updatedAt` change, and the new name validates |
| UserDomain.UpdateEmail | labs/lab05/backend/userdomain/user.go:119-126 | the error is `ValidateEmail`'s; on failure the user is unchanged; on success only the email (trimmed, lower-cased) and `updatedAt` change, and the new email validates and has no upper case |
| UserDomain.UpdateNamePreservesValidity | labs/lab05/backend/userdomain/user.go:109-116 | a valid user stays valid through any name update |
| UserDomain.UpdateEmailPreservesValidity | labs/lab05/backend/userdomain/user.go:119-126 | a valid user stays valid through any email update |
| Security.ValidatePassword | labs/lab05/backend/security/password.go:63-73 | success iff a digit, a lower-case letter and at least 6 bytes; the composition error iff a digit or lower-case letter is missing; the length error iff composed but short |
| Security.UpperCaseIsNotALetter | labs/lab05/backend/security/password.go:66 | a password of digits and upper-case letters fails the composition check |
| Security.LongButNoDigit | labs/lab05/backend/security/password.go:66-71 | "abcdef" fails composition although it is long enough |
| Security.ComposedButShort | labs/lab05/backend/security/password.go:66-71 | "ab1" passes composition and fails on length |
| Security.DomainRuleImpliesLoginRule | labs/lab05/backend/security/password.go:63-73 | every password the domain rule accepts passes the login rule |
| Security.HashPassword | labs/lab05/backend/security/password.go:28-39 | the empty password is refused; for a non-empty password, the result is the hash when bcrypt produces one at cost 10, and a bcrypt failure otherwise |
| Security.HashEmptyIgnoresBcrypt | labs/lab05/backend/security/password.go:31-33 | hashing the empty password gives the same answer for any bcrypt and salt, so bcrypt is not consulted |
| Security.VerifyPassword | labs/lab05/backend/security/password.go:47-56 | false whenever the password or the hash is empty, otherwise bcrypt's comparison |
| Security.HashThenVerify | labs/lab05/backend/security/password.go:28-56 | for a sound bcrypt, a password verifies against any hash made from it |
| JwtService.NewJWTService | labs/lab05/backend/jwtservice/jwt.go:19-27 | fails iff the key is empty; otherwise the service holds exactly the key |
| JwtService.GenerateToken | labs/lab05/backend/jwtservice/jwt.go:36-59 | a non-positive user id gives the `user_id` error before the email is looked at; an empty email gives the `email` error; a token otherwise |
| JwtService.GeneratedClaims | labs/lab05/backend/jwtservice/jwt.go:44-53 | a generated token decodes as HS256 with the given user id and email, issued at `now` and expiring 24 hours later |
| JwtService.ClaimFlags | labs/lab05/backend/jwtservice/jwt.go:92 | the expiry flag is raised iff `exp` is present and not after the clock, the issued-at flag iff `iat` is present and after the clock, the not-before flag iff `nbf` is present and after the clock; only these claim flags are raised |
| JwtService.Parse | labs/lab05/backend/jwtservice/jwt.go:72-78 | a parse succeeds iff the token decodes as HS256, its signature checks under the key and its claims raise no flag; a failed parse carries a flag, and the expiry flag iff the token is HS256 and expired |
| JwtService.ValidateToken | labs/lab05/backend/jwtservice/jwt.go:67-99 | every outcome is characterised iff: `ErrEmptyToken` iff the token is empty; acceptance iff it is non-empty, decodes as HS256, its signature checks, and its claims raise no flag at either clock reading; `ErrTokenExpired` iff the HS256 token is expired at the parse, or passes the parse and is expired at the second check; `ErrInvalidClaims` iff it passes the parse and the second check raises only `iat`/`nbf` flags; `ErrInvalidToken` iff it is malformed, names another algorithm, or fails the parse (bad signature or `iat`/`nbf` flag) without being expired |
| JwtService.OtherAlgorithmRejected | labs/lab05/backend/jwtservice/jwt.go:74-88 | a token whose header names another algorithm always ends in `ErrInvalidToken` |
| JwtService.BadSignatureIsInvalid | labs/lab05/backend/jwtservice/jwt.go:79-88 | a well-formed HS256 token whose signature fails and which has not expired gives `ErrInvalidToken` |
| JwtService.ExpiredReportedAsExpired | labs/lab05/backend/jwtservice/jwt.go:79-85 | a well-formed HS256 token past its expiry gives `ErrTokenExpired`, whatever its signature |
| JwtService.ExpiredAtRecheck | labs/lab05/backend/jwtservice/jwt.go:92-95 | a token that passes the parse but has expired by the second claims check gives `ErrTokenExpired` |
| JwtService.GenerateThenValidate | labs/lab05/backend/jwtservice/jwt.go:36-98 | a token generated and validated with the same key within 24 hours yields the same user id and email |
| JwtService.GenerateThenExpire | labs/lab05/backend/jwtservice/jwt.go:82-84 | 24 hours or more after issue the same token gives `ErrTokenExpired` |
| MessageStore.AddMessage | labs/lab02/backend/message/message.go:35-49 | an empty sender, then empty content, is refused with the store unchanged; success iff both are non-empty, and then the store is the old one plus the message |
| MessageStore.GetMessages | labs/lab02/backend/message/message.go:52-77 | an empty store fails for any user; the empty user gets every message; otherwise exactly the user's messages in store order, or an error naming the user if there are none |
| MessageStore.SentByAppend | labs/lab02/backend/message/message.go:65-70 | filtering by sender distributes over concatenation, so store order is kept |
| MessageStore.SentByMembers | labs/lab02/backend/message/message.go:65-70 | a message is in the user's view iff it is stored with that sender |
| MessageStore.SentByEmpty | labs/lab02/backend/message/message.go:72-74 | the user's view is empty iff no stored message has that sender |
| MessageStore.AddThenFilter | labs/lab02/backend/message/message.go:47 | after an accepted message, its sender's view gains it at the end and every other view is unchanged |
| UserManager.Validate | labs/lab02/backend/user/user.go:20-35 | valid iff name, email, `@` in the email and id; each error iff every earlier check passed and its own failed |
| UserManager.AddUser | labs/lab02/backend/user/user.go:65-92 | cancellation, then validation, then a taken id are reported with the map unchanged; success iff none applies, adds exactly `u` at `u.id` and keeps every other entry; keeps the map consistent |
| UserManager.RemoveUser | labs/lab02/backend/user/user.go:95-108 | an absent id fails with nothing changed; otherwise exactly that key is removed; keeps the map consistent |
| UserManager.GetUser | labs/lab02/backend/user/user.go:111-123 | the entry filed under the id, or "user not found" iff absent; in a consistent map the user carries that id and is valid |
| UserManager.AddThenGet | labs/lab02/backend/user/user.go:90-122 | after a successful add, getting its id returns the added user |
| UserManager.RemoveThenGet | labs/lab02/backend/user/user.go:101-122 | after a successful remove, both a get and a second remove of that id fail with "user not found" |
| UserManager.AddTwice | labs/lab02/backend/user/user.go:85-87 | adding the same user again fails with "user already exists" and changes nothing |
| UserModel.MatchesEmailRegexCorrect | labs/lab04/backend/models/user.go:36 | the matcher accepts exactly the language of the email expression: empty, or newline-free with an `@` before a `.` |
| UserModel.EmailAcceptedMeans | labs/lab04/backend/models/user.go:36-39 | an email is accepted iff it has no newline and an `@` before a `.` (the empty alternative is overridden) |
| UserModel.Validate | labs/lab04/backend/models/user.go:32-41 | valid iff the name has at least 2 bytes and the email is accepted; a short name is reported before the email is looked at |
| UserModel.ValidateRequest | labs/lab04/backend/models/user.go:44-53 | the same rule, with "name is incorrect" for a short name |
| UserModel.ToUser | labs/lab04/backend/models/user.go:56-66 | copies name and email, sets id 1, and sets the timestamps to the two clock readings |
| UserModel.ValidateRequestAgreesWithUser | labs/lab04/backend/models/user.go:32-53 | a request is accepted iff the user it converts to is, and each error has its counterpart |
| PostModel.CheckFields | labs/lab04/backend/models/post.go:36-46 | success iff a title of 5 bytes or more, content for a published post and a positive user id; each error iff every earlier check passed and its own failed |
| PostModel.Validate | labs/lab04/backend/models/post.go:36-47 | a post is valid iff title, content and user id rules hold; content and user id errors only after the earlier checks passed |
| PostModel.ValidateRequest | labs/lab04/backend/models/post.go:50-61 | a request is valid iff the same three rules hold |
| PostModel.ToPost | labs/lab04/backend/models/post.go:64-74 | copies user id, title, content and published, sets id 0, and sets the timestamps to the two clock readings |
| PostModel.ValidateRequestAgreesWithPost | labs/lab04/backend/models/post.go:36-61 | a request gets exactly the verdict, error included, of the post it converts to |
| PostModel.DraftMayBeEmpty | labs/lab04/backend/models/post.go:40 | an unpublished post with empty content is valid when title and user id are |
| UserRepository.Create | labs/lab04/backend/repository/user_repository.go:23-35 | an invalid request returns its validation error; a valid one returns the request's name and email with the id and timestamps the insert returned, or the insert's driver error |
| UserRepository.CreateInvalidIgnoresDatabase | labs/lab04/backend/repository/user_repository.go:24-27 | an invalid request gives the same answer for any database, so no query is issued |
| UserRepository.UpdateStatement | labs/lab04/backend/repository/user_repository.go:71-88 | clauses name, email (each if given), then always `updated_at` last; arguments in clause order, then timestamp, then id; the query wraps the joined clauses and has one `?` per argument |
| UserRepository.EmptyUpdateTouchesTimestampOnly | labs/lab04/backend/repository/user_repository.go:83-88 | with no field given the query is `UPDATE users SET updated_at = ? WHERE id = ?` |
| UserRepository.AssignHasOnePlaceholder | labs/lab04/backend/repository/user_repository.go:75-83 | a SET clause of a column without `?` carries exactly one placeholder |
| UserRepository.OnePlaceholderEach | labs/lab04/backend/repository/user_repository.go:74-83 | a list of SET clauses carries one placeholder per clause |
| UserRepository.JoinedClausesCount | labs/lab04/backend/repository/user_repository.go:88 | the joined SET list carries one placeholder per clause |
| UserRepository.HeadHasNoPlaceholder | labs/lab04/backend/repository/user_repository.go:88 | the text before the SET list has no placeholder |
| UserRepository.TailHasOnePlaceholder | labs/lab04/backend/repository/user_repository.go:88 | the WHERE clause has exactly one placeholder |
| UserRepository.PlaceholdersMatch | labs/lab04/backend/repository/user_repository.go:88 | the query has one placeholder per clause plus the id's |
| UserRepository.RowsOutcome | labs/lab04/backend/repository/user_repository.go:94-100 | zero rows is `ErrNoRows` and nothing else is; an execution error or a rows-count error is passed on as a driver error; success iff a non-zero count |
| UserRepository.Update | labs/lab04/backend/repository/user_repository.go:70-103 | runs the built statement; when rows were affected the result is the read-back by id, otherwise the error of the rows check (`ErrNoRows` for zero rows, the driver error otherwise) |
| UserRepository.Delete | labs/lab04/backend/repository/user_repository.go:106-123 | `ErrNoRows` iff zero rows were affected; execution and rows-count errors are passed on as driver errors; success iff rows were affected |
| Handlers.StatusDescription | labs/lab03/backend/api/handlers.go:199-218 | the seven described codes get their fixed strings, and "Unknown Status" iff the code is not one of them |
| Handlers.GetHTTPStatus | labs/lab03/backend/api/handlers.go:140-160 | 400 iff the code did not parse or lies outside 100..599; otherwise 200 with the code, its description and the http.cat URL of its decimal form |
| Handlers.ImageUrlNamesCode | labs/lab03/backend/api/handlers.go:152 | the image URL is the http.cat prefix plus three digits that read back as the code |
| Handlers.CreateMessage | labs/lab03/backend/api/handlers.go:58-86 | an unparsed body, then empty content, is a 400; a storage failure a 500; otherwise 201 with the created message |
| Handlers.CreateEmptyIgnoresStorage | labs/lab03/backend/api/handlers.go:66-69 | empty content gives the same answer for any storage, so storage is not called |
| Handlers.UpdateMessage | labs/lab03/backend/api/handlers.go:89-119 | a bad id, then a bad body, then a validation error are 400s; a storage failure is a 404; otherwise 200 with the message |
| Handlers.DeleteMessage | labs/lab03/backend/api/handlers.go:122-137 | a bad id is a 400, a storage failure a 404, success a 204 with no body |
| Handlers.AnsweredStatusesAreDescribed | labs/lab03/backend/api/handlers.go:58-160 | every status the four endpoints answer with has its own entry in the description table |

## Left out

- bcrypt: hashing and salting are abstract (`Security.Bcrypt`). So are the random salt (a parameter), the fact that two hashes of one password differ, and the constant-time comparison. None of these can be stated over an uninterpreted pair of functions.
- JWS: compact serialisation, base64url and HMAC-SHA256 are abstract (`JwtService.Jws`). `Jws.Sound` is the only assumption about them.
- JwtService.GenerateToken: reads the clock twice in Go (expiry and issue time). Both readings are one `now` here, so expiry is exactly issue time plus 24 hours.
- JwtService.GenerateToken: omits the error branch of `SignedString`. HS256 signing with a byte-slice key does not fail.
- JwtService.ClaimFlags: checks `exp`, `iat` and `nbf` on an integer clock of seconds. The audience and issuer claims are not checked by the service and are not modelled. Sub-second timestamps are not modelled either.
- JwtService.ValidateToken: omits the `!token.Valid` branch. The library returns no error exactly when the token is valid, so that branch is unreachable.
- Locking (`sync.RWMutex`) and `context.Context` plumbing. Operations are atomic state transitions, and cancellation is the `UserManager.Manager.cancelled` flag.
- Constructors that only allocate (`NewMessageStore`, `NewUserManager`, `NewUserManagerWithContext`, `NewPasswordService`, `NewUserRepository`, `NewHandler`). Their states are the empty sequence and map.
- Handlers: JSON encoding and decoding, CORS, routing (`SetupRoutes`) and `strconv.Atoi`. Their outcomes are inputs to the handler functions.
- Handlers: `GetMessages` and `HealthCheck` only pass storage contents and the clock to the JSON writer, so they are not modelled.
- lab03 `storage.MemoryStorage`, `models` and the update request's validator are not part of this model. They are oracle parameters, and no message-id allocation is modelled.
- UserRepository: `GetByID`, `GetByEmail`, `GetAll` and `Count` are plain queries with no logic. `ScanRow`, `ScanUsers` and `ScanPosts` are `database/sql` plumbing. `GetByID` is the `getById` oracle that `Update` calls.
- `database/connection.go` and `main.go` are set-up code and are not part of this model.
- PostModel: `UpdatePostRequest` has no operation attached in the code, so it is not modelled.
- Unicode white space and case mapping. `TrimSpace` and `ToLower` act on ASCII only. Lengths are still UTF-8 byte counts.
- UserDomain.ValidateNormalEmail: holds only for the ASCII case mapping of the model. Go's `strings.ToLower` maps U+212A KELVIN SIGN to `k` and U+0130 to `i`. So Go's `NewUser("\u212A@ab.cc", …)` lower-cases first and stores `k@ab.cc`, while `ValidateEmail` and `UpdateEmail` on the same input report "invalid email format". The model rejects that input in all three. In the code, `NewUser` and `UpdateEmail` therefore disagree on such inputs.
- UserDomain.NewUserValidatesRawInputs: holds for the same ASCII case mapping only. Go's `NewUser` accepts inputs such as `"\u212A@ab.cc"` whose raw form fails `ValidateEmail`.
- MessageStore.GetMessages: for the empty user, Go returns the store's own slice, which the caller shares with the store after the lock is released, so writes through the result change stored messages. The model returns a value and cannot express this aliasing.
- UserDomain.NewUser: its own contract states only the success direction. The exact accept/reject condition and the error reported are in `UserDomain.NewUserValidatesRawInputs`.
- PostModel.Validate: states the error order only as implications. The full if-and-only-if per error is on `PostModel.CheckFields`, which `Validate` and `ValidateRequest` share.
