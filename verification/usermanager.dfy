/** The lab02 user manager: a map from user id to user that refuses invalid
    users and duplicate ids. The context is modelled by one flag, `cancelled`,
    which is false when the manager has no context. Each operation is one
    atomic step on the map. */
module UserManager {
  import opened Wrappers

  datatype User = User(name: string, email: string, id: string)

  datatype UserError =
    | NameEmpty      // "name cannot be empty"
    | EmailEmpty     // "email cannot be empty"
    | EmailFormat    // "invalid email format"
    | IdEmpty        // "ID cannot be empty"
    | ContextDone    // ctx.Err()
    | AlreadyExists  // "user already exists"
    | NotFound       // "user not found"

  /** `User.Validate`: name, email, `@` in the email, id, in that order. */
  function Validate(u: User): (r: Outcome<UserError>)
    ensures r == Pass <==> u.name != "" && u.email != "" && '@' in u.email && u.id != ""
    ensures r == Fail(NameEmpty) <==> u.name == ""
    ensures r == Fail(EmailEmpty) <==> u.name != "" && u.email == ""
    ensures r == Fail(EmailFormat) <==> u.name != "" && u.email != "" && '@' !in u.email
    ensures r == Fail(IdEmpty) <==> u.name != "" && '@' in u.email && u.id == ""
  {
    if u.name == "" then Fail(NameEmpty)
    else if u.email == "" then Fail(EmailEmpty)
    else if '@' !in u.email then Fail(EmailFormat)
    else if u.id == "" then Fail(IdEmpty)
    else Pass
  }

  datatype Manager = Manager(cancelled: bool, users: map<string, User>)

  /** The invariant the operations keep: every stored user is valid and is
      filed under its own id. */
  ghost predicate Consistent(m: Manager) {
    forall k :: k in m.users ==> m.users[k].id == k && Validate(m.users[k]) == Pass
  }

  /** `AddUser`: a cancelled context is reported before anything else, then an
      invalid user, then a taken id; only success changes the map, and then
      only at `u.id`. Returns the manager after the call and the error. */
  function AddUser(m: Manager, u: User): (r: (Manager, Outcome<UserError>))
    ensures m.cancelled ==> r == (m, Fail(ContextDone))
    ensures !m.cancelled && Validate(u).Fail? ==> r == (m, Validate(u))
    ensures !m.cancelled && Validate(u) == Pass && u.id in m.users ==> r == (m, Fail(AlreadyExists))
    ensures r.1 == Pass <==> !m.cancelled && Validate(u) == Pass && u.id !in m.users
    ensures r.1 == Pass ==> r.0.cancelled == m.cancelled && r.0.users.Keys == m.users.Keys + {u.id}
    ensures r.1 == Pass ==> u.id in r.0.users && r.0.users[u.id] == u
    ensures forall k :: k in m.users ==> k in r.0.users && r.0.users[k] == m.users[k]
    ensures Consistent(m) ==> Consistent(r.0)
  {
    if m.cancelled then (m, Fail(ContextDone))
    else match Validate(u)
      case Fail(e) => (m, Fail(e))
      case Pass =>
        if u.id in m.users then (m, Fail(AlreadyExists))
        else (m.(users := m.users[u.id := u]), Pass)
  }

  /** `RemoveUser`: an absent id is an error and changes nothing; otherwise
      exactly that id is removed. The context is not consulted. */
  function RemoveUser(m: Manager, id: string): (r: (Manager, Outcome<UserError>))
    ensures id !in m.users ==> r == (m, Fail(NotFound))
    ensures id in m.users ==> r.1 == Pass && r.0.cancelled == m.cancelled
    ensures id in m.users ==> r.0.users.Keys == m.users.Keys - {id}
    ensures forall k :: k in r.0.users ==> k in m.users && r.0.users[k] == m.users[k]
    ensures Consistent(m) ==> Consistent(r.0)
  {
    if id !in m.users then (m, Fail(NotFound))
    else (m.(users := m.users - {id}), Pass)
  }

  /** `GetUser`: the user filed under `id`, or "user not found". */
  function GetUser(m: Manager, id: string): (r: Result<User, UserError>)
    ensures r.Err? <==> id !in m.users
    ensures r.Err? ==> r.error == NotFound
    ensures r.Ok? ==> r.value == m.users[id]
    ensures r.Ok? && Consistent(m) ==> r.value.id == id && Validate(r.value) == Pass
  {
    if id in m.users then Ok(m.users[id]) else Err(NotFound)
  }

  /** Read-your-write: after a successful `AddUser(u)`, `GetUser(u.id)` gives `u`. */
  lemma AddThenGet(m: Manager, u: User)
    requires AddUser(m, u).1 == Pass
    ensures GetUser(AddUser(m, u).0, u.id) == Ok(u)
  {
  }

  /** Delete finality: after a successful `RemoveUser(id)`, both `GetUser(id)`
      and a second `RemoveUser(id)` fail with "user not found". */
  lemma RemoveThenGet(m: Manager, id: string)
    requires RemoveUser(m, id).1 == Pass
    ensures GetUser(RemoveUser(m, id).0, id) == Err(NotFound)
    ensures RemoveUser(RemoveUser(m, id).0, id).1 == Fail(NotFound)
  {
  }

  /** Adding the same user twice: the second call fails and changes nothing. */
  lemma AddTwice(m: Manager, u: User)
    requires AddUser(m, u).1 == Pass
    ensures AddUser(AddUser(m, u).0, u) == (AddUser(m, u).0, Fail(AlreadyExists))
  {
  }
}
