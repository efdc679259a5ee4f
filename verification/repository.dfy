/** The lab04 user repository: validate-before-insert in `Create`, the
    UPDATE-statement builder of `Update`, and the mapping of "no row affected"
    to `sql.ErrNoRows` in `Update` and `Delete`. The database is an oracle
    supplied by the caller; only the statements sent to it and the handling of
    its answers are modelled. */
module UserRepository {
  import opened Wrappers
  import opened Text
  import opened UserModel

  /** A value bound to a `?` or `$n` placeholder. */
  datatype Arg = TextArg(text: string) | TimeArg(time: int) | IntArg(value: int)

  datatype RepoError =
    | Invalid(reason: ModelError)   // a validation error, returned as is
    | ErrNoRows                     // sql.ErrNoRows
    | DriverError(message: string)  // any error of the database driver

  /** The answer of `db.Exec`: an error, or a result whose `RowsAffected` is a
      count or an error. */
  datatype ExecResult = ExecFailed(message: string) | Executed(rowsAffected: Result<int, string>)

  /** The database, as three oracles:
      - `insert(query, args)`: `QueryRow(...).Scan` of the returned id and timestamps;
      - `exec(query, args)`: `db.Exec`;
      - `getById(id)`: the repository's own `GetByID`, which is not modelled further. */
  datatype Database = Database(
    insert: (string, seq<Arg>) -> Result<(int, int, int), string>,
    exec: (string, seq<Arg>) -> ExecResult,
    getById: int -> Result<User, RepoError>)

  const InsertQuery: string := "INSERT INTO users (name, email) VALUES($1, $2) RETURNING id, created_at, updated_at"
  const DeleteQuery: string := "DELETE FROM users WHERE id = ?"
  const UpdateHead: string := "UPDATE users SET "
  const UpdateTail: string := " WHERE id = ?"

  /** `Create`: an invalid request is refused before any query; otherwise the
      row is inserted and the user built from the request takes the id and
      timestamps the database returns. `created` and `updated` are the clock
      readings `ToUser` takes; the insert's answer overwrites them. */
  function Create(db: Database, req: CreateUserRequest, created: int, updated: int): (r: Result<User, RepoError>)
    ensures ValidateRequest(req).Fail? ==> r == Err(Invalid(ValidateRequest(req).error))
    ensures r.Ok? ==> ValidateRequest(req) == Pass
    ensures r.Ok? ==> r.value.name == req.name && r.value.email == req.email
    ensures r.Ok? ==>
      db.insert(InsertQuery, [TextArg(req.name), TextArg(req.email)]) == Ok((r.value.id, r.value.createdAt, r.value.updatedAt))
    ensures ValidateRequest(req) == Pass ==>
      match db.insert(InsertQuery, [TextArg(req.name), TextArg(req.email)])
      case Ok((id, c, u)) => r == Ok(User(id, req.name, req.email, c, u))
      case Err(msg) => r == Err(DriverError(msg))
  {
    match ValidateRequest(req)
    case Fail(e) => Err(Invalid(e))
    case Pass =>
      var u := ToUser(req, created, updated);
      match db.insert(InsertQuery, [TextArg(req.name), TextArg(req.email)])
      case Err(msg) => Err(DriverError(msg))
      case Ok((id, createdAt, updatedAt)) => Ok(u.(id := id, createdAt := createdAt, updatedAt := updatedAt))
  }

  /** An invalid request never reaches the database: any two databases give
      the same answer. */
  lemma CreateInvalidIgnoresDatabase(db1: Database, db2: Database, req: CreateUserRequest, created: int, updated: int)
    requires ValidateRequest(req).Fail?
    ensures Create(db1, req, created, updated) == Create(db2, req, created, updated)
  {
  }

  // ---------------------------------------------------------------------------
  // The UPDATE statement

  datatype Statement = Statement(clauses: seq<string>, args: seq<Arg>, query: string)

  /** The SET clause of a column. */
  function Assign(column: string): string {
    column + " = ?"
  }

  /** The statement `Update` sends: a SET clause for the name if given, then
      for the email if given, then always `updated_at` last; the arguments are
      the given values in clause order, then the timestamp, then the id. */
  function UpdateStatement(id: int, req: UpdateUserRequest, now: int): (st: Statement)
    ensures |st.args| == |st.clauses| + 1
    ensures |st.clauses| == 1 + (if req.name.Some? then 1 else 0) + (if req.email.Some? then 1 else 0)
    ensures st.clauses[|st.clauses| - 1] == Assign("updated_at")
    ensures st.args[|st.args| - 2] == TimeArg(now) && st.args[|st.args| - 1] == IntArg(id)
    ensures req.name.Some? ==> st.clauses[0] == Assign("name") && st.args[0] == TextArg(req.name.value)
    ensures req.email.Some? ==>
      var k := if req.name.Some? then 1 else 0;
      st.clauses[k] == Assign("email") && st.args[k] == TextArg(req.email.value)
    ensures st.query == UpdateHead + Join(st.clauses, ", ") + UpdateTail
    ensures Count(st.query, '?') == |st.args|
  {
    var clauses :=
      (if req.name.Some? then [Assign("name")] else [])
      + (if req.email.Some? then [Assign("email")] else [])
      + [Assign("updated_at")];
    var args :=
      (if req.name.Some? then [TextArg(req.name.value)] else [])
      + (if req.email.Some? then [TextArg(req.email.value)] else [])
      + [TimeArg(now), IntArg(id)];
    PlaceholdersMatch(clauses);
    Statement(clauses, args, UpdateHead + Join(clauses, ", ") + UpdateTail)
  }

  /** With neither field given, the statement only refreshes `updated_at`. */
  lemma EmptyUpdateTouchesTimestampOnly(id: int, now: int)
    ensures UpdateStatement(id, UpdateUserRequest(None, None), now).query
      == "UPDATE users SET updated_at = ? WHERE id = ?"
  {
  }

  /** A clause for a column whose name has no `?` carries exactly one. */
  lemma AssignHasOnePlaceholder(column: string)
    requires '?' !in column
    ensures Count(Assign(column), '?') == 1
  {
    assert " = ?" == " = " + "?";
    assert Assign(column) == column + " = " + "?";
    CountAbsent(column, '?');
    CountAbsent(" = ", '?');
    CountAppend(column, " = ", '?');
    CountAppend(column + " = ", "?", '?');
  }

  /** The columns `Update` may set. */
  predicate IsUpdateClause(clause: string) {
    clause == Assign("name") || clause == Assign("email") || clause == Assign("updated_at")
  }

  lemma {:induction false} OnePlaceholderEach(clauses: seq<string>)
    requires forall i :: 0 <= i < |clauses| ==> IsUpdateClause(clauses[i])
    ensures CountAll(clauses, '?') == |clauses|
  {
    if clauses != [] {
      AssignHasOnePlaceholder("name");
      AssignHasOnePlaceholder("email");
      AssignHasOnePlaceholder("updated_at");
      assert IsUpdateClause(clauses[0]);
      OnePlaceholderEach(clauses[1..]);
    }
  }

  /** Every SET clause carries exactly one placeholder, so the query carries
      one per clause plus the one of its WHERE clause. */
  lemma PlaceholdersMatch(clauses: seq<string>)
    requires clauses != []
    requires forall i :: 0 <= i < |clauses| ==> IsUpdateClause(clauses[i])
    ensures Count(UpdateHead + Join(clauses, ", ") + UpdateTail, '?') == |clauses| + 1
  {
    var body := Join(clauses, ", ");
    JoinedClausesCount(clauses);
    HeadHasNoPlaceholder();
    TailHasOnePlaceholder();
    CountAppend3(UpdateHead, body, UpdateTail, '?');
  }

  lemma JoinedClausesCount(clauses: seq<string>)
    requires clauses != []
    requires forall i :: 0 <= i < |clauses| ==> IsUpdateClause(clauses[i])
    ensures Count(Join(clauses, ", "), '?') == |clauses|
  {
    OnePlaceholderEach(clauses);
    CountAbsent(", ", '?');
    CountJoin(clauses, ", ", '?');
  }

  lemma HeadHasNoPlaceholder()
    ensures Count(UpdateHead, '?') == 0
  {
    CountAbsent(UpdateHead, '?');
  }

  lemma TailHasOnePlaceholder()
    ensures Count(UpdateTail, '?') == 1
  {
    CountAbsent(" WHERE id = ", '?');
    CountAppend(" WHERE id = ", "?", '?');
    assert UpdateTail == " WHERE id = " + "?";
  }

  /** How `Update` and `Delete` read the answer of `db.Exec`: a zero count is
      `sql.ErrNoRows`. */
  function RowsOutcome(res: ExecResult): (r: Outcome<RepoError>)
    ensures r == Fail(ErrNoRows) <==> res == Executed(Ok(0))
    ensures res.ExecFailed? ==> r == Fail(DriverError(res.message))
    ensures res.Executed? && res.rowsAffected.Err? ==> r == Fail(DriverError(res.rowsAffected.error))
    ensures r == Pass <==> res.Executed? && res.rowsAffected.Ok? && res.rowsAffected.value != 0
  {
    match res
    case ExecFailed(msg) => Fail(DriverError(msg))
    case Executed(Err(msg)) => Fail(DriverError(msg))
    case Executed(Ok(n)) => if n == 0 then Fail(ErrNoRows) else Pass
  }

  /** `Update`: runs the built statement; no affected row is `sql.ErrNoRows`,
      otherwise the user is read back by id. */
  function Update(db: Database, id: int, req: UpdateUserRequest, now: int): (r: Result<User, RepoError>)
    ensures var st := UpdateStatement(id, req, now);
      db.exec(st.query, st.args) == Executed(Ok(0)) ==> r == Err(ErrNoRows)
    ensures var st := UpdateStatement(id, req, now);
      r.Ok? ==> RowsOutcome(db.exec(st.query, st.args)) == Pass && r == db.getById(id)
    ensures var st := UpdateStatement(id, req, now);
      match RowsOutcome(db.exec(st.query, st.args))
      case Pass => r == db.getById(id)
      case Fail(e) => r == Err(e)
  {
    var st := UpdateStatement(id, req, now);
    match RowsOutcome(db.exec(st.query, st.args))
    case Fail(e) => Err(e)
    case Pass => db.getById(id)
  }

  /** `Delete`: no affected row is `sql.ErrNoRows`. */
  function Delete(db: Database, id: int): (r: Outcome<RepoError>)
    ensures r == Fail(ErrNoRows) <==> db.exec(DeleteQuery, [IntArg(id)]) == Executed(Ok(0))
    ensures var res := db.exec(DeleteQuery, [IntArg(id)]);
      res.ExecFailed? ==> r == Fail(DriverError(res.message))
    ensures var res := db.exec(DeleteQuery, [IntArg(id)]);
      res.Executed? && res.rowsAffected.Err? ==> r == Fail(DriverError(res.rowsAffected.error))
    ensures var res := db.exec(DeleteQuery, [IntArg(id)]);
      r == Pass <==> res.Executed? && res.rowsAffected.Ok? && res.rowsAffected.value != 0
  {
    RowsOutcome(db.exec(DeleteQuery, [IntArg(id)]))
  }
}
