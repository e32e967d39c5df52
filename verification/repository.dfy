/**
 * The user data-access layer over an in-memory picture of its three tables:
 * `users`, `user_user_follows` and `user_source_follows`. Lookups and the
 * uniqueness pre-check are functions of a snapshot of `users`; the two
 * transactional writers are methods of `DataRepository` that change its
 * tables only when the transaction commits.
 */
module Repository {
  import opened Wrappers
  import opened Model
  import opened Transaction

  // ---------------------------------------------------------------- lookups

  /** The column a lookup filters on. */
  datatype Column = UUIDColumn | UsernameColumn | EmailColumn

  function ColumnValue(u: DBUser, c: Column): string
  {
    match c
    case UUIDColumn => u.uuid
    case UsernameColumn => u.username
    case EmailColumn => u.email
  }

  /** Why a lookup failed: no row matched, or the store reported an error. */
  datatype LookupCause = NoRows | StoreFault

  /** A lookup error names the column and the key it was asked for. */
  datatype LookupError = LookupError(column: Column, key: string, cause: LookupCause)

  /** The index of the earliest row at or after `from` whose column `c` equals `key`. */
  function FirstMatch(users: seq<DBUser>, c: Column, key: string, from: nat): (r: Option<nat>)
    requires from <= |users|
    ensures r.Some? ==> from <= r.value < |users| && ColumnValue(users[r.value], c) == key
    ensures r.None? <==> forall j :: from <= j < |users| ==> ColumnValue(users[j], c) != key
    decreases |users| - from
  {
    if from == |users| then None
    else if ColumnValue(users[from], c) == key then Some(from)
    else FirstMatch(users, c, key, from + 1)
  }

  /**
   * The shared lookup routine. `fault` says whether the store reports an
   * error for this query; otherwise a row matching the key is returned, and
   * with no such row the lookup fails. A failure never carries a record.
   */
  function GetUser(users: seq<DBUser>, c: Column, key: string, fault: bool): (r: Result<DBUser, LookupError>)
    ensures r.Success? ==> r.value in users && ColumnValue(r.value, c) == key
    ensures r.Success? <==> !fault && exists u :: u in users && ColumnValue(u, c) == key
    ensures r.Failure? ==> r.error.column == c && r.error.key == key
    ensures r.Failure? ==> (r.error.cause == StoreFault <==> fault)
  {
    if fault then Failure(LookupError(c, key, StoreFault))
    else
      match FirstMatch(users, c, key, 0)
      case Some(i) => Success(users[i])
      case None => Failure(LookupError(c, key, NoRows))
  }

  function GetUserByID(users: seq<DBUser>, id: string, fault: bool): (r: Result<DBUser, LookupError>)
    ensures r.Success? ==> r.value in users && r.value.uuid == id
    ensures r.Success? <==> !fault && exists u :: u in users && u.uuid == id
    ensures r.Failure? ==> r.error.key == id && r.error.column == UUIDColumn
  {
    GetUser(users, UUIDColumn, id, fault)
  }

  function GetUserByUsername(users: seq<DBUser>, username: string, fault: bool): (r: Result<DBUser, LookupError>)
    ensures r.Success? ==> r.value in users && r.value.username == username
    ensures r.Success? <==> !fault && exists u :: u in users && u.username == username
    ensures r.Failure? ==> r.error.key == username && r.error.column == UsernameColumn
  {
    GetUser(users, UsernameColumn, username, fault)
  }

  function GetUserByEmail(users: seq<DBUser>, email: string, fault: bool): (r: Result<DBUser, LookupError>)
    ensures r.Success? ==> r.value in users && r.value.email == email
    ensures r.Success? <==> !fault && exists u :: u in users && u.email == email
    ensures r.Failure? ==> r.error.key == email && r.error.column == EmailColumn
  {
    GetUser(users, EmailColumn, email, fault)
  }

  // ------------------------------------------------------ uniqueness check

  predicate EmailTaken(users: seq<DBUser>, email: string)
  {
    exists u :: u in users && u.email == email
  }

  predicate UsernameTaken(users: seq<DBUser>, username: string)
  {
    exists u :: u in users && u.username == username
  }

  /**
   * Whether `candidate` may be created: the email lookup runs first, then the
   * username lookup, and any lookup that fails, for whatever reason, counts
   * as "no such user". `emailFault` and `usernameFault` say whether the store
   * reports an error for the respective lookup.
   */
  function ValidateUserForCreate(users: seq<DBUser>, candidate: DBUser, emailFault: bool, usernameFault: bool): (ok: bool)
    ensures ok <==> (emailFault || !EmailTaken(users, candidate.email)) &&
                    (usernameFault || !UsernameTaken(users, candidate.username))
  {
    if GetUserByEmail(users, candidate.email, emailFault).Success? then false
    else if GetUserByUsername(users, candidate.username, usernameFault).Success? then false
    else true
  }

  /** No two rows share an email or a username. */
  predicate KeysUnique(users: seq<DBUser>)
  {
    forall i, j :: 0 <= i < j < |users| ==> users[i].email != users[j].email && users[i].username != users[j].username
  }

  // ---------------------------------------------------------------- tables

  /** A row of `user_user_follows` or `user_source_follows`. */
  datatype Edge = Edge(follower: string, followed: string)

  /** A snapshot of the three tables. */
  datatype Tables = Tables(users: seq<DBUser>, userUserFollows: set<Edge>, userSourceFollows: set<Edge>)

  /** The row that CreateUser's insert stores: both nullable columns receive a plain value, so they read back as set. */
  function StoredRow(u: DBUser): (row: DBUser)
    ensures row.updatedByUUID == NullString(u.updatedByUUID.str, true)
    ensures row.updatedAt == NullInt64(u.updatedAt.num, true)
    ensures row.(updatedByUUID := u.updatedByUUID, updatedAt := u.updatedAt) == u
  {
    u.(updatedByUUID := u.updatedByUUID.(valid := true), updatedAt := u.updatedAt.(valid := true))
  }

  /** The four statements of the follow operations, as tags for their effects. */
  datatype FollowStatement =
    | AddUserFollowerStatement
    | RemoveUserFollowerStatement
    | AddSourceFollowerStatement
    | RemoveSourceFollowerStatement
  {
    predicate IsInsert() { this == AddUserFollowerStatement || this == AddSourceFollowerStatement }

    predicate OnUserTable() { this == AddUserFollowerStatement || this == RemoveUserFollowerStatement }
  }

  /** The follow table a statement names, and the one it leaves alone. */
  function TargetTable(s: FollowStatement, t: Tables): set<Edge>
  {
    if s.OnUserTable() then t.userUserFollows else t.userSourceFollows
  }

  function OtherTable(s: FollowStatement, t: Tables): set<Edge>
  {
    if s.OnUserTable() then t.userSourceFollows else t.userUserFollows
  }

  /** The tables after executing follow statement `s` with `e`. */
  function FollowEffect(s: FollowStatement, t: Tables, e: Edge): (r: Tables)
    // only the edge `e` of the named table changes, and it is present exactly after an insert
    ensures r.users == t.users && OtherTable(s, r) == OtherTable(s, t)
    ensures TargetTable(s, r) - {e} == TargetTable(s, t) - {e}
    ensures e in TargetTable(s, r) <==> s.IsInsert()
  {
    match s
    case AddUserFollowerStatement => t.(userUserFollows := t.userUserFollows + {e})
    case RemoveUserFollowerStatement => t.(userUserFollows := t.userUserFollows - {e})
    case AddSourceFollowerStatement => t.(userSourceFollows := t.userSourceFollows + {e})
    case RemoveSourceFollowerStatement => t.(userSourceFollows := t.userSourceFollows - {e})
  }

  /** What a transaction executes: CreateUser's insert or a follow statement. */
  datatype Write = InsertUser(row: DBUser) | FollowWrite(statement: FollowStatement, edge: Edge)

  function ApplyWrite(w: Write, t: Tables): Tables
  {
    match w
    case InsertUser(row) => t.(users := t.users + [row])
    case FollowWrite(s, e) => FollowEffect(s, t, e)
  }

  /**
   * The statement the follow helper prepares for a requested statement.
   * As written, the helper ignores its statement argument and always
   * prepares the add-user-follower insert.
   */
  function PreparedStatement(requested: FollowStatement): FollowStatement
  {
    AddUserFollowerStatement
  }

  /** The error a follow wrapper returns: its own operation and the step that failed. */
  datatype FollowError = FollowError(operation: FollowStatement, step: Step)

  // ------------------------------------------------------------- the store

  class DataRepository {
    var users: seq<DBUser>
    var userUserFollows: set<Edge>
    var userSourceFollows: set<Edge>

    function Snapshot(): Tables
      reads this
    {
      Tables(users, userUserFollows, userSourceFollows)
    }

    constructor (t: Tables)
      ensures Snapshot() == t
    {
      users, userUserFollows, userSourceFollows := t.users, t.userUserFollows, t.userSourceFollows;
    }

    /**
     * Runs `w` in its own transaction. The statement's effect is staged in
     * the transaction and reaches the tables only at commit; rolling back
     * discards it. The tables change exactly when the writer succeeds.
     */
    method ExecuteInTransaction(w: Write, faults: TxFaults) returns (err: Option<Step>)
      modifies this
      ensures err == Reported(faults)
      ensures Snapshot() == if err.None? then ApplyWrite(w, old(Snapshot())) else old(Snapshot())
    {
      // begin
      if faults.begin {
        return Some(Begin);
      }
      var staged := Snapshot();
      // prepare
      if faults.prepare {
        // roll back, discarding the staged effect; a failed rollback replaces the error
        return Some(if faults.rollback then Rollback else Prepare);
      }
      // exec; the number of affected rows is not looked at
      staged := ApplyWrite(w, staged);
      if faults.exec {
        // roll back, discarding the staged effect; a failed rollback replaces the error
        return Some(if faults.rollback then Rollback else Exec);
      }
      // commit
      if faults.commit {
        // roll back, discarding the staged effect; a failed rollback replaces the error
        return Some(if faults.rollback then Rollback else Commit);
      }
      users, userUserFollows, userSourceFollows := staged.users, staged.userUserFollows, staged.userSourceFollows;
      return None;
    }

    /** Inserts the user's eight columns in one transaction; it does not check uniqueness itself. */
    method CreateUser(u: DBUser, faults: TxFaults) returns (err: Option<Step>)
      modifies this
      ensures err == Reported(faults)
      ensures users == if err.None? then old(users) + [StoredRow(u)] else old(users)
      ensures userUserFollows == old(userUserFollows) && userSourceFollows == old(userSourceFollows)
    {
      err := ExecuteInTransaction(InsertUser(StoredRow(u)), faults);
    }

    /**
     * The follow helper as written: whatever `statement` asks for, the
     * add-user-follower insert is prepared and executed.
     */
    method PerformFollowStatement(statement: FollowStatement, follower: string, followed: string, faults: TxFaults)
      returns (err: Option<Step>)
      modifies this
      ensures err == Reported(faults)
      ensures users == old(users) && userSourceFollows == old(userSourceFollows)
      ensures userUserFollows == if err.None? then old(userUserFollows) + {Edge(follower, followed)} else old(userUserFollows)
    {
      err := ExecuteInTransaction(FollowWrite(PreparedStatement(statement), Edge(follower, followed)), faults);
    }

    /** The follow helper with the statement it is given, as its four callers intend. */
    method PerformFollowStatementIntended(statement: FollowStatement, follower: string, followed: string, faults: TxFaults)
      returns (err: Option<Step>)
      modifies this
      ensures err == Reported(faults)
      ensures Snapshot() == if err.None? then FollowEffect(statement, old(Snapshot()), Edge(follower, followed)) else old(Snapshot())
    {
      err := ExecuteInTransaction(FollowWrite(statement, Edge(follower, followed)), faults);
    }

    method AddUserFollower(follower: string, followed: string, faults: TxFaults) returns (err: Option<FollowError>)
      modifies this
      ensures err.None? <==> Reported(faults).None?
      ensures err.Some? ==> err.value == FollowError(AddUserFollowerStatement, Reported(faults).value)
      ensures users == old(users) && userSourceFollows == old(userSourceFollows)
      ensures userUserFollows == if err.None? then old(userUserFollows) + {Edge(follower, followed)} else old(userUserFollows)
    {
      var e := PerformFollowStatement(AddUserFollowerStatement, follower, followed, faults);
      err := WrapFollowError(AddUserFollowerStatement, e);
    }

    /** As written this inserts the edge into `user_user_follows` instead of deleting it. */
    method RemoveUserFollower(follower: string, followed: string, faults: TxFaults) returns (err: Option<FollowError>)
      modifies this
      ensures err.None? <==> Reported(faults).None?
      ensures err.Some? ==> err.value == FollowError(RemoveUserFollowerStatement, Reported(faults).value)
      ensures users == old(users) && userSourceFollows == old(userSourceFollows)
      ensures userUserFollows == if err.None? then old(userUserFollows) + {Edge(follower, followed)} else old(userUserFollows)
    {
      var e := PerformFollowStatement(RemoveUserFollowerStatement, follower, followed, faults);
      err := WrapFollowError(RemoveUserFollowerStatement, e);
    }

    /** As written this inserts the edge into `user_user_follows`, not `user_source_follows`. */
    method AddSourceFollower(follower: string, followed: string, faults: TxFaults) returns (err: Option<FollowError>)
      modifies this
      ensures err.None? <==> Reported(faults).None?
      ensures err.Some? ==> err.value == FollowError(AddSourceFollowerStatement, Reported(faults).value)
      ensures users == old(users) && userSourceFollows == old(userSourceFollows)
      ensures userUserFollows == if err.None? then old(userUserFollows) + {Edge(follower, followed)} else old(userUserFollows)
    {
      var e := PerformFollowStatement(AddSourceFollowerStatement, follower, followed, faults);
      err := WrapFollowError(AddSourceFollowerStatement, e);
    }

    /** As written this inserts the edge into `user_user_follows` instead of deleting it from `user_source_follows`. */
    method RemoveSourceFollower(follower: string, followed: string, faults: TxFaults) returns (err: Option<FollowError>)
      modifies this
      ensures err.None? <==> Reported(faults).None?
      ensures err.Some? ==> err.value == FollowError(RemoveSourceFollowerStatement, Reported(faults).value)
      ensures users == old(users) && userSourceFollows == old(userSourceFollows)
      ensures userUserFollows == if err.None? then old(userUserFollows) + {Edge(follower, followed)} else old(userUserFollows)
    {
      var e := PerformFollowStatement(RemoveSourceFollowerStatement, follower, followed, faults);
      err := WrapFollowError(RemoveSourceFollowerStatement, e);
    }
  }

  /** A wrapper's error: the helper's error tagged with the wrapper's operation. */
  function WrapFollowError(operation: FollowStatement, e: Option<Step>): (r: Option<FollowError>)
    ensures r.None? <==> e.None?
    ensures r.Some? ==> r.value.operation == operation && r.value.step == e.value
  {
    match e
    case None => None
    case Some(step) => Some(FollowError(operation, step))
  }

  // ------------------------------------------------------------ properties

  /** After a successful insert of a record with an unused id, looking that id up returns the stored row. */
  lemma CreatedUserIsFound(users: seq<DBUser>, u: DBUser)
    requires forall v :: v in users ==> v.uuid != u.uuid
    ensures GetUserByID(users + [StoredRow(u)], u.uuid, false) == Success(StoredRow(u))
  {
  }

  /** A record whose nullable audit columns are set is stored unchanged, so the lookup returns it as it was. */
  lemma StoredRowOfSetAuditColumns(u: DBUser)
    requires u.updatedByUUID.valid && u.updatedAt.valid
    ensures StoredRow(u) == u
  {
  }

  /** With both lookups answering, a candidate that passes the check keeps emails and usernames unique once inserted. */
  lemma ValidatedInsertKeepsKeysUnique(users: seq<DBUser>, u: DBUser)
    requires KeysUnique(users)
    requires ValidateUserForCreate(users, u, false, false)
    ensures KeysUnique(users + [StoredRow(u)])
  {
  }

  /**
   * Lookup errors are read as "no such user": when both lookups fail in the
   * store, a candidate whose email and username are both taken passes the
   * check, and inserting it breaks uniqueness.
   */
  lemma LookupFaultAdmitsDuplicate(u: DBUser)
    ensures KeysUnique([u])
    ensures EmailTaken([u], u.email) && UsernameTaken([u], u.username)
    ensures ValidateUserForCreate([u], u, true, true)
    ensures !KeysUnique([u] + [StoredRow(u)])
  {
    assert [u][0] == u;
    var after := [u] + [StoredRow(u)];
    assert after[0].email == after[1].email;
  }

  /** Executing the same follow statement twice leaves the tables as executing it once. */
  lemma FollowEffectIdempotent(s: FollowStatement, t: Tables, e: Edge)
    ensures FollowEffect(s, FollowEffect(s, t, e), e) == FollowEffect(s, t, e)
  {
  }

  /** The four follow wrappers all run the add-user-follower insert, whatever statement they pass. */
  lemma StatementArgumentIgnored(s: FollowStatement, t: Tables, e: Edge)
    ensures FollowEffect(PreparedStatement(s), t, e) == FollowEffect(AddUserFollowerStatement, t, e)
    ensures FollowEffect(PreparedStatement(s), t, e) == t.(userUserFollows := t.userUserFollows + {e})
  {
  }

  /**
   * The executed insert leaves different tables from the statement a wrapper
   * passes: for RemoveUserFollower always, and for the two source statements
   * whenever the edge is not already in `user_user_follows`.
   */
  lemma AsWrittenDivergesFromIntended(s: FollowStatement, t: Tables, e: Edge)
    requires s != AddUserFollowerStatement
    requires s == RemoveUserFollowerStatement || e !in t.userUserFollows
    ensures FollowEffect(PreparedStatement(s), t, e) != FollowEffect(s, t, e)
  {
  }

  /** As written, following and then unfollowing a user leaves the edge in place. */
  lemma AsWrittenUnfollowKeepsEdge(t: Tables, e: Edge)
    ensures var followed := FollowEffect(PreparedStatement(AddUserFollowerStatement), t, e);
      e in FollowEffect(PreparedStatement(RemoveUserFollowerStatement), followed, e).userUserFollows
  {
  }

  /** With the intended statement, unfollowing removes the edge a follow added, and only that edge. */
  lemma IntendedUnfollowUndoesFollow(add: FollowStatement, t: Tables, e: Edge)
    requires add.IsInsert()
    ensures var remove := if add.OnUserTable() then RemoveUserFollowerStatement else RemoveSourceFollowerStatement;
      var r := FollowEffect(remove, FollowEffect(add, t, e), e);
      e !in TargetTable(add, r) && TargetTable(add, r) == TargetTable(add, t) - {e} && OtherTable(add, r) == OtherTable(add, t)
  {
  }

  /** With the intended statement, unfollowing an absent edge changes nothing. */
  lemma IntendedUnfollowOfAbsentEdge(s: FollowStatement, t: Tables, e: Edge)
    requires !s.IsInsert() && e !in TargetTable(s, t)
    ensures FollowEffect(s, t, e) == t
  {
  }
}
