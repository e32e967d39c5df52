/**
 * The stored user record and its two conversions: hydration of a new record
 * from a creation request, and conversion of a stored record into the wire
 * user. The random id and the clock reading are parameters, and the audit-field
 * conversion, which lives in a library outside this model, is a function value
 * that may fail.
 */
module Model {
  import opened Wrappers
  import Uuid

  /** A Go int64. */
  type Int64 = x: int | -0x8000_0000_0000_0000 <= x < 0x8000_0000_0000_0000

  /** database/sql's NullString: `str` means something only when `valid`. */
  datatype NullString = NullString(str: string, valid: bool)

  /** database/sql's NullInt64: `num` means something only when `valid`. */
  datatype NullInt64 = NullInt64(num: Int64, valid: bool)

  /** A row of the `users` table. */
  datatype DBUser = DBUser(
    uuid: string,
    username: string,
    email: string,
    hashedPassword: string,
    createdByUUID: string,
    createdAt: Int64,
    updatedByUUID: NullString,
    updatedAt: NullInt64)
  {
    function CreatedByUUIDString(): string { createdByUUID }

    function CreatedAtUnixInt(): Int64 { createdAt }

    function UpdatedByUUIDNullString(): NullString { updatedByUUID }

    function UpdatedAtUnixNullInt(): NullInt64 { updatedAt }

    /** What the audit-field conversion can see of a record: its four audit accessors. */
    function AuditFields(): DBAuditFields
    {
      DBAuditFields(CreatedByUUIDString(), CreatedAtUnixInt(), UpdatedByUUIDNullString(), UpdatedAtUnixNullInt())
    }
  }

  datatype DBAuditFields = DBAuditFields(createdBy: string, createdAt: Int64, updatedBy: NullString, updatedAt: NullInt64)

  /** The fields of the inbound creation request that hydration reads. */
  datatype CreateUserRequest = CreateUserRequest(username: string, email: string, hashedPassword: string)

  /** The outbound wire user; `A` is the library's audit-field message. */
  datatype PBUser<A> = PBUser(uuid: seq<Uuid.Byte>, username: string, email: string, hashedPassword: string, auditFields: A)

  /** The gRPC status code that hydration attaches to its error. */
  datatype Code = Internal

  datatype ModelError =
    | Status(code: Code)           // a gRPC status error
    | UUIDParseFailed(text: string) // the stored id text did not parse
    | AuditFieldsFailed            // the audit-field conversion failed

  /**
   * Builds the record to persist for a creation request. `newID` is the
   * outcome of generating a version-4 id (None when generation fails) and
   * `now` the single clock reading, in Unix seconds.
   */
  function HydrateModelForCreate(req: CreateUserRequest, newID: Option<Uuid.UUID>, now: Int64): (r: Result<DBUser, ModelError>)
    ensures r.Failure? <==> newID.None?
    ensures r.Failure? ==> r.error == Status(Internal)
    // the record's id is the text of the generated id
    ensures r.Success? ==> Uuid.Parse(r.value.uuid) == newID && r.value.uuid == Uuid.Format(newID.value)
    // creator and updater are the record itself, both audit columns are set
    ensures r.Success? ==> r.value.createdByUUID == r.value.uuid && r.value.updatedByUUID == NullString(r.value.uuid, true)
    ensures r.Success? ==> r.value.createdAt == now && r.value.updatedAt == NullInt64(now, true)
    ensures r.Success? ==> r.value.username == req.username && r.value.email == req.email && r.value.hashedPassword == req.hashedPassword
  {
    match newID
    case None => Failure(Status(Internal))
    case Some(id) =>
      var text := Uuid.Format(id);
      Uuid.ParseFormat(id);
      Success(DBUser(text, req.username, req.email, req.hashedPassword, text, now, NullString(text, true), NullInt64(now, true)))
  }

  /**
   * Converts a stored record into the wire user. The id text is parsed first;
   * only then is `convertAudit` applied to the record's audit fields.
   */
  function ToGRPC<A>(u: DBUser, convertAudit: DBAuditFields -> Option<A>): (r: Result<PBUser<A>, ModelError>)
    ensures Uuid.Parse(u.uuid).None? ==> r == Failure(UUIDParseFailed(u.uuid))
    ensures Uuid.Parse(u.uuid).Some? && convertAudit(u.AuditFields()).None? ==> r == Failure(AuditFieldsFailed)
    ensures r.Success? <==> Uuid.Parse(u.uuid).Some? && convertAudit(u.AuditFields()).Some?
    ensures r.Success? ==> Uuid.Parse(u.uuid) == Some(r.value.uuid) && Some(r.value.auditFields) == convertAudit(u.AuditFields())
    ensures r.Success? ==> r.value.username == u.username && r.value.email == u.email && r.value.hashedPassword == u.hashedPassword
  {
    match Uuid.Parse(u.uuid)
    case None => Failure(UUIDParseFailed(u.uuid))
    case Some(id) =>
      match convertAudit(u.AuditFields())
      case None => Failure(AuditFieldsFailed)
      case Some(audit) => Success(PBUser(id, u.username, u.email, u.hashedPassword, audit))
  }

  /** The audit accessors give exactly the four audit fields: it loses none of them and shows nothing else. */
  lemma AuditFieldsAccessorsFaithful(u: DBUser, v: DBUser)
    ensures u.AuditFields() == v.AuditFields() <==>
      (u.createdByUUID == v.createdByUUID && u.createdAt == v.createdAt &&
       u.updatedByUUID == v.updatedByUUID && u.updatedAt == v.updatedAt)
  {
  }

  /**
   * A hydrated record never fails conversion at the id step; it converts
   * whenever its audit fields do, and then carries the generated id's bytes.
   */
  lemma HydratedRecordConverts<A>(req: CreateUserRequest, id: Uuid.UUID, now: Int64, convertAudit: DBAuditFields -> Option<A>)
    ensures HydrateModelForCreate(req, Some(id), now).Success?
    ensures var u := HydrateModelForCreate(req, Some(id), now).value;
      var r := ToGRPC(u, convertAudit);
      !r.Failure? || r.error == AuditFieldsFailed
    ensures var u := HydrateModelForCreate(req, Some(id), now).value;
      var r := ToGRPC(u, convertAudit);
      convertAudit(u.AuditFields()).Some? ==> r.Success? && r.value.uuid == id && r.value.username == req.username
  {
  }
}
