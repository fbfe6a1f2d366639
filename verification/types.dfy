/**
 * The persisted entities (types/base.go, types/application.go, types/role.go)
 * and the small helpers declared beside them.
 */
module Types {
  import opened Results
  import opened Uuid
  import opened Errors

  /** time.Time, treated as an opaque instant. */
  type Time = int

  /**
   * The fields every table shares. `deletedAt` is gorm's soft-delete marker:
   * a record is live exactly when it is unset.
   */
  datatype Base = Base(id: UUID, createdAt: Time, updatedAt: Time, deletedAt: Option<Time>)

  predicate Live(b: Base) {
    b.deletedAt.None?
  }

  /**
   * An application. `active` is the flag the document-store adapter writes and
   * filters on; the relational adapters ignore it.
   */
  datatype Application = Application(base: Base, name: string, externalId: string, active: bool)

  /** One route: its path and, per HTTP method name, whether the method is allowed. */
  datatype PermissionConfig = PermissionConfig(path: string, allowedMethods: map<string, bool>)

  /** An ordered list of route configurations. */
  datatype Permission = Permission(config: seq<PermissionConfig>)

  /** A role; `appId` refers to the owning application (foreign key `AppID`). */
  datatype Role = Role(
    base: Base,
    name: string,
    description: string,
    tag: string,
    appId: UUID,
    permission: Permission)

  /** Go's zero values of the records. */
  const ZeroBase := Base(Nil, 0, 0, None)
  const ZeroApplication := Application(ZeroBase, "", "", false)
  const ZeroRole := Role(ZeroBase, "", "", "", Nil, Permission([]))

  /** The declared column type of `Role.Name`, `varchar(25)`. */
  const RoleNameMaxLength := 25

  /**
   * Base.BeforeCreate, the gorm hook run before every insert: the identifier
   * becomes the freshly generated `newId`, whatever the caller supplied.
   */
  function BeforeCreate(b: Base, newId: UUID): (r: (Base, Option<Error>))
    ensures r.0.id == newId
    ensures r.0.createdAt == b.createdAt && r.0.updatedAt == b.updatedAt
    ensures r.0.deletedAt == b.deletedAt
    ensures r.1 == None
  {
    (b.(id := newId), None)
  }

  /**
   * Permission.GormDBDataType: the column type used for a permission, chosen by
   * the name of the SQL dialect.
   */
  function GormDBDataType(dialect: string): (r: string)
    ensures r == "json" <==> dialect == "mysql" || dialect == "sqlite"
    ensures r == "jsonb" <==> dialect == "postgres"
    ensures r == "" <==> dialect != "mysql" && dialect != "sqlite" && dialect != "postgres"
  {
    match dialect
    case "mysql" => "json"
    case "sqlite" => "json"
    case "postgres" => "jsonb"
    case _ => ""
  }

  /** The values a database driver hands to a `Scanner` (driver.Value). */
  datatype DriverValue =
    | Int64Value(i: int)
    | Float64Value(f: real)
    | BoolValue(b: bool)
    | BytesValue(data: seq<bv8>)
    | StringValue(s: string)
    | TimeValue(t: Time)
    | NilValue

  const ScanTypeAssertionFailed := Msg("type assertion to []byte failed")

  /**
   * Permission.Scan: only a byte slice is handed to the JSON decoder
   * `unmarshal`; any other driver value fails and leaves `p` as it was.
   */
  function Scan(
    p: Permission,
    value: DriverValue,
    unmarshal: (Permission, seq<bv8>) -> (Permission, Option<Error>)
  ): (r: (Permission, Option<Error>))
    ensures !value.BytesValue? ==> r.0 == p && r.1 == Some(ScanTypeAssertionFailed)
    ensures value.BytesValue? ==> r == unmarshal(p, value.data)
  {
    match value
    case BytesValue(data) => unmarshal(p, data)
    case _ => (p, Some(ScanTypeAssertionFailed))
  }
}
