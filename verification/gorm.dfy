/**
 * The relational store behind the Postgres adapters, as gorm presents it:
 * one table per entity keyed by primary key, a unique constraint on
 * `applications.external_id` and on `roles.tag`, `roles.name` of type
 * `varchar(25)`, a foreign key from `roles.app_id` to `applications.id`, and
 * soft deletion through `deleted_at`. A driver fault is an oracle: when
 * `fault` holds a text, the statement fails with exactly that text.
 */
module Gorm {
  import opened Results
  import opened Uuid
  import opened Errors
  import opened Types
  import Text

  datatype Database = Database(apps: map<UUID, Application>, roles: map<UUID, Role>)

  /**
   * Driver texts of the constraint violations Postgres reports. Each is
   * written as a few short literals joined together: the verifier sees the
   * characters of a short literal but not of a long one, and the lemmas
   * below need them.
   */
  const UniqueViolation := "ERROR: " + "duplicate" + " key value violates unique constraint (SQLSTATE 23505)"
  const ValueTooLong := "ERROR: value too long for type " + "character varying(25) (SQLSTATE 22001)"
  const ForeignKeyViolation :=
    "ERROR: insert or update" + " on table \"roles\" violates foreign key" + " constraint \"fk_roles_app\" (SQLSTATE 23503)"

  /** The unique-violation text carries the word the adapters look for. */
  lemma UniqueViolationSaysDuplicate()
    ensures Text.Occurs("duplicate", UniqueViolation)
  {
    Text.OccursInside("ERROR: ", "duplicate", " key value violates unique constraint (SQLSTATE 23505)");
  }

  /** The texts of the other constraint violations do not. */
  lemma ValueTooLongDoesNotSayDuplicate()
    ensures !Text.Occurs("duplicate", ValueTooLong)
  {
    assert 'd' !in "ERROR: value too long for type ";
    assert 'd' !in "character varying(25) (SQLSTATE 22001)";
    Text.NoOccurrenceWithoutChar(ValueTooLong, "duplicate", 0);
  }

  lemma ForeignKeyViolationDoesNotSayDuplicate()
    ensures !Text.Occurs("duplicate", ForeignKeyViolation)
  {
    var head := "ERROR: insert or update";
    var tail := " on table \"roles\" violates foreign key" + " constraint \"fk_roles_app\" (SQLSTATE 23503)";
    assert 'd' !in " on table \"roles\" violates foreign key";
    assert 'd' !in " constraint \"fk_roles_app\" (SQLSTATE 23503)";
    assert forall j :: 0 <= j < |head| ==> head[j] != 'd' || head[j + 1] != 'u';
    forall j | 0 <= j < |ForeignKeyViolation| - 1
      ensures !(ForeignKeyViolation[j] == 'd' && ForeignKeyViolation[j + 1] == 'u')
    {
      if j >= |head| {
        assert ForeignKeyViolation[j] == tail[j - |head|];
      }
    }
    Text.NoOccurrenceWithoutPair(ForeignKeyViolation, "duplicate");
  }

  /** The constraints the schema declares, which no successful statement breaks. */
  ghost predicate Valid(db: Database) {
    && (forall id :: id in db.apps ==> id != Nil && db.apps[id].base.id == id)
    && (forall a, b :: a in db.apps && b in db.apps && a != b ==> db.apps[a].externalId != db.apps[b].externalId)
    && (forall id :: id in db.roles ==> id != Nil && db.roles[id].base.id == id)
    && (forall a, b :: a in db.roles && b in db.roles && a != b ==> db.roles[a].tag != db.roles[b].tag)
    && (forall id :: id in db.roles ==> |db.roles[id].name| <= RoleNameMaxLength)
    && (forall id :: id in db.roles ==> db.roles[id].appId in db.apps)
  }

  /** Another row already holds the external id of `app`. */
  predicate ExternalIdClash(apps: map<UUID, Application>, app: Application) {
    exists k :: k in apps && k != app.base.id && apps[k].externalId == app.externalId
  }

  /** Another row already holds the tag of `role`. */
  predicate TagClash(roles: map<UUID, Role>, role: Role) {
    exists k :: k in roles && k != role.base.id && roles[k].tag == role.tag
  }

  /**
   * db.Create(&app): the BeforeCreate hook assigns `newId`, then the row is
   * inserted unless the driver faults or the external id is taken.
   * Returns the new database, the record as the hook left it, and the error.
   */
  function CreateApplication(db: Database, app: Application, newId: UUID, fault: Option<string>)
    : (r: (Database, Application, Option<DbError>))
    requires newId != Nil && newId !in db.apps
    ensures r.1 == app.(base := r.1.base) && r.1.base == BeforeCreate(app.base, newId).0
    ensures fault.Some? ==> r.0 == db && r.2 == Some(DriverError(fault.value))
    ensures fault.None? && ExternalIdClash(db.apps, r.1) ==> r.0 == db && r.2 == Some(DriverError(UniqueViolation))
    ensures r.2.None? <==> fault.None? && !ExternalIdClash(db.apps, r.1)
    ensures r.2.None? ==> r.0 == db.(apps := db.apps[newId := r.1])
    ensures Valid(db) ==> Valid(r.0)
  {
    var stored := app.(base := BeforeCreate(app.base, newId).0);
    if fault.Some? then
      (db, stored, Some(DriverError(fault.value)))
    else if ExternalIdClash(db.apps, stored) then
      (db, stored, Some(DriverError(UniqueViolation)))
    else
      (db.(apps := db.apps[newId := stored]), stored, None)
  }

  /**
   * db.Save(&app) with a non-zero primary key: the whole row is written under
   * its id, replacing the row that holds it or adding one when none does.
   */
  function SaveApplication(db: Database, app: Application, fault: Option<string>): (r: (Database, Option<DbError>))
    requires app.base.id != Nil
    ensures fault.Some? ==> r == (db, Some(DriverError(fault.value)))
    ensures fault.None? && ExternalIdClash(db.apps, app) ==> r == (db, Some(DriverError(UniqueViolation)))
    ensures r.1.None? <==> fault.None? && !ExternalIdClash(db.apps, app)
    ensures r.1.None? ==> r.0 == db.(apps := db.apps[app.base.id := app])
    ensures Valid(db) ==> Valid(r.0)
  {
    if fault.Some? then
      (db, Some(DriverError(fault.value)))
    else if ExternalIdClash(db.apps, app) then
      (db, Some(DriverError(UniqueViolation)))
    else
      (db.(apps := db.apps[app.base.id := app]), None)
  }

  /**
   * db.Where("id = ?", id).First(&app): the live application with that id,
   * or gorm.ErrRecordNotFound; soft-deleted rows are invisible.
   */
  function FirstApplication(db: Database, id: UUID, fault: Option<string>): (r: Result<Application, DbError>)
    ensures fault.Some? ==> r == Failure(DriverError(fault.value))
    ensures fault.None? ==> (r.Success? <==> id in db.apps && Live(db.apps[id].base))
    ensures fault.None? && r.Failure? ==> r.error == RecordNotFound
    ensures r.Success? ==> id in db.apps && r.value == db.apps[id] && Live(r.value.base)
  {
    if fault.Some? then Failure(DriverError(fault.value))
    else if id in db.apps && Live(db.apps[id].base) then Success(db.apps[id])
    else Failure(RecordNotFound)
  }

  /**
   * db.Find(&apps): every live application, each once, in no particular
   * order (the query has no ORDER BY).
   */
  method FindApplications(db: Database, fault: Option<string>) returns (apps: seq<Application>, err: Option<DbError>)
    ensures fault.Some? ==> apps == [] && err == Some(DriverError(fault.value))
    ensures fault.None? ==> err.None?
    ensures fault.None? ==> forall a :: a in apps <==> a in db.apps.Values && Live(a.base)
    ensures Valid(db) ==> forall i, j :: 0 <= i < j < |apps| ==> apps[i].base.id != apps[j].base.id
  {
    if fault.Some? {
      return [], Some(DriverError(fault.value));
    }
    apps, err := [], None;
    var todo := db.apps.Keys;
    while todo != {}
      invariant todo <= db.apps.Keys
      invariant forall a :: a in apps ==> a in db.apps.Values && Live(a.base)
      invariant forall k :: k in db.apps && k !in todo && Live(db.apps[k].base) ==> db.apps[k] in apps
      invariant Valid(db) ==> forall a :: a in apps ==> a.base.id in db.apps && a.base.id !in todo
      invariant Valid(db) ==> forall i, j :: 0 <= i < j < |apps| ==> apps[i].base.id != apps[j].base.id
      decreases todo
    {
      var k :| k in todo;
      if Live(db.apps[k].base) {
        apps := apps + [db.apps[k]];
      }
      todo := todo - {k};
    }
  }

  /**
   * A value fits the `varchar(25)` column of `roles.name` when whatever lies
   * beyond its first 25 characters is spaces only: Postgres cuts such spaces
   * off instead of refusing the value.
   */
  function FitsNameColumn(name: string): (r: bool)
    ensures |name| <= RoleNameMaxLength ==> r
    ensures |name| > RoleNameMaxLength ==> (r <==> forall c :: c in name[RoleNameMaxLength..] ==> c == ' ')
  {
    if |name| <= RoleNameMaxLength then true
    else
      var excess := name[RoleNameMaxLength..];
      var allSpaces := forall i :: 0 <= i < |excess| ==> excess[i] == ' ';
      assert allSpaces ==> forall c :: c in excess ==> c == ' ' by {
        if allSpaces {
          forall c | c in excess
            ensures c == ' '
          {
            var i :| 0 <= i < |excess| && excess[i] == c;
          }
        }
      }
      assert (forall c :: c in excess ==> c == ' ') ==> allSpaces by {
        if forall c :: c in excess ==> c == ' ' {
          forall i | 0 <= i < |excess|
            ensures excess[i] == ' '
          {
            assert excess[i] in excess;
          }
        }
      }
      allSpaces
  }

  /** The name as the column stores it: its first 25 characters, or all of it when shorter. */
  function StoredName(name: string): (r: string)
    requires FitsNameColumn(name)
    ensures |r| <= RoleNameMaxLength && |r| <= |name| && r == name[..|r|]
    ensures |name| <= RoleNameMaxLength ==> r == name
    ensures |name| > RoleNameMaxLength ==> r == name[..RoleNameMaxLength]
    ensures forall i :: |r| <= i < |name| ==> name[i] == ' '
  {
    if |name| <= RoleNameMaxLength then name
    else
      assert forall i :: RoleNameMaxLength <= i < |name| ==> name[i] == name[RoleNameMaxLength..][i - RoleNameMaxLength];
      name[..RoleNameMaxLength]
  }

  /**
   * db.Create(&role): the hook assigns `newId`; Postgres then checks the
   * length of `name`, the uniqueness of `tag` and the foreign key, in that
   * order. The record in hand keeps the name as given; the stored row holds
   * it cut to the column width.
   */
  function CreateRole(db: Database, role: Role, newId: UUID, fault: Option<string>)
    : (r: (Database, Role, Option<DbError>))
    requires newId != Nil && newId !in db.roles
    ensures r.1 == role.(base := r.1.base) && r.1.base == BeforeCreate(role.base, newId).0
    ensures fault.Some? ==> r.0 == db && r.2 == Some(DriverError(fault.value))
    ensures fault.None? && !FitsNameColumn(role.name) ==> r.0 == db && r.2 == Some(DriverError(ValueTooLong))
    ensures fault.None? && FitsNameColumn(role.name) && TagClash(db.roles, r.1)
      ==> r.0 == db && r.2 == Some(DriverError(UniqueViolation))
    ensures fault.None? && FitsNameColumn(role.name) && !TagClash(db.roles, r.1) && role.appId !in db.apps
      ==> r.0 == db && r.2 == Some(DriverError(ForeignKeyViolation))
    ensures r.2.None? <==>
      fault.None? && FitsNameColumn(role.name) && !TagClash(db.roles, r.1) && role.appId in db.apps
    ensures r.2.None? ==> r.0 == db.(roles := db.roles[newId := r.1.(name := StoredName(role.name))])
    ensures Valid(db) ==> Valid(r.0)
  {
    var hooked := role.(base := BeforeCreate(role.base, newId).0);
    if fault.Some? then
      (db, hooked, Some(DriverError(fault.value)))
    else if !FitsNameColumn(role.name) then
      (db, hooked, Some(DriverError(ValueTooLong)))
    else if TagClash(db.roles, hooked) then
      (db, hooked, Some(DriverError(UniqueViolation)))
    else if role.appId !in db.apps then
      (db, hooked, Some(DriverError(ForeignKeyViolation)))
    else
      (db.(roles := db.roles[newId := hooked.(name := StoredName(role.name))]), hooked, None)
  }

  /** db.Where("id = ?", id).First(&role): the live role with that id. */
  function FirstRole(db: Database, id: UUID, fault: Option<string>): (r: Result<Role, DbError>)
    ensures fault.Some? ==> r == Failure(DriverError(fault.value))
    ensures fault.None? ==> (r.Success? <==> id in db.roles && Live(db.roles[id].base))
    ensures fault.None? && r.Failure? ==> r.error == RecordNotFound
    ensures r.Success? ==> id in db.roles && r.value == db.roles[id] && Live(r.value.base)
  {
    if fault.Some? then Failure(DriverError(fault.value))
    else if id in db.roles && Live(db.roles[id].base) then Success(db.roles[id])
    else Failure(RecordNotFound)
  }
}
