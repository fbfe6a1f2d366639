/** The Postgres application repository (repository/pgAppRepository.go). */
module PgAppRepo {
  import opened Results
  import opened Uuid
  import opened Errors
  import opened Types
  import opened Text
  import Repository
  import Gorm

  /** PgAppRepository: a handle on the database. */
  datatype PgAppRepository = PgAppRepository(db: Gorm.Database)

  const NoDatabase := Msg("no database received")

  /** NewPgAppRepository: refuses a nil database handle. */
  function NewPgAppRepository(db: Option<Gorm.Database>): (r: Reply<Option<PgAppRepository>>)
    ensures db.None? ==> r == Reply(None, Some(NoDatabase))
    ensures db.Some? ==> r.err.None? && r.value == Some(PgAppRepository(db.value))
  {
    match db
    case None => Reply(None, Some(NoDatabase))
    case Some(d) => Reply(Some(PgAppRepository(d)), None)
  }

  /**
   * GetAll: every live application. `useCache` plays no part in the
   * outcome.
   */
  method GetAll(repo: PgAppRepository, useCache: bool, fault: Option<string>) returns (r: Reply<seq<Application>>)
    ensures fault.Some? ==> r == Reply([], Some(Db(DriverError(fault.value))))
    ensures fault.None? ==> r.err.None?
    ensures fault.None? ==> forall a :: a in r.value <==> a in repo.db.apps.Values && Live(a.base)
    ensures Gorm.Valid(repo.db) ==> forall i, j :: 0 <= i < j < |r.value| ==> r.value[i].base.id != r.value[j].base.id
  {
    var apps, err := Gorm.FindApplications(repo.db, fault);
    r := Reply(apps, if err.Some? then Some(Db(err.value)) else None);
  }

  /** GetAllFromCache: a stub that always answers an empty list and no error. */
  function GetAllFromCache(repo: PgAppRepository): (r: Reply<seq<Application>>)
    ensures r.value == [] && r.err.None?
  {
    Reply([], None)
  }

  /**
   * Get: the live application with the requested id; a soft-deleted or
   * absent one gives gorm's not-found error and the zero application.
   */
  function Get(repo: PgAppRepository, id: UUID, fault: Option<string>): (r: Reply<Application>)
    ensures r.err.None? ==> id in repo.db.apps && r.value == repo.db.apps[id] && Live(r.value.base)
    ensures Gorm.Valid(repo.db) && r.err.None? ==> r.value.base.id == id
    ensures fault.None? ==> (r.err.None? <==> id in repo.db.apps && Live(repo.db.apps[id].base))
    ensures fault.None? && r.err.Some? ==> r.err == Some(Db(RecordNotFound))
    ensures fault.Some? ==> r.err == Some(Db(DriverError(fault.value)))
    ensures r.err.Some? ==> r.value == ZeroApplication
  {
    match Gorm.FirstApplication(repo.db, id, fault)
    case Success(app) => Reply(app, None)
    case Failure(e) => Reply(ZeroApplication, Some(Db(e)))
  }

  /** GetFromCache: a stub that always answers the zero application and no error. */
  function GetFromCache(repo: PgAppRepository, id: UUID): (r: Reply<Application>)
    ensures r.value == ZeroApplication && r.err.None?
  {
    Reply(ZeroApplication, None)
  }

  /**
   * Save: inserts the application under the identifier `newId` that the
   * create hook generates. A failure whose text contains "duplicate" becomes
   * ErrAppDuplicated, any other ErrDefaultInsertApp; either way the id
   * returned is uuid.Nil and the table is unchanged.
   */
  function Save(repo: PgAppRepository, app: Application, newId: UUID, fault: Option<string>)
    : (r: (PgAppRepository, Reply<UUID>))
    requires newId != Nil && newId !in repo.db.apps
    ensures r.1.err.Some? ==> r.1.value == Nil && r.0 == repo
    ensures fault.Some? ==>
      r.1.err == Some(if Contains(fault.value, Repository.DuplicateMarker) then AppDuplicated else DefaultInsertApp)
    ensures fault.None? && Gorm.ExternalIdClash(repo.db.apps, app.(base := app.base.(id := newId)))
      ==> r.1.err == Some(AppDuplicated)
    ensures fault.None? && !Gorm.ExternalIdClash(repo.db.apps, app.(base := app.base.(id := newId)))
      ==> r.1 == Reply(newId, None) && r.0.db.apps == repo.db.apps[newId := app.(base := app.base.(id := newId))]
    ensures r.0.db.roles == repo.db.roles
    ensures Gorm.Valid(repo.db) ==> Gorm.Valid(r.0.db)
  {
    var created := Gorm.CreateApplication(repo.db, app, newId, fault);
    Gorm.UniqueViolationSaysDuplicate();
    if created.2.Some? then
      var dup := Repository.CheckIfIsDuplicated(created.2.value.Text());
      (repo, Reply(Nil, Some(if dup then AppDuplicated else DefaultInsertApp)))
    else
      (PgAppRepository(created.0), Reply(created.1.base.id, None))
  }

  /**
   * Update: refuses the nil id before touching the store; otherwise writes
   * the full record and passes the store's error through unchanged.
   */
  function Update(repo: PgAppRepository, app: Application, fault: Option<string>): (r: (PgAppRepository, Option<Error>))
    ensures app.base.id == Nil ==> r == (repo, Some(IdToUpdateNil))
    ensures r.1.Some? ==> r.0 == repo
    ensures app.base.id != Nil && fault.Some? ==> r.1 == Some(Db(DriverError(fault.value)))
    ensures app.base.id != Nil && r.1.None? ==> r.0.db.apps == repo.db.apps[app.base.id := app]
    ensures app.base.id != Nil ==> (r.1.None? <==> fault.None? && !Gorm.ExternalIdClash(repo.db.apps, app))
    ensures app.base.id != Nil && fault.None? && Gorm.ExternalIdClash(repo.db.apps, app)
      ==> r.1 == Some(Db(DriverError(Gorm.UniqueViolation)))
    ensures r.0.db.roles == repo.db.roles
    ensures Gorm.Valid(repo.db) ==> Gorm.Valid(r.0.db)
  {
    if app.base.id == Nil then
      (repo, Some(IdToUpdateNil))
    else
      var (db', err) := Gorm.SaveApplication(repo.db, app, fault);
      match err
      case Some(e) => (repo, Some(Db(e)))
      case None => (PgAppRepository(db'), None)
  }

  /** After a successful Save, Get finds the record under the returned id, if it was not born deleted. */
  lemma SaveThenGet(repo: PgAppRepository, app: Application, newId: UUID)
    requires newId != Nil && newId !in repo.db.apps
    requires Save(repo, app, newId, None).1.err.None?
    ensures var (repo', reply) := Save(repo, app, newId, None);
      Live(app.base) ==> Get(repo', reply.value, None) == Reply(app.(base := app.base.(id := newId)), None)
  {
  }

  /** A second application with an external id already stored is refused as a duplicate. */
  lemma SecondExternalIdRefused(repo: PgAppRepository, app: Application, newId: UUID, other: UUID)
    requires Gorm.Valid(repo.db)
    requires other in repo.db.apps && repo.db.apps[other].externalId == app.externalId
    requires newId != Nil && newId !in repo.db.apps
    ensures Save(repo, app, newId, None) == (repo, Reply(Nil, Some(AppDuplicated)))
  {
    assert Gorm.ExternalIdClash(repo.db.apps, app.(base := app.base.(id := newId)));
  }
}
