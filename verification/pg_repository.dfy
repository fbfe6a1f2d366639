/**
 * The older Postgres repository revision (repository/pgRepository.go), which
 * serves applications through the method names of the `Repository`
 * interface. Its operations behave as those of repository/pgAppRepository.go.
 */
module PgRepo {
  import opened Results
  import opened Uuid
  import opened Errors
  import opened Types
  import opened Text
  import Repository
  import Gorm

  /** PgRepository: a handle on an already opened database. */
  datatype PgRepository = PgRepository(db: Gorm.Database)

  /** GetApplications: every live application; `useCache` plays no part. */
  method GetApplications(repo: PgRepository, useCache: bool, fault: Option<string>) returns (r: Reply<seq<Application>>)
    ensures fault.Some? ==> r == Reply([], Some(Db(DriverError(fault.value))))
    ensures fault.None? ==> r.err.None?
    ensures fault.None? ==> forall a :: a in r.value <==> a in repo.db.apps.Values && Live(a.base)
    ensures Gorm.Valid(repo.db) ==> forall i, j :: 0 <= i < j < |r.value| ==> r.value[i].base.id != r.value[j].base.id
  {
    var apps, err := Gorm.FindApplications(repo.db, fault);
    r := Reply(apps, if err.Some? then Some(Db(err.value)) else None);
  }

  /** GetApplicationsFromCache: a stub answering an empty list and no error. */
  function GetApplicationsFromCache(repo: PgRepository): (r: Reply<seq<Application>>)
    ensures r.value == [] && r.err.None?
  {
    Reply([], None)
  }

  /** GetApplication: the live application with the requested id, never a deleted one. */
  function GetApplication(repo: PgRepository, id: UUID, fault: Option<string>): (r: Reply<Application>)
    ensures r.err.None? ==> id in repo.db.apps && r.value == repo.db.apps[id] && Live(r.value.base)
    ensures Gorm.Valid(repo.db) && r.err.None? ==> r.value.base.id == id
    ensures fault.None? ==> (r.err.None? <==> id in repo.db.apps && Live(repo.db.apps[id].base))
    ensures fault.None? && r.err.Some? ==> r.err == Some(Db(RecordNotFound))
    ensures fault.Some? ==> r.err == Some(Db(DriverError(fault.value)))
    ensures r.err.Some? ==> r.value == ZeroApplication
  {
    match Gorm.FirstApplication(repo.db, id, fault)
    case Success(app) => Reply(app, None)
    case Failure(e) => Reply(ZeroApplication, Some(Db(e)))
  }

  /** GetApplicationFromCache: a stub answering the zero application and no error. */
  function GetApplicationFromCache(repo: PgRepository, id: UUID): (r: Reply<Application>)
    ensures r.value == ZeroApplication && r.err.None?
  {
    Reply(ZeroApplication, None)
  }

  /**
   * SaveApplication: inserts under the hook-generated `newId`; a failure is
   * ErrAppDuplicated when its text contains "duplicate", ErrDefaultInsertApp
   * otherwise, and returns uuid.Nil.
   */
  function SaveApplication(repo: PgRepository, app: Application, newId: UUID, fault: Option<string>)
    : (r: (PgRepository, Reply<UUID>))
    requires newId != Nil && newId !in repo.db.apps
    ensures r.1.err.Some? ==> r.1.value == Nil && r.0 == repo
    ensures fault.Some? ==>
      r.1.err == Some(if Contains(fault.value, Repository.DuplicateMarker) then AppDuplicated else DefaultInsertApp)
    ensures fault.None? && Gorm.ExternalIdClash(repo.db.apps, app.(base := app.base.(id := newId)))
      ==> r.1.err == Some(AppDuplicated)
    ensures fault.None? && !Gorm.ExternalIdClash(repo.db.apps, app.(base := app.base.(id := newId)))
      ==> r.1 == Reply(newId, None) && r.0.db.apps == repo.db.apps[newId := app.(base := app.base.(id := newId))]
    ensures r.0.db.roles == repo.db.roles
    ensures Gorm.Valid(repo.db) ==> Gorm.Valid(r.0.db)
  {
    var created := Gorm.CreateApplication(repo.db, app, newId, fault);
    Gorm.UniqueViolationSaysDuplicate();
    if created.2.Some? then
      var dup := Repository.CheckIfIsDuplicated(created.2.value.Text());
      (repo, Reply(Nil, Some(if dup then AppDuplicated else DefaultInsertApp)))
    else
      (PgRepository(created.0), Reply(created.1.base.id, None))
  }

  /** UpdateApplication: refuses the nil id before any store call, else writes the full record. */
  function UpdateApplication(repo: PgRepository, app: Application, fault: Option<string>): (r: (PgRepository, Option<Error>))
    ensures app.base.id == Nil ==> r == (repo, Some(IdToUpdateNil))
    ensures r.1.Some? ==> r.0 == repo
    ensures app.base.id != Nil && fault.Some? ==> r.1 == Some(Db(DriverError(fault.value)))
    ensures app.base.id != Nil && r.1.None? ==> r.0.db.apps == repo.db.apps[app.base.id := app]
    ensures app.base.id != Nil ==> (r.1.None? <==> fault.None? && !Gorm.ExternalIdClash(repo.db.apps, app))
    ensures app.base.id != Nil && fault.None? && Gorm.ExternalIdClash(repo.db.apps, app)
      ==> r.1 == Some(Db(DriverError(Gorm.UniqueViolation)))
    ensures r.0.db.roles == repo.db.roles
    ensures Gorm.Valid(repo.db) ==> Gorm.Valid(r.0.db)
  {
    if app.base.id == Nil then
      (repo, Some(IdToUpdateNil))
    else
      var saved := Gorm.SaveApplication(repo.db, app, fault);
      if saved.1.Some? then (repo, Some(Db(saved.1.value))) else (PgRepository(saved.0), None)
  }
}
