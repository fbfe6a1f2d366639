/** The Postgres role repository (repository/pgRoleRepository.go). */
module PgRoleRepo {
  import opened Results
  import opened Uuid
  import opened Errors
  import opened Types
  import opened Text
  import Repository
  import Gorm
  import PgAppRepo

  /** PgRoleRepository: a handle on the database. */
  datatype PgRoleRepository = PgRoleRepository(db: Gorm.Database)

  /** NewPgRoleRepository: refuses a nil database handle. */
  function NewPgRoleRepository(db: Option<Gorm.Database>): (r: Reply<Option<PgRoleRepository>>)
    ensures db.None? ==> r == Reply(None, Some(PgAppRepo.NoDatabase))
    ensures db.Some? ==> r.err.None? && r.value == Some(PgRoleRepository(db.value))
  {
    match db
    case None => Reply(None, Some(PgAppRepo.NoDatabase))
    case Some(d) => Reply(Some(PgRoleRepository(d)), None)
  }

  /**
   * Save: inserts the role as given, under the hook-generated `newId`. It
   * checks nothing itself: only the table's constraints (name length, unique
   * tag, existing application) can refuse it. A failure is ErrRoleDuplicated
   * when its text contains "duplicate", ErrDefaultInsertRole otherwise.
   */
  function Save(repo: PgRoleRepository, role: Role, newId: UUID, fault: Option<string>)
    : (r: (PgRoleRepository, Reply<UUID>))
    requires newId != Nil && newId !in repo.db.roles
    ensures r.1.err.Some? ==> r.1.value == Nil && r.0 == repo
    ensures fault.Some? ==>
      r.1.err == Some(if Contains(fault.value, Repository.DuplicateMarker) then RoleDuplicated else DefaultInsertRole)
    ensures fault.None? && !Gorm.FitsNameColumn(role.name) ==> r.1.err == Some(DefaultInsertRole)
    ensures fault.None? && Gorm.FitsNameColumn(role.name) && Gorm.TagClash(repo.db.roles, role.(base := role.base.(id := newId)))
      ==> r.1.err == Some(RoleDuplicated)
    ensures fault.None? && Gorm.FitsNameColumn(role.name) && !Gorm.TagClash(repo.db.roles, role.(base := role.base.(id := newId)))
      && role.appId !in repo.db.apps
      ==> r.1.err == Some(DefaultInsertRole)
    ensures r.1.err.None? <==>
      (fault.None? && Gorm.FitsNameColumn(role.name)
       && !Gorm.TagClash(repo.db.roles, role.(base := role.base.(id := newId))) && role.appId in repo.db.apps)
    ensures r.1.err.None? ==>
      && r.1.value == newId
      && r.0.db.roles == repo.db.roles[newId := role.(base := role.base.(id := newId), name := Gorm.StoredName(role.name))]
    ensures r.0.db.apps == repo.db.apps
    ensures Gorm.Valid(repo.db) ==> Gorm.Valid(r.0.db)
  {
    var created := Gorm.CreateRole(repo.db, role, newId, fault);
    Gorm.UniqueViolationSaysDuplicate();
    Gorm.ValueTooLongDoesNotSayDuplicate();
    Gorm.ForeignKeyViolationDoesNotSayDuplicate();
    if created.2.Some? then
      var dup := Repository.CheckIfIsDuplicated(created.2.value.Text());
      (repo, Reply(Nil, Some(if dup then RoleDuplicated else DefaultInsertRole)))
    else
      (PgRoleRepository(created.0), Reply(created.1.base.id, None))
  }

  /** Get: the live role whose id is the argument. */
  function Get(repo: PgRoleRepository, id: UUID, fault: Option<string>): (r: Reply<Role>)
    ensures r.err.None? ==> id in repo.db.roles && r.value == repo.db.roles[id] && Live(r.value.base)
    ensures Gorm.Valid(repo.db) && r.err.None? ==> r.value.base.id == id
    ensures fault.None? ==> (r.err.None? <==> id in repo.db.roles && Live(repo.db.roles[id].base))
    ensures fault.None? && r.err.Some? ==> r.err == Some(Db(RecordNotFound))
    ensures fault.Some? ==> r.err == Some(Db(DriverError(fault.value)))
    ensures r.err.Some? ==> r.value == ZeroRole
  {
    match Gorm.FirstRole(repo.db, id, fault)
    case Success(role) => Reply(role, None)
    case Failure(e) => Reply(ZeroRole, Some(Db(e)))
  }

  /** GetApp: the application lookup of the application repository, on the same database. */
  function GetApp(repo: PgRoleRepository, id: UUID, fault: Option<string>): (r: Reply<Application>)
    ensures r == PgAppRepo.Get(PgAppRepo.PgAppRepository(repo.db), id, fault)
    ensures r.err.None? ==> id in repo.db.apps && Live(r.value.base)
  {
    var appRepo := PgAppRepo.PgAppRepository(repo.db);
    PgAppRepo.Get(appRepo, id, fault)
  }

  /**
   * Save validates nothing: a role whose tag was not derived from its
   * application and name, and whose name is empty, is stored all the same.
   */
  lemma SaveDoesNotValidate(repo: PgRoleRepository, role: Role, newId: UUID)
    requires Gorm.Valid(repo.db)
    requires newId != Nil && newId !in repo.db.roles
    requires role.appId in repo.db.apps
    requires role.name == "" && role.tag == "any tag at all"
    requires forall k :: k in repo.db.roles ==> repo.db.roles[k].tag != role.tag
    ensures Save(repo, role, newId, None).1 == Reply(newId, None)
  {
  }

  /**
   * A name longer than the column whose excess is spaces only is stored cut
   * to 25 characters, not refused.
   */
  lemma TrailingSpacesCut(repo: PgRoleRepository, role: Role, newId: UUID, letters: string)
    requires newId != Nil && newId !in repo.db.roles
    requires role.appId in repo.db.apps
    requires forall k :: k in repo.db.roles ==> repo.db.roles[k].tag != role.tag
    requires |letters| == RoleNameMaxLength && role.name == letters + " "
    ensures Save(repo, role, newId, None).1 == Reply(newId, None)
    ensures Save(repo, role, newId, None).0.db.roles[newId].name == letters
  {
    assert role.name[..RoleNameMaxLength] == letters;
  }

  /** After a successful Save, Get finds the role under the returned id, if it was not born deleted. */
  lemma SaveThenGet(repo: PgRoleRepository, role: Role, newId: UUID)
    requires newId != Nil && newId !in repo.db.roles
    requires Save(repo, role, newId, None).1.err.None?
    ensures var (repo', reply) := Save(repo, role, newId, None);
      Live(role.base) ==>
        Get(repo', reply.value, None) == Reply(role.(base := role.base.(id := newId), name := Gorm.StoredName(role.name)), None)
  {
  }
}
