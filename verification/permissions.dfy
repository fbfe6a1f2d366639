/**
 * The permission service (services/permissions.go): pairs an application
 * with the roles listed for it. Its two repositories are seen only through
 * the one call each that the service makes, passed in as functions; an
 * absent repository is `None`.
 */
module Permissions {
  import opened Results
  import opened Uuid
  import opened Errors
  import opened Types
  import Gorm
  import PgAppRepo

  /** The application lookup of an application repository. */
  type AppLookup = UUID -> Reply<Application>

  /** The role listing of a role repository: the roles of one application. */
  type RoleListing = UUID -> Reply<seq<Role>>

  datatype PermissionService = PermissionService(appRepo: Option<AppLookup>, roleRepo: Option<RoleListing>)

  /** An application together with the roles listed for it. */
  datatype AppWithRoles = AppWithRoles(app: Application, roles: seq<Role>)

  /**
   * NewPermissionService: the application repository is checked and set
   * first, then the role repository. The service is returned on every path,
   * holding whatever was set before the check that failed.
   */
  function NewPermissionService(appRepo: Option<AppLookup>, roleRepo: Option<RoleListing>): (r: Reply<PermissionService>)
    ensures appRepo.None? ==> r.err == Some(AppRepositoryNil) && r.value.appRepo.None? && r.value.roleRepo.None?
    ensures appRepo.Some? && roleRepo.None? ==>
      && r.err == Some(RoleRepositoryNil) && r.value.roleRepo.None?
      && r.value.appRepo.Some? && (forall id :: r.value.appRepo.value(id) == appRepo.value(id))
    ensures r.err.None? <==> appRepo.Some? && roleRepo.Some?
    ensures r.err.None? ==>
      && r.value.appRepo.Some? && (forall id :: r.value.appRepo.value(id) == appRepo.value(id))
      && r.value.roleRepo.Some? && (forall id :: r.value.roleRepo.value(id) == roleRepo.value(id))
  {
    if appRepo.None? then
      Reply(PermissionService(None, None), Some(AppRepositoryNil))
    else if roleRepo.None? then
      Reply(PermissionService(appRepo, None), Some(RoleRepositoryNil))
    else
      Reply(PermissionService(appRepo, roleRepo), None)
  }

  /**
   * GetApp: the lookup's application, with the lookup's error dropped. On a
   * failed lookup that is whatever value the repository returned with its
   * error.
   */
  function GetApp(ps: PermissionService, appId: UUID): (r: Reply<Application>)
    requires ps.appRepo.Some?
    ensures r.err.None?
    ensures r.value == ps.appRepo.value(appId).value
  {
    var lookup := ps.appRepo.value(appId);
    Reply(lookup.value, None)
  }

  /**
   * GetAppWithRoles: the roles are listed for the id of the application
   * GetApp returned, and the listing's error is the only error reported.
   */
  function GetAppWithRoles(ps: PermissionService, appId: UUID): (r: Reply<AppWithRoles>)
    requires ps.appRepo.Some? && ps.roleRepo.Some?
    ensures r.value.app == ps.appRepo.value(appId).value
    ensures r.value.roles == ps.roleRepo.value(r.value.app.base.id).value
    ensures r.err == ps.roleRepo.value(r.value.app.base.id).err
  {
    var app := GetApp(ps, appId).value;
    var listing := ps.roleRepo.value(app.base.id);
    Reply(AppWithRoles(app, listing.value), listing.err)
  }

  /**
   * The lookup's error never reaches the caller: two application
   * repositories that return the same record give the same answer, whatever
   * errors they report.
   */
  lemma LookupErrorSwallowed(ps1: PermissionService, ps2: PermissionService, appId: UUID)
    requires ps1.appRepo.Some? && ps1.roleRepo.Some? && ps2.appRepo.Some? && ps2.roleRepo.Some?
    requires ps1.appRepo.value(appId).value == ps2.appRepo.value(appId).value
    requires forall id :: ps1.roleRepo.value(id) == ps2.roleRepo.value(id)
    ensures GetAppWithRoles(ps1, appId) == GetAppWithRoles(ps2, appId)
  {
  }

  /**
   * Over the Postgres application repository, an application that is
   * missing or soft-deleted is reported as the zero application, and its
   * roles are listed for the nil id; with a listing that succeeds, the call
   * reports no error at all.
   */
  lemma MissingAppListsNilRoles(db: Gorm.Database, listing: RoleListing, appId: UUID)
    requires !(appId in db.apps && Live(db.apps[appId].base))
    requires listing(Nil).err.None?
    ensures var ps := PermissionService(Some((id: UUID) => PgAppRepo.Get(PgAppRepo.PgAppRepository(db), id, None)), Some(listing));
      GetAppWithRoles(ps, appId) == Reply(AppWithRoles(ZeroApplication, listing(Nil).value), None)
  {
  }

  /**
   * GetApp as its comment intends ("check if app exists"): the lookup's
   * error is reported instead of dropped.
   */
  function GetAppChecked(ps: PermissionService, appId: UUID): (r: Reply<Application>)
    requires ps.appRepo.Some?
    ensures r.err == ps.appRepo.value(appId).err
    ensures r.err.None? ==> r.value == ps.appRepo.value(appId).value
  {
    ps.appRepo.value(appId)
  }

  /**
   * GetAppWithRoles over GetAppChecked: a failed lookup is reported and no
   * roles are listed; otherwise the roles of the application found are
   * listed and the listing's error reported.
   */
  function GetAppWithRolesChecked(ps: PermissionService, appId: UUID): (r: Reply<AppWithRoles>)
    requires ps.appRepo.Some? && ps.roleRepo.Some?
    ensures ps.appRepo.value(appId).err.Some? ==>
      r.err == ps.appRepo.value(appId).err && r.value.roles == []
    ensures r.err.None? <==>
      ps.appRepo.value(appId).err.None? && ps.roleRepo.value(ps.appRepo.value(appId).value.base.id).err.None?
    ensures ps.appRepo.value(appId).err.None? ==> r == GetAppWithRoles(ps, appId)
  {
    var found := GetAppChecked(ps, appId);
    if found.err.Some? then
      Reply(AppWithRoles(found.value, []), found.err)
    else
      GetAppWithRoles(ps, appId)
  }

  /**
   * Over the Postgres application repository, the corrected service never
   * reports success for a missing application, and on success the roles
   * were listed for the requested id itself.
   */
  lemma CheckedListsRequestedApp(db: Gorm.Database, fault: Option<string>, listing: RoleListing, appId: UUID)
    requires Gorm.Valid(db)
    ensures var ps := PermissionService(Some((id: UUID) => PgAppRepo.Get(PgAppRepo.PgAppRepository(db), id, fault)), Some(listing));
      var r := GetAppWithRolesChecked(ps, appId);
      && (r.err.None? ==> appId in db.apps && Live(db.apps[appId].base) && r.value.roles == listing(appId).value)
      && (fault.None? && !(appId in db.apps && Live(db.apps[appId].base)) ==> r.err == Some(Db(RecordNotFound)))
  {
  }
}
