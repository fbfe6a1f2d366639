/**
 * Role provisioning (usecase/role.go): CreateRole checks a role against its
 * application and its name, derives the role's tag, and hands it to the
 * repository. The repository is seen only through the two calls the use
 * case makes, passed in as functions; the calls it makes are recorded.
 */
module RoleUsecase {
  import opened Results
  import opened Uuid
  import opened Errors
  import opened Types
  import opened Text
  import Gorm
  import PgRepo
  import PgRoleRepo

  const MissingApplicationText := "role must be associated to an application, 'application_id' missing"
  const WhiteSpaceText := "white spaces not allowed in role name"
  const SaveFailedText := "could not create new role, try again later"

  /** The separators removed before the character check, in the order they are removed. */
  const AllowedSeparators: seq<char> := ['/', '_', '-']

  /** The name with every `/`, `_` and `-` removed. */
  function StripSeparators(name: string): (r: string)
    ensures forall c :: c in r <==> c in name && c !in AllowedSeparators
  {
    RemoveAll(RemoveAll(RemoveAll(name, '/'), '_'), '-')
  }

  /**
   * regexp.MatchString("[A-Za-z0-9]", s): the pattern is unanchored, so one
   * matching character anywhere suffices.
   */
  function MatchesAlnumClass(s: string): (r: bool)
    ensures r <==> exists c :: c in s && IsAsciiAlnum(c)
  {
    exists i :: 0 <= i < |s| && IsAsciiAlnum(s[i])
  }

  /**
   * The name checks of CreateRole. In plain words: no space character, and
   * at least one ASCII letter or digit anywhere; other characters are let
   * through.
   */
  function NameAccepted(name: string): (r: bool)
    ensures r <==> ' ' !in name && exists c :: c in name && IsAsciiAlnum(c)
  {
    var stripped := StripSeparators(name);
    assert (exists c :: c in stripped && IsAsciiAlnum(c)) <==> (exists c :: c in name && IsAsciiAlnum(c)) by {
      if exists c :: c in name && IsAsciiAlnum(c) {
        var c :| c in name && IsAsciiAlnum(c);
        assert c in stripped;
      }
    }
    ' ' !in name && MatchesAlnumClass(stripped)
  }

  /** One ASCII letter or digit in a name without spaces is enough. */
  lemma AcceptedByOneAlnum(name: string, i: nat)
    requires ' ' !in name
    requires i < |name| && IsAsciiAlnum(name[i])
    ensures NameAccepted(name)
  {
  }

  /** Characters outside the class are let through next to one letter. */
  lemma PunctuatedNameAccepted()
    ensures NameAccepted("a$b")
  {
    AcceptedByOneAlnum("a$b", 0);
  }

  /** The separators are let through too. */
  lemma SeparatedNameAccepted()
    ensures NameAccepted("admin/read")
  {
    AcceptedByOneAlnum("admin/read", 0);
  }

  /** Whitespace other than the space character is let through. */
  lemma TabAccepted()
    ensures NameAccepted("a\tb")
  {
    AcceptedByOneAlnum("a\tb", 0);
  }

  /** An empty name, a name of separators only, and a name with a space are refused. */
  lemma NamesRefused()
    ensures !NameAccepted("")
    ensures !NameAccepted("/_-")
    ensures !NameAccepted("a b")
  {
    assert forall c :: c in "/_-" ==> !IsAsciiAlnum(c);
    assert "a b"[1] == ' ';
  }

  /** The tag of a role: the application's external id, a slash, the role's name as given. */
  function DeriveTag(app: Application, name: string): (tag: string)
    ensures |tag| == |app.externalId| + 1 + |name|
    ensures tag[..|app.externalId|] == app.externalId
    ensures tag[|app.externalId|] == '/'
    ensures tag[|app.externalId| + 1..] == name
  {
    app.externalId + "/" + name
  }

  /** A call CreateRole makes on the repository. */
  datatype Call = GetApplication(id: UUID) | SaveRole(role: Role)

  /** The outcome of CreateRole and the repository calls it made, in order. */
  datatype Provision = Provision(result: Reply<UUID>, calls: seq<Call>)

  /**
   * CreateRole. Checks, in order: the application id is not nil; the
   * application lookup succeeds; the name has no space; after removing the
   * separators, the name still holds an ASCII letter or digit. Then the tag
   * is derived and the role saved; any save failure becomes one generic
   * error.
   */
  function CreateRole(getApplication: UUID -> Reply<Application>, saveRole: Role -> Reply<UUID>, role: Role)
    : (r: Provision)
    ensures r.result.err.Some? ==> r.result.value == Nil
    ensures |r.calls| <= 2
    ensures forall i :: 0 <= i < |r.calls| && r.calls[i].SaveRole? ==> i == 1
    ensures role.appId == Nil ==> r == Provision(Reply(Nil, Some(Msg(MissingApplicationText))), [])
    ensures role.appId != Nil ==> |r.calls| >= 1 && r.calls[0] == GetApplication(role.appId)
    ensures role.appId != Nil && getApplication(role.appId).err.Some? ==>
      r == Provision(Reply(Nil, Some(Msg(""))), [GetApplication(role.appId)])
    ensures role.appId != Nil && getApplication(role.appId).err.None? && ' ' in role.name ==>
      r == Provision(Reply(Nil, Some(Msg(WhiteSpaceText))), [GetApplication(role.appId)])
    ensures (role.appId != Nil && getApplication(role.appId).err.None? && ' ' !in role.name
             && !(exists c :: c in role.name && IsAsciiAlnum(c))) ==>
      r == Provision(Reply(Nil, Some(NotAllowedChar)), [GetApplication(role.appId)])
    ensures (exists i :: 0 <= i < |r.calls| && r.calls[i].SaveRole?) <==>
      role.appId != Nil && getApplication(role.appId).err.None? && NameAccepted(role.name)
    ensures |r.calls| == 2 ==>
      var app := getApplication(role.appId).value;
      && r.calls[1] == SaveRole(role.(tag := DeriveTag(app, role.name)))
      && r.result == (if saveRole(r.calls[1].role).err.Some?
                      then Reply(Nil, Some(Msg(SaveFailedText)))
                      else Reply(saveRole(r.calls[1].role).value, None))
    ensures r.result.err.None? <==>
      && role.appId != Nil && getApplication(role.appId).err.None? && NameAccepted(role.name)
      && saveRole(role.(tag := DeriveTag(getApplication(role.appId).value, role.name))).err.None?
  {
    if role.appId == Nil then
      Provision(Reply(Nil, Some(Msg(MissingApplicationText))), [])
    else
      var lookup := getApplication(role.appId);
      var calls := [GetApplication(role.appId)];
      if lookup.err.Some? then
        Provision(Reply(Nil, Some(Msg(""))), calls)
      else if ' ' in role.name then
        Provision(Reply(Nil, Some(Msg(WhiteSpaceText))), calls)
      else if !MatchesAlnumClass(StripSeparators(role.name)) then
        Provision(Reply(Nil, Some(NotAllowedChar)), calls)
      else
        var tagged := role.(tag := DeriveTag(lookup.value, role.name));
        var saved := saveRole(tagged);
        var result := if saved.err.Some? then Reply(Nil, Some(Msg(SaveFailedText))) else Reply(saved.value, None);
        var trace := calls + [SaveRole(tagged)];
        assert trace[1].SaveRole?;
        Provision(result, trace)
  }

  /**
   * CreateRole against the relational store: applications are looked up
   * through the older repository revision, roles saved through the role
   * repository under the generated id `newId`.
   */
  function CreateRoleInDatabase(db: Gorm.Database, role: Role, newId: UUID, fault: Option<string>)
    : (r: (Gorm.Database, Reply<UUID>))
    requires newId != Nil && newId !in db.roles
    ensures r.0.apps == db.apps
    ensures r.1.err.Some? ==> r.0 == db && r.1.value == Nil
    ensures r.1.err.None? ==>
      && r.1.value == newId && newId in r.0.roles
      && role.appId in db.apps
      && r.0.roles[newId].tag == DeriveTag(db.apps[role.appId], role.name)
      && Gorm.FitsNameColumn(role.name) && r.0.roles[newId].name == Gorm.StoredName(role.name)
      && r.0.roles[newId].appId == role.appId
    ensures r.1.err.None? ==>
      r.0.roles == db.roles[newId := role.(base := role.base.(id := newId),
                                           tag := DeriveTag(db.apps[role.appId], role.name),
                                           name := Gorm.StoredName(role.name))]
    ensures r.1.err.None? <==>
      && role.appId != Nil && role.appId in db.apps && Live(db.apps[role.appId].base)
      && NameAccepted(role.name) && fault.None? && Gorm.FitsNameColumn(role.name)
      && !Gorm.TagClash(db.roles, role.(base := role.base.(id := newId),
                                        tag := DeriveTag(db.apps[role.appId], role.name)))
    ensures Gorm.Valid(db) ==> Gorm.Valid(r.0)
  {
    var lookup := (id: UUID) => PgRepo.GetApplication(PgRepo.PgRepository(db), id, None);
    var save := (x: Role) => PgRoleRepo.Save(PgRoleRepo.PgRoleRepository(db), x, newId, fault).1;
    var p := CreateRole(lookup, save, role);
    if |p.calls| == 2 && p.result.err.None? then
      (PgRoleRepo.Save(PgRoleRepo.PgRoleRepository(db), p.calls[1].role, newId, fault).0.db, p.result)
    else
      (db, p.result)
  }

  /**
   * Provisioning the same role twice: the first call stores it under its
   * derived tag, the second is refused by the tag's unique constraint, which
   * the caller sees only as the generic failure, and the store is unchanged.
   */
  lemma SecondIdenticalRoleRefused(db: Gorm.Database, role: Role, id1: UUID, id2: UUID)
    requires Gorm.Valid(db)
    requires role.appId != Nil && role.appId in db.apps && Live(db.apps[role.appId].base)
    requires ' ' !in role.name && (exists c :: c in role.name && IsAsciiAlnum(c)) && |role.name| <= RoleNameMaxLength
    requires forall k :: k in db.roles ==> db.roles[k].tag != DeriveTag(db.apps[role.appId], role.name)
    requires id1 != Nil && id1 !in db.roles && id2 != Nil && id2 != id1 && id2 !in db.roles
    ensures var first := CreateRoleInDatabase(db, role, id1, None);
      && first.1 == Reply(id1, None)
      && first.0.roles[id1].tag == DeriveTag(db.apps[role.appId], role.name)
      && CreateRoleInDatabase(first.0, role, id2, None) == (first.0, Reply(Nil, Some(Msg(SaveFailedText))))
  {
    var tag := DeriveTag(db.apps[role.appId], role.name);
    var tagged := role.(tag := tag);
    var first := CreateRoleInDatabase(db, role, id1, None);
    assert !Gorm.TagClash(db.roles, tagged.(base := tagged.base.(id := id1)));
    assert first.0.roles[id1].tag == tag;
    assert Gorm.TagClash(first.0.roles, tagged.(base := tagged.base.(id := id2)));
  }
}
