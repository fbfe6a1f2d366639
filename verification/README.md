# authorizator — a Dafny model of its persistence and provisioning core

authorizator is a small access-control service. It stores *applications*
(tenants identified by a unique `external_id`) and *roles* that belong to
an application. Each role carries a `tag` of the form
`<external_id>/<role name>` and a list of permission entries: a path, plus
a map from HTTP method to allowed. This project models the part of the
service that decides what is stored and what is reported back:

- **Role provisioning** (`usecase/role.go`), module `RoleUsecase`. It covers
  the order of the checks, the name-acceptance rule, tag derivation, and how
  save failures are collapsed into one error. The repository calls are
  parameters, and each call made is recorded in a trace.
- **The Postgres adapters** (`repository/pgAppRepository.go`,
  `repository/pgRepository.go`, `repository/pgRoleRepository.go`), modules
  `PgAppRepo`, `PgRepo` and `PgRoleRepo`. They run over `Gorm`, an abstract
  relational store. The store has a table of applications and a table of
  roles, keyed by id. It enforces:
  - the schema's unique constraints on `external_id` and on `tag`;
  - the `varchar(25)` bound on role names: excess characters that are all
    spaces are cut off, anything else is refused;
  - the role → application foreign key;
  - soft deletion through `deleted_at`.
- **The MongoDB adapter** (`repository/mongoRepository.go`), module
  `MongoRepo`. It includes the BSON UUID codec (module `BsonCodec`, binary
  subtype 0x04 as in the BSON 1.1 specification) and the unique index on
  `external_id`.
- **Error classification** shared by the adapters (`checkIfIsDuplicated`),
  module `Repository`. It is built on a substring model (module `Text`).
- **The permission service** (`services/permissions.go`), module
  `Permissions`.
- **The entity types and their hooks** (`types/base.go`, `types/role.go`),
  module `Types`. These are `BeforeCreate`, `GormDBDataType` and
  `Permission.Scan`.

Go's `(value, error)` pairs are modelled as `Errors.Reply`. A database is an
immutable value, so an operation that writes returns the new store next to
its reply. Three things outside the code become parameters:

- the text of a driver failure is `fault: Option<string>`;
- the id `uuid.New` would generate is `newId`, required to be non-nil and
  unused;
- `time.Now` is `now`.

The repositories seen by the use case and by the service are function
parameters.

Three behaviours of the code are worth stating plainly:

- A role name that is empty, or made only of `/`, `_` and `-`, is
  **rejected**. The unanchored pattern `[A-Za-z0-9]` needs at least one
  matching character, so such a name is not accepted vacuously.
- Any failure while saving a role, a duplicate tag included, reaches the
  caller of `CreateRole` as the single error "could not create new role,
  try again later". It is not reported as a duplicate.
- `GetAppWithRoles` drops the error of the application lookup. It reports
  only the error of the role listing (see Findings).

## Model

| member | source | states |
|---|---|---|
| Text.Contains | repository/pgAppRepository.go:99 | `strings.Contains` answers true exactly when the pattern occurs at some position of the text |
| Text.RemoveAll | usecase/role.go:40-42 | `strings.ReplaceAll(s, c, "")` keeps every other character with its multiplicity and drops every occurrence of `c` |
| Uuid.FromBytes | repository/mongoRepository.go:227-230 | `uuid.FromBytes` accepts exactly a 16-byte slice and gives those bytes as the UUID; any other length is refused with that length |
| Repository.CheckIfIsDuplicated | repository/pgAppRepository.go:98-100 | an error text is classified as a duplicate exactly when "duplicate" occurs in it |
| Repository.CheckIsCaseSensitive | repository/pgRepository.go:127-129 | the test is case-sensitive: "Duplicate" is not recognised, "duplicate" is |
| Types.BeforeCreate | types/base.go:20-26 | the create hook replaces the id with the freshly generated one whatever the caller supplied, leaves every other field as it was, and never fails |
| Types.GormDBDataType | types/role.go:40-52 | mysql and sqlite get `json`, postgres gets `jsonb`, and exactly the other dialects get the empty type |
| Types.Scan | types/role.go:32-38 | any driver value that is not a byte slice fails with the type-assertion error and leaves the permission unchanged; a byte slice is handed to the JSON decoder |
| Gorm.CreateApplication | types/application.go:6-10 | an insert runs the id hook, then succeeds exactly when there is no driver fault and no other row holds the external id; success adds the row under the new id; the schema invariant is preserved |
| Gorm.SaveApplication | repository/pgAppRepository.go:91-93 | a full-row save with a non-nil id writes the row under its id unless the external id is held by another row; the invariant is preserved |
| Gorm.FirstApplication | repository/pgAppRepository.go:55-62 | a lookup by id finds the row exactly when it exists and is not soft-deleted; otherwise it reports record-not-found |
| Gorm.FindApplications | repository/pgAppRepository.go:36-45 | the listing holds exactly the live applications, each id once when the invariant holds |
| Gorm.FitsNameColumn | types/role.go:14 | a name fits the `varchar(25)` column exactly when it has at most 25 characters or every character beyond the 25th is a space |
| Gorm.StoredName | types/role.go:14 | the name a `varchar(25)` column keeps: the first 25 characters, the rest being spaces; a name within the width is kept whole |
| Gorm.CreateRole | types/role.go:12-20 | a role insert is refused by a name whose characters beyond the 25th are not all spaces, then by the tag's uniqueness, then by the foreign key, in that order, and succeeds exactly when none applies, storing the name cut to 25 characters; the invariant (unique tags, names of at most 25 characters, owner present) is preserved |
| Gorm.FirstRole | repository/pgRoleRepository.go:50-56 | a lookup by id finds a role exactly when it exists and is not soft-deleted |
| Gorm.UniqueViolationSaysDuplicate | repository/pgAppRepository.go:72-78 | the unique-violation text contains "duplicate", so it is classified as a duplicate |
| Gorm.ValueTooLongDoesNotSayDuplicate | repository/pgRoleRepository.go:36-44 | the value-too-long text does not contain "duplicate" |
| Gorm.ForeignKeyViolationDoesNotSayDuplicate | repository/pgRoleRepository.go:36-44 | the foreign-key text does not contain "duplicate" |
| PgAppRepo.NewPgAppRepository | repository/pgAppRepository.go:20-29 | a missing database handle is refused with "no database received"; a present one is wrapped |
| PgAppRepo.GetAll | repository/pgAppRepository.go:36-45 | every live application and nothing else, each once, whatever `useCache` is; a driver fault is passed through |
| PgAppRepo.GetAllFromCache | repository/pgAppRepository.go:47-51 | answers an empty list and no error, whatever the store holds |
| PgAppRepo.Get | repository/pgAppRepository.go:53-62 | succeeds exactly for a live application with that id and returns that record; otherwise record-not-found (or the fault) and the zero application |
| PgAppRepo.GetFromCache | repository/pgAppRepository.go:63-65 | answers the zero application and no error, whatever the id |
| PgAppRepo.Save | repository/pgAppRepository.go:67-81 | failure gives ErrAppDuplicated exactly when the error text contains "duplicate", else ErrDefaultInsertApp, always with the nil id and the store unchanged; success returns the hook's id and adds the record |
| PgAppRepo.Update | repository/pgAppRepository.go:83-94 | a nil id is refused with ErrIdToUpdateNill before the store is touched; otherwise it succeeds exactly when there is no driver fault and no other row holds the external id, writing the whole record under its id; a fault is passed through as is, a clash gives the unique-violation error, and the roles table is left as it was |
| PgAppRepo.SaveThenGet | repository/pgAppRepository.go:55-81 | a record saved live is found by Get under the returned id |
| PgAppRepo.SecondExternalIdRefused | repository/pgAppRepository.go:70-76 | saving a second application with a stored external id fails with ErrAppDuplicated and changes nothing |
| PgRepo.GetApplications | repository/pgRepository.go:65-74 | every live application and nothing else, whatever `useCache` is |
| PgRepo.GetApplicationsFromCache | repository/pgRepository.go:76-80 | answers an empty list and no error |
| PgRepo.GetApplication | repository/pgRepository.go:82-91 | succeeds exactly for a live application with that id; never returns a deleted one |
| PgRepo.GetApplicationFromCache | repository/pgRepository.go:92-94 | answers the zero application and no error |
| PgRepo.SaveApplication | repository/pgRepository.go:96-110 | "duplicate" in the error text gives ErrAppDuplicated, any other failure ErrDefaultInsertApp, both with the nil id; success returns the assigned id |
| PgRepo.UpdateApplication | repository/pgRepository.go:112-123 | a nil id is refused with ErrIdToUpdateNill before any store call; otherwise it succeeds exactly when there is no driver fault and no other row holds the external id, writing the whole record under its id; a fault is passed through as is, a clash gives the unique-violation error, and the roles table is left as it was |
| PgRoleRepo.NewPgRoleRepository | repository/pgRoleRepository.go:16-26 | a missing database handle is refused; a present one is wrapped |
| PgRoleRepo.Save | repository/pgRoleRepository.go:33-47 | a failure gives ErrRoleDuplicated exactly when its text contains "duplicate" (a clashing tag), else ErrDefaultInsertRole (a name with non-space characters beyond the 25th, a missing application), with the nil id; success returns the assigned id and stores the role as given, its name cut to the column width |
| PgRoleRepo.TrailingSpacesCut | repository/pgRoleRepository.go:34-47 | a 26-character name whose last character is a space is stored as its first 25 characters, not refused |
| PgRoleRepo.SaveThenGet | repository/pgRoleRepository.go:34-56 | a role saved live is found by Get under the returned id |
| PgRoleRepo.SaveDoesNotValidate | repository/pgRoleRepository.go:34-47 | the repository itself checks neither the tag's form nor the name: an empty name with an arbitrary tag is stored |
| PgRoleRepo.Get | repository/pgRoleRepository.go:49-56 | succeeds exactly for a live role with that id and returns it; otherwise the zero role |
| PgRoleRepo.GetApp | repository/pgRoleRepository.go:58-65 | gives exactly the answer of the application repository's Get on the same store |
| BsonCodec.EncodeValue | repository/mongoRepository.go:194-200 | only a valid UUID value is encoded, as a binary of subtype 0x04 carrying its 16 bytes unchanged; anything else is an encoder error |
| BsonCodec.DecodeValue | repository/mongoRepository.go:202-233 | decoding succeeds exactly for a settable UUID target and a subtype-0x04 binary of 16 bytes; another subtype, another BSON type, and null or undefined (empty payload) each fail with their own error |
| BsonCodec.RoundTrip | repository/mongoRepository.go:194-233 | decoding the encoding of any UUID gives it back |
| BsonCodec.DecodeOnlyFromEncoding | repository/mongoRepository.go:202-233 | a BSON value decodes to `u` exactly when it is the encoding of `u` |
| BsonCodec.EncodingInjective | repository/mongoRepository.go:194-200 | distinct UUIDs are written as distinct values |
| MongoRepo.FromDocument | repository/mongoRepository.go:137-139 | a stored document decodes exactly when its `_id` decodes as a UUID, and the id read back encodes to that `_id` |
| MongoRepo.DocumentRoundTrip | repository/mongoRepository.go:137-164 | a written document reads back as the application written |
| MongoRepo.CreateIndexes | repository/mongoRepository.go:96-113 | the unique index on `external_id` exists afterwards exactly when it existed before or could be built (no fault, no duplicates present); a failed build only leaves the collection unindexed; the documents never change |
| MongoRepo.CreateIndexesIdempotent | repository/mongoRepository.go:96-113 | building the index a second time changes nothing, for any collection |
| MongoRepo.GetApplications | repository/mongoRepository.go:115-119 | this revision answers an empty list and no error |
| MongoRepo.GetApplicationsFromCache | repository/mongoRepository.go:121-125 | answers an empty list and no error |
| MongoRepo.GetApplicationFromCache | repository/mongoRepository.go:150-152 | answers the zero application and no error |
| MongoRepo.GetApplication | repository/mongoRepository.go:127-148 | succeeds exactly when a document with that `_id` and `active` set exists, returning it with that id; every failure, not only a missing document, is ErrNoRecordsFound |
| MongoRepo.InsertedId | repository/mongoRepository.go:178-191 | the inserted id is read exactly from a binary of 16 bytes; anything else is "could not get inserted ID" |
| MongoRepo.InsertError | repository/mongoRepository.go:166-176 | an insert failure is "application already exists" exactly when its text contains "duplicate", else the generic insert error |
| MongoRepo.SaveApplication | repository/mongoRepository.go:154-192 | the stored document has creation time `now`, an update time equal to it, `active` set and the new id, whatever the caller gave; a duplicate external id under the index fails with "application already exists"; an `InsertOne` failure returns the nil id and leaves the collection unchanged |
| MongoRepo.SaveThenGet | repository/mongoRepository.go:129-192 | a saved application is found by GetApplication under the returned id, with the stamps applied |
| MongoRepo.SecondExternalIdRefused | repository/mongoRepository.go:96-176 | once the index exists, a second application with the same external id is refused |
| RoleUsecase.StripSeparators | usecase/role.go:40-42 | removing the separators keeps exactly the characters of the name other than `/`, `_` and `-` |
| RoleUsecase.MatchesAlnumClass | usecase/role.go:44-48 | the unanchored pattern `[A-Za-z0-9]` matches a text exactly when some character of it is an ASCII letter or digit |
| RoleUsecase.NameAccepted | usecase/role.go:37-48 | a name passes the checks exactly when it has no space character and holds at least one ASCII letter or digit; other characters are let through |
| RoleUsecase.AcceptedByOneAlnum | usecase/role.go:44-48 | one ASCII letter or digit in a name without spaces is enough |
| RoleUsecase.PunctuatedNameAccepted | usecase/role.go:44-48 | other punctuation next to a letter is accepted ("a$b") |
| RoleUsecase.SeparatedNameAccepted | usecase/role.go:40-48 | separators next to letters are accepted ("admin/read") |
| RoleUsecase.TabAccepted | usecase/role.go:37-39 | only U+0020 counts as a space; a tab is accepted |
| RoleUsecase.NamesRefused | usecase/role.go:37-48 | the empty name and the all-separator name are refused, and so is a name with a space |
| RoleUsecase.DeriveTag | usecase/role.go:50 | the tag is the external id, a slash, then the name as given |
| RoleUsecase.CreateRole | usecase/role.go:18-60 | check precedence: nil application id, then failed lookup, then a space, then no letter or digit. Neither repository call is made for a nil id, and the save is made at most once, after the lookup, only when every check passes, with the tag re-derived from the original name. Every save failure becomes one generic error; every error returns the nil id; success returns the save's id |
| RoleUsecase.CreateRoleInDatabase | usecase/role.go:18-60 | provisioning over the relational store changes no application; it succeeds exactly when the application id is non-nil and names a live application, the name is accepted and fits the column, there is no driver fault and no other role holds the derived tag; on success exactly one role is added, under the returned id: the caller's role with that id, the derived tag and the name cut to the column width, every other role kept; the schema invariant is preserved |
| RoleUsecase.SecondIdenticalRoleRefused | usecase/role.go:50-57 | provisioning the same role twice stores it once; the second attempt fails with the generic error and changes nothing |
| Permissions.NewPermissionService | services/permissions.go:19-38 | a missing application repository gives ErrAppRepositoryNil with nothing set; a missing role repository gives ErrRoleRepositoryNil with the application repository already set; no error exactly when both are present |
| Permissions.GetApp | services/permissions.go:51-60 | never reports an error, and passes through whatever the lookup returned |
| Permissions.GetAppWithRoles | services/permissions.go:40-49 | the roles are listed for the id of the application GetApp returned, not the requested id, and the listing's error is the only error reported |
| Permissions.LookupErrorSwallowed | services/permissions.go:40-60 | two lookups returning the same record give the same answer, whatever errors they report |
| Permissions.MissingAppListsNilRoles | services/permissions.go:40-60 | over the Postgres repository, a missing application is reported as the zero application with the roles of the nil id and no error |
| Permissions.GetAppChecked | services/permissions.go:51-60 | the corrected lookup reports the repository's error |
| Permissions.GetAppWithRolesChecked | services/permissions.go:40-60 | the corrected aggregation reports a failed lookup and lists nothing; otherwise it agrees with GetAppWithRoles |
| Permissions.CheckedListsRequestedApp | services/permissions.go:40-60 | over the Postgres repository, the corrected aggregation succeeds only for a live application, lists the roles of the requested id, and reports record-not-found for a missing one |

## Left out

- HTTP handlers, routes, process start-up, and the DSN and connection code
  (`controllers/`, `routes/`, `cmd/`, `infrastructure/db/postgress.go`,
  `NewPgRepository`, `NewMongoRepository`, `CloseConn`). They are transport
  and lifecycle glue.
- `MigrateTable`/`MigrateTables`. Schema creation is taken as done: the
  relational store's invariant is the schema.
- Logging calls. They have no effect on results.
- The JSON decoding inside `Permission.Scan`. It is a parameter; only the
  byte-slice guard is modelled.
- gorm's `autoCreateTime`/`autoUpdateTime` stamping on the relational side.
  The timestamps pass through as the caller gave them.
- The actual `uuid.New`, `time.Now` and driver internals. They are
  parameters, as described above.
- The mapping of the Go structs to BSON documents. The model assumes the
  filters' intent: the id is stored as `_id`, and `external_id` and `active`
  are top-level fields. How the driver would lay out the embedded `Base` is
  not modelled.
- MongoRepo.SaveApplication: the "could not get inserted ID" failures
  (repository/mongoRepository.go:178-190) cannot arise in the model. They
  would come after `InsertOne` had already stored the document, so the
  caller would get the nil id and an error while the record exists. With
  the `_id` layout assumed above, the inserted id is always a 16-byte
  subtype-0x04 binary, so that path is not modelled.
- `ReadBinary`, `ReadNull` and `ReadUndefined` errors on malformed wire
  input. Only well-formed BSON values are modelled.
- `Float64Value` holds a `real`. Floating point is not modelled, and only
  the value's kind matters to `Scan`.
- The `App` association field of `Role`. It is only the carrier of the
  foreign key, which is `appId`.
- The `Roles` field of `Application` and the `Active` field the Mongo
  adapter sets. The Go `Application` type shown declares neither.
  `Permissions.AppWithRoles` stands for the former, and `Application.active`
  for the latter.
- `repository.Repository` lacks the `SaveRole` that `CreateRole` calls.
  The use case therefore takes the two calls it makes as parameters, and
  `RoleUsecase.CreateRoleInDatabase` wires them to the relational adapters.
- The role-listing repository `GetAppRoles` is not part of this model. It
  is a parameter of the permission service.
- Message texts of the `Errors.Error` constants other than those compared
  in the model. The constants are distinct constructors.
- PgAppRepo.GetAll, PgRepo.GetApplications: the order of the rows is not
  stated, because the query has no ORDER BY.
- Permissions.GetApp, Permissions.GetAppWithRoles: they require the
  repositories to be present. Calling through a nil interface panics in
  Go, and a panic is not modelled.

## Findings

| source | as written | input that shows it | evidently intended | confidence | as-written member | corrected member |
|---|---|---|---|---|---|---|
| services/permissions.go:51-60 | the lookup error is discarded (`if err != nil {}`), so GetApp reports success, and GetAppWithRoles lists the roles of whatever record came back | an application id absent from the Postgres store: the zero application is returned with the roles listed for the nil id and no error | a failed lookup is reported and no roles are listed | not executed | Permissions.MissingAppListsNilRoles | Permissions.CheckedListsRequestedApp |
