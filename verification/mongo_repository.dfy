/**
 * The MongoDB application repository (repository/mongoRepository.go). The
 * `applications` collection is a map from the BSON `_id` value to the rest
 * of the document; identifiers go through the UUID codec both when a
 * document is written and when a filter is built.
 */
module MongoRepo {
  import opened Results
  import opened Uuid
  import opened Errors
  import opened Types
  import opened Text
  import opened BsonCodec

  /** The stored fields of an application besides `_id`. */
  datatype AppDocument = AppDocument(
    createdAt: Time,
    updatedAt: Time,
    deletedAt: Option<Time>,
    name: string,
    externalId: string,
    active: bool)

  /**
   * The `applications` collection, and whether the unique index on
   * `external_id` has been created.
   */
  datatype MongoRepository = MongoRepository(applications: map<BsonValue, AppDocument>, externalIdIndexed: bool)

  /** Driver text of a unique-index violation, in short pieces so that the verifier sees its characters. */
  const DuplicateKeyError := "E11000 " + "duplicate" + " key error collection: applications index: external_id_1"

  const AppExistsText := "application already exists, try another `external_id`"
  const InsertFailedText := "error while trying to create an application, try again later"
  const InsertedIdText := "could not get inserted ID"

  /** Every `_id` was written by the codec, and the unique index, once built, holds. */
  ghost predicate Valid(repo: MongoRepository) {
    && (forall k :: k in repo.applications ==> DecodeValue(SettableUuid, k).Success?)
    && (repo.externalIdIndexed ==> !HasDuplicateExternalIds(repo.applications))
  }

  predicate ExternalIdTaken(docs: map<BsonValue, AppDocument>, externalId: string) {
    exists k :: k in docs && docs[k].externalId == externalId
  }

  predicate HasDuplicateExternalIds(docs: map<BsonValue, AppDocument>) {
    exists a, b :: a in docs && b in docs && a != b && docs[a].externalId == docs[b].externalId
  }

  /** The document written for an application, and its `_id`. */
  function ToDocument(app: Application): (BsonValue, AppDocument) {
    (EncodeUuid(app.base.id),
     AppDocument(app.base.createdAt, app.base.updatedAt, app.base.deletedAt, app.name, app.externalId, app.active))
  }

  /** Decoding a stored document: fails exactly when its `_id` does not decode as a UUID. */
  function FromDocument(id: BsonValue, doc: AppDocument): (r: Result<Application, CodecError>)
    ensures r.Success? <==> DecodeValue(SettableUuid, id).Success?
    ensures r.Success? ==> EncodeUuid(r.value.base.id) == id
  {
    match DecodeValue(SettableUuid, id)
    case Failure(e) => Failure(e)
    case Success(u) =>
      Success(Application(Base(u, doc.createdAt, doc.updatedAt, doc.deletedAt), doc.name, doc.externalId, doc.active))
  }

  /** Reading back a written document gives the application that was written. */
  lemma DocumentRoundTrip(app: Application)
    ensures FromDocument(ToDocument(app).0, ToDocument(app).1) == Success(app)
  {
    RoundTrip(app.base.id);
  }

  /**
   * CreateIndexes: builds the unique index on `external_id`. When the build
   * fails (a driver fault, or documents that already share an external id)
   * the failure is only logged and the collection stays unindexed.
   */
  function CreateIndexes(repo: MongoRepository, fault: Option<string>): (r: MongoRepository)
    ensures r.applications == repo.applications
    ensures r.externalIdIndexed <==>
      repo.externalIdIndexed || (fault.None? && !HasDuplicateExternalIds(repo.applications))
    ensures r.externalIdIndexed ==> !HasDuplicateExternalIds(r.applications) || repo.externalIdIndexed
    ensures Valid(repo) ==> Valid(r)
  {
    if fault.Some? || HasDuplicateExternalIds(repo.applications) then repo
    else repo.(externalIdIndexed := true)
  }

  /** Building the index again changes nothing. */
  lemma CreateIndexesIdempotent(repo: MongoRepository, fault: Option<string>)
    ensures CreateIndexes(CreateIndexes(repo, None), fault) == CreateIndexes(repo, None)
  {
  }

  /** GetApplications: this revision answers an empty list and no error. */
  function GetApplications(repo: MongoRepository, useCache: bool): (r: Reply<seq<Application>>)
    ensures r.value == [] && r.err.None?
  {
    Reply([], None)
  }

  /** GetApplicationsFromCache: a stub answering an empty list and no error. */
  function GetApplicationsFromCache(repo: MongoRepository): (r: Reply<seq<Application>>)
    ensures r.value == [] && r.err.None?
  {
    Reply([], None)
  }

  /** GetApplicationFromCache: a stub answering the zero application and no error. */
  function GetApplicationFromCache(repo: MongoRepository, id: UUID): (r: Reply<Application>)
    ensures r.value == ZeroApplication && r.err.None?
  {
    Reply(ZeroApplication, None)
  }

  /**
   * GetApplication: the document matching `{_id: id, active: true}`. A
   * missing document, an inactive one, a read fault and a decode failure all
   * give ErrNoRecordsFound.
   */
  function GetApplication(repo: MongoRepository, id: UUID, fault: Option<string>): (r: Reply<Application>)
    ensures r.err.Some? ==> r.err == Some(NoRecordsFound) && r.value == ZeroApplication
    ensures r.err.None? ==>
      && EncodeUuid(id) in repo.applications
      && repo.applications[EncodeUuid(id)].active
      && ToDocument(r.value) == (EncodeUuid(id), repo.applications[EncodeUuid(id)])
    ensures r.err.None? ==> r.value.base.id == id && r.value.active
    ensures fault.None? ==>
      (r.err.None? <==> EncodeUuid(id) in repo.applications && repo.applications[EncodeUuid(id)].active)
    ensures fault.Some? ==> r.err.Some?
  {
    var filter := EncodeUuid(id);
    if fault.Some? || filter !in repo.applications || !repo.applications[filter].active then
      Reply(ZeroApplication, Some(NoRecordsFound))
    else
      match FromDocument(filter, repo.applications[filter])
      case Success(app) => Reply(app, None)
      case Failure(_) => Reply(ZeroApplication, Some(NoRecordsFound))
  }

  /**
   * Reading `result.InsertedID`: a binary value whose payload uuid.FromBytes
   * accepts (its subtype is not looked at); anything else is an error.
   */
  function InsertedId(v: BsonValue): (r: Reply<UUID>)
    ensures r.err.None? <==> v.Binary? && |v.data| == 16
    ensures r.err.None? ==> r.value == v.data
    ensures r.err.Some? ==> r == Reply(Nil, Some(Msg(InsertedIdText)))
  {
    match v
    case Binary(_, data) =>
      (match FromBytes(data)
       case Success(u) => Reply(u, None)
       case Failure(_) => Reply(Nil, Some(Msg(InsertedIdText))))
    case _ => Reply(Nil, Some(Msg(InsertedIdText)))
  }

  /** The error returned for a failed insert, chosen by the driver's error text. */
  function InsertError(text: string): (e: Error)
    ensures e == Msg(AppExistsText) <==> Occurs("duplicate", text)
    ensures e == Msg(AppExistsText) || e == Msg(InsertFailedText)
  {
    if Contains(text, "duplicate") then Msg(AppExistsText) else Msg(InsertFailedText)
  }

  /**
   * SaveApplication: stamps the application (creation time `now`, update
   * time equal to it, active, identifier `newId`), whatever the caller put
   * there, and inserts it. A failed insert returns uuid.Nil and leaves the
   * collection as it was.
   */
  function SaveApplication(repo: MongoRepository, app: Application, newId: UUID, now: Time, fault: Option<string>)
    : (r: (MongoRepository, Reply<UUID>))
    requires newId != Nil && EncodeUuid(newId) !in repo.applications
    ensures r.1.err.Some? ==> r.1.value == Nil && r.0 == repo
    ensures fault.Some? ==> r.1.err == Some(InsertError(fault.value))
    ensures fault.None? && repo.externalIdIndexed && ExternalIdTaken(repo.applications, app.externalId)
      ==> r.1.err == Some(Msg(AppExistsText))
    ensures r.1.err.None? <==>
      fault.None? && !(repo.externalIdIndexed && ExternalIdTaken(repo.applications, app.externalId))
    ensures r.1.err.None? ==>
      && r.1.value == newId
      && r.0.externalIdIndexed == repo.externalIdIndexed
      && r.0.applications.Keys == repo.applications.Keys + {EncodeUuid(newId)}
      && (forall k :: k in repo.applications ==> r.0.applications[k] == repo.applications[k])
    ensures r.1.err.None? ==>
      var doc := r.0.applications[EncodeUuid(newId)];
      && doc.active && doc.createdAt == now && doc.updatedAt == doc.createdAt
      && doc.name == app.name && doc.externalId == app.externalId && doc.deletedAt == app.base.deletedAt
    ensures Valid(repo) ==> Valid(r.0)
  {
    var stored := app.(base := app.base.(createdAt := now, updatedAt := now, id := newId), active := true);
    var (id, doc) := ToDocument(stored);
    if fault.Some? then
      (repo, Reply(Nil, Some(InsertError(fault.value))))
    else if repo.externalIdIndexed && ExternalIdTaken(repo.applications, stored.externalId) then
      OccursInside("E11000 ", "duplicate", " key error collection: applications index: external_id_1");
      (repo, Reply(Nil, Some(InsertError(DuplicateKeyError))))
    else
      var inserted := InsertedId(id);
      (repo.(applications := repo.applications[id := doc]), inserted)
  }

  /** After a successful save, the application is found under the returned id, as stamped. */
  lemma SaveThenGet(repo: MongoRepository, app: Application, newId: UUID, now: Time)
    requires newId != Nil && EncodeUuid(newId) !in repo.applications
    requires SaveApplication(repo, app, newId, now, None).1.err.None?
    ensures var (repo', reply) := SaveApplication(repo, app, newId, now, None);
      GetApplication(repo', reply.value, None)
        == Reply(app.(base := Base(newId, now, now, app.base.deletedAt), active := true), None)
  {
    var (repo', reply) := SaveApplication(repo, app, newId, now, None);
    var expected := app.(base := Base(newId, now, now, app.base.deletedAt), active := true);
    DocumentRoundTrip(expected);
  }

  /** Once the index exists, a second application with the same external id is refused. */
  lemma SecondExternalIdRefused(repo: MongoRepository, first: Application, second: Application,
                                id1: UUID, id2: UUID, t1: Time, t2: Time)
    requires repo.externalIdIndexed
    requires id1 != Nil && id2 != Nil && id1 != id2
    requires EncodeUuid(id1) !in repo.applications && EncodeUuid(id2) !in repo.applications
    requires first.externalId == second.externalId
    requires SaveApplication(repo, first, id1, t1, None).1.err.None?
    ensures var repo' := SaveApplication(repo, first, id1, t1, None).0;
      SaveApplication(repo', second, id2, t2, None) == (repo', Reply(Nil, Some(Msg(AppExistsText))))
  {
    var repo' := SaveApplication(repo, first, id1, t1, None).0;
    assert repo'.applications[EncodeUuid(id1)].externalId == second.externalId;
  }
}
