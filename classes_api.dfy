/** The `/api/classes` route (src/pages/api/classes.ts): turning a stored class
    record into its JSON reply, checking the `class_id` query parameter, and
    the method switch. The class store is a parameter: a lookup, and whether
    the create, update or delete call succeeded. */
module ClassesApi {
  import opened Text
  import opened Http

  /** A stored class. Its id sets are JavaScript `Set`s, which may be missing;
      a `Set` is kept as the list of its entries in insertion order. */
  datatype ClassRecord = ClassRecord(
    classId: string, teacherIds: Option<seq<string>>, studentIds: Option<seq<string>>,
    capacity: int, availableModules: Option<seq<string>>)

  /** The JSON body of a class reply. */
  datatype ClassJson = ClassJson(
    classId: string, capacity: int, teacherIds: seq<string>, studentIds: seq<string>,
    availableModules: seq<string>)

  /** `s && s.size ? Array.from(s) : []`. */
  function SetToList(s: Option<seq<string>>): (r: seq<string>)
    ensures forall x :: x in r <==> s.Some? && x in s.value
    ensures s.None? ==> r == []
  {
    if s.Some? && |s.value| > 0 then s.value else []
  }

  /** The size test is redundant: a present set, empty or not, gives its own entries. */
  lemma SetToListOfPresent(s: seq<string>)
    ensures SetToList(Some(s)) == s
  {
  }

  /** `dbToJSON`: id and capacity are copied, each optional set becomes a list
      with exactly its entries. */
  function DbToJson(d: ClassRecord): (r: ClassJson)
    ensures r.classId == d.classId && r.capacity == d.capacity
    ensures forall x :: x in r.teacherIds <==> d.teacherIds.Some? && x in d.teacherIds.value
    ensures forall x :: x in r.studentIds <==> d.studentIds.Some? && x in d.studentIds.value
    ensures forall x :: x in r.availableModules <==> d.availableModules.Some? && x in d.availableModules.value
  {
    ClassJson(d.classId, d.capacity, SetToList(d.teacherIds), SetToList(d.studentIds),
              SetToList(d.availableModules))
  }

  /** A record whose sets are all present (possibly empty) is rebuilt exactly from its JSON. */
  lemma DbToJsonRoundTrip(d: ClassRecord)
    requires d.teacherIds.Some? && d.studentIds.Some? && d.availableModules.Some?
    ensures var j := DbToJson(d);
            ClassRecord(j.classId, Some(j.teacherIds), Some(j.studentIds), j.capacity, Some(j.availableModules)) == d
  {
  }

  datatype ClassIdError = Required | OnlyOne

  datatype ClassIdCheck = Valid(id: string) | Invalid(error: ClassIdError)

  /** The two guards on `class_id`: present and non-empty, and not repeated. */
  function CheckClassId(p: QueryParam): (r: ClassIdCheck)
    ensures r.Valid? <==> p.Single? && p.value != ""
    ensures r.Valid? ==> r.id == p.value
    ensures r == Invalid(OnlyOne) <==> p.Multi?
  {
    if Falsy(p) then Invalid(Required)
    else if p.Multi? then Invalid(OnlyOne)
    else Valid(p.value)
  }

  function ClassIdMessage(e: ClassIdError): string
  {
    match e
    case Required => "Class ID is required"
    case OnlyOne => "Only one class ID"
  }

  /** What `getClass` gave. */
  datatype Lookup = Found(record: ClassRecord) | NotFound | LookupFailed

  datatype Body = Json(json: ClassJson) | Plain(text: string) | NoBody

  /** The status and body sent, and the class id the store was called with, if any. */
  datatype Reply = Reply(status: int, body: Body, storeCall: Option<string>)

  /** `handleGet`. */
  function HandleGet(classId: QueryParam, getClass: string -> Lookup): (r: Reply)
    ensures CheckClassId(classId).Invalid? ==> r.status == 500 && r.storeCall.None?
    ensures CheckClassId(classId).Valid? ==> r.storeCall == Some(classId.value)
    ensures r.status == 200 <==> CheckClassId(classId).Valid? && getClass(classId.value).Found?
    ensures r.status == 404 <==> CheckClassId(classId).Valid? && getClass(classId.value).NotFound?
    ensures r.status == 200 ==> r.body == Json(DbToJson(getClass(classId.value).record))
  {
    match CheckClassId(classId)
    case Invalid(e) => Reply(500, Plain(ClassIdMessage(e)), None)
    case Valid(id) =>
      match getClass(id)
      case Found(d) => Reply(200, Json(DbToJson(d)), Some(id))
      case NotFound => Reply(404, Plain("Class not found"), Some(id))
      case LookupFailed => Reply(500, NoBody, Some(id))
  }

  /** `handleDelete`: the same `class_id` guards, then the delete call. */
  function HandleDelete(classId: QueryParam, deleteOk: bool): (r: Reply)
    ensures CheckClassId(classId).Invalid? ==> r.status == 500 && r.storeCall.None?
    ensures CheckClassId(classId).Valid? ==> r.storeCall == Some(classId.value)
    ensures r.status == 204 <==> CheckClassId(classId).Valid? && deleteOk
  {
    match CheckClassId(classId)
    case Invalid(e) => Reply(500, Plain(ClassIdMessage(e)), None)
    case Valid(id) => if deleteOk then Reply(204, NoBody, Some(id)) else Reply(500, NoBody, Some(id))
  }

  /** GET and DELETE apply one and the same check and never reach the store with an invalid id. */
  lemma GetAndDeleteShareGuard(classId: QueryParam, getClass: string -> Lookup, deleteOk: bool)
    ensures HandleGet(classId, getClass).storeCall == HandleDelete(classId, deleteOk).storeCall
    ensures HandleGet(classId, getClass).storeCall.Some? <==> classId.Single? && classId.value != ""
  {
  }

  /** The admin check is configured off. */
  const RequireAdminCheck := false

  /** The store's answers to the calls a request may make. */
  datatype Store = Store(getClass: string -> Lookup, createOk: bool, update: Option<ClassRecord>, deleteOk: bool)

  /** `handler`: with the admin check off, the method alone picks the branch;
      `postBodyOk` and `putBodyOk` say whether the body parsed. */
  function Handle(verb: Option<string>, classId: QueryParam, postBodyOk: bool, putBodyOk: bool,
                  adminOk: bool, store: Store): (r: Option<Reply>)
    ensures r.Some?
    ensures RouteOf(verb) == Unsupported ==> r.value.status == 500 && r.value.storeCall.None?
    ensures RouteOf(verb) == Get ==> r.value == HandleGet(classId, store.getClass)
    ensures RouteOf(verb) == Delete ==> r.value == HandleDelete(classId, store.deleteOk)
    ensures RouteOf(verb) == Post ==>
              r.value.status in {200, 500} && r.value.storeCall.None?
              && (r.value.status == 200 <==> postBodyOk && store.createOk)
              && (r.value.status == 200 ==> r.value.body == Plain("success"))
    ensures RouteOf(verb) == Put ==>
              r.value.status in {200, 500} && r.value.storeCall.None?
              && (r.value.status == 200 <==> putBodyOk && store.update.Some?)
              && (r.value.status == 200 ==> r.value.body == Json(DbToJson(store.update.value)))
    ensures RouteOf(verb) == Unsupported ==> r.value.body == Plain(NotSupported(verb))
  {
    if RequireAdminCheck && !adminOk then None
    else
      match RouteOf(verb)
      case Get => Some(HandleGet(classId, store.getClass))
      case Post => Some(if postBodyOk && store.createOk then Reply(200, Plain("success"), None) else Reply(500, NoBody, None))
      case Put =>
        Some(if putBodyOk && store.update.Some? then Reply(200, Json(DbToJson(store.update.value)), None)
             else Reply(500, NoBody, None))
      case Delete => Some(HandleDelete(classId, store.deleteOk))
      case Unsupported => Some(Reply(500, Plain(NotSupported(verb)), None))
  }

  /** The default branch's message; a missing method prints as "undefined". */
  function NotSupported(verb: Option<string>): string
  {
    (if verb.Some? then verb.value else "undefined") + " is not supported"
  }

  /** Because the admin check is off, the outcome of the check cannot matter. */
  lemma AdminCheckSkipped(verb: Option<string>, classId: QueryParam, postBodyOk: bool, putBodyOk: bool, store: Store)
    ensures Handle(verb, classId, postBodyOk, putBodyOk, false, store) == Handle(verb, classId, postBodyOk, putBodyOk, true, store)
  {
  }
}
