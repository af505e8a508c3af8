/** The four request handlers, each a pure transition from a request and the
    current store to a status, an optional JSON payload and the next store. */
module Handlers {
  import opened Results
  import opened Tasks

  /** The HTTP statuses the handlers choose between. */
  datatype Status = OK | NoContent | BadRequest | UnsupportedMediaType

  /** The numeric HTTP code written for each status. */
  function Code(st: Status): (code: int)
  {
    match st
    case OK => 200
    case NoContent => 204
    case BadRequest => 400
    case UnsupportedMediaType => 415
  }

  /** What a successful response serialises: one task, or the whole store. */
  datatype Payload = OneTask(task: Task) | AllTasks(tasks: Store)

  /** The response of one handler together with the store it leaves behind.
      Error responses and the bodiless successes carry no payload. */
  datatype Step = Step(status: Status, payload: Option<Payload>, store: Store)

  /** A POST to /tasks, reduced to the two library outcomes the handler acts on:
      the parse of the Content-Type header, and the strict JSON decode of the body. */
  datatype PostRequest = PostRequest(mediaType: Result<string>, body: Result<Task>)

  /** The only media type a POST may carry. */
  const JsonMediaType: string := "application/json"

  /** The decoder refuses unknown keys: a body whose object has a key that
      matches no task field, in any case, never decodes successfully.
      `keys` is the body's key set. */
  predicate StrictDecoding(keys: set<string>, decoded: Result<Task>)
  {
    decoded.Ok? ==> forall k :: k in keys ==> KnownKey(k)
  }

  /** All four checks of the create pipeline pass: the header parses, names
      application/json exactly, the body decodes, and its id is not yet taken. */
  predicate Accepted(req: PostRequest, s: Store)
  {
    && req.mediaType.Ok?
    && req.mediaType.value == JsonMediaType
    && req.body.Ok?
    && req.body.value.id !in s
  }

  /** GET /tasks: an empty store is reported as 204 with nothing to show;
      otherwise the whole store is returned. The store is left alone. */
  function GetTasks(s: Store): (r: Step)
    ensures r.store == s
    ensures r.status == NoContent <==> |s| == 0
    ensures r.status == OK <==> |s| > 0
    ensures r.status == NoContent ==> r.payload == None
    ensures r.status == OK ==> r.payload == Some(AllTasks(s))
  {
    if |s| < 1 then Step(NoContent, None, s)
    else Step(OK, Some(AllTasks(s)), s)
  }

  /** POST /tasks: the ordered validation pipeline, then the insert. */
  function InsertTask(req: PostRequest, s: Store): (r: Step)
    ensures r.payload == None
    ensures r.status == OK <==> Accepted(req, s)
    ensures r.status == UnsupportedMediaType <==>
              req.mediaType.Ok? && req.mediaType.value != JsonMediaType
    ensures r.status == BadRequest <==>
              || req.mediaType.Err?
              || (req.mediaType.value == JsonMediaType && (req.body.Err? || req.body.value.id in s))
    ensures r.status != NoContent
    ensures Accepted(req, s) ==> r.store == s[req.body.value.id := req.body.value]
    ensures !Accepted(req, s) ==> r.store == s
    ensures Accepted(req, s) ==> r.store.Keys == s.Keys + {req.body.value.id} && |r.store| == |s| + 1
    ensures WellKeyed(s) ==> WellKeyed(r.store)
  {
    match req.mediaType
    case Err(_) => Step(BadRequest, None, s)
    case Ok(mediaType) =>
      if mediaType != JsonMediaType then Step(UnsupportedMediaType, None, s)
      else
        match req.body
        case Err(_) => Step(BadRequest, None, s)
        case Ok(task) =>
          if task.id in s then Step(BadRequest, None, s)
          else Step(OK, None, s[task.id := task])
  }

  /** GET /tasks/{id}: the task filed under `id`, or 400 when there is none.
      The store is left alone. */
  function GetTaskID(id: string, s: Store): (r: Step)
    ensures r.store == s
    ensures r.status == OK <==> id in s
    ensures r.status == BadRequest <==> id !in s
    ensures id in s ==> r.payload == Some(OneTask(s[id]))
    ensures id !in s ==> r.payload == None
    ensures WellKeyed(s) && r.status == OK ==> r.payload.value.task.id == id
  {
    if id !in s then Step(BadRequest, None, s)
    else Step(OK, Some(OneTask(s[id])), s)
  }

  /** DELETE /tasks/{id}: drops the entry under `id`, or answers 400 when
      there is none. Every other entry is kept as it was. */
  function DeleteTaskID(id: string, s: Store): (r: Step)
    ensures r.payload == None
    ensures r.status == OK <==> id in s
    ensures r.status == BadRequest <==> id !in s
    ensures id !in r.store
    ensures r.store.Keys == s.Keys - {id}
    ensures forall k :: k in r.store ==> r.store[k] == s[k]
    ensures id in s ==> |r.store| == |s| - 1
    ensures id !in s ==> r.store == s
    ensures WellKeyed(s) ==> WellKeyed(r.store)
  {
    if id !in s then Step(BadRequest, None, s)
    else Step(OK, None, s - {id})
  }

  // ---------------------------------------------------------------------------
  // Properties relating several handler calls
  // ---------------------------------------------------------------------------

  /** The service as started lists exactly the two seed tasks. */
  lemma ListingOfSeed()
    ensures GetTasks(Seed()).status == OK
    ensures GetTasks(Seed()).payload.value.tasks.Keys == {"1", "2"}
  {
  }

  /** A failed POST leaves the store as it was, whichever check refused it. */
  lemma RejectedInsertChangesNothing(req: PostRequest, s: Store)
    requires InsertTask(req, s).status != OK
    ensures InsertTask(req, s).store == s
    ensures InsertTask(req, s).status in {BadRequest, UnsupportedMediaType}
  {
  }

  /** The media type is judged before the body is looked at: when the header is
      malformed or names another media type, the body does not affect the reply. */
  lemma MediaTypeCheckedBeforeBody(mediaType: Result<string>, body1: Result<Task>, body2: Result<Task>, s: Store)
    requires mediaType.Err? || mediaType.value != JsonMediaType
    ensures InsertTask(PostRequest(mediaType, body1), s) == InsertTask(PostRequest(mediaType, body2), s)
    ensures InsertTask(PostRequest(mediaType, body1), s).store == s
  {
  }

  /** `text/plain` (or any other media type) is refused with 415 whatever the body holds. */
  lemma OtherMediaTypeIs415(mediaType: string, body: Result<Task>, s: Store)
    requires mediaType != JsonMediaType
    ensures InsertTask(PostRequest(Ok(mediaType), body), s).status == UnsupportedMediaType
    ensures Code(InsertTask(PostRequest(Ok(mediaType), body), s).status) == 415
  {
  }

  /** A JSON body with a key that matches no task field in any case is refused
      with 400 by the strict decoder, and nothing is stored. */
  lemma UnknownFieldIs400(keys: set<string>, extra: string, req: PostRequest, s: Store)
    requires StrictDecoding(keys, req.body)
    requires extra in keys && !KnownKey(extra)
    requires req.mediaType == Ok(JsonMediaType)
    ensures InsertTask(req, s).status == BadRequest
    ensures InsertTask(req, s).store == s
  {
  }

  /** Keys that differ from the field names only in case are not unknown: a body
      with keys `ID` and `Description` may decode, and with a fresh id it is stored. */
  lemma CaseVariantKeysAccepted(s: Store)
    requires "3" !in s
    ensures StrictDecoding({"ID", "Description"}, Ok(Task("3", "x", "", [])))
    ensures InsertTask(PostRequest(Ok(JsonMediaType), Ok(Task("3", "x", "", []))), s).status == OK
  {
  }

  /** POST with a taken id is refused with 400 and the store is left as it was. */
  lemma DuplicateIdIs400(mediaType: Result<string>, task: Task, s: Store)
    requires mediaType == Ok(JsonMediaType)
    requires task.id in s
    ensures InsertTask(PostRequest(mediaType, Ok(task)), s).status == BadRequest
    ensures InsertTask(PostRequest(mediaType, Ok(task)), s).store == s
  {
  }

  /** A task that was just created can be read back unchanged under its id. */
  lemma InsertThenGet(req: PostRequest, s: Store)
    requires InsertTask(req, s).status == OK
    ensures GetTaskID(req.body.value.id, InsertTask(req, s).store).status == OK
    ensures GetTaskID(req.body.value.id, InsertTask(req, s).store).payload == Some(OneTask(req.body.value))
  {
  }

  /** After a successful create the listing is no longer empty, and it shows the new task. */
  lemma InsertThenList(req: PostRequest, s: Store)
    requires InsertTask(req, s).status == OK
    ensures GetTasks(InsertTask(req, s).store).status == OK
    ensures GetTasks(InsertTask(req, s).store).payload.value.tasks[req.body.value.id] == req.body.value
  {
  }

  /** Deleting a task that was just created gives back the store as it was before. */
  lemma InsertThenDeleteRestores(req: PostRequest, s: Store)
    requires InsertTask(req, s).status == OK
    ensures DeleteTaskID(req.body.value.id, InsertTask(req, s).store).status == OK
    ensures DeleteTaskID(req.body.value.id, InsertTask(req, s).store).store == s
  {
  }

  /** Delete is not idempotent: after a successful delete, both a second delete
      and a read of the same id answer 400. */
  lemma DeleteNotIdempotent(id: string, s: Store)
    requires id in s
    ensures DeleteTaskID(id, s).status == OK
    ensures DeleteTaskID(id, DeleteTaskID(id, s).store).status == BadRequest
    ensures GetTaskID(id, DeleteTaskID(id, s).store).status == BadRequest
  {
  }
}
