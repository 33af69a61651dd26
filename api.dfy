/**
 * The transport client: its fixed configuration, the error normaliser
 * `getErrorMessage`, the response interceptor and the table of REST endpoints.
 * The HTTP library itself is not modelled; a settled call is a value of `Raw`.
 */
module Api {
  import Js
  import opened Notes

  // ---------------------------------------------------------------- configuration

  const DefaultBaseUrl: string := "http://localhost:8080/api"
  const TimeoutMs: nat := 15000
  const ContentType: string := "application/json"

  /** `VITE_API_URL || DefaultBaseUrl`, given the (build-time) environment value. */
  function BaseUrl(env: Js.Option<string>): (r: string)
    ensures r != ""
    ensures env.Some? && env.value != "" ==> r == env.value
    ensures !(env.Some? && env.value != "") ==> r == DefaultBaseUrl
  {
    if env.Some? && env.value != "" then env.value else DefaultBaseUrl
  }

  // ---------------------------------------------------------------- failures

  /** The body of an error response; a body without a `message` property has `Undefined`. */
  datatype ErrorBody = ErrorBody(message: Js.Value)

  /** `error.response`: the server's answer, when there was one. */
  datatype ErrorResponse = ErrorResponse(data: Js.Option<ErrorBody>)

  /**
   * A rejection value with the properties the client reads. A thrown truthy
   * primitive has neither `response` nor `message`, so it is
   * `ErrorObject(None, Undefined, Undefined)` here.
   */
  datatype ErrorObject = ErrorObject(response: Js.Option<ErrorResponse>, message: Js.Value, normalizedMessage: Js.Value)

  /** What a `catch` receives: a falsy value, or an object. */
  datatype Thrown = Falsy | Raised(obj: ErrorObject)

  /**
   * `error.response?.data?.message`: `undefined` as soon as a link of the chain
   * is missing; otherwise the server's message, whatever value it is.
   */
  function DataMessage(o: ErrorObject): (r: Js.Value)
    ensures o.response.None? || o.response.value.data.None? ==> r == Js.Undefined
    ensures o.response.Some? && o.response.value.data.Some? ==> r == o.response.value.data.value.message
    ensures r != Js.Undefined ==> o.response.Some? && o.response.value.data.Some? && r == o.response.value.data.value.message
  {
    match o.response
    case None => Js.Undefined
    case Some(resp) =>
      match resp.data
      case None => Js.Undefined
      case Some(body) => body.message
  }

  const UnexpectedError: string := "Unexpected error"
  const GenericFailure: string := "Something went wrong. Please try again."

  /**
   * `getErrorMessage(error)`. The result is a string, except that a truthy
   * server-supplied message is handed back as it is, whatever its type; it is
   * falsy only when it is the empty string.
   */
  function GetErrorMessage(e: Thrown): (r: Js.Value)
    ensures r.Str? || (e.Raised? && r == DataMessage(e.obj) && Js.Truthy(r))
    ensures Js.Truthy(r) || r == Js.Str("")
  {
    match e
    case Falsy => Js.Str(UnexpectedError)
    case Raised(o) =>
      if Js.Truthy(DataMessage(o)) then DataMessage(o)
      else if o.message.Str? then o.message
      else Js.Str(GenericFailure)
  }

  /** The four candidates, in the order in which the first applicable one wins. */
  lemma GetErrorMessagePriority(e: Thrown)
    ensures e.Falsy? ==> GetErrorMessage(e) == Js.Str(UnexpectedError)
    ensures e.Raised? && Js.Truthy(DataMessage(e.obj)) ==> GetErrorMessage(e) == DataMessage(e.obj)
    ensures e.Raised? && !Js.Truthy(DataMessage(e.obj)) && e.obj.message.Str? ==> GetErrorMessage(e) == e.obj.message
    ensures e.Raised? && !Js.Truthy(DataMessage(e.obj)) && !e.obj.message.Str? ==> GetErrorMessage(e) == Js.Str(GenericFailure)
  {
  }

  /** An error whose own `message` is `''` (and no server message) normalises to `''`. */
  lemma EmptyMessageNormalisesToEmpty(o: ErrorObject)
    requires !Js.Truthy(DataMessage(o)) && o.message == Js.Str("")
    ensures GetErrorMessage(Raised(o)) == Js.Str("")
    ensures !Js.Truthy(GetErrorMessage(Raised(o)))
  {
  }

  /** A truthy non-string server message, such as the number 404, is not turned into a string. */
  lemma NonStringServerMessagePassesThrough()
    ensures GetErrorMessage(Raised(ErrorObject(Js.Some(ErrorResponse(Js.Some(ErrorBody(Js.Num(404))))), Js.Str("Request failed"), Js.Undefined)))
            == Js.Num(404)
  {
  }

  /** The server's 404 text is what the client reports. */
  lemma NotFoundMessageWins(o: ErrorObject)
    requires o.response == Js.Some(ErrorResponse(Js.Some(ErrorBody(Js.Str("Note not found")))))
    ensures GetErrorMessage(Raised(o)) == Js.Str("Note not found")
  {
  }

  // ---------------------------------------------------------------- interceptor

  /** A settled HTTP call as the HTTP library delivers it to the interceptor. */
  datatype Raw<T> = Fulfilled(data: T) | Rejected(error: ErrorObject)

  /** A settled call as `notesAPI` hands it to its caller. */
  datatype Outcome<T> = Ok(data: T) | Err(error: Thrown)

  /** The failure handler's write `error.normalizedMessage = getErrorMessage(error)`. */
  function Annotate(o: ErrorObject): (r: ErrorObject)
    ensures r.response == o.response && r.message == o.message
    ensures r.normalizedMessage == GetErrorMessage(Raised(o))
  {
    o.(normalizedMessage := GetErrorMessage(Raised(o)))
  }

  /** The response interceptor: successes pass through, every failure is re-rejected annotated. */
  function Settle<T>(raw: Raw<T>): (r: Outcome<T>)
    ensures r.Ok? <==> raw.Fulfilled?
    ensures raw.Fulfilled? ==> r.data == raw.data
    ensures raw.Rejected? ==> r.error.Raised? && r.error.obj == Annotate(raw.error)
  {
    match raw
    case Fulfilled(d) => Ok(d)
    case Rejected(e) => Err(Raised(Annotate(e)))
  }

  /** Annotating changes nothing the normaliser reads, and a second annotation changes nothing. */
  lemma AnnotateIsStable(o: ErrorObject)
    ensures GetErrorMessage(Raised(Annotate(o))) == GetErrorMessage(Raised(o))
    ensures Annotate(Annotate(o)) == Annotate(o)
  {
  }

  /** What a caller of `notesAPI` sees after a failure: the normalised message it would compute itself. */
  lemma SettledFailureCarriesNormalisedMessage<T>(raw: Raw<T>)
    requires raw.Rejected?
    ensures Settle(raw).Err? && Settle(raw).error.Raised?
    ensures Settle(raw).error.obj.normalizedMessage == GetErrorMessage(Settle(raw).error)
  {
    AnnotateIsStable(raw.error);
  }

  // ---------------------------------------------------------------- endpoints

  datatype HttpMethod = Get | Post | Put | Delete

  /** The methods of `notesAPI`. */
  datatype Endpoint =
    | GetAllNotes
    | GetNoteById(id: Id)
    | GetSharedNote(id: Id)
    | CreateNote(data: NoteData)
    | UpdateNote(id: Id, data: NoteData)
    | DeleteNote(id: Id)
    | ShareNote(id: Id)

  /** An HTTP request relative to the base URL. */
  datatype Request = Request(verb: HttpMethod, path: string, body: Js.Option<NoteData>)

  const NotesPath: string := "/notes"

  /** The request each `notesAPI` method issues; ids are interpolated with `String(id)`, unescaped. */
  function RequestFor(e: Endpoint): (r: Request)
    ensures NotesPath <= r.path
    ensures r.body.Some? <==> (e.CreateNote? || e.UpdateNote?)
    ensures r.verb == Get <==> (e.GetAllNotes? || e.GetNoteById? || e.GetSharedNote?)
  {
    match e
    case GetAllNotes => Request(Get, NotesPath, Js.None)
    case GetNoteById(id) => Request(Get, "/notes/" + Canon(id), Js.None)
    case GetSharedNote(id) => Request(Get, "/notes/share/" + Canon(id), Js.None)
    case CreateNote(data) => Request(Post, NotesPath, Js.Some(data))
    case UpdateNote(id, data) => Request(Put, "/notes/" + Canon(id), Js.Some(data))
    case DeleteNote(id) => Request(Delete, "/notes/" + Canon(id), Js.None)
    case ShareNote(id) => Request(Post, "/notes/" + Canon(id) + "/share", Js.None)
  }

  /** The endpoint table, written out. */
  lemma EndpointTable(id: Id, data: NoteData)
    ensures RequestFor(GetAllNotes) == Request(Get, "/notes", Js.None)
    ensures RequestFor(GetNoteById(id)) == Request(Get, "/notes/" + Canon(id), Js.None)
    ensures RequestFor(GetSharedNote(id)) == Request(Get, "/notes/share/" + Canon(id), Js.None)
    ensures RequestFor(CreateNote(data)) == Request(Post, "/notes", Js.Some(data))
    ensures RequestFor(UpdateNote(id, data)) == Request(Put, "/notes/" + Canon(id), Js.Some(data))
    ensures RequestFor(DeleteNote(id)) == Request(Delete, "/notes/" + Canon(id), Js.None)
    ensures RequestFor(ShareNote(id)) == Request(Post, "/notes/" + Canon(id) + "/share", Js.None)
  {
  }

  /** Reading a note through its share handle never hits the plain fetch path, and the plain
      fetch path is a prefix of the share-minting path. */
  lemma SharePathsOfOneId(id: Id)
    ensures RequestFor(GetSharedNote(id)).path != RequestFor(GetNoteById(id)).path
    ensures RequestFor(GetNoteById(id)).path < RequestFor(ShareNote(id)).path
  {
    assert |RequestFor(GetSharedNote(id)).path| == |RequestFor(GetNoteById(id)).path| + 6;
  }

  predicate SlashFree(id: Id) {
    forall k :: 0 <= k < |Canon(id)| ==> Canon(id)[k] != '/'
  }

  /** A numeric id never carries a '/' into a path. */
  lemma NumericIdsAreSlashFree(n: int)
    ensures SlashFree(NumId(n))
  {
  }

  predicate EndpointSlashFree(e: Endpoint) {
    match e
    case GetAllNotes => true
    case CreateNote(_) => true
    case GetNoteById(id) => SlashFree(id)
    case GetSharedNote(id) => SlashFree(id)
    case UpdateNote(id, _) => SlashFree(id)
    case DeleteNote(id) => SlashFree(id)
    case ShareNote(id) => SlashFree(id)
  }

  /** Two calls address the same resource: the same `notesAPI` method on the same canonical id. */
  predicate SameTarget(e1: Endpoint, e2: Endpoint) {
    match e1
    case GetAllNotes => e2.GetAllNotes?
    case CreateNote(_) => e2.CreateNote?
    case GetNoteById(a) => e2.GetNoteById? && SameId(a, e2.id)
    case GetSharedNote(a) => e2.GetSharedNote? && SameId(a, e2.id)
    case UpdateNote(a, _) => e2.UpdateNote? && SameId(a, e2.id)
    case DeleteNote(a) => e2.DeleteNote? && SameId(a, e2.id)
    case ShareNote(a) => e2.ShareNote? && SameId(a, e2.id)
  }

  lemma PrefixCancels(p: string, a: string, b: string)
    requires p + a == p + b
    ensures a == b
  {
    assert a == (p + a)[|p|..];
    assert b == (p + b)[|p|..];
  }

  lemma FetchPathIsNotSharePath(a: Id, b: Id)
    requires SlashFree(a)
    ensures "/notes/" + Canon(a) != "/notes/share/" + Canon(b)
  {
    var p, q := "/notes/" + Canon(a), "/notes/share/" + Canon(b);
    assert q[12] == '/';
    if |p| == |q| {
      assert p[12] == Canon(a)[5];
    }
  }

  /** For ids without a slash, method and path determine the endpoint and the canonical id. */
  lemma RoutesDistinguishEndpoints(e1: Endpoint, e2: Endpoint)
    requires EndpointSlashFree(e1) && EndpointSlashFree(e2)
    requires RequestFor(e1).verb == RequestFor(e2).verb
    requires RequestFor(e1).path == RequestFor(e2).path
    ensures SameTarget(e1, e2)
  {
    var p1, p2 := RequestFor(e1).path, RequestFor(e2).path;
    match e1
    case GetAllNotes =>
      assert |p1| == 6;
    case CreateNote(_) =>
      assert |p1| == 6;
    case GetNoteById(a) =>
      if e2.GetSharedNote? {
        assert p1 == "/notes/" + Canon(a) && p2 == "/notes/share/" + Canon(e2.id);
        FetchPathIsNotSharePath(a, e2.id);
      } else if e2.GetNoteById? {
        assert p1 == "/notes/" + Canon(a) && p2 == "/notes/" + Canon(e2.id);
        PrefixCancels("/notes/", Canon(a), Canon(e2.id));
      }
    case GetSharedNote(a) =>
      if e2.GetNoteById? {
        assert p2 == "/notes/" + Canon(e2.id) && p1 == "/notes/share/" + Canon(a);
        FetchPathIsNotSharePath(e2.id, a);
      } else if e2.GetSharedNote? {
        assert p1 == "/notes/share/" + Canon(a) && p2 == "/notes/share/" + Canon(e2.id);
        PrefixCancels("/notes/share/", Canon(a), Canon(e2.id));
      }
    case UpdateNote(a, _) =>
      assert p1 == "/notes/" + Canon(a) && p2 == "/notes/" + Canon(e2.id);
      PrefixCancels("/notes/", Canon(a), Canon(e2.id));
    case DeleteNote(a) =>
      assert p1 == "/notes/" + Canon(a) && p2 == "/notes/" + Canon(e2.id);
      PrefixCancels("/notes/", Canon(a), Canon(e2.id));
    case ShareNote(a) =>
      if e2.ShareNote? {
        var b := e2.id;
        assert |Canon(a)| == |Canon(b)|;
        assert Canon(a) == p1[7..7 + |Canon(a)|];
        assert Canon(b) == p2[7..7 + |Canon(b)|];
      }
  }

  /** Without the slash-free condition the table is ambiguous: the id "share/7" reaches the share-read route. */
  lemma SlashedIdReachesShareRoute()
    ensures RequestFor(GetNoteById(StrId("share/7"))) == RequestFor(GetSharedNote(StrId("7")))
    ensures !SameTarget(GetNoteById(StrId("share/7")), GetSharedNote(StrId("7")))
  {
  }
}
