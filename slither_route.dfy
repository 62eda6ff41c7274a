/** The route that forwards contract sources to the Slither service and
    reports the service's health: the checks on the request, the body sent
    on, and the statuses of every way the exchange can end. */
module SlitherRoute {
  import opened Wrappers
  import opened Strings
  import opened Json

  /** A reply: its HTTP status and its JSON body. */
  datatype Response = Response(status: int, body: JsonValue)

  /** Something thrown: an `Error` with its `name` and `message`, or any
      other value. */
  datatype Thrown = Error(name: string, message: string) | NonError

  /** What the Slither service did with a request: answered (`json` is
      `None` when the answer is not JSON, `parseError` the decoder's
      error then), or the request threw (a timeout is an `Error` named
      `TimeoutError`). */
  datatype Upstream =
    | Replied(ok: bool, status: int, text: string, json: Option<JsonValue>, parseError: Thrown)
    | Raised(error: Thrown)

  const NO_FILES := "No contract files provided"
  const BAD_FILE := "Each file must have path and content"
  const TIMED_OUT := "Slither analysis timed out (3 min limit)"
  const INTERNAL := "Internal server error"
  const UNREACHABLE := "Cannot connect to Slither service"

  /** `{ success: false, error }`. */
  function Failed(msg: string): JsonValue {
    Obj(map["success" := Bool(false), "error" := Str(msg)])
  }

  // ---------------------------------------------------------------- file checks

  /** What checking one file does: pass, stop with a 400, or throw (the
      file is `null` or `undefined`). */
  datatype Verdict = Pass | Reject | Throw

  /** `!file.path || !file.content` on one file. */
  function FileVerdict(f: JsonValue): (v: Verdict)
    ensures v == Throw <==> f.Missing? || f.Null?
    ensures v == Pass <==> !f.Missing? && !f.Null? && Truthy(OptField(f, "path")) && Truthy(OptField(f, "content"))
  {
    if f.Missing? || f.Null? then Throw
    else if !Truthy(OptField(f, "path")) || !Truthy(OptField(f, "content")) then Reject
    else Pass
  }

  /** The verdict on the list: the first file that does not pass decides. */
  function FilesVerdict(files: seq<JsonValue>): (v: Verdict)
    ensures v == Pass <==> forall i :: 0 <= i < |files| ==> FileVerdict(files[i]) == Pass
    ensures v != Pass ==> exists i :: 0 <= i < |files| && FileVerdict(files[i]) == v
                                      && forall k :: 0 <= k < i ==> FileVerdict(files[k]) == Pass
  {
    if files == [] then Pass
    else if FileVerdict(files[0]) != Pass then FileVerdict(files[0])
    else
      var v := FilesVerdict(files[1..]);
      if v != Pass then
        var i :| 0 <= i < |files[1..]| && FileVerdict(files[1..][i]) == v
                 && forall k :: 0 <= k < i ==> FileVerdict(files[1..][k]) == Pass;
        assert FileVerdict(files[i + 1]) == v;
        v
      else v
  }

  /** The `for … of` loop over the files. */
  method CheckFiles(files: seq<JsonValue>) returns (v: Verdict)
    ensures v == FilesVerdict(files)
  {
    var i := 0;
    while i < |files|
      invariant i <= |files|
      invariant forall k :: 0 <= k < i ==> FileVerdict(files[k]) == Pass
    {
      var f := files[i];
      if f.Missing? || f.Null? {
        return Throw;
      }
      if !Truthy(OptField(f, "path")) || !Truthy(OptField(f, "content")) {
        return Reject;
      }
      i := i + 1;
    }
    return Pass;
  }

  /** A file with empty content is refused when every file is an object. */
  lemma EmptyContentRejected(files: seq<JsonValue>, j: nat)
    requires forall i :: 0 <= i < |files| ==> files[i].Obj?
    requires j < |files| && OptField(files[j], "content") == Str("")
    ensures FilesVerdict(files) == Reject
  {
    assert FileVerdict(files[j]) != Pass;
  }

  // ---------------------------------------------------------------- POST

  /** The body sent to the service: the files as given, and `null` for an
      absent or empty main file or compiler version. */
  function Forwarded(body: JsonValue): (r: JsonValue)
    requires !body.Missing? && !body.Null?
    ensures r.Obj? && r.fields.Keys == {"files", "main_file", "solc_version"}
    ensures r.fields["files"] == OptField(body, "files")
    ensures !Truthy(OptField(body, "main_file")) ==> r.fields["main_file"] == Null
    ensures Truthy(OptField(body, "main_file")) ==> r.fields["main_file"] == OptField(body, "main_file")
    ensures !Truthy(OptField(body, "solc_version")) ==> r.fields["solc_version"] == Null
    ensures Truthy(OptField(body, "solc_version")) ==> r.fields["solc_version"] == OptField(body, "solc_version")
  {
    Obj(map["files" := OptField(body, "files"),
            "main_file" := OrJs(OptField(body, "main_file"), Null),
            "solc_version" := OrJs(OptField(body, "solc_version"), Null)])
  }

  /** The `catch` of `POST`: 504 for a timeout, 500 otherwise. */
  function Caught(e: Thrown): (r: Response)
    ensures r.status == 504 <==> e.Error? && e.name == "TimeoutError"
    ensures r.status != 504 ==> r.status == 500
    ensures e.Error? && e.name != "TimeoutError" ==> r.body == Failed(e.message)
    ensures e.NonError? ==> r.body == Failed(INTERNAL)
  {
    if e.Error? && e.name == "TimeoutError" then Response(504, Failed(TIMED_OUT))
    else if e.Error? then Response(500, Failed(e.message))
    else Response(500, Failed(INTERNAL))
  }

  /** The body is an object with a non-empty `files` array. */
  predicate HasFiles(b: JsonValue) {
    !b.Missing? && !b.Null? && OptField(b, "files").Arr? && |OptField(b, "files").items| > 0
  }

  /** `POST`: `body` is the parsed request body, or what parsing threw;
      `typeError` is what reading a property of `null` throws; `service`
      is the Slither service. The result is the reply and the body sent to
      the service, if any. */
  function Post(body: Result<JsonValue, Thrown>, typeError: Thrown, service: JsonValue -> Upstream): (r: (Response, Option<JsonValue>))
    ensures body.Failure? ==> r == (Caught(body.error), None)
    ensures body.Success? && (body.value.Missing? || body.value.Null?) ==> r == (Caught(typeError), None)
    ensures body.Success? && !body.value.Missing? && !body.value.Null? && !HasFiles(body.value)
            ==> r == (Response(400, Failed(NO_FILES)), None)
    ensures body.Success? && HasFiles(body.value) && FilesVerdict(OptField(body.value, "files").items) == Throw
            ==> r == (Caught(typeError), None)
    ensures body.Success? && HasFiles(body.value) && FilesVerdict(OptField(body.value, "files").items) == Reject
            ==> r == (Response(400, Failed(BAD_FILE)), None)
    ensures r.1.Some? <==> (body.Success? && HasFiles(body.value)
      && FilesVerdict(OptField(body.value, "files").items) == Pass)
    ensures r.1.Some? ==> r.1.value == Forwarded(body.value)
    ensures r.1.Some? && service(r.1.value).Replied? && !service(r.1.value).ok ==>
      r.0 == Response(service(r.1.value).status, Failed("Slither analysis failed: " + service(r.1.value).text))
    ensures r.1.Some? && service(r.1.value).Replied? && service(r.1.value).ok && service(r.1.value).json.Some? ==>
      r.0 == Response(200, service(r.1.value).json.value)
    ensures r.1.Some? && service(r.1.value).Replied? && service(r.1.value).ok && service(r.1.value).json.None? ==>
      r.0 == Caught(service(r.1.value).parseError)
    ensures r.1.Some? && service(r.1.value).Raised? ==> r.0 == Caught(service(r.1.value).error)
  {
    if body.Failure? then (Caught(body.error), None)
    else if body.value.Missing? || body.value.Null? then (Caught(typeError), None)
    else
      var files := OptField(body.value, "files");
      if !Truthy(files) || !files.Arr? || |files.items| == 0 then (Response(400, Failed(NO_FILES)), None)
      else match FilesVerdict(files.items)
        case Throw => (Caught(typeError), None)
        case Reject => (Response(400, Failed(BAD_FILE)), None)
        case Pass =>
          var sent := Forwarded(body.value);
          var reply := match service(sent)
            case Raised(e) => Caught(e)
            case Replied(ok, status, text, json, parseError) =>
              if !ok then Response(status, Failed("Slither analysis failed: " + text))
              else if json.None? then Caught(parseError)
              else Response(200, json.value);
          (reply, Some(sent))
  }

  /** The service is asked only about requests whose every file has a path
      and content. */
  lemma OnlyCheckedRequestsForwarded(body: Result<JsonValue, Thrown>, typeError: Thrown, service: JsonValue -> Upstream)
    requires Post(body, typeError, service).1.Some?
    ensures forall f :: f in OptField(body.value, "files").items ==>
      Truthy(OptField(f, "path")) && Truthy(OptField(f, "content"))
  {
    var files := OptField(body.value, "files").items;
    forall f | f in files
      ensures Truthy(OptField(f, "path")) && Truthy(OptField(f, "content"))
    {
      var i :| 0 <= i < |files| && files[i] == f;
      assert FileVerdict(files[i]) == Pass;
    }
  }

  // ---------------------------------------------------------------- GET

  /** What the health request gave: `Replied` as for `POST`. */
  function Health(service: Upstream, typeError: Thrown): (r: Response)
    ensures r.status == 503 || r.status == 200
    ensures service.Raised? ==> r.status == 503
    ensures service.Replied? && !service.ok ==> r == Response(503, Obj(map["healthy" := Bool(false),
              "error" := Str("Slither service returned HTTP " + IntToString(service.status))]))
    ensures r.status == 200 ==> (service.Replied? && service.ok && service.json.Some?
      && r.body == Obj(map["healthy" := Bool(true),
                           "slither_version" := OptField(service.json.value, "slither_version"),
                           "solc_version" := OptField(service.json.value, "solc_version")]))
  {
    match service
    case Raised(e) => Unhealthy(e)
    case Replied(ok, status, text, json, parseError) =>
      if !ok then Response(503, Obj(map["healthy" := Bool(false), "error" := Str("Slither service returned HTTP " + IntToString(status))]))
      else if json.None? then Unhealthy(parseError)
      else if json.value.Missing? || json.value.Null? then Unhealthy(typeError)
      else Response(200, Obj(map["healthy" := Bool(true),
                                 "slither_version" := OptField(json.value, "slither_version"),
                                 "solc_version" := OptField(json.value, "solc_version")]))
  }

  /** The `catch` of `GET`: always 503. */
  function Unhealthy(e: Thrown): (r: Response)
    ensures r.status == 503
    ensures r.body == Obj(map["healthy" := Bool(false), "error" := Str(if e.Error? then e.message else UNREACHABLE)])
  {
    Response(503, Obj(map["healthy" := Bool(false), "error" := Str(if e.Error? then e.message else UNREACHABLE)]))
  }
}
