/** The agent audit route: the shared-key check, the request body rules,
    the defaults of the analysis settings, and the fetch of the contract's
    sources that precedes the analysis. */
module AgentAuditRoute {
  import opened Wrappers
  import opened Strings
  import opened Json

  /** What the internal source route answered: a reply, or a request that
      threw (`message` is the thrown `Error`'s message, `None` for anything
      else). A reply's `body` is `None` when it is not JSON, and
      `parseError` is then the decoder's message. */
  datatype SourceReply =
    | Fetched(ok: bool, status: int, text: string, body: Option<JsonValue>, parseError: string)
    | Unreachable(message: Option<string>)

  /** The settings handed to the analysis. */
  datatype AiSettings = AiSettings(provider: JsonValue, model: string, language: string, superPrompt: bool)

  /** The sources the analysis runs on. */
  datatype Sources = Sources(files: seq<JsonValue>, contractName: string, apiUrl: Option<string>)

  datatype Outcome =
    | Reply(status: int, error: string)
    | Thrown
    | Analyze(address: string, chain: string, sources: Sources, ai: AiSettings, stream: bool)

  const NOT_CONFIGURED := "AGENT_API_KEY not configured on server"
  const UNAUTHORIZED := "Unauthorized"
  const INVALID_JSON := "Invalid JSON body"
  const MISSING_FIELDS := "Missing required fields: address, chain, provider, model"
  const NO_FILES := "No source files returned from /api/source"
  const DEFAULT_LANGUAGE := "chinese-simplified"

  /** `v?.trim()`: `Some(None)` for `undefined`/`null`, the trimmed string for
      a string, `None` where calling `trim` throws. */
  function TrimmedField(v: JsonValue): (r: Option<Option<string>>)
    ensures v.Str? <==> r.Some? && r.value.Some?
    ensures v.Str? ==> r == Some(Some(Trim(v.s)))
    ensures r.None? <==> !(v.Str? || v.Missing? || v.Null?)
  {
    match v
    case Missing => Some(None)
    case Null => Some(None)
    case Str(s) => Some(Some(Trim(s)))
    case _ => None
  }

  /** The shared-key check: the trimmed header must equal the trimmed key
      (an empty header counts as absent). */
  predicate Authorized(envKey: string, header: Option<string>) {
    header.Some? && header.value != "" && Trim(header.value) == Trim(envKey)
  }

  /** `fetchSourceFiles` on the reply of the source route: the sources, or
      the message of what it throws. */
  function SourceFiles(reply: SourceReply): (r: Result<Sources, string>)
    ensures r.Success? ==> reply.Fetched? && reply.ok && |r.value.files| > 0
    ensures reply.Unreachable? ==> r == Failure(reply.message.GetOr("Failed to fetch source"))
    ensures reply.Fetched? && !reply.ok ==>
      r == Failure("Failed to fetch source via /api/source: HTTP " + IntToString(reply.status) + ". " + reply.text)
  {
    match reply
    case Unreachable(m) => Failure(m.GetOr("Failed to fetch source"))
    case Fetched(ok, status, text, body, parseError) =>
      if !ok then Failure("Failed to fetch source via /api/source: HTTP " + IntToString(status) + ". " + text)
      else if body.None? then Failure(parseError)
      else
        var data := body.value;
        var files := if OptField(data, "files").Arr? then OptField(data, "files").items else [];
        var name := if OptField(data, "contractName").Str? then OptField(data, "contractName").s else "Contract";
        var apiUrl := if OptField(data, "apiUrl").Str? then Some(OptField(data, "apiUrl").s) else None;
        if |files| == 0 then Failure(NO_FILES) else Success(Sources(files, name, apiUrl))
  }

  /** The checked request: the trimmed address and chain and the analysis settings. */
  datatype Checked = Checked(address: string, chain: string, ai: AiSettings, stream: bool)

  /** The body is an object-like value whose `address`, `chain` and `model`
      are each absent, `null` or a string, so that the three `?.trim()`
      calls all return. */
  predicate Trimmable(b: JsonValue) {
    !(b.Missing? || b.Null?)
    && TrimmedField(OptField(b, "address")).Some?
    && TrimmedField(OptField(b, "chain")).Some?
    && TrimmedField(OptField(b, "model")).Some?
  }

  /** The trimmed address, chain and model are non-empty strings and the
      provider is truthy. */
  predicate HasRequired(b: JsonValue) {
    NonBlank(TrimmedField(OptField(b, "address")))
    && NonBlank(TrimmedField(OptField(b, "chain")))
    && NonBlank(TrimmedField(OptField(b, "model")))
    && Truthy(OptField(b, "provider"))
  }

  predicate NonBlank(f: Option<Option<string>>) {
    f.Some? && f.value.Some? && f.value.value != ""
  }

  /** The reading of a parsed body: the checked request, or the outcome
      that stops it. The three `?.trim()` calls all run before the 400
      test, so a throw among them wins over a missing field; a truthy
      `language` that is not a string throws afterwards. */
  function ReadBody(b: JsonValue): (r: Result<Checked, Outcome>)
    ensures !Trimmable(b) ==> r == Failure(Thrown)
    ensures Trimmable(b) && !HasRequired(b) ==> r == Failure(Reply(400, MISSING_FIELDS))
    ensures Trimmable(b) && HasRequired(b) ==>
      (r.Failure? <==> Truthy(OptField(b, "language")) && !OptField(b, "language").Str?)
    ensures r.Failure? ==> r.error == Reply(400, MISSING_FIELDS) || r.error == Thrown
    ensures r.Success? ==> r.value.address != "" && r.value.chain != "" && r.value.ai.model != "" && Truthy(r.value.ai.provider)
    ensures r.Success? ==> Some(Some(r.value.address)) == TrimmedField(OptField(b, "address"))
    ensures r.Success? ==> Some(Some(r.value.chain)) == TrimmedField(OptField(b, "chain"))
    ensures r.Success? ==> Some(Some(r.value.ai.model)) == TrimmedField(OptField(b, "model"))
    ensures r.Success? ==> r.value.ai.provider == OptField(b, "provider")
    ensures r.Success? ==> r.value.ai.superPrompt == (OptField(b, "superPrompt") != Bool(false))
    ensures r.Success? ==> r.value.stream == (OptField(b, "stream") == Bool(true))
    ensures r.Success? && !Truthy(OptField(b, "language")) ==> r.value.ai.language == DEFAULT_LANGUAGE
    ensures r.Success? && OptField(b, "language").Str? && Truthy(OptField(b, "language")) ==>
      r.value.ai.language == Trim(OptField(b, "language").s)
  {
    if !Trimmable(b) then Failure(Thrown)
    else if !HasRequired(b) then Failure(Reply(400, MISSING_FIELDS))
    else
      var address := TrimmedField(OptField(b, "address")).value.value;
      var chain := TrimmedField(OptField(b, "chain")).value.value;
      var model := TrimmedField(OptField(b, "model")).value.value;
      var language := OptField(b, "language");
      if Truthy(language) && !language.Str? then Failure(Thrown)
      else
        // the default has no white space to trim (`DefaultLanguageTrimmed`)
        var lang := if Truthy(language) then Trim(language.s) else DEFAULT_LANGUAGE;
        var ai := AiSettings(OptField(b, "provider"), model, lang, OptField(b, "superPrompt") != Bool(false));
        Success(Checked(address, chain, ai, OptField(b, "stream") == Bool(true)))
  }

  /** A `model` without `trim` throws even when another field is missing:
      all three fields are read before the 400 test. */
  lemma ModelThrowsFirst()
    ensures ReadBody(Obj(map["address" := Str(""), "chain" := Str("c"), "provider" := Str("p"), "model" := Num(5)])) == Failure(Thrown)
  {
    var b := Obj(map["address" := Str(""), "chain" := Str("c"), "provider" := Str("p"), "model" := Num(5)]);
    assert OptField(b, "model") == Num(5);
  }

  /** The key is set, and the header carries it. */
  predicate Admitted(envKey: Option<string>, header: Option<string>) {
    envKey.Some? && Trim(envKey.value) != "" && Authorized(envKey.value, header)
  }

  /** `POST`: `envKey` is `AGENT_API_KEY`, `header` the `x-agent-api-key`
      header, `body` the parsed body (`None` when it is not JSON), and
      `fetchSource` the internal source route, asked with the trimmed
      address and chain. An admitted JSON body is read by `ReadBody`, whose
      stop is the answer; a read request fails with 502 when its sources
      do not arrive, and otherwise goes to the analysis. */
  function Post(envKey: Option<string>, header: Option<string>, body: Option<JsonValue>,
                fetchSource: (string, string) -> SourceReply): (r: Outcome)
    ensures envKey.None? || Trim(envKey.value) == "" ==> r == Reply(500, NOT_CONFIGURED)
    ensures envKey.Some? && Trim(envKey.value) != "" && !Authorized(envKey.value, header) ==> r == Reply(401, UNAUTHORIZED)
    ensures Admitted(envKey, header) && body.None? ==> r == Reply(400, INVALID_JSON)
    ensures Admitted(envKey, header) && body.Some? && ReadBody(body.value).Failure? ==>
      r == ReadBody(body.value).error
    ensures Admitted(envKey, header) && body.Some? && ReadBody(body.value).Success? ==>
      var c := ReadBody(body.value).value;
      match SourceFiles(fetchSource(c.address, c.chain))
      case Failure(msg) => r == Reply(502, msg)
      case Success(sources) => r == Analyze(c.address, c.chain, sources, c.ai, c.stream)
    ensures r.Analyze? <==> (Admitted(envKey, header) && body.Some? && ReadBody(body.value).Success?
      && SourceFiles(fetchSource(ReadBody(body.value).value.address, ReadBody(body.value).value.chain)).Success?)
  {
    if envKey.None? || Trim(envKey.value) == "" then Reply(500, NOT_CONFIGURED)
    else if !Authorized(envKey.value, header) then Reply(401, UNAUTHORIZED)
    else if body.None? then Reply(400, INVALID_JSON)
    else
      match ReadBody(body.value)
      case Failure(stop) => stop
      case Success(c) =>
        match SourceFiles(fetchSource(c.address, c.chain))
        case Failure(msg) => Reply(502, msg)
        case Success(sources) => Analyze(c.address, c.chain, sources, c.ai, c.stream)
  }

  /** Trimming the default language changes nothing, so the default is
      used as it stands. */
  lemma DefaultLanguageTrimmed()
    ensures Trim(DEFAULT_LANGUAGE) == DEFAULT_LANGUAGE
  {
    var d := DEFAULT_LANGUAGE;
    assert d[0] == 'c' && d[|d| - 1] == 'd';
    TrimUnchanged(d);
  }

  /** The header may differ from the key by surrounding white space only. */
  lemma PaddedHeaderAccepted(key: string, pad: string)
    requires key != "" && key == Trim(key)
    requires forall i :: 0 <= i < |pad| ==> IsSpace(pad[i])
    ensures Authorized(key, Some(pad + key + pad))
  {
    TrimAround(pad, key);
  }
}
