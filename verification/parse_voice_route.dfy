/**
 * The voice-parsing API route: `POST` checks the transcript, asks the
 * language model, cleans its reply, and keeps six fields of the JSON object
 * it finds. The model's answer, the API key and `JSON.parse` are parameters.
 */
module ParseVoiceRoute {
  import opened Wrappers
  import opened JsText
  import opened JsonValue
  import opened ReplyCleanup
  import opened ChatReply

  /** What the model service answered: HTTP success, status text, and the body `response.json()` read (`None`: not JSON). */
  datatype ServiceReply = ServiceReply(ok: bool, statusText: string, body: Option<Json>)

  /** The six fields the route may return; `None` is a field left undefined. */
  datatype ParsedTravelData = ParsedTravelData(
    destination: Option<Json>,
    startDate: Option<Json>,
    endDate: Option<Json>,
    budget: Option<JsNumber>,
    travelers: Option<JsNumber>,
    preferences: Option<Json>)

  /** Why reading the reply failed; each is thrown inside the `try` of the parsing function. */
  datatype Fault =
    | ServiceError(statusText: string)
    | BodyNotJson
    | NoContent
    | NoJsonObject
    | NotJson
    | NullResult

  datatype Response = Response(status: nat, body: Json)

  const KeyMissingMessage := "OpenAI API key not configured"
  const ParseFailedMessage := "语音内容解析失败"
  const NoTranscriptMessage := "缺少语音文本内容"
  /** The TypeError message for reading `transcript` off a `null` body. */
  const NullBodyMessage := "Cannot read properties of null (reading 'transcript')"

  function ErrorBody(message: string): Json {
    JObject(map["error" := JString(message)])
  }

  // ---------------------------------------------------------------------
  // Field coercion
  // ---------------------------------------------------------------------

  /** The test each field passes to be copied: truthy and not the string "null". */
  predicate Kept(v: Option<Json>) {
    IsTruthy(v) && v != Some(JString("null"))
  }

  function KeepValue(v: Option<Json>): Option<Json> {
    if Kept(v) then v else None
  }

  /** `parseInt(v)` for a kept value. */
  function KeepNumber(v: Option<Json>): Option<JsNumber> {
    if Kept(v) then Some(ParseIntOf(v.value)) else None
  }

  /** The `parsedData` the function builds from the parsed object, field by field. */
  function Coerce(result: Json): ParsedTravelData {
    ParsedTravelData(
      KeepValue(Get(result, "destination")),
      KeepValue(Get(result, "startDate")),
      KeepValue(Get(result, "endDate")),
      KeepNumber(Get(result, "budget")),
      KeepNumber(Get(result, "travelers")),
      KeepValue(Get(result, "preferences")))
  }

  /**
   * A value is dropped exactly when it is missing, `null`, `false`, `0`,
   * the empty string or the string "null"; arrays and objects are kept.
   */
  lemma KeptExactly(v: Option<Json>)
    ensures Kept(v) <==> (v.Some? && v.value != JNull && v.value != JBool(false)
      && v.value != JNumber(0) && v.value != JString("") && v.value != JString("null"))
  {
  }

  /** String fields are copied unchanged when kept; the numbers go through `parseInt`. */
  lemma CoerceFields(result: Json)
    ensures Coerce(result).destination.Some? <==> Kept(Get(result, "destination"))
    ensures Coerce(result).destination.Some? ==> Coerce(result).destination == Get(result, "destination")
    ensures Coerce(result).startDate.Some? <==> Kept(Get(result, "startDate"))
    ensures Coerce(result).startDate.Some? ==> Coerce(result).startDate == Get(result, "startDate")
    ensures Coerce(result).endDate.Some? <==> Kept(Get(result, "endDate"))
    ensures Coerce(result).endDate.Some? ==> Coerce(result).endDate == Get(result, "endDate")
    ensures Coerce(result).preferences.Some? <==> Kept(Get(result, "preferences"))
    ensures Coerce(result).preferences.Some? ==> Coerce(result).preferences == Get(result, "preferences")
    ensures Coerce(result).budget.Some? <==> Kept(Get(result, "budget"))
    ensures Coerce(result).budget.Some? ==> Coerce(result).budget.value == ParseInt(ToJsString(Get(result, "budget").value))
    ensures Coerce(result).travelers.Some? <==> Kept(Get(result, "travelers"))
    ensures Coerce(result).travelers.Some? ==> Coerce(result).travelers.value == ParseInt(ToJsString(Get(result, "travelers").value))
  {
  }

  /** Keys other than the six are discarded: results that agree on the six give the same data. */
  lemma OtherKeysIgnored(a: Json, b: Json)
    requires forall key :: key in FieldKeys ==> Get(a, key) == Get(b, key)
    ensures Coerce(a) == Coerce(b)
  {
    assert Get(a, "destination") == Get(b, "destination");
    assert Get(a, "startDate") == Get(b, "startDate");
    assert Get(a, "endDate") == Get(b, "endDate");
    assert Get(a, "budget") == Get(b, "budget");
    assert Get(a, "travelers") == Get(b, "travelers");
    assert Get(a, "preferences") == Get(b, "preferences");
  }

  /** A number comes back as itself; a budget of 0 is dropped; a non-numeric string becomes NaN. */
  lemma BudgetCoercion(n: int)
    ensures Coerce(JObject(map["budget" := JNumber(n)])).budget == if n == 0 then None else Some(Num(n))
    ensures Coerce(JObject(map["budget" := JString("五千")])).budget == Some(NaN)
  {
    var number := JObject(map["budget" := JNumber(n)]);
    assert Coerce(number).budget == KeepNumber(Some(JNumber(n)));
    NumberKept(n);
    var words := JObject(map["budget" := JString("五千")]);
    assert Coerce(words).budget == KeepNumber(Some(JString("五千")));
    WrittenNumberIsNaN();
  }

  lemma NumberKept(n: int)
    ensures KeepNumber(Some(JNumber(n))) == if n == 0 then None else Some(Num(n))
  {
    ParseIntOfNumber(n);
  }

  lemma WrittenNumberIsNaN()
    ensures KeepNumber(Some(JString("五千"))) == Some(NaN)
  {
    assert "五千" != "" && "五千" != "null";
    assert ParseIntOf(JString("五千")) == ParseInt("五千");
    assert SkipSpaces("五千", 0) == 0;
    assert "五千"[0..] == "五千";
    assert LeadingRun("五千", 10) == 0;
  }

  // ---------------------------------------------------------------------
  // The parsing function and the handler
  // ---------------------------------------------------------------------

  /** The body of the `try`: from the service answer to the coerced fields. */
  function ReadReply(reply: ServiceReply, parse: string -> Option<Json>): Result<ParsedTravelData, Fault> {
    if !reply.ok then Failure(ServiceError(reply.statusText))
    else if reply.body.None? then Failure(BodyNotJson)
    else
      match ContentText(reply.body.value)
      case None => Failure(NoContent)
      case Some(text) =>
        match ExtractObject(Clean(text))
        case None => Failure(NoJsonObject)
        case Some(obj) =>
          match parse(obj)
          case None => Failure(NotJson)
          case Some(result) => if result.JNull? then Failure(NullResult) else Success(Coerce(result))
  }

  /**
   * `parseVoiceWithLLM`. The missing-key check sits before the `try`, so its
   * message escapes as it is; every failure inside the `try` is replaced by
   * one generic message.
   */
  function ParseVoiceWithLlm(apiKey: string, reply: ServiceReply, parse: string -> Option<Json>): (r: Result<ParsedTravelData, string>)
    ensures apiKey == "" ==> r == Failure(KeyMissingMessage)
    ensures apiKey != "" ==> (r.Failure? <==> ReadReply(reply, parse).Failure?)
    ensures apiKey != "" && r.Failure? ==> r.error == ParseFailedMessage
    ensures r.Success? ==> r == Success(ReadReply(reply, parse).value)
  {
    if apiKey == "" then Failure(KeyMissingMessage)
    else
      match ReadReply(reply, parse)
      case Success(data) => Success(data)
      case Failure(_) => Failure(ParseFailedMessage)
  }

  /** The six keys of the data, as `JSON.stringify` names them. */
  const FieldKeys: set<string> := {"destination", "startDate", "endDate", "budget", "travelers", "preferences"}

  function NumberField(x: Option<JsNumber>): Option<Json> {
    match x
    case Some(n) => Some(NumberJson(n))
    case None => None
  }

  /** The value written under `key`, if any. */
  function FieldOf(p: ParsedTravelData, key: string): Option<Json> {
    if key == "destination" then p.destination
    else if key == "startDate" then p.startDate
    else if key == "endDate" then p.endDate
    else if key == "budget" then NumberField(p.budget)
    else if key == "travelers" then NumberField(p.travelers)
    else if key == "preferences" then p.preferences
    else None
  }

  /** The JSON the client reads back from the response: undefined fields are absent and NaN arrives as `null`. */
  function ParsedJson(p: ParsedTravelData): (j: Json)
    ensures j.JObject? && j.members.Keys <= FieldKeys
    ensures Get(j, "destination") == p.destination && Get(j, "startDate") == p.startDate
    ensures Get(j, "endDate") == p.endDate && Get(j, "preferences") == p.preferences
    ensures Get(j, "budget") == NumberField(p.budget) && Get(j, "travelers") == NumberField(p.travelers)
  {
    JObject(map key | key in FieldKeys && FieldOf(p, key).Some? :: FieldOf(p, key).value)
  }

  /**
   * `POST`: a request body that is not JSON, a `null` body, a missing or
   * empty transcript, and a failed model call are answered with an error.
   */
  function Post(request: Result<Json, string>, apiKey: string, reply: ServiceReply, parse: string -> Option<Json>): (r: Response)
    ensures r.status == 200 || r.status == 400 || r.status == 500
    ensures r.status == 400 <==> request.Success? && !request.value.JNull? && !IsTruthy(Get(request.value, "transcript"))
    ensures r.status == 200 ==> exists p :: ReadReply(reply, parse) == Success(p) && r.body == ParsedJson(p)
  {
    match request
    case Failure(message) => Response(500, ErrorBody(message))
    case Success(body) =>
      if body.JNull? then Response(500, ErrorBody(NullBodyMessage))
      else if !IsTruthy(Get(body, "transcript")) then Response(400, ErrorBody(NoTranscriptMessage))
      else
        match ParseVoiceWithLlm(apiKey, reply, parse)
        case Success(data) => Response(200, ParsedJson(data))
        case Failure(message) => Response(500, ErrorBody(message))
  }

  /** A missing or empty transcript is answered with 400 whatever the key and the model would have said. */
  lemma NoTranscriptIsRejected(body: Json, apiKey: string, reply: ServiceReply, parse: string -> Option<Json>)
    requires body.JObject? && (Get(body, "transcript") == None || Get(body, "transcript") == Some(JString("")))
    ensures Post(Success(body), apiKey, reply, parse) == Response(400, ErrorBody(NoTranscriptMessage))
  {
  }

  /**
   * Once a transcript is there, every failure of the model call reaches the
   * client as a 500 with the generic message, except a missing key, whose
   * own message is reported.
   */
  lemma FailuresReported(body: Json, apiKey: string, reply: ServiceReply, parse: string -> Option<Json>)
    requires body.JObject? && IsTruthy(Get(body, "transcript"))
    ensures apiKey == "" ==> Post(Success(body), apiKey, reply, parse) == Response(500, ErrorBody(KeyMissingMessage))
    ensures apiKey != "" && ReadReply(reply, parse).Failure?
      ==> Post(Success(body), apiKey, reply, parse) == Response(500, ErrorBody(ParseFailedMessage))
  {
  }

  /** A well-formed reply goes through: the fenced object's fields come back to the client. */
  lemma FencedReplyAccepted(apiKey: string, parse: string -> Option<Json>, obj: string, result: Json)
    requires apiKey != "" && |obj| >= 2 && obj[0] == '{' && obj[|obj| - 1] == '}'
    requires '`' !in obj && '/' !in obj && ',' !in obj
    requires parse(obj) == Some(result) && result.JObject?
    ensures var body := JObject(map["choices" := JArray([JObject(map["message" := JObject(map["content" := JString("```json\n" + obj + "\n```")])])])]);
      ParseVoiceWithLlm(apiKey, ServiceReply(true, "OK", Some(body)), parse) == Success(Coerce(result))
  {
    var text := "```json\n" + obj + "\n```";
    ContentOfChoice(text);
    CleanFencedObject(obj);
  }

  /** Clean-up and extraction give back a fenced object without fences, comments or commas unchanged. */
  lemma CleanFencedObject(obj: string)
    requires |obj| >= 2 && obj[0] == '{' && obj[|obj| - 1] == '}'
    requires '`' !in obj && '/' !in obj && ',' !in obj
    ensures ExtractObject(Clean("```json\n" + obj + "\n```")) == Some(obj)
  {
    var body := obj + "\n";
    assert "```json\n" + obj + "\n```" == "```json" + "\n" + body + "```";
    assert AllSpaces("\n");
    assert '`' !in body && body[0] == '{';
    FencedReplyUnwrapped("\n", body);
    assert '/' !in body && ',' !in body;
    CommentsKeepPlainPrefix(body, []);
    CommaKeepsPlainPrefix(body, [], ']');
    CommaKeepsPlainPrefix(body, [], '}');
    assert body + [] == body;
    assert StripComments([]) == [] && DropCommaBefore([], ']') == [] && DropCommaBefore([], '}') == [];
    assert Trim(body) == obj by { TrimNewline(obj); }
    ExtractWhole(obj);
  }

  lemma TrimNewline(obj: string)
    requires |obj| >= 2 && obj[0] == '{' && obj[|obj| - 1] == '}'
    ensures Trim(obj + "\n") == obj
  {
    var s := obj + "\n";
    var i, j :| 0 <= i <= j <= |s| && Trim(s) == s[i..j] && AllSpaces(s[..i]) && AllSpaces(s[j..]);
    assert s[0] == '{' && s[|obj| - 1] == '}' && s[|obj|] == '\n';
    var head, tail := s[..i], s[j..];
    assert AllSpaces(head) && AllSpaces(tail);
    if j > |obj| {
      var r := s[i..j];
      assert r != [] && r[|r| - 1] == s[|obj|];
    }
    assert s[..|obj|] == obj;
  }

  lemma ExtractWhole(obj: string)
    requires |obj| >= 2 && obj[0] == '{' && obj[|obj| - 1] == '}'
    ensures ExtractObject(obj) == Some(obj)
  {
    OuterBraces(obj, 0, |obj| - 1);
    assert obj[0..|obj|] == obj;
  }
}
