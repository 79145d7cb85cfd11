/**
 * The plan-generation API route: `POST` checks the session and the required
 * fields, asks the language model for a plan, cleans the reply exactly as
 * the voice route does, and saves the plan it parsed. The session, the
 * model's answer, `JSON.parse` and the database insert are parameters.
 */
module PlanRoute {
  import opened Wrappers
  import opened JsText
  import opened JsonValue
  import opened ReplyCleanup
  import opened ChatReply
  import ParseVoiceRoute

  /** What the model service answered: HTTP success, status text, and the raw body text. */
  datatype TextReply = TextReply(ok: bool, statusText: string, text: string)

  /** Why reading the reply failed; each is thrown inside the `try` of the generating function. */
  datatype PlanFault =
    | ServiceError(statusText: string)
    | BodyNotJson
    | NoContent
    | NoJsonObject
    | NotJson

  /** The row handed to the database insert; `None` is an undefined column value. */
  datatype PlanRow = PlanRow(
    userId: string,
    title: Option<Json>,
    destination: Option<Json>,
    startDate: Option<Json>,
    endDate: Option<Json>,
    budget: Option<Json>,
    travelers: Option<Json>,
    preferences: Option<Json>,
    itinerary: Option<Json>)

  datatype Response = Response(status: nat, body: Json)

  const KeyMissingMessage := "OpenAI API key not configured"
  const GenerationFailedMessage := "Failed to generate travel plan with LLM"
  const UnauthorizedMessage := "Unauthorized"
  const MissingFieldsMessage := "Missing required fields"
  /** The TypeError messages for reading a property off `null`. */
  const NullBodyMessage := "Cannot read properties of null (reading 'destination')"
  const NullPlanMessage := "Cannot read properties of null (reading 'title')"

  function ErrorBody(message: string): Json {
    JObject(map["error" := JString(message)])
  }

  /** The body of the `try`: from the service answer to the parsed plan, which is returned as it is. */
  function ReadPlan(reply: TextReply, parse: string -> Option<Json>): Result<Json, PlanFault> {
    if !reply.ok then Failure(ServiceError(reply.statusText))
    else
      match parse(reply.text)
      case None => Failure(BodyNotJson)
      case Some(data) =>
        match ContentText(data)
        case None => Failure(NoContent)
        case Some(text) =>
          match ExtractObject(Clean(text))
          case None => Failure(NoJsonObject)
          case Some(obj) =>
            match parse(obj)
            case None => Failure(NotJson)
            case Some(plan) => Success(plan)
  }

  /** `generatePlanWithLLM`: the key check escapes the `try`; everything inside it fails with one message. */
  function GeneratePlan(apiKey: string, reply: TextReply, parse: string -> Option<Json>): (r: Result<Json, string>)
    ensures apiKey == "" ==> r == Failure(KeyMissingMessage)
    ensures apiKey != "" ==> (r.Failure? <==> ReadPlan(reply, parse).Failure?)
    ensures apiKey != "" && r.Failure? ==> r.error == GenerationFailedMessage
    ensures r.Success? ==> r == Success(ReadPlan(reply, parse).value)
  {
    if apiKey == "" then Failure(KeyMissingMessage)
    else
      match ReadPlan(reply, parse)
      case Success(plan) => Success(plan)
      case Failure(_) => Failure(GenerationFailedMessage)
  }

  /** The request names a destination, both dates, a budget and a party size, all truthy. */
  predicate HasRequiredFields(body: Json) {
    && IsTruthy(Get(body, "destination"))
    && IsTruthy(Get(body, "startDate"))
    && IsTruthy(Get(body, "endDate"))
    && IsTruthy(Get(body, "budget"))
    && IsTruthy(Get(body, "travelers"))
  }

  /** The `createPlan` argument: the user id from the session, every other column from the model's plan. */
  function RowOf(userId: string, plan: Json): PlanRow {
    PlanRow(userId, Get(plan, "title"), Get(plan, "destination"), Get(plan, "startDate"), Get(plan, "endDate"),
      Get(plan, "budget"), Get(plan, "travelers"), Get(plan, "preferences"), Get(plan, "itinerary"))
  }

  /**
   * `POST`. `authError` and `user` are what the session lookup gave; `save`
   * is the insert, answering the stored plan or the message it threw.
   */
  function Post(authError: bool, user: Option<string>, request: Result<Json, string>, apiKey: string,
                reply: TextReply, parse: string -> Option<Json>, save: PlanRow -> Result<Json, string>): (r: Response)
    ensures r.status in {200, 400, 401, 500}
    ensures r.status == 401 <==> authError || user.None?
    ensures r.status == 200 ==> exists plan :: (GeneratePlan(apiKey, reply, parse) == Success(plan)
      && save(RowOf(user.value, plan)) == Success(r.body))
  {
    if authError || user.None? then Response(401, ErrorBody(UnauthorizedMessage))
    else
      match request
      case Failure(message) => Response(500, ErrorBody(message))
      case Success(body) =>
        if body.JNull? then Response(500, ErrorBody(NullBodyMessage))
        else if !HasRequiredFields(body) then Response(400, ErrorBody(MissingFieldsMessage))
        else
          match GeneratePlan(apiKey, reply, parse)
          case Failure(message) => Response(500, ErrorBody(message))
          case Success(plan) =>
            if plan.JNull? then Response(500, ErrorBody(NullPlanMessage))
            else
              match save(RowOf(user.value, plan))
              case Success(saved) => Response(200, saved)
              case Failure(message) => Response(500, ErrorBody(message))
  }

  /** A failed session check answers 401 before the body is read: even an unreadable body gets 401. */
  lemma UnauthorizedFirst(authError: bool, user: Option<string>, request: Result<Json, string>, apiKey: string,
                          reply: TextReply, parse: string -> Option<Json>, save: PlanRow -> Result<Json, string>)
    requires authError || user.None?
    ensures Post(authError, user, request, apiKey, reply, parse, save) == Response(401, ErrorBody(UnauthorizedMessage))
  {
  }

  /** For a signed-in user and an object body, 400 comes back exactly when a required field is falsy. */
  lemma MissingFieldsRejected(user: string, body: Json, apiKey: string,
                              reply: TextReply, parse: string -> Option<Json>, save: PlanRow -> Result<Json, string>)
    requires body.JObject?
    ensures var r := Post(false, Some(user), Success(body), apiKey, reply, parse, save);
      (r.status == 400 <==> !HasRequiredFields(body))
      && (r.status == 400 ==> r.body == ErrorBody(MissingFieldsMessage))
  {
  }

  /** A budget or party size of 0 is as missing as an absent one, while preferences are optional. */
  lemma ZeroCountsAsMissing(m: map<string, Json>)
    requires forall k :: k in m ==> m[k] == JString("x")
    requires "destination" in m && "startDate" in m && "endDate" in m && "budget" in m && "travelers" in m
    ensures HasRequiredFields(JObject(m))
    ensures HasRequiredFields(JObject(m - {"preferences"}))
    ensures !HasRequiredFields(JObject(m["budget" := JNumber(0)]))
    ensures !HasRequiredFields(JObject(m["travelers" := JNumber(0)]))
    ensures !HasRequiredFields(JObject(m["budget" := JNull]))
  {
    assert "destination" != "preferences" && "startDate" != "preferences" && "endDate" != "preferences";
    assert "budget" != "preferences" && "travelers" != "preferences";
  }

  /** Once the request is accepted, every failure inside plan generation reaches the client as one 500 message. */
  lemma GenerationFailureReported(user: string, body: Json, apiKey: string,
                                  reply: TextReply, parse: string -> Option<Json>, save: PlanRow -> Result<Json, string>)
    requires body.JObject? && HasRequiredFields(body) && apiKey != "" && ReadPlan(reply, parse).Failure?
    ensures Post(false, Some(user), Success(body), apiKey, reply, parse, save) == Response(500, ErrorBody(GenerationFailedMessage))
  {
  }

  /** A reply whose body lacks `choices[0].message.content` is an error. */
  lemma MissingContentFails(statusText: string, text: string, parse: string -> Option<Json>, data: Json)
    requires parse(text) == Some(data) && ContentText(data).None?
    ensures ReadPlan(TextReply(true, statusText, text), parse) == Failure(NoContent)
  {
  }

  /** Whatever object the cleaned reply parses to is returned as it is, with no check of its fields. */
  lemma PlanReturnedUnchecked(statusText: string, text: string, parse: string -> Option<Json>,
                              data: Json, content: string, obj: string, plan: Json)
    requires parse(text) == Some(data) && ContentText(data) == Some(content)
    requires ExtractObject(Clean(content)) == Some(obj) && parse(obj) == Some(plan)
    ensures ReadPlan(TextReply(true, statusText, text), parse) == Success(plan)
  {
  }

  /** The saved row carries the session's user id and the plan's fields under their snake_case column names. */
  lemma RowColumns(userId: string, plan: Json)
    ensures RowOf(userId, plan).userId == userId
    ensures RowOf(userId, plan).startDate == Get(plan, "startDate") && RowOf(userId, plan).endDate == Get(plan, "endDate")
    ensures RowOf(userId, plan).itinerary == Get(plan, "itinerary")
    ensures forall other :: RowOf(userId, other) == RowOf(userId, plan) <==>
      (forall k :: k in {"title", "destination", "startDate", "endDate", "budget", "travelers", "preferences", "itinerary"}
        ==> Get(other, k) == Get(plan, k))
  {
  }

  /**
   * Both routes hand the model's reply to the same clean-up and extraction:
   * for the same reply text, the voice route finds no object exactly when
   * the plan route does.
   */
  lemma SameCleanupInBothRoutes(statusText: string, text: string, data: Json, parse: string -> Option<Json>)
    requires parse(text) == Some(data)
    ensures ParseVoiceRoute.ReadReply(ParseVoiceRoute.ServiceReply(true, statusText, Some(data)), parse)
      == Failure(ParseVoiceRoute.NoJsonObject)
      <==> ReadPlan(TextReply(true, statusText, text), parse) == Failure(NoJsonObject)
  {
    var voice := ParseVoiceRoute.ReadReply(ParseVoiceRoute.ServiceReply(true, statusText, Some(data)), parse);
    var plan := ReadPlan(TextReply(true, statusText, text), parse);
    match ContentText(data)
    case None =>
      assert voice == Failure(ParseVoiceRoute.NoContent) && plan == Failure(NoContent);
    case Some(content) =>
      var cut := ExtractObject(Clean(content));
      assert voice == Failure(ParseVoiceRoute.NoJsonObject) <==> cut.None?;
      assert plan == Failure(NoJsonObject) <==> cut.None?;
  }
}
