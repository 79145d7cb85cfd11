/**
 * The planner page's form state: the initial record, the single-field edit
 * the inputs perform, and what a reply from the voice-parsing route does to
 * the form and to the status message. Rendering, recording and submission
 * are not modelled.
 */
module PlannerPage {
  import opened Wrappers
  import opened JsText
  import opened JsonValue
  import ParseVoiceRoute

  datatype Field = Destination | StartDate | EndDate | Budget | Travelers | Preferences

  /** The form record; every field holds the text its input shows. */
  datatype Form = Form(
    destination: string,
    startDate: string,
    endDate: string,
    budget: string,
    travelers: string,
    preferences: string)

  /** The reply property each field is filled from. */
  function Key(f: Field): string {
    match f
    case Destination => "destination"
    case StartDate => "startDate"
    case EndDate => "endDate"
    case Budget => "budget"
    case Travelers => "travelers"
    case Preferences => "preferences"
  }

  function ValueOf(form: Form, f: Field): string {
    match f
    case Destination => form.destination
    case StartDate => form.startDate
    case EndDate => form.endDate
    case Budget => form.budget
    case Travelers => form.travelers
    case Preferences => form.preferences
  }

  /** `{ ...prev, [field]: value }`. */
  function WithValue(form: Form, f: Field, value: string): Form {
    match f
    case Destination => form.(destination := value)
    case StartDate => form.(startDate := value)
    case EndDate => form.(endDate := value)
    case Budget => form.(budget := value)
    case Travelers => form.(travelers := value)
    case Preferences => form.(preferences := value)
  }

  const InitialForm := Form("", "", "", "", "1", "")

  /** `...(v && { field: v })`, the value shown in its string form (`toString()` for the two numbers). */
  function MergeValue(previous: string, v: Option<Json>): string {
    if IsTruthy(v) then ToJsString(v.value) else previous
  }

  /** The update both recognition paths apply to the form when the route answers with success. */
  function Merge(form: Form, data: Json): Form {
    Form(
      MergeValue(form.destination, Get(data, "destination")),
      MergeValue(form.startDate, Get(data, "startDate")),
      MergeValue(form.endDate, Get(data, "endDate")),
      MergeValue(form.budget, Get(data, "budget")),
      MergeValue(form.travelers, Get(data, "travelers")),
      MergeValue(form.preferences, Get(data, "preferences")))
  }

  /** What the page got from the route: no answer at all, or a status and the body `response.json()` read (`None`: not JSON). */
  datatype VoiceReply = Unreachable | Reply(ok: bool, body: Option<Json>)

  const SuccessMessage := "语音识别成功，已自动填充表单"
  const FailurePrefix := "语音解析失败："
  const RetryMessage := "语音解析失败，请重试"

  /** `String(errorData.error)`, `undefined` included. */
  function ErrorText(e: Option<Json>): string {
    match e
    case Some(v) => ToJsString(v)
    case None => "undefined"
  }

  /** The form after a reply: merged on success, unchanged otherwise. */
  function FormAfter(form: Form, reply: VoiceReply): Form {
    match reply
    case Reply(true, Some(data)) => if data.JNull? then form else Merge(form, data)
    case _ => form
  }

  /**
   * The message after a reply. A failed request, an unreadable body and a
   * `null` error body (whose property read throws) end in the catch. A
   * `null` success body is taken down the same path here, although the
   * page's reads of it run later, in the state updater (see README).
   */
  function MessageAfter(reply: VoiceReply): string {
    match reply
    case Unreachable => RetryMessage
    case Reply(_, None) => RetryMessage
    case Reply(ok, Some(data)) =>
      if data.JNull? then RetryMessage
      else if ok then SuccessMessage
      else FailurePrefix + ErrorText(Get(data, "error"))
  }

  /** The message is shown in green exactly when it contains "成功". */
  predicate IsGreen(message: string) {
    Contains(message, "成功")
  }

  class Planner {
    var form: Form
    var message: string

    constructor ()
      ensures form == InitialForm && message == ""
    {
      form := InitialForm;
      message := "";
    }

    /** `handleInputChange(field, value)`. */
    method HandleInputChange(f: Field, value: string)
      modifies this
      ensures form == WithValue(old(form), f, value)
      ensures message == old(message)
    {
      form := WithValue(form, f, value);
    }

    /** The handling of the route's answer, the same in the browser and the iFlytek recognition paths. */
    method ApplyVoiceReply(reply: VoiceReply)
      modifies this
      ensures form == FormAfter(old(form), reply)
      ensures message == MessageAfter(reply)
    {
      match reply
      case Unreachable =>
        message := RetryMessage;
      case Reply(ok, body) =>
        if body.None? || body.value.JNull? {
          message := RetryMessage;
        } else if ok {
          form := Merge(form, body.value);
          message := SuccessMessage;
        } else {
          message := FailurePrefix + ErrorText(Get(body.value, "error"));
        }
    }
  }

  // ---------------------------------------------------------------------
  // Properties
  // ---------------------------------------------------------------------

  /** Every field starts empty except the party size, which starts at "1". */
  lemma InitialValues(f: Field)
    ensures ValueOf(InitialForm, f) == if f == Travelers then "1" else ""
  {
  }

  /** An edit sets its field to the value and leaves every other field as it was. */
  lemma EditSetsOneField(form: Form, f: Field, value: string, g: Field)
    ensures ValueOf(WithValue(form, f, value), g) == if g == f then value else ValueOf(form, g)
  {
  }

  /** Each field is overwritten exactly when the reply's value for it is truthy, and keeps its old text otherwise. */
  lemma MergeByField(form: Form, data: Json, f: Field)
    ensures ValueOf(Merge(form, data), f)
      == if IsTruthy(Get(data, Key(f))) then ToJsString(Get(data, Key(f)).value) else ValueOf(form, f)
  {
  }

  /** Numbers are stored as their decimal text; a budget of 0 leaves the field alone. */
  lemma MergeNumbers(form: Form, n: int, m: int)
    requires n != 0
    ensures Merge(form, JObject(map["budget" := JNumber(n)])).budget == IntToString(n)
    ensures Merge(form, JObject(map["budget" := JNumber(0), "travelers" := JNumber(m)])).budget == form.budget
  {
  }

  /** A NaN budget from the route arrives as `null` and leaves the budget field as it was. */
  lemma NaNBudgetKeepsField(form: Form, p: ParseVoiceRoute.ParsedTravelData)
    requires p.budget == Some(NaN)
    ensures Merge(form, ParseVoiceRoute.ParsedJson(p)).budget == form.budget
    ensures Merge(form, ParseVoiceRoute.ParsedJson(p)).destination
      == if IsTruthy(p.destination) then ToJsString(p.destination.value) else form.destination
  {
  }

  /** A reply that is not a success leaves the form untouched. */
  lemma FailureKeepsForm(form: Form, reply: VoiceReply)
    requires !(reply.Reply? && reply.ok)
    ensures FormAfter(form, reply) == form
  {
  }

  /** The failure message reads green exactly when the route's error text itself contains "成功". */
  lemma FailureColour(e: string)
    ensures IsGreen(FailurePrefix + e) <==> Contains(e, "成功")
  {
    var p := "成功";
    if Contains(e, p) {
      ContainsInContext(FailurePrefix, e, "", p);
      assert FailurePrefix + e + "" == FailurePrefix + e;
    }
    if IsGreen(FailurePrefix + e) {
      var s := FailurePrefix + e;
      var i :| 0 <= i <= |s| && OccursAt(s, p, i);
      PrefixLacksSuccess();
      assert s[i] == s[i..i + 2][0] == '成';
      if i < |FailurePrefix| {
        assert false;
      }
      var k := i - |FailurePrefix|;
      assert s[i] == e[k] && s[i + 1] == e[k + 1];
      assert e[k..k + 2] == p;
      assert OccursAt(e, p, k);
    }
  }

  lemma PrefixLacksSuccess()
    ensures '成' !in FailurePrefix
  {
  }

  /**
   * The success message is green; the retry message and every error the
   * voice route can report are red.
   */
  lemma MessageColours()
    ensures IsGreen(SuccessMessage)
    ensures !IsGreen(RetryMessage)
    ensures !IsGreen(FailurePrefix + ParseVoiceRoute.ParseFailedMessage)
    ensures !IsGreen(FailurePrefix + ParseVoiceRoute.NoTranscriptMessage)
    ensures !IsGreen(FailurePrefix + ParseVoiceRoute.KeyMissingMessage)
  {
    assert OccursAt(SuccessMessage, "成功", 4);
    assert '成' !in RetryMessage;
    AbsentCharRulesOut(RetryMessage, "成功", 0);
    RouteErrorsLackSuccess();
    FailureColour(ParseVoiceRoute.ParseFailedMessage);
    FailureColour(ParseVoiceRoute.NoTranscriptMessage);
    FailureColour(ParseVoiceRoute.KeyMissingMessage);
  }

  lemma RouteErrorsLackSuccess()
    ensures !Contains(ParseVoiceRoute.ParseFailedMessage, "成功")
    ensures !Contains(ParseVoiceRoute.NoTranscriptMessage, "成功")
    ensures !Contains(ParseVoiceRoute.KeyMissingMessage, "成功")
  {
    assert '成' !in ParseVoiceRoute.ParseFailedMessage;
    assert '成' !in ParseVoiceRoute.NoTranscriptMessage;
    assert '成' !in ParseVoiceRoute.KeyMissingMessage;
    AbsentCharRulesOut(ParseVoiceRoute.ParseFailedMessage, "成功", 0);
    AbsentCharRulesOut(ParseVoiceRoute.NoTranscriptMessage, "成功", 0);
    AbsentCharRulesOut(ParseVoiceRoute.KeyMissingMessage, "成功", 0);
  }
}
