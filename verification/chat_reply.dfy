/**
 * The chat-completion body both LLM routes receive, as far as they read it:
 * the reply text at `choices[0].message.content`.
 */
module ChatReply {
  import opened Wrappers
  import opened JsonValue

  /**
   * `data.choices[0]?.message?.content` when it is a non-empty string. Every
   * other shape ends in a throw: an explicit one for a falsy content, a
   * TypeError for a missing `choices` or for a content that has no `replace`.
   */
  function ContentText(data: Json): (r: Option<string>)
    ensures r.Some? ==> r.value != ""
  {
    var choices := Get(data, "choices");
    if choices.None? || choices.value.JNull? then None
    else
      var message := match First(choices.value) case Some(c) => Get(c, "message") case None => None;
      var content := match message case Some(m) => Get(m, "content") case None => None;
      match content
      case Some(JString(text)) => if text != "" then Some(text) else None
      case _ => None
  }

  /** The reply text sits at `choices[0].message.content`. */
  lemma ContentOfChoice(text: string)
    requires text != ""
    ensures ContentText(JObject(map["choices" := JArray([JObject(map["message" := JObject(map["content" := JString(text)])])])])) == Some(text)
  {
  }

  /** Without `choices`, or with an empty or non-string content, there is no reply text. */
  lemma NoContentCases(m: Json)
    ensures ContentText(JObject(map[])) == None
    ensures ContentText(JObject(map["choices" := JArray([])])) == None
    ensures ContentText(JObject(map["choices" := JArray([JObject(map["message" := JObject(map["content" := m])])])])) == None
      <==> !(m.JString? && m.s != "")
  {
  }
}
