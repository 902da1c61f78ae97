/** The analysis route src/app/api/analyze-memo/route.ts: without content the request is refused,
    without an API key a fixed placeholder analysis is returned, otherwise the language-model reply
    is parsed and each of its four fields defaulted. The HTTP call and `JSON.parse` are inputs. */
module AnalyzeMemo {
  import opened Wrappers
  import opened Js

  /** The four fields of an analysis, as returned to the client. */
  datatype Analysis = Analysis(thought: Json, emotions: Json, coreNeeds: Json, summary: Json)

  /** The answer used when no API key is configured. */
  const Placeholder: Analysis := Analysis(
    JStr("(테스트) 이것은 자동생각 분석 결과입니다."),
    JArr([JStr("불안"), JStr("걱정"), JStr("스트레스")]),
    JArr([JStr("안정감"), JStr("인정"), JStr("소속감")]),
    JStr("(테스트) 메모 내용의 요약입니다."))

  /** What the completion endpoint does: throw, answer non-OK (with its JSON body, which may fail
      to read, and its status text), or answer OK with its JSON body. */
  datatype Upstream =
    | FetchThrows(error: Thrown)
    | NotOk(errorBody: Result<Json, Thrown>, statusText: string)
    | Ok(body: Result<Json, Thrown>)

  /** The language-model call's inputs: the endpoint's behaviour and `JSON.parse` (an error where
      it throws). */
  datatype Oracles = Oracles(
    upstream: Upstream,
    parse: string -> Result<Json, Thrown>)

  /** `v || fallback` on a property read that may have thrown. */
  function FieldOr(j: Json, key: string, fallback: Json): Result<Json, Thrown> {
    match Get(j, key)
    case Failure(e) => Failure(e)
    case Success(v) => Success(OrElse(v, fallback))
  }

  /** The normalisation at the end of `analyzeWithOpenAI`: every field is the reply's value when
      truthy and `''` or `[]` otherwise. Only a `null` reply throws. */
  function Normalise(result: Json): (r: Result<Analysis, Thrown>)
    ensures r.Failure? <==> result == JNull
    ensures r.Success? ==>
      r.value.thought == OrElse(Get(result, "thought").value, JStr(""))
      && r.value.emotions == OrElse(Get(result, "emotions").value, JArr([]))
      && r.value.coreNeeds == OrElse(Get(result, "core_needs").value, JArr([]))
      && r.value.summary == OrElse(Get(result, "summary").value, JStr(""))
  {
    if result == JNull then Failure(Get(result, "thought").error)
    else
      Success(Analysis(
        FieldOr(result, "thought", JStr("")).value,
        FieldOr(result, "emotions", JArr([])).value,
        FieldOr(result, "core_needs", JArr([])).value,
        FieldOr(result, "summary", JStr("")).value))
  }

  /** Each normalised field is either a truthy value of the reply or the default. */
  lemma NormaliseFillsDefaults(result: Json)
    requires result != JNull
    ensures var a := Normalise(result).value;
      (Truthy(a.thought) || a.thought == JStr("")) && (Truthy(a.emotions) || a.emotions == JArr([]))
      && (Truthy(a.coreNeeds) || a.coreNeeds == JArr([])) && (Truthy(a.summary) || a.summary == JStr(""))
  {
  }

  /** A reply that has all four fields, with non-empty values, passes through unchanged, and a
      reply without them gets all four defaults. */
  lemma NormaliseKeepsGoodReply(thought: string, emotions: seq<Json>, needs: seq<Json>, summary: string, rest: map<string, Json>)
    requires thought != [] && summary != []
    ensures var reply := JObj(rest["thought" := JStr(thought)]["emotions" := JArr(emotions)]["core_needs" := JArr(needs)]["summary" := JStr(summary)]);
      Normalise(reply) == Success(Analysis(JStr(thought), JArr(emotions), JArr(needs), JStr(summary)))
    ensures Normalise(JObj(map[])) == Success(Analysis(JStr(""), JArr([]), JArr([]), JStr("")))
  {
  }

  /** `errorData.error?.message || response.statusText`, and the message thrown with it. */
  function UpstreamErrorMessage(errorData: Json, statusText: string): (r: Result<string, Thrown>)
    ensures r.Failure? <==> errorData == JNull
    ensures r.Success? ==> |r.value| >= 18 && r.value[..18] == "OpenAI API error: "
  {
    match Get(errorData, "error")
    case Failure(e) => Failure(e)
    case Success(error) =>
      var message: Option<Json> :=
        if error.None? || error.value == JNull then None
        else match Get(error.value, "message") case Success(m) => m case Failure(_) => None;
      var text := if TruthyOpt(message) then JsString(message.value) else statusText;
      Success("OpenAI API error: " + text)
  }

  /** `v[0]`: an array's first element, a string's first character, an object's property `0`, and
      `undefined` on any other value; reading it from `undefined` or `null` throws. */
  function Index0(v: Option<Json>): (r: Result<Option<Json>, Thrown>)
    ensures r.Failure? <==> v.None? || v.value == JNull
    ensures v.Some? && v.value.JArr? ==> r == Success(if v.value.items == [] then None else Some(v.value.items[0]))
  {
    if v.Some? && v.value.JArr? then Success(if |v.value.items| > 0 then Some(v.value.items[0]) else None)
    else if v.Some? && v.value.JStr? then Success(if |v.value.s| > 0 then Some(JStr([v.value.s[0]])) else None)
    else GetOpt(v, "0")
  }

  /** `data.choices[0].message.content`: each step on `undefined` or `null` throws the TypeError
      that names the property being read. */
  function ReplyContent(data: Json): Result<Option<Json>, Thrown> {
    match Get(data, "choices")
    case Failure(e) => Failure(e)
    case Success(choices) =>
      match Index0(choices)
      case Failure(e) => Failure(e)
      case Success(first) =>
        match GetOpt(first, "message")
        case Failure(e) => Failure(e)
        case Success(message) => GetOpt(message, "content")
  }

  /** A well-formed reply yields the content of its first choice's message, `undefined` when that
      message has none. */
  lemma ReplyContentReadsFirstChoice(message: map<string, Json>, others: seq<Json>, rest: map<string, Json>)
    ensures ReplyContent(JObj(rest["choices" := JArr([JObj(map["message" := JObj(message)])] + others)]))
      == Success(if "content" in message then Some(message["content"]) else None)
  {
  }

  /** Each broken step of `data.choices[0].message.content` throws the TypeError that names the
      property being read and what it was read from. */
  lemma ReplyContentTypeErrors()
    ensures ReplyContent(JObj(map[])) == Failure(ErrorObject("Cannot read properties of undefined (reading '0')"))
    ensures ReplyContent(JObj(map["choices" := JNull])) == Failure(ErrorObject("Cannot read properties of null (reading '0')"))
    ensures ReplyContent(JObj(map["choices" := JArr([])]))
      == Failure(ErrorObject("Cannot read properties of undefined (reading 'message')"))
    ensures ReplyContent(JObj(map["choices" := JArr([JObj(map[])])]))
      == Failure(ErrorObject("Cannot read properties of undefined (reading 'content')"))
    ensures ReplyContent(JObj(map["choices" := JArr([JObj(map["message" := JNull])])]))
      == Failure(ErrorObject("Cannot read properties of null (reading 'content')"))
  {
    assert "Cannot read properties of undefined (reading '" + "0" + "')" == "Cannot read properties of undefined (reading '0')";
    assert "Cannot read properties of null (reading '" + "0" + "')" == "Cannot read properties of null (reading '0')";
    assert "Cannot read properties of undefined (reading '" + "message" + "')"
      == "Cannot read properties of undefined (reading 'message')";
    assert "Cannot read properties of undefined (reading '" + "content" + "')"
      == "Cannot read properties of undefined (reading 'content')";
    assert "Cannot read properties of null (reading '" + "content" + "')"
      == "Cannot read properties of null (reading 'content')";
  }

  /** `analyzeWithOpenAI`. */
  function Analyze(o: Oracles): Result<Analysis, Thrown> {
    match o.upstream
    case FetchThrows(e) => Failure(e)
    case NotOk(errorBody, statusText) =>
      if errorBody.Failure? then Failure(errorBody.error)
      else (match UpstreamErrorMessage(errorBody.value, statusText)
        case Failure(e) => Failure(e)
        case Success(m) => Failure(ErrorObject(m)))
    case Ok(body) =>
      if body.Failure? then Failure(body.error)
      else match ReplyContent(body.value)
        case Failure(e) => Failure(e)
        case Success(content) =>
          var text := if content.Some? then JsString(content.value) else "undefined";
          match o.parse(text)
          case Failure(e) => Failure(e)
          case Success(result) => Normalise(result)
  }

  /** A non-OK reply always fails, with `OpenAI API error: ` and then the text of the reply's error
      message when it has one (a string message as it is) and the status text otherwise. */
  lemma NotOkThrowsApiError(errorBody: Json, statusText: string, o: Oracles)
    requires o.upstream == NotOk(Success(errorBody), statusText)
    requires errorBody != JNull
    ensures Analyze(o).Failure? && Analyze(o).error.ErrorObject?
    ensures var m := Analyze(o).error.message;
      |m| >= 18 && m[..18] == "OpenAI API error: "
      && (errorBody.JObj? && "error" in errorBody.fields && errorBody.fields["error"].JObj?
          && "message" in errorBody.fields["error"].fields && Truthy(errorBody.fields["error"].fields["message"])
          ==> m == "OpenAI API error: " + JsString(errorBody.fields["error"].fields["message"]))
      && (errorBody.JObj? && "error" in errorBody.fields && errorBody.fields["error"].JObj?
          && "message" in errorBody.fields["error"].fields && errorBody.fields["error"].fields["message"].JStr?
          && errorBody.fields["error"].fields["message"].s != []
          ==> m == "OpenAI API error: " + errorBody.fields["error"].fields["message"].s)
      && (!errorBody.JObj? || "error" !in errorBody.fields ==> m == "OpenAI API error: " + statusText)
  {
  }

  /** An OK reply whose first choice carries text content hands exactly that text to `JSON.parse`
      and returns the normalised result; a reply without content parses the text `undefined`. */
  lemma OkReplyParsesContent(message: map<string, Json>, rest: map<string, Json>, o: Oracles)
    requires o.upstream == Ok(Success(JObj(rest["choices" := JArr([JObj(map["message" := JObj(message)])])])))
    ensures "content" in message && message["content"].JStr? ==>
      Analyze(o) == match o.parse(message["content"].s) case Failure(e) => Failure(e) case Success(v) => Normalise(v)
    ensures "content" !in message ==>
      Analyze(o) == match o.parse("undefined") case Failure(e) => Failure(e) case Success(v) => Normalise(v)
  {
    ReplyContentReadsFirstChoice(message, [], rest);
    assert [JObj(map["message" := JObj(message)])] + [] == [JObj(map["message" := JObj(message)])];
  }

  /** The responses of POST. */
  datatype AnalyzeResponse =
    | Analyzed(data: Analysis, testMode: bool)   // 200, `success: true`
    | MissingContent                             // 400, `Content is required`
    | AnalysisFailed(message: string)            // 500, `Analysis failed`

  function Status(r: AnalyzeResponse): int {
    match r
    case Analyzed(_, _) => 200
    case MissingContent => 400
    case AnalysisFailed(_) => 500
  }

  /** `error instanceof Error ? error.message : String(error)`. */
  function ThrownText(e: Thrown): string {
    match e
    case ErrorObject(m) => m
    case NonError(t) => t
  }

  /** POST: `body` is what `req.json()` yields and `apiKey` is `OPENAI_API_KEY`. */
  function Post(body: Result<Json, Thrown>, apiKey: Option<string>, o: Oracles): (r: AnalyzeResponse)
    ensures body.Failure? ==> r == AnalysisFailed(ThrownText(body.error))
    ensures r.Analyzed? && r.testMode ==> r.data == Placeholder
  {
    if body.Failure? then AnalysisFailed(ThrownText(body.error))
    else match Destructure(body.value, "content", "body")
      case Failure(e) => AnalysisFailed(ThrownText(e))
      case Success(content) =>
        if !TruthyOpt(content) then MissingContent
        else if apiKey.None? || apiKey.value == [] then Analyzed(Placeholder, true)
        else match Analyze(o)
          case Success(a) => Analyzed(a, false)
          case Failure(e) => AnalysisFailed(ThrownText(e))
  }

  /** A `null` body fails the destructuring of `content` with a 500 naming the variable. */
  lemma NullBodyFails(apiKey: Option<string>, o: Oracles)
    ensures Post(Success(JNull), apiKey, o) == AnalysisFailed("Cannot destructure property 'content' of 'body' as it is null.")
  {
    ContentTextFolds();
  }

  lemma ContentTextFolds()
    ensures "Cannot destructure property '" + "content" + "' of '" + "body" + "' as it is null."
      == "Cannot destructure property 'content' of 'body' as it is null."
  {
  }

  /** Missing content is refused before anything else is looked at, key or upstream. */
  lemma MissingContentFirst(rest: map<string, Json>, apiKey: Option<string>, o: Oracles)
    requires "content" !in rest || !Truthy(rest["content"])
    ensures Post(Success(JObj(rest)), apiKey, o) == MissingContent
  {
  }

  /** With content and no key the placeholder comes back in test mode whatever the upstream would
      do; with a key the answer is the analysis or a 500 carrying the thrown message. */
  lemma KeyDecidesMode(content: Json, rest: map<string, Json>, apiKey: Option<string>, o: Oracles)
    requires Truthy(content)
    ensures var r := Post(Success(JObj(rest["content" := content])), apiKey, o);
      (apiKey.None? || apiKey.value == [] ==> r == Analyzed(Placeholder, true))
      && (apiKey.Some? && apiKey.value != [] ==>
        match Analyze(o)
        case Success(a) => r == Analyzed(a, false)
        case Failure(e) => r == AnalysisFailed(ThrownText(e)) && Status(r) == 500)
  {
  }
}
